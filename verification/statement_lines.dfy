/** Two concrete statement lines, one per parser, carried through a whole step. */
module StatementLines {
  import opened Base
  import opened Ledger
  import opened Money
  import Text
  import Worked
  import Santander
  import Hsbc

  /** A Santander debit read as -70833.71 whose balance fell from -1000.00 to -1234.00:
      the balance did not rise, so no correction applies, and the debit column negates the
      parsed amount into a recorded +70833.71. */
  lemma {:induction false} FallingDebit(amount: string, saldo: string)
    requires CleanMoney(amount) == Some(-70833.71) && CleanMoney(saldo) == Some(-1234.0)
    ensures var st := Santander.State(Some("04/03/25"), Some(-1000.0), true, false, None);
            var m := Santander.MovementMatch(Some("05/03/25"), "Pago", Santander.Debit, amount, saldo);
            var row := Movement(Some("05/03/25"), "Pago", Some(70833.71), -1234.0);
            Santander.MovementStep(st, m) ==
              Ok(Progress(st.(fechaAnterior := Some("05/03/25"), previousSaldo := Some(-1234.0)), [row]))
  {
    var st := Santander.State(Some("04/03/25"), Some(-1000.0), true, false, None);
    var m := Santander.MovementMatch(Some("05/03/25"), "Pago", Santander.Debit, amount, saldo);
    FallingDebitPlaced(amount, saldo);
    Santander.MovementStepPlaces(st, m);
  }

  /** The row of the falling debit, emitted at once since "Pago" is no transfer header. */
  lemma {:induction false} FallingDebitPlaced(amount: string, saldo: string)
    ensures var st := Santander.State(Some("04/03/25"), Some(-1000.0), true, false, None);
            var m := Santander.MovementMatch(Some("05/03/25"), "Pago", Santander.Debit, amount, saldo);
            var row := Movement(Some("05/03/25"), "Pago", Some(70833.71), -1234.0);
            Santander.Place(st, Santander.MovementRow(st, m, -70833.71, -1234.0)) ==
              Progress(st.(fechaAnterior := Some("05/03/25"), previousSaldo := Some(-1234.0)), [row])
  {
    var st := Santander.State(Some("04/03/25"), Some(-1000.0), true, false, None);
    var m := Santander.MovementMatch(Some("05/03/25"), "Pago", Santander.Debit, amount, saldo);
    var row := Movement(Some("05/03/25"), "Pago", Some(70833.71), -1234.0);
    assert Santander.MovementRow(st, m, -70833.71, -1234.0) == row by {
      Text.StripUnchanged("Pago");
    }
    assert !Santander.IsTransferHeader("Pago");
  }

  /** A Santander debit line: "-$ 70.833,71" with balance "-$ 1.234,00" after -1000.00.
      `_clean_money` reads the amount with its minus sign, and the debit column negates it
      again, so the row records +70833.71. */
  lemma {:induction false} SantanderDebit()
    ensures var st := Santander.State(Some("04/03/25"), Some(-1000.0), true, false, None);
            var m := Santander.MovementMatch(Some("05/03/25"), "Pago", Santander.Debit, "-$ 70.833,71", "-$ 1.234,00");
            var row := Movement(Some("05/03/25"), "Pago", Some(70833.71), -1234.0);
            Santander.MovementStep(st, m) ==
              Ok(Progress(st.(fechaAnterior := Some("05/03/25"), previousSaldo := Some(-1234.0)), [row]))
  {
    Worked.DebitToken();
    Worked.BalanceToken();
    FallingDebit("-$ 70.833,71", "-$ 1.234,00");
  }

  /** An HSBC dated line whose balance reads as 1234.56 after a balance of 1000.00: its
      amount is the change, 234.56, and its date becomes the current one. */
  lemma {:induction false} RisingBalance(saldo: string)
    requires Money.UsMoney(saldo) == Some(1234.56)
    ensures var st := Hsbc.State(Some("01-ENE"), Some(1000.0), true);
            var line := Hsbc.Line(None, Some(Hsbc.Dated("02-ENE", Hsbc.Entry("PAGO", None, None, saldo))), None);
            Hsbc.Step(st, line) ==
              Ok(Progress(Hsbc.State(Some("02-ENE"), Some(1234.56), true),
                          [Movement(Some("02-ENE"), "PAGO", Some(234.56), 1234.56)]))
  {
    assert Money.Round2(1234.56 - 1000.0) == 234.56 by {
      assert Money.IsCents(234.56);
    }
    Text.StripUnchanged("PAGO");
  }

  /** An HSBC dated line with no amount columns: balance "1,234.56" after 1000.00 gives
      the amount 234.56. */
  lemma {:induction false} HsbcDelta()
    ensures var st := Hsbc.State(Some("01-ENE"), Some(1000.0), true);
            var line := Hsbc.Line(None, Some(Hsbc.Dated("02-ENE", Hsbc.Entry("PAGO", None, None, "1,234.56"))), None);
            Hsbc.Step(st, line) ==
              Ok(Progress(Hsbc.State(Some("02-ENE"), Some(1234.56), true),
                          [Movement(Some("02-ENE"), "PAGO", Some(234.56), 1234.56)]))
  {
    Worked.UsToken();
    RisingBalance("1,234.56");
  }
}
