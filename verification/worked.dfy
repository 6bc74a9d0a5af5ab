/** Worked amount tokens, in both formats the parsers read. */
module Worked {
  import opened Base
  import opened Text
  import opened Money

  lemma {:induction false} DebitTokenLayout()
    ensures ArgLayout(true, "70833", "71") == "-$ 70.833,71"
  {
    assert Group("70833", '.') == "70.833";
  }

  lemma {:induction false} DebitTokenValue()
    ensures DigitsValue("70833") as real + DigitsValue("71") as real / 100.0 == 70833.71
  {
    assert "70833"[..4] == "7083" && "7083"[..3] == "708" && "708"[..2] == "70" && "70"[..1] == "7";
    assert "71"[..1] == "7";
    assert DigitsValue("70833") == 70833;
    assert DigitsValue("71") == 71;
  }

  /** "-$ 70.833,71" reads as -70833.71. */
  lemma {:induction false} DebitToken()
    ensures CleanMoney("-$ 70.833,71") == Some(-70833.71)
  {
    CleanMoneyLayout(true, "70833", "71");
    DebitTokenLayout();
    DebitTokenValue();
  }

  lemma {:induction false} CreditTokenLayout()
    ensures ArgLayout(false, "1234", "56") == "$ 1.234,56"
  {
    assert Group("1234", '.') == "1.234";
  }

  /** "$ 1.234,56" reads as 1234.56. */
  lemma {:induction false} CreditToken()
    ensures CleanMoney("$ 1.234,56") == Some(1234.56)
  {
    CleanMoneyLayout(false, "1234", "56");
    CreditTokenLayout();
    UsTokenValue();
  }

  lemma {:induction false} BalanceTokenLayout()
    ensures ArgLayout(true, "1234", "00") == "-$ 1.234,00"
  {
    assert Group("1234", '.') == "1.234";
  }

  lemma {:induction false} BalanceTokenValue()
    ensures DigitsValue("1234") as real + DigitsValue("00") as real / 100.0 == 1234.0
  {
    assert "1234"[..3] == "123" && "123"[..2] == "12" && "12"[..1] == "1";
    assert "00"[..1] == "0";
    assert DigitsValue("1234") == 1234;
    assert DigitsValue("00") == 0;
  }

  /** "-$ 1.234,00" reads as -1234. */
  lemma {:induction false} BalanceToken()
    ensures CleanMoney("-$ 1.234,00") == Some(-1234.0)
  {
    assert CleanMoney(ArgLayout(true, "1234", "00")) == Some(-1234.0) by {
      CleanMoneyLayout(true, "1234", "00");
      BalanceTokenValue();
    }
    BalanceTokenLayout();
  }

  lemma {:induction false} UsTokenLayout()
    ensures UsLayout("1234", "56") == "1,234.56"
  {
    assert Group("1234", ',') == "1,234";
  }

  lemma {:induction false} UsTokenValue()
    ensures DigitsValue("1234") as real + DigitsValue("56") as real / 100.0 == 1234.56
  {
    assert "1234"[..3] == "123" && "123"[..2] == "12" && "12"[..1] == "1";
    assert "56"[..1] == "5";
    assert DigitsValue("1234") == 1234;
    assert DigitsValue("56") == 56;
  }

  /** "1,234.56" reads as 1234.56. */
  lemma {:induction false} UsToken()
    ensures UsMoney("1,234.56") == Some(1234.56)
  {
    UsMoneyLayout("1234", "56");
    UsTokenLayout();
    UsTokenValue();
  }
}
