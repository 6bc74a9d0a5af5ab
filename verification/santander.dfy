/** The Santander statement parser (`parse_pdf_to_movimientos`): a state machine
    folded over the statement's lines.

    Each line arrives already classified: what the opening-balance pattern, the
    movement pattern and the transfer-detail pattern would capture from it. The
    step applies the source's priority order and state guards to those captures. */
module Santander {
  import opened Base
  import opened Text
  import opened Money
  import opened Ledger

  /** Which amount column of the movement pattern held the amount. */
  datatype Side = Debit | Credit

  /** The captures of the movement pattern on one line: optional date, the
      movement text, the amount token and the column it came from, the balance token. */
  datatype MovementMatch = MovementMatch(fecha: Option<string>, movimiento: string, side: Side, amount: string, saldo: string)

  /** One statement line: its text, the opening-balance capture (if the pattern
      occurs in it), the movement captures (if the line is a movement line) and
      whether it has the shape of a transfer-detail line. */
  datatype Line = Line(text: string, saldoInicial: Option<string>, movimiento: Option<MovementMatch>, transferencia: bool)

  /** The loop's variables. `fechaAnterior` is the last explicit date seen;
      `fecha_actual` is always equal to it when a row is built, so it needs no field. */
  datatype State = State(
    fechaAnterior: Option<string>,
    previousSaldo: Option<real>,
    registrado: bool,
    rowTransferencia: bool,
    currentRow: Option<Movement>)

  const Init := State(None, None, false, false, None)

  const OpeningTag := "Saldo Inicial"

  /** The reference of a transfer header, compared after lower-casing. */
  predicate IsTransferHeader(referencia: string) {
    var l := AsciiLower(referencia);
    l == "transferencia recibida" || l == "transferencia realizada"
  }

  /** A debit amount is negated; a credit amount keeps the sign it was parsed with. */
  function ColumnSign(side: Side, x: real): (r: real)
    ensures r == x || r == -x
    ensures x != 0.0 ==> (r == x <==> side.Credit?)
  {
    if side == Debit then -1.0 * x else x
  }

  /** The integrity correction: the sign flips when the balance rose since the last one. */
  function BalanceCorrection(importe: real, previous: Option<real>, saldo: real): (r: real)
    ensures r == importe || r == -importe
    ensures importe != 0.0 ==> (r == -importe <==> previous.Some? && saldo > previous.value)
  {
    if previous.Some? && saldo - previous.value > 0.0 then -importe else importe
  }

  /** The reachable states: a pending transfer has its header row and a previous
      balance, and a registered opening balance is a previous balance. */
  predicate Valid(st: State) {
    && (st.rowTransferencia ==> st.currentRow.Some? && st.previousSaldo.Some?)
    && (st.registrado ==> st.previousSaldo.Some?)
    && (st.currentRow.Some? ==> !IsSentinel(st.currentRow.value))
  }

  /** The "Saldo Inicial" line: the opening-balance row, whose balance becomes the
      previous one; a balance token `float()` rejects raises. */
  function Opening(st: State, token: string): (r: Result<Progress<State>>)
    ensures r.Ok? <==> CleanMoney(token).Some?
    ensures r.Err? ==> r.error == MalformedAmount(token)
    ensures r.Ok? ==> r.value.rows == [Sentinel(OpeningTag, CleanMoney(token).value)]
    ensures r.Ok? ==> r.value.state == st.(previousSaldo := Some(CleanMoney(token).value), registrado := true)
  {
    var v :- Need(CleanMoney(token), token);
    Ok(Progress(st.(previousSaldo := Some(v), registrado := true), [Sentinel(OpeningTag, v)]))
  }

  /** A movement line: emitted at once, or held back when it is a transfer header. */
  function MovementStep(st: State, m: MovementMatch): (r: Result<Progress<State>>)
    ensures r.Ok? <==> CleanMoney(m.amount).Some? && CleanMoney(m.saldo).Some?
    ensures r.Err? ==> r.error.MalformedAmount?
    ensures r.Ok? ==> r.value.state.previousSaldo == Some(CleanMoney(m.saldo).value)
    ensures r.Ok? ==> r.value.state.registrado == st.registrado
    ensures r.Ok? ==> SentinelCount(r.value.rows) == 0
    ensures r.Ok? ==> (|r.value.rows| == 0 <==> IsTransferHeader(Strip(m.movimiento)))
    ensures r.Ok? ==> Valid(st) ==> Valid(r.value.state)
  {
    var parsed :- Need(CleanMoney(m.amount), m.amount);
    var saldo :- Need(CleanMoney(m.saldo), m.saldo);
    Ok(Place(st, MovementRow(st, m, parsed, saldo)))
  }

  /** The row a movement line describes once both of its tokens have parsed: the
      explicit date or the inherited one, the stripped text, the corrected amount. */
  function MovementRow(st: State, m: MovementMatch, parsed: real, saldo: real): (r: Movement)
    ensures r.fecha == (if Truthy(m.fecha) then m.fecha else st.fechaAnterior)
    ensures r.referencia == Strip(m.movimiento) && r.saldo == saldo
    ensures var rose := st.previousSaldo.Some? && saldo > st.previousSaldo.value;
            r.importe == Some(if rose == (m.side == Debit) then parsed else -parsed)
  {
    Movement(if Truthy(m.fecha) then m.fecha else st.fechaAnterior,
             Strip(m.movimiento),
             Some(BalanceCorrection(ColumnSign(m.side, parsed), st.previousSaldo, saldo)),
             saldo)
  }

  /** Emits a movement row, or holds it back when it is a transfer header; either way
      its date and balance become the current ones. */
  function Place(st: State, row: Movement): (r: Progress<State>)
    ensures Built(r) == Some(row)
    ensures r.state.fechaAnterior == row.fecha && r.state.previousSaldo == Some(row.saldo)
    ensures r.state.registrado == st.registrado
    ensures |r.rows| == 0 <==> IsTransferHeader(row.referencia)
    ensures |r.rows| == 0 ==> r.state.rowTransferencia && r.state.currentRow == Some(row)
    ensures |r.rows| > 0 ==> r.rows == [row] && !r.state.rowTransferencia && r.state.currentRow.None?
  {
    var next := st.(fechaAnterior := row.fecha, previousSaldo := Some(row.saldo));
    if IsTransferHeader(row.referencia) then
      Progress(next.(rowTransferencia := true, currentRow := Some(row)), [])
    else
      Progress(next.(rowTransferencia := false, currentRow := None), [row])
  }

  /** The row a movement line built, whether emitted or held back as a transfer header. */
  function Built(p: Progress<State>): Option<Movement> {
    if |p.rows| > 0 then Some(p.rows[0]) else p.state.currentRow
  }

  /** A transfer-detail line: completes the pending header, if there is one. */
  function DetailStep(st: State, text: string): (r: Progress<State>)
    ensures |r.rows| == (if st.rowTransferencia && st.previousSaldo.Some? && st.currentRow.Some? then 1 else 0)
    ensures |r.rows| == 0 ==> r.state == st
    ensures |r.rows| == 1 ==> r.state == st.(rowTransferencia := false)
  {
    if st.rowTransferencia && st.previousSaldo.Some? && st.currentRow.Some? then
      var cur := st.currentRow.value;
      Progress(st.(rowTransferencia := false),
               [Movement(cur.fecha, cur.referencia + " - " + Strip(text), cur.importe, cur.saldo)])
    else Progress(st, [])
  }

  /** One iteration of the loop over the statement's lines. */
  function Step(st: State, line: Line): (r: Result<Progress<State>>)
    ensures r.Ok? ==> |r.value.rows| <= 1
    ensures r.Err? ==> r.error.MalformedAmount?
    ensures r.Ok? ==> r.value.state.registrado == (st.registrado || line.saldoInicial.Some?)
    ensures r.Ok? && Valid(st) ==>
              SentinelCount(r.value.rows) == (if !st.registrado && line.saldoInicial.Some? then 1 else 0)
    ensures r.Ok? && Valid(st) ==> Valid(r.value.state)
    ensures !st.registrado && line.saldoInicial.Some? ==>
              var token := line.saldoInicial.value;
              && (r.Ok? <==> CleanMoney(token).Some?)
              && (r.Err? ==> r.error == MalformedAmount(token))
              && (r.Ok? ==> r.value.rows == [Sentinel(OpeningTag, CleanMoney(token).value)]
                            && r.value.state == st.(previousSaldo := Some(CleanMoney(token).value), registrado := true))
  {
    if !st.registrado && line.saldoInicial.Some? then
      Opening(st, line.saldoInicial.value)
    else if line.movimiento.Some? then
      MovementStep(st, line.movimiento.value)
    else if line.transferencia then
      Ok(DetailStep(st, line.text))
    else
      Ok(Progress(st, []))
  }

  /** The loop over a sequence of lines, from state `st`: the rows emitted, in order. */
  function Run(st: State, lines: seq<Line>): (r: Result<Progress<State>>)
    ensures r.Err? ==> r.error.MalformedAmount?
    ensures r.Ok? ==> |r.value.rows| <= |lines|
    decreases |lines|
  {
    if |lines| == 0 then Ok(Progress(st, []))
    else
      var before :- Run(st, lines[..|lines| - 1]);
      Advance(before, lines[|lines| - 1])
  }

  /** One more step after `p`: its rows appended to those already emitted. */
  function Advance(p: Progress<State>, line: Line): Result<Progress<State>> {
    var next :- Step(p.state, line);
    Ok(Progress(next.state, p.rows + next.rows))
  }

  /** `parse_pdf_to_movimientos` on the classified lines of a statement. */
  function Parse(lines: seq<Line>): (r: Result<seq<Movement>>)
    ensures r.Err? ==> r.error.MalformedAmount?
    ensures r.Ok? ==> SentinelCount(r.value) == (if HasOpening(lines) then 1 else 0)
  {
    RunInvariant(Init, lines);
    var p :- Run(Init, lines);
    Ok(p.rows)
  }

  /** Some line of `lines` holds the opening-balance pattern. */
  predicate HasOpening(lines: seq<Line>) {
    exists i :: 0 <= i < |lines| && lines[i].saldoInicial.Some?
  }

  /** Continues a run with more lines. */
  function Then(r: Result<Progress<State>>, more: seq<Line>): Result<Progress<State>> {
    var p :- r;
    var q :- Run(p.state, more);
    Ok(Progress(q.state, p.rows + q.rows))
  }

  /** Running over `a + b` is running over `a`, then over `b` from where `a` left off. */
  lemma {:induction false} RunAppend(st: State, a: seq<Line>, b: seq<Line>)
    ensures Run(st, a + b) == Then(Run(st, a), b)
    decreases |b|
  {
    if |b| == 0 {
      assert a + b == a;
      if Run(st, a).Ok? {
        assert Run(st, a).value.rows + [] == Run(st, a).value.rows;
      }
    } else {
      var b0, l := b[..|b| - 1], b[|b| - 1];
      assert (a + b)[..|a + b| - 1] == a + b0;
      assert (a + b)[|a + b| - 1] == l;
      RunAppend(st, a, b0);
      if Run(st, a).Ok? && Run(Run(st, a).value.state, b0).Ok? {
        AdvanceAfter(Run(st, a).value.rows, Run(Run(st, a).value.state, b0).value, l);
      }
    }
  }

  /** Rows emitted earlier only sit in front of what a step appends. */
  lemma {:induction false} AdvanceAfter(done: seq<Movement>, q: Progress<State>, l: Line)
    ensures Advance(Progress(q.state, done + q.rows), l) ==
            (var r :- Advance(q, l); Ok(Progress(r.state, done + r.rows)))
  {
    if Step(q.state, l).Ok? {
      var n := Step(q.state, l).value;
      assert done + (q.rows + n.rows) == (done + q.rows) + n.rows;
    }
  }

  /** What every run from a reachable state keeps and produces: reachable states, only
      amount errors, at most one row per line, and exactly one opening-balance row when
      the opening balance was not yet registered and some line holds it. */
  lemma {:induction false} RunInvariant(st: State, lines: seq<Line>)
    requires Valid(st)
    ensures Run(st, lines).Err? ==> Run(st, lines).error.MalformedAmount?
    ensures Run(st, lines).Ok? ==> Valid(Run(st, lines).value.state)
    ensures Run(st, lines).Ok? ==> |Run(st, lines).value.rows| <= |lines|
    ensures Run(st, lines).Ok? ==>
              Run(st, lines).value.state.registrado == (st.registrado || HasOpening(lines))
    ensures Run(st, lines).Ok? ==>
              SentinelCount(Run(st, lines).value.rows) == (if !st.registrado && HasOpening(lines) then 1 else 0)
    decreases |lines|
  {
    if |lines| > 0 {
      var init := lines[..|lines| - 1];
      var line := lines[|lines| - 1];
      RunInvariant(st, init);
      assert HasOpening(lines) <==> HasOpening(init) || line.saldoInicial.Some? by {
        if HasOpening(lines) {
          var i :| 0 <= i < |lines| && lines[i].saldoInicial.Some?;
          if i < |lines| - 1 {
            assert init[i] == lines[i];
          }
        }
        if HasOpening(init) {
          var i :| 0 <= i < |init| && init[i].saldoInicial.Some?;
          assert lines[i] == init[i];
        }
      }
      match Run(st, init)
      case Err(_) =>
      case Ok(p) =>
        match Step(p.state, line)
        case Err(_) =>
        case Ok(q) =>
          SentinelCountAppend(p.rows, q.rows);
    }
  }

  /** A parsed statement holds one "Saldo Inicial" row when some line holds the opening
      balance, and none otherwise; it never holds more rows than lines. */
  lemma {:induction false} ParseSentinels(lines: seq<Line>)
    requires Parse(lines).Ok?
    ensures SentinelCount(Parse(lines).value) == (if HasOpening(lines) then 1 else 0)
    ensures |Parse(lines).value| <= |lines|
  {
    RunInvariant(Init, lines);
  }

  /** Once the opening balance is registered, its pattern on a line changes nothing:
      the line goes on to the movement and transfer-detail patterns. */
  lemma {:induction false} OpeningIgnoredOnceRegistered(st: State, line: Line)
    requires st.registrado
    ensures Step(st, line) == Step(st, line.(saldoInicial := None))
  {
  }

  /** A movement line whose tokens both parse is placed with the row it describes. */
  lemma {:induction false} MovementStepPlaces(st: State, m: MovementMatch)
    requires CleanMoney(m.amount).Some? && CleanMoney(m.saldo).Some?
    ensures MovementStep(st, m) ==
            Ok(Place(st, MovementRow(st, m, CleanMoney(m.amount).value, CleanMoney(m.saldo).value)))
  {
  }

  /** The row a movement line builds, whether emitted or held as a transfer header: the
      explicit date or the inherited one, the stripped movement text, the parsed amount
      kept or negated by the column and the balance check, and the parsed balance. */
  lemma {:induction false} MovementStepOk(st: State, m: MovementMatch)
    requires CleanMoney(m.amount).Some? && CleanMoney(m.saldo).Some?
    ensures MovementStep(st, m).Ok?
    ensures var row := Built(MovementStep(st, m).value).value;
            var x, saldo := CleanMoney(m.amount).value, CleanMoney(m.saldo).value;
            var rose := st.previousSaldo.Some? && saldo > st.previousSaldo.value;
            && row.fecha == (if Truthy(m.fecha) then m.fecha else st.fechaAnterior)
            && row.referencia == Strip(m.movimiento)
            && row.importe == Some(if rose == (m.side == Debit) then x else -x)
            && row.saldo == saldo
  {
    MovementStepPlaces(st, m);
  }

  /** The amount's sign: the parsed value is kept or negated, and it is negated exactly
      when the column is a debit and the balance did not rise, or the column is a credit
      and it did. */
  lemma {:induction false} RowAmount(st: State, m: MovementMatch, x: real, saldo: real)
    ensures var rose := st.previousSaldo.Some? && saldo > st.previousSaldo.value;
            MovementRow(st, m, x, saldo).importe == Some(if rose == (m.side == Debit) then x else -x)
  {
  }

  /** The balance check does what it is for on debits: when the debit column holds the
      size of the change in balance, the amount is that change, with its sign. Without
      a previous balance a debit is simply negated. */
  lemma {:induction false} DebitReconciles(st: State, m: MovementMatch, x: real, saldo: real)
    requires m.side == Debit && x >= 0.0
    ensures st.previousSaldo.Some? && (x == saldo - st.previousSaldo.value || x == st.previousSaldo.value - saldo) ==>
              MovementRow(st, m, x, saldo).importe == Some(saldo - st.previousSaldo.value)
    ensures st.previousSaldo.None? ==> MovementRow(st, m, x, saldo).importe == Some(-x)
  {
  }

  /** On the credit column the same check works against the balance: whatever the
      direction of the change, the amount has the opposite sign. */
  lemma {:induction false} CreditOpposes(st: State, m: MovementMatch, x: real, saldo: real)
    requires m.side == Credit && x >= 0.0
    requires st.previousSaldo.Some? && (x == saldo - st.previousSaldo.value || x == st.previousSaldo.value - saldo)
    ensures MovementRow(st, m, x, saldo).importe == Some(st.previousSaldo.value - saldo)
  {
  }

  /** Whether a line of `lines` (run from `st`) registers the opening balance. */
  predicate OpensAt(st: State, lines: seq<Line>, i: nat)
    requires i < |lines|
  {
    !(st.registrado || HasOpening(lines[..i])) && lines[i].saldoInicial.Some?
  }

  /** The last explicit date of a movement line in `lines`, or the one `st` already
      had: the reference for the date the loop carries forward. */
  function LastDate(st: State, lines: seq<Line>): Option<string>
    decreases |lines|
  {
    if |lines| == 0 then st.fechaAnterior
    else
      var l := lines[|lines| - 1];
      if !OpensAt(st, lines, |lines| - 1) && l.movimiento.Some? && Truthy(l.movimiento.value.fecha)
      then l.movimiento.value.fecha
      else LastDate(st, lines[..|lines| - 1])
  }

  /** The date carried forward is the last explicit one; a movement line without a date
      gets it, and one with a date sets it. */
  lemma {:induction false} RunDate(st: State, lines: seq<Line>)
    requires Run(st, lines).Ok?
    ensures Run(st, lines).value.state.fechaAnterior == LastDate(st, lines)
    ensures Run(st, lines).value.state.registrado == (st.registrado || HasOpening(lines))
    decreases |lines|
  {
    if |lines| > 0 {
      var init, l := lines[..|lines| - 1], lines[|lines| - 1];
      assert lines == init + [l];
      RunSnoc(st, init, l);
      RunDate(st, init);
      HasOpeningSnoc(init, l);
      StepDate(Run(st, init).value.state, l);
    }
  }

  /** One step keeps the date unless a movement line brings an explicit one. */
  lemma {:induction false} StepDate(st: State, l: Line)
    requires Step(st, l).Ok?
    ensures var opens := !st.registrado && l.saldoInicial.Some?;
            Step(st, l).value.state.fechaAnterior ==
              if !opens && l.movimiento.Some? && Truthy(l.movimiento.value.fecha)
              then l.movimiento.value.fecha else st.fechaAnterior
  {
    if !(!st.registrado && l.saldoInicial.Some?) && l.movimiento.Some? {
      MovementStepPlaces(st, l.movimiento.value);
    }
  }

  lemma {:induction false} HasOpeningSnoc(init: seq<Line>, l: Line)
    ensures HasOpening(init + [l]) <==> HasOpening(init) || l.saldoInicial.Some?
    ensures (init + [l])[..|init|] == init
  {
    var lines := init + [l];
    assert lines[..|init|] == init;
    assert lines[|init|] == l;
    if HasOpening(lines) {
      var i :| 0 <= i < |lines| && lines[i].saldoInicial.Some?;
      if i < |init| {
        assert init[i] == lines[i];
      }
    }
    if HasOpening(init) {
      var i :| 0 <= i < |init| && init[i].saldoInicial.Some?;
      assert lines[i] == init[i];
    }
  }

  /** A transfer header is held back, not emitted. */
  lemma {:induction false} HeaderHeld(st: State, line: Line)
    requires st.registrado || line.saldoInicial.None?
    requires line.movimiento.Some? && IsTransferHeader(Strip(line.movimiento.value.movimiento))
    requires Step(st, line).Ok?
    ensures Step(st, line).value.rows == []
    ensures Step(st, line).value.state.rowTransferencia
    ensures Step(st, line).value.state.currentRow.Some?
  {
  }

  /** A line the step treats as a transfer detail: no opening balance to register and no
      movement captures, but the detail shape. */
  predicate IsDetail(st: State, line: Line) {
    (st.registrado || line.saldoInicial.None?) && line.movimiento.None? && line.transferencia
  }

  /** A detail line after a header emits exactly one row: the held header row with the
      detail's text appended after " - "; the header is then no longer pending. */
  lemma {:induction false} DetailMerges(st: State, d: Line)
    requires Valid(st) && st.rowTransferencia && IsDetail(st, d)
    ensures var held := st.currentRow.value;
            Step(st, d) ==
              Ok(Progress(st.(rowTransferencia := false),
                          [held.(referencia := held.referencia + " - " + Strip(d.text))]))
  {
  }

  /** A detail line with no pending header is ignored. */
  lemma {:induction false} DetailWithoutHeader(st: State, d: Line)
    requires Valid(st) && !st.rowTransferencia && IsDetail(st, d)
    ensures Step(st, d) == Ok(Progress(st, []))
  {
  }

  /** A header followed by two detail lines: the header emits nothing, the first detail
      line emits the merged row and the second adds nothing. */
  lemma {:induction false} TransferMerged(st: State, h: Line, d: Line, d2: Line)
    requires Valid(st)
    requires st.registrado || h.saldoInicial.None?
    requires h.movimiento.Some? && IsTransferHeader(Strip(h.movimiento.value.movimiento))
    requires Step(st, h).Ok?
    requires IsDetail(Step(st, h).value.state, d) && IsDetail(Step(st, h).value.state, d2)
    ensures var s1 := Step(st, h).value.state;
            var held := s1.currentRow.value;
            var s2 := s1.(rowTransferencia := false);
            && Step(st, h).value.rows == []
            && Step(s1, d) == Ok(Progress(s2, [held.(referencia := held.referencia + " - " + Strip(d.text))]))
            && Step(s2, d2) == Ok(Progress(s2, []))
  {
    var s1 := Step(st, h).value.state;
    HeaderHeld(st, h);
    DetailMerges(s1, d);
    DetailWithoutHeader(s1.(rowTransferencia := false), d2);
  }

  /** One more line: the run so far, then one step. */
  lemma {:induction false} RunSnoc(st: State, lines: seq<Line>, l: Line)
    ensures Run(st, lines + [l]) == (var p :- Run(st, lines); Advance(p, l))
  {
    assert (lines + [l])[..|lines|] == lines;
  }

  /** A transfer header on the last line is lost: the output is what it was without it. */
  lemma {:induction false} HeaderAtEndLost(st: State, lines: seq<Line>, h: Line)
    requires h.saldoInicial.None?
    requires h.movimiento.Some? && IsTransferHeader(Strip(h.movimiento.value.movimiento))
    requires Run(st, lines + [h]).Ok?
    ensures Run(st, lines).Ok? && Run(st, lines + [h]).value.rows == Run(st, lines).value.rows
  {
    assert (lines + [h])[..|lines|] == lines;
    HeaderHeld(Run(st, lines).value.state, h);
  }

  /** The loop's state with no transfer pending. */
  function Settled(st: State): (r: State)
    ensures !r.rowTransferencia && r.currentRow.None?
    ensures r.(rowTransferencia := st.rowTransferencia, currentRow := st.currentRow) == st
  {
    st.(rowTransferencia := false, currentRow := None)
  }

  /** A line without the transfer-detail shape does not look at the pending transfer:
      from two states that differ only in it, the line fails alike, or emits the same rows
      and leaves states that again differ only in it. */
  lemma {:induction false} StepIgnoresPending(a: State, b: State, l: Line)
    requires Settled(a) == Settled(b) && !l.transferencia
    ensures Step(a, l).Ok? <==> Step(b, l).Ok?
    ensures Step(a, l).Err? ==> Step(a, l) == Step(b, l)
    ensures Step(a, l).Ok? ==>
              && Step(a, l).value.rows == Step(b, l).value.rows
              && Settled(Step(a, l).value.state) == Settled(Step(b, l).value.state)
  {
    if !(!a.registrado && l.saldoInicial.Some?) && l.movimiento.Some? {
      var m := l.movimiento.value;
      if CleanMoney(m.amount).Some? && CleanMoney(m.saldo).Some? {
        MovementStepPlaces(a, m);
        MovementStepPlaces(b, m);
        assert MovementRow(a, m, CleanMoney(m.amount).value, CleanMoney(m.saldo).value)
            == MovementRow(b, m, CleanMoney(m.amount).value, CleanMoney(m.saldo).value);
      }
    }
  }

  /** Over lines without the transfer-detail shape, a pending transfer changes nothing
      that is emitted. */
  lemma {:induction false} RunIgnoresPending(a: State, b: State, lines: seq<Line>)
    requires Settled(a) == Settled(b)
    requires forall j :: 0 <= j < |lines| ==> !lines[j].transferencia
    ensures Run(a, lines).Ok? <==> Run(b, lines).Ok?
    ensures Run(a, lines).Err? ==> Run(a, lines) == Run(b, lines)
    ensures Run(a, lines).Ok? ==>
              && Run(a, lines).value.rows == Run(b, lines).value.rows
              && Settled(Run(a, lines).value.state) == Settled(Run(b, lines).value.state)
    decreases |lines|
  {
    if |lines| > 0 {
      var init, l := lines[..|lines| - 1], lines[|lines| - 1];
      assert forall j :: 0 <= j < |init| ==> init[j] == lines[j];
      RunIgnoresPending(a, b, init);
      if Run(a, init).Ok? {
        StepIgnoresPending(Run(a, init).value.state, Run(b, init).value.state, l);
      }
    }
  }

  /** A transfer header is lost unless a transfer-detail line follows it: when none of the
      later lines has the detail shape, the output is the rows before the header followed
      by the rows the later lines emit with nothing pending. The header still sets the
      date and the previous balance. */
  lemma {:induction false} HeaderNeverMerged(st: State, pre: seq<Line>, h: Line, rest: seq<Line>)
    requires h.saldoInicial.None?
    requires h.movimiento.Some? && IsTransferHeader(Strip(h.movimiento.value.movimiento))
    requires forall j :: 0 <= j < |rest| ==> !rest[j].transferencia
    requires Run(st, pre + [h] + rest).Ok?
    ensures Run(st, pre).Ok? && Step(Run(st, pre).value.state, h).Ok?
    ensures var s1 := Step(Run(st, pre).value.state, h).value.state;
            && Run(Settled(s1), rest).Ok?
            && Run(st, pre + [h] + rest).value.rows == Run(st, pre).value.rows + Run(Settled(s1), rest).value.rows
  {
    RunAppend(st, pre + [h], rest);
    assert (pre + [h])[..|pre|] == pre;
    var p := Run(st, pre).value;
    HeaderHeld(p.state, h);
    var s1 := Step(p.state, h).value.state;
    assert Run(st, pre + [h]) == Ok(Progress(s1, p.rows + []));
    assert p.rows + [] == p.rows;
    RunIgnoresPending(s1, Settled(s1), rest);
  }

  /** With no previous balance there is nothing to correct against: a debit amount is
      recorded negated, so a debit token printed with its own minus sign, such as
      "-$ 70.833,71", is recorded as a positive amount. */
  lemma {:induction false} DebitWithoutPrevious(st: State, m: MovementMatch)
    requires st.previousSaldo.None? && m.side == Debit
    requires CleanMoney(m.amount).Some? && CleanMoney(m.saldo).Some?
    ensures MovementStep(st, m).Ok?
    ensures Built(MovementStep(st, m).value).value.importe == Some(-CleanMoney(m.amount).value)
    ensures CleanMoney(m.amount).value < 0.0 ==> Built(MovementStep(st, m).value).value.importe.value > 0.0
  {
    MovementStepPlaces(st, m);
    RowAmount(st, m, CleanMoney(m.amount).value, CleanMoney(m.saldo).value);
  }

  /** A statement whose first line is an ordinary movement line parses to rows whose first
      row is that movement, not the "Saldo Inicial" row: the opening-balance pattern is
      searched for on every line until it is found, so it need not come first. */
  lemma {:induction false} MovementFirst(lines: seq<Line>)
    requires |lines| > 0 && lines[0].saldoInicial.None? && lines[0].movimiento.Some?
    requires !IsTransferHeader(Strip(lines[0].movimiento.value.movimiento))
    requires Parse(lines).Ok?
    ensures |Parse(lines).value| > 0 && !IsSentinel(Parse(lines).value[0])
  {
    var l, rest := lines[0], lines[1..];
    var first := Run(Init, [l]);
    assert Run(Init, lines) == Then(first, rest) by {
      assert lines == [l] + rest;
      RunAppend(Init, [l], rest);
    }
    assert first.Ok? && |first.value.rows| > 0 && !IsSentinel(first.value.rows[0]) by {
      ThenKeepsHead(first, rest);
      OrdinaryFirst(l);
    }
    ThenKeepsHead(first, rest);
  }

  /** An ordinary movement line read first emits a row that is not an opening-balance row. */
  lemma {:induction false} OrdinaryFirst(l: Line)
    requires l.saldoInicial.None? && l.movimiento.Some?
    requires !IsTransferHeader(Strip(l.movimiento.value.movimiento))
    requires Run(Init, [l]).Ok?
    ensures var rows := Run(Init, [l]).value.rows; |rows| > 0 && !IsSentinel(rows[0])
  {
    assert Run(Init, [l]) == Advance(Progress(Init, []), l) by {
      assert [l][..0] == [];
    }
    var m := l.movimiento.value;
    assert Step(Init, l) == MovementStep(Init, m);
    OrdinaryMovement(Init, m);
    assert Advance(Progress(Init, []), l).value.rows == [] + MovementStep(Init, m).value.rows;
  }

  /** An ordinary movement line, one that is not a transfer header, emits a row at once,
      and that row is not an opening-balance row. */
  lemma {:induction false} OrdinaryMovement(st: State, m: MovementMatch)
    requires !IsTransferHeader(Strip(m.movimiento)) && MovementStep(st, m).Ok?
    ensures var rows := MovementStep(st, m).value.rows; |rows| > 0 && !IsSentinel(rows[0])
  {
    NoSentinels(MovementStep(st, m).value.rows);
  }

  /** Continuing a run keeps the rows it already emitted in front. */
  lemma {:induction false} ThenKeepsHead(r: Result<Progress<State>>, more: seq<Line>)
    requires Then(r, more).Ok?
    ensures r.Ok? && |r.value.rows| <= |Then(r, more).value.rows|
    ensures r.Ok? && |r.value.rows| > 0 ==> Then(r, more).value.rows[0] == r.value.rows[0]
  {
  }
}
