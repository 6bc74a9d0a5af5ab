/** The HSBC statement parser: the module-level loop of the extraction script, folded
    over the statement's lines.

    Each line arrives already classified, stripped as the loop strips it: what the
    SALDO ANTERIOR pattern would capture from it, and the captures of the dated and
    of the undated movement pattern. The step applies the source's priority order
    and state guards to those captures. Amounts are not read from the debit and
    credit columns: each movement's amount is the change in balance. */
module Hsbc {
  import opened Base
  import opened Text
  import opened Money
  import opened Ledger

  /** The captures both movement patterns share: the reference text, the optional debit
      and credit tokens, and the balance token. */
  datatype Entry = Entry(referencia: string, debito: Option<string>, credito: Option<string>, saldo: string)

  /** The captures of the dated movement pattern: the `DD-MMM` date and the rest. */
  datatype Dated = Dated(fecha: string, entry: Entry)

  /** One statement line: the SALDO ANTERIOR capture (if the pattern occurs in it), and
      the captures of the dated and undated movement patterns (if they match it). */
  datatype Line = Line(saldoAnterior: Option<string>, dated: Option<Dated>, undated: Option<Entry>)

  /** The loop's variables. */
  datatype State = State(fechaActual: Option<string>, previousSaldo: Option<real>, registrado: bool)

  const Init := State(None, None, false)

  const OpeningTag := "SALDO ANTERIOR"

  /** The reachable states: the opening balance is registered exactly when there is a
      previous balance, and no date is carried before that. */
  predicate Valid(st: State) {
    && (st.registrado <==> st.previousSaldo.Some?)
    && (st.fechaActual.Some? ==> st.registrado)
  }

  /** Every amount token on the line has the shape the source's patterns capture:
      digits with optional comma grouping, a point, two digits. */
  predicate WellFormed(line: Line) {
    && (line.saldoAnterior.Some? ==> IsUsAmountToken(line.saldoAnterior.value))
    && (line.dated.Some? ==> IsUsAmountToken(line.dated.value.entry.saldo))
    && (line.undated.Some? ==> IsUsAmountToken(line.undated.value.saldo))
  }

  /** The previous balance, or the TypeError of subtracting Python's None. */
  function Previous(st: State): (r: Result<real>)
    ensures r.Ok? <==> st.previousSaldo.Some?
    ensures r.Ok? ==> r.value == st.previousSaldo.value
    ensures r.Err? ==> r.error == NoOpeningBalance
  {
    if st.previousSaldo.Some? then Ok(st.previousSaldo.value) else Err(NoOpeningBalance)
  }

  /** The row of a movement whose balance token read as `saldo`: the current date, the
      stripped reference, and as amount the change in balance rounded to cents. */
  function Entered(st: State, referencia: string, prev: real, saldo: real): (r: Progress<State>)
    ensures |r.rows| == 1 && r.state == st.(previousSaldo := Some(saldo))
    ensures r.rows[0].fecha == st.fechaActual && r.rows[0].referencia == Strip(referencia)
    ensures r.rows[0].saldo == saldo && r.rows[0].importe.Some?
    ensures IsCents(r.rows[0].importe.value) && -0.005 <= r.rows[0].importe.value - (saldo - prev) <= 0.005
  {
    Progress(st.(previousSaldo := Some(saldo)),
             [Movement(st.fechaActual, Strip(referencia), Some(Round2(saldo - prev)), saldo)])
  }

  /** A movement line of either kind: the balance token is converted first, then the
      amount is taken against the previous balance. On success exactly one row is
      emitted; its balance becomes the previous one and its amount is the change. */
  function Record(st: State, e: Entry): (r: Result<Progress<State>>)
    ensures r.Ok? <==> UsMoney(e.saldo).Some? && st.previousSaldo.Some?
    ensures r.Err? ==> r.error == if UsMoney(e.saldo).None? then MalformedAmount(e.saldo) else NoOpeningBalance
    ensures r.Ok? ==> |r.value.rows| == 1 && r.value.state == st.(previousSaldo := Some(r.value.rows[0].saldo))
    ensures r.Ok? ==> r.value.rows[0].importe == Some(Round2(r.value.rows[0].saldo - st.previousSaldo.value))
    ensures r.Ok? ==> r.value.rows[0].fecha == st.fechaActual && r.value.rows[0].saldo == UsMoney(e.saldo).value
    ensures r.Ok? ==> r.value.rows[0].referencia == Strip(e.referencia)
  {
    var saldo :- Need(UsMoney(e.saldo), e.saldo);
    var prev :- Previous(st);
    Ok(Entered(st, e.referencia, prev, saldo))
  }

  /** The SALDO ANTERIOR line: its balance is registered and its row emitted. */
  function Opening(st: State, token: string): (r: Result<Progress<State>>)
    ensures r.Ok? <==> UsMoney(token).Some?
    ensures r.Err? ==> r.error == MalformedAmount(token)
    ensures r.Ok? ==> r.value.rows == [Sentinel(OpeningTag, UsMoney(token).value)]
    ensures r.Ok? ==> r.value.state == st.(previousSaldo := Some(UsMoney(token).value), registrado := true)
  {
    var v :- Need(UsMoney(token), token);
    Ok(Progress(st.(previousSaldo := Some(v), registrado := true), [Sentinel(OpeningTag, v)]))
  }

  /** One iteration of the loop over the statement's lines. */
  function Step(st: State, line: Line): (r: Result<Progress<State>>)
    ensures r.Err? ==> r.error.MalformedAmount? || r.error == NoOpeningBalance
    ensures r.Ok? ==> |r.value.rows| <= 1
    ensures r.Ok? ==> r.value.state.registrado == (st.registrado || line.saldoAnterior.Some?)
    ensures r.Ok? && |r.value.rows| == 0 ==> r.value.state == st
    ensures r.Ok? && Valid(st) ==> Valid(r.value.state)
  {
    if !st.registrado && line.saldoAnterior.Some? then
      Opening(st, line.saldoAnterior.value)
    else if line.dated.Some? then
      Record(st.(fechaActual := Some(line.dated.value.fecha)), line.dated.value.entry)
    else if line.undated.Some? && Truthy(st.fechaActual) then
      Record(st, line.undated.value)
    else
      Ok(Progress(st, []))
  }

  /** The loop over a sequence of lines, from state `st`: the rows emitted, in order. */
  function Run(st: State, lines: seq<Line>): (r: Result<Progress<State>>)
    ensures r.Err? ==> r.error.MalformedAmount? || r.error == NoOpeningBalance
    ensures r.Ok? ==> |r.value.rows| <= |lines|
    decreases |lines|
  {
    if |lines| == 0 then Ok(Progress(st, []))
    else
      var before :- Run(st, lines[..|lines| - 1]);
      Advance(before, lines[|lines| - 1])
  }

  /** One more step after `p`: its rows appended to those already emitted. */
  function Advance(p: Progress<State>, line: Line): Result<Progress<State>> {
    var next :- Step(p.state, line);
    Ok(Progress(next.state, p.rows + next.rows))
  }

  /** The `movimientos` list the script builds from the classified lines of a statement. */
  function Parse(lines: seq<Line>): (r: Result<seq<Movement>>)
    ensures r.Err? ==> r.error.MalformedAmount? || r.error == NoOpeningBalance
    ensures r.Ok? ==> Chained(r.value) && |r.value| <= |lines|
  {
    var p :- Run(Init, lines);
    RunChained(lines);
    Ok(p.rows)
  }

  /** One more line: the run so far, then one step. */
  lemma {:induction false} RunSnoc(st: State, lines: seq<Line>, l: Line)
    ensures Run(st, lines + [l]) == (var p :- Run(st, lines); Advance(p, l))
  {
    assert (lines + [l])[..|lines|] == lines;
  }

  /** A failure is final: once a prefix of the lines fails, the whole run fails the same way. */
  lemma {:induction false} FailureSticks(st: State, lines: seq<Line>, k: nat)
    requires k <= |lines| && Run(st, lines[..k]).Err?
    ensures Run(st, lines) == Run(st, lines[..k])
    decreases |lines|
  {
    if k < |lines| {
      var init := lines[..|lines| - 1];
      assert init[..k] == lines[..k];
      FailureSticks(st, init, k);
    } else {
      assert lines[..k] == lines;
    }
  }

  // ---------------------------------------------------------------------------
  // The shape of the output

  /** The shape of the output: the SALDO ANTERIOR row first, then movement rows, each
      carrying as amount the change in balance since the row before it, rounded to cents. */
  predicate Chained(rows: seq<Movement>) {
    |rows| > 0 ==>
      && rows[0] == Sentinel(OpeningTag, rows[0].saldo)
      && forall i :: 1 <= i < |rows| ==> rows[i].importe == Some(Round2(rows[i].saldo - rows[i - 1].saldo))
  }

  /** The loop's variables agree with the rows emitted so far: the opening balance is
      registered exactly when a row exists, and the previous balance is the last row's. */
  predicate Agrees(st: State, rows: seq<Movement>) {
    && Valid(st)
    && (st.registrado <==> |rows| > 0)
    && (|rows| > 0 ==> st.previousSaldo == Some(rows[|rows| - 1].saldo))
  }

  /** What one step from `st` may produce: nothing and no change, the opening-balance
      row when none is registered yet, or a movement row whose amount is the change from
      the previous balance; the row's balance becomes the previous one. */
  predicate Follows(st: State, q: Progress<State>) {
    && |q.rows| <= 1
    && (|q.rows| == 0 ==> q.state == st)
    && (|q.rows| == 1 ==>
          && q.state.previousSaldo == Some(q.rows[0].saldo)
          && q.state.registrado
          && Valid(q.state)
          && if st.registrado
             then st.previousSaldo.Some? && q.rows[0].importe == Some(Round2(q.rows[0].saldo - st.previousSaldo.value))
             else q.rows[0] == Sentinel(OpeningTag, q.rows[0].saldo))
  }

  /** Every step from a reachable state does one of the things `Follows` allows. */
  lemma {:induction false} StepFollows(st: State, l: Line)
    requires Valid(st) && Step(st, l).Ok?
    ensures Follows(st, Step(st, l).value)
  {
    if !st.registrado && l.saldoAnterior.Some? {
      assert Step(st, l) == Opening(st, l.saldoAnterior.value);
    } else if l.dated.Some? {
      assert Step(st, l) == Record(st.(fechaActual := Some(l.dated.value.fecha)), l.dated.value.entry);
    } else if l.undated.Some? && Truthy(st.fechaActual) {
      assert Step(st, l) == Record(st, l.undated.value);
    } else {
      assert Step(st, l) == Ok(Progress(st, []));
    }
  }

  /** A step that follows a chained output keeps it chained, and the variables in
      agreement with it. */
  lemma {:induction false} Extend(rows: seq<Movement>, st: State, q: Progress<State>)
    requires Chained(rows) && Agrees(st, rows) && Follows(st, q)
    ensures Chained(rows + q.rows) && Agrees(q.state, rows + q.rows)
  {
    if |q.rows| == 0 {
      ExtendQuiet(rows, st, q);
    } else if !st.registrado {
      ExtendOpening(rows, st, q);
    } else {
      ExtendMovement(rows, st, q);
    }
  }

  /** The quiet case of `Extend`: no row, no change. */
  lemma {:induction false} ExtendQuiet(rows: seq<Movement>, st: State, q: Progress<State>)
    requires Chained(rows) && Agrees(st, rows) && Follows(st, q)
    requires |q.rows| == 0
    ensures Chained(rows + q.rows) && Agrees(q.state, rows + q.rows)
  {
    assert rows + q.rows == rows;
  }

  /** The opening case of `Extend`: the SALDO ANTERIOR row is the first row. */
  lemma {:induction false} ExtendOpening(rows: seq<Movement>, st: State, q: Progress<State>)
    requires Chained(rows) && Agrees(st, rows) && Follows(st, q)
    requires |q.rows| == 1 && !st.registrado
    ensures Chained(rows + q.rows) && Agrees(q.state, rows + q.rows)
  {
    assert rows == [] && rows + q.rows == q.rows;
  }

  /** The movement case of `Extend`: the new row's amount is taken against the last row. */
  lemma {:induction false} ExtendMovement(rows: seq<Movement>, st: State, q: Progress<State>)
    requires Chained(rows) && Agrees(st, rows) && Follows(st, q)
    requires |q.rows| == 1 && st.registrado
    ensures Chained(rows + q.rows) && Agrees(q.state, rows + q.rows)
  {
    var all := rows + q.rows;
    var n := |rows|;
    assert all[0] == rows[0];
    forall i | 1 <= i < |all|
      ensures all[i].importe == Some(Round2(all[i].saldo - all[i - 1].saldo))
    {
      if i < n {
        assert all[i] == rows[i] && all[i - 1] == rows[i - 1];
      } else {
        assert all[i] == q.rows[0] && all[i - 1] == rows[n - 1];
      }
    }
  }

  /** Every successful parse is chained: the SALDO ANTERIOR row leads, and each later
      row's amount is the change in balance from the row before, rounded to cents; the
      loop's previous balance is the last row's. */
  lemma {:induction false} RunChained(lines: seq<Line>)
    requires Run(Init, lines).Ok?
    ensures Chained(Run(Init, lines).value.rows)
    ensures Agrees(Run(Init, lines).value.state, Run(Init, lines).value.rows)
    decreases |lines|
  {
    if |lines| > 0 {
      var init, l := lines[..|lines| - 1], lines[|lines| - 1];
      RunChained(init);
      var p := Run(Init, init).value;
      StepFollows(p.state, l);
      Extend(p.rows, p.state, Step(p.state, l).value);
    }
  }

  /** In a chained output every row after the first carries an amount. */
  lemma {:induction false} ChainedMovements(rows: seq<Movement>)
    requires Chained(rows)
    ensures forall i :: 1 <= i < |rows| ==> !IsSentinel(rows[i])
  {
    forall i | 1 <= i < |rows| ensures !IsSentinel(rows[i]) {
      assert rows[i].importe == Some(Round2(rows[i].saldo - rows[i - 1].saldo));
    }
  }

  /** The SALDO ANTERIOR row is the first row of every non-empty parse, and no other row
      is an opening-balance row. */
  lemma {:induction false} ParseOpensWithBalance(lines: seq<Line>)
    requires Parse(lines).Ok? && |Parse(lines).value| > 0
    ensures var rows := Parse(lines).value;
            && rows[0] == Sentinel(OpeningTag, rows[0].saldo)
            && (forall i :: 1 <= i < |rows| ==> !IsSentinel(rows[i]))
            && MovementRows(rows) == rows[1..]
  {
    RunChained(lines);
    var rows := Parse(lines).value;
    assert rows == Run(Init, lines).value.rows;
    ChainedMovements(rows);
    MovementRowsAfterHead(rows);
  }

  // ---------------------------------------------------------------------------
  // Amounts in whole cents, and the statement reconciles

  /** On well-formed lines the conversion never fails, and every balance a step records
      is a whole number of cents; the only way a step fails is a movement before the
      opening balance. */
  lemma {:induction false} StepCents(st: State, l: Line)
    requires WellFormed(l)
    ensures Step(st, l).Err? ==> Step(st, l).error == NoOpeningBalance
    ensures Step(st, l).Ok? ==> AllCents(Step(st, l).value.rows)
    ensures Step(st, l).Ok? && Step(st, l).value.state.previousSaldo != st.previousSaldo ==>
              IsCents(Step(st, l).value.state.previousSaldo.value)
  {
    if l.saldoAnterior.Some? {
      UsTokenIsCents(l.saldoAnterior.value);
    }
    if l.dated.Some? {
      UsTokenIsCents(l.dated.value.entry.saldo);
    }
    if l.undated.Some? {
      UsTokenIsCents(l.undated.value.saldo);
    }
  }

  /** Every line well-formed: every token the patterns capture reads as a number. */
  predicate AllWellFormed(lines: seq<Line>) {
    forall i :: 0 <= i < |lines| ==> WellFormed(lines[i])
  }

  /** A parse of well-formed lines fails only for want of an opening balance, and every
      balance in its output is a whole number of cents. */
  lemma {:induction false} RunCents(lines: seq<Line>)
    requires AllWellFormed(lines)
    ensures Run(Init, lines).Err? ==> Run(Init, lines).error == NoOpeningBalance
    ensures Run(Init, lines).Ok? ==> AllCents(Run(Init, lines).value.rows)
    decreases |lines|
  {
    if |lines| > 0 {
      var init, l := lines[..|lines| - 1], lines[|lines| - 1];
      assert AllWellFormed(init) by {
        forall i | 0 <= i < |init| ensures WellFormed(init[i]) {
          assert init[i] == lines[i];
        }
      }
      RunCents(init);
      if Run(Init, init).Ok? {
        var p := Run(Init, init).value;
        StepCents(p.state, l);
        if Step(p.state, l).Ok? {
          CentsConcat(p.rows, Step(p.state, l).value.rows);
        }
      }
    }
  }

  /** Every balance in `rows` is a whole number of cents. */
  predicate AllCents(rows: seq<Movement>) {
    forall i :: 0 <= i < |rows| ==> IsCents(rows[i].saldo)
  }

  /** Balances in whole cents stay so when two runs of rows are joined. */
  lemma {:induction false} CentsConcat(a: seq<Movement>, b: seq<Movement>)
    requires AllCents(a) && AllCents(b)
    ensures AllCents(a + b)
  {
    forall i | 0 <= i < |a + b| ensures IsCents((a + b)[i].saldo) {
      if i < |a| {
        assert (a + b)[i] == a[i];
      } else {
        assert (a + b)[i] == b[i - |a|];
      }
    }
  }

  /** Over chained rows whose balances are whole cents, the amounts telescope: the first
      `k` rows' amounts add up to the balance of row `k - 1` less the opening balance. */
  lemma {:induction false} Telescope(rows: seq<Movement>, k: nat)
    requires Chained(rows) && 1 <= k <= |rows| && AllCents(rows)
    ensures SumImporte(rows[1..k]) == rows[k - 1].saldo - rows[0].saldo
    decreases k
  {
    if k > 1 {
      Telescope(rows, k - 1);
      assert rows[1..k][..k - 2] == rows[1..k - 1];
      CentsArith(rows[k - 1].saldo, rows[k - 2].saldo);
    }
  }

  /** The statement reconciles: the movements' amounts add up exactly to the closing
      balance less the opening one, so "Total Movimientos" equals "Saldo Final" minus
      "Saldo Inicial" whenever the lines are well-formed. */
  lemma {:induction false} Reconciles(lines: seq<Line>)
    requires AllWellFormed(lines)
    requires Parse(lines).Ok? && |Parse(lines).value| > 0
    ensures var rows := Parse(lines).value;
            SumImporte(rows[1..]) == rows[|rows| - 1].saldo - rows[0].saldo
  {
    var rows := Parse(lines).value;
    RunChained(lines);
    RunCents(lines);
    Telescope(rows, |rows|);
    assert rows[1..|rows|] == rows[1..];
  }

  // ---------------------------------------------------------------------------
  // Guards and priorities of the loop

  /** Once the opening balance is registered, the SALDO ANTERIOR pattern on a line changes
      nothing: the line goes on to the movement patterns. */
  lemma {:induction false} OpeningIgnoredOnceRegistered(st: State, line: Line)
    requires st.registrado
    ensures Step(st, line) == Step(st, line.(saldoAnterior := None))
  {
  }

  /** `e` with its debit and credit captures erased and the rest of `orig` kept. */
  predicate Erased(e: Entry, orig: Entry) {
    e.referencia == orig.referencia && e.saldo == orig.saldo && e.debito.None? && e.credito.None?
  }

  /** The line with its debit and credit captures erased. */
  function WithoutColumns(line: Line): (r: Line)
    ensures r.saldoAnterior == line.saldoAnterior
    ensures r.dated.Some? <==> line.dated.Some?
    ensures r.undated.Some? <==> line.undated.Some?
    ensures r.dated.Some? ==>
              r.dated.value.fecha == line.dated.value.fecha && Erased(r.dated.value.entry, line.dated.value.entry)
    ensures r.undated.Some? ==> Erased(r.undated.value, line.undated.value)
  {
    var erase := (e: Entry) => e.(debito := None, credito := None);
    Line(line.saldoAnterior,
         if line.dated.Some? then Some(line.dated.value.(entry := erase(line.dated.value.entry))) else None,
         if line.undated.Some? then Some(erase(line.undated.value)) else None)
  }

  /** The debit and credit columns are captured but never read: erasing them changes
      nothing. */
  lemma {:induction false} ColumnsIgnored(st: State, line: Line)
    ensures Step(st, line) == Step(st, WithoutColumns(line))
  {
  }

  /** A movement line takes its date from the last dated line: an undated line after a
      date emits one row carrying that date, and a dated line emits one carrying its own. */
  lemma {:induction false} MovementDates(st: State, line: Line)
    requires Valid(st) && (st.registrado || line.saldoAnterior.None?)
    requires line.dated.Some? || (line.undated.Some? && Truthy(st.fechaActual))
    requires Step(st, line).Ok?
    ensures |Step(st, line).value.rows| == 1
    ensures Step(st, line).value.rows[0].fecha ==
              if line.dated.Some? then Some(line.dated.value.fecha) else st.fechaActual
  {
  }

  /** Some line of `lines` holds the SALDO ANTERIOR pattern. */
  predicate HasOpening(lines: seq<Line>) {
    exists i :: 0 <= i < |lines| && lines[i].saldoAnterior.Some?
  }

  /** Whether line `i` of `lines` (run from `st`) registers the opening balance. */
  predicate OpensAt(st: State, lines: seq<Line>, i: nat)
    requires i < |lines|
  {
    !(st.registrado || HasOpening(lines[..i])) && lines[i].saldoAnterior.Some?
  }

  /** The date of the last dated line of `lines` that is read as a movement, or the one
      `st` already had: the reference for the date the loop carries forward. */
  function LastDate(st: State, lines: seq<Line>): Option<string>
    decreases |lines|
  {
    if |lines| == 0 then st.fechaActual
    else
      var l := lines[|lines| - 1];
      if !OpensAt(st, lines, |lines| - 1) && l.dated.Some?
      then Some(l.dated.value.fecha)
      else LastDate(st, lines[..|lines| - 1])
  }

  /** The date carried forward is that of the last dated movement line. */
  lemma {:induction false} RunDate(st: State, lines: seq<Line>)
    requires Run(st, lines).Ok?
    ensures Run(st, lines).value.state.fechaActual == LastDate(st, lines)
    ensures Run(st, lines).value.state.registrado == (st.registrado || HasOpening(lines))
    decreases |lines|
  {
    if |lines| > 0 {
      var init, l := lines[..|lines| - 1], lines[|lines| - 1];
      RunDate(st, init);
      HasOpeningLast(lines);
      var p := Run(st, init).value;
      StepDate(p.state, l);
      assert Run(st, lines) == Advance(p, l);
    }
  }

  /** One step keeps the date unless a dated movement line brings a new one. */
  lemma {:induction false} StepDate(st: State, l: Line)
    requires Step(st, l).Ok?
    ensures var opens := !st.registrado && l.saldoAnterior.Some?;
            Step(st, l).value.state.fechaActual ==
              if !opens && l.dated.Some? then Some(l.dated.value.fecha) else st.fechaActual
  {
  }

  lemma {:induction false} HasOpeningLast(lines: seq<Line>)
    requires |lines| > 0
    ensures HasOpening(lines) <==> HasOpening(lines[..|lines| - 1]) || lines[|lines| - 1].saldoAnterior.Some?
  {
    var init := lines[..|lines| - 1];
    if HasOpening(lines) {
      var i :| 0 <= i < |lines| && lines[i].saldoAnterior.Some?;
      if i < |init| {
        assert init[i] == lines[i];
      }
    }
    if HasOpening(init) {
      var i :| 0 <= i < |init| && init[i].saldoAnterior.Some?;
      assert lines[i] == init[i];
    }
  }

  /** An undated line before any date is dropped, whatever it holds. */
  lemma {:induction false} UndatedBeforeDateDropped(st: State, line: Line)
    requires !Truthy(st.fechaActual)
    requires (st.registrado || line.saldoAnterior.None?) && line.dated.None?
    ensures Step(st, line) == Ok(Progress(st, []))
  {
  }

  /** Lines that hold neither the SALDO ANTERIOR pattern nor a dated movement, read from
      the start, change nothing: undated lines are dropped while no date is known. */
  lemma {:induction false} QuietPrefix(lines: seq<Line>)
    requires forall j :: 0 <= j < |lines| ==> lines[j].saldoAnterior.None? && lines[j].dated.None?
    ensures Run(Init, lines) == Ok(Progress(Init, []))
    decreases |lines|
  {
    if |lines| > 0 {
      var init, l := lines[..|lines| - 1], lines[|lines| - 1];
      assert forall j :: 0 <= j < |init| ==> init[j] == lines[j];
      QuietPrefix(init);
      UndatedBeforeDateDropped(Init, l);
      var none: seq<Movement> := [];
      assert none + none == none;
      assert Advance(Progress(Init, none), l) == Ok(Progress(Init, none));
    }
  }

  /** A dated movement with no balance registered fails: its amount would be taken
      against no balance. */
  lemma {:induction false} MovementBeforeOpening(st: State, line: Line)
    requires st.previousSaldo.None? && (st.registrado || line.saldoAnterior.None?)
    requires line.dated.Some? && IsUsAmountToken(line.dated.value.entry.saldo)
    ensures Step(st, line) == Err(NoOpeningBalance)
  {
    UsTokenIsCents(line.dated.value.entry.saldo);
  }

  /** The loop stops at a dated movement that comes before any SALDO ANTERIOR line. */
  lemma {:induction false} StopsAt(lines: seq<Line>, i: nat)
    requires i < |lines| && lines[i].dated.Some? && IsUsAmountToken(lines[i].dated.value.entry.saldo)
    requires forall j :: 0 <= j <= i ==> lines[j].saldoAnterior.None?
    requires forall j :: 0 <= j < i ==> lines[j].dated.None?
    ensures Run(Init, lines[..i + 1]) == Err(NoOpeningBalance)
  {
    var pre, l := lines[..i], lines[i];
    assert Step(Init, l) == Err(NoOpeningBalance) by {
      MovementBeforeOpening(Init, l);
    }
    assert Run(Init, pre) == Ok(Progress(Init, [])) by {
      QuietPrefix(pre);
    }
    var upto := lines[..i + 1];
    assert upto[..|upto| - 1] == pre && upto[|upto| - 1] == l;
    assert Advance(Progress(Init, []), l) == Err(NoOpeningBalance);
  }

  /** A statement whose first dated movement comes before any SALDO ANTERIOR line fails:
      the amount of that movement is taken against no balance. */
  lemma {:induction false} DatedBeforeOpening(lines: seq<Line>, i: nat)
    requires i < |lines| && lines[i].dated.Some? && IsUsAmountToken(lines[i].dated.value.entry.saldo)
    requires forall j :: 0 <= j <= i ==> lines[j].saldoAnterior.None?
    requires forall j :: 0 <= j < i ==> lines[j].dated.None?
    ensures Parse(lines) == Err(NoOpeningBalance)
  {
    StopsAt(lines, i);
    FailureSticks(Init, lines, i + 1);
  }
}
