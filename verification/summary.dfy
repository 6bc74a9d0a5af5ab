/** The per-reference summaries both scripts print after parsing: the rows after the
    first are grouped by reference (in pandas' sorted key order), each group gets the
    sum of its amounts and its row count, and a TOTAL row adds the groups up. */
module Summary {
  import opened Base
  import opened Money
  import opened Ledger

  /** One row of the summary table: a reference, `Sum_Importe` and `Cantidad`. */
  datatype Group = Group(referencia: string, sumImporte: real, cantidad: nat)

  const TotalTag := "TOTAL"

  // ---------------------------------------------------------------------------
  // Python's string order

  /** `a < b` on Python strings: lexicographic by code point, a proper prefix first. */
  predicate Before(a: string, b: string)
    decreases |a|
  {
    |b| > 0 && (|a| == 0 || a[0] < b[0] || (a[0] == b[0] && Before(a[1..], b[1..])))
  }

  lemma {:induction false} BeforeIrreflexive(a: string)
    ensures !Before(a, a)
    decreases |a|
  {
    if |a| > 0 {
      BeforeIrreflexive(a[1..]);
    }
  }

  lemma {:induction false} BeforeTransitive(a: string, b: string, c: string)
    requires Before(a, b) && Before(b, c)
    ensures Before(a, c)
    decreases |a|
  {
    if |a| > 0 && a[0] == b[0] && b[0] == c[0] {
      BeforeTransitive(a[1..], b[1..], c[1..]);
    }
  }

  /** Distinct strings are ordered one way or the other. */
  lemma {:induction false} BeforeTotal(a: string, b: string)
    requires a != b
    ensures Before(a, b) || Before(b, a)
    decreases |a|
  {
    if |a| > 0 && |b| > 0 && a[0] == b[0] {
      BeforeTotal(a[1..], b[1..]);
    }
  }

  // ---------------------------------------------------------------------------
  // Grouping

  /** Every key of `gs` comes after `k`. */
  predicate Above(k: string, gs: seq<Group>) {
    forall i :: 0 <= i < |gs| ==> Before(k, gs[i].referencia)
  }

  /** Keys strictly increasing, hence distinct. */
  predicate Sorted(gs: seq<Group>)
    decreases |gs|
  {
    |gs| > 0 ==> Above(gs[0].referencia, gs[1..]) && Sorted(gs[1..])
  }

  /** The group of reference `k`, if there is one. */
  function Lookup(gs: seq<Group>, k: string): Option<Group>
    decreases |gs|
  {
    if |gs| == 0 then None
    else if gs[0].referencia == k then Some(gs[0])
    else Lookup(gs[1..], k)
  }

  /** The group of `m`'s reference after `m` joins it (or starts it). */
  function Joined(g: Option<Group>, m: Movement): Group {
    if g.Some? then g.value.(sumImporte := g.value.sumImporte + Contribution(m), cantidad := g.value.cantidad + 1)
    else Group(m.referencia, Contribution(m), 1)
  }

  /** Adds one row to sorted groups: to the group of its reference, or as a new group in
      key order. */
  function Insert(gs: seq<Group>, m: Movement): (r: seq<Group>)
    ensures |gs| <= |r| <= |gs| + 1
    decreases |gs|
  {
    if |gs| == 0 then [Joined(None, m)]
    else if gs[0].referencia == m.referencia then [Joined(Some(gs[0]), m)] + gs[1..]
    else if Before(m.referencia, gs[0].referencia) then [Joined(None, m)] + gs
    else [gs[0]] + Insert(gs[1..], m)
  }

  /** `groupby('Referencia')` on the rows, in order. The groups come out sorted by
      reference, their counts add up to the number of rows and their sums to the sum of
      all amounts. */
  function GroupBy(rows: seq<Movement>): (r: seq<Group>)
    ensures Sorted(r)
    ensures TotalCount(r) == |rows|
    ensures TotalSum(r) == SumImporte(rows)
    decreases |rows|
  {
    if |rows| == 0 then []
    else
      var gs, m := GroupBy(rows[..|rows| - 1]), rows[|rows| - 1];
      InsertSorted(gs, m);
      InsertTotals(gs, m);
      Insert(gs, m)
  }

  /** The reference definitions: how many rows carry reference `k`, and the sum of their
      contributions. */
  function CountRef(rows: seq<Movement>, k: string): nat
    decreases |rows|
  {
    if |rows| == 0 then 0
    else CountRef(rows[..|rows| - 1], k) + (if rows[|rows| - 1].referencia == k then 1 else 0)
  }

  function SumRef(rows: seq<Movement>, k: string): real
    decreases |rows|
  {
    if |rows| == 0 then 0.0
    else SumRef(rows[..|rows| - 1], k) + (if rows[|rows| - 1].referencia == k then Contribution(rows[|rows| - 1]) else 0.0)
  }

  /** A reference no row carries sums to nothing. */
  lemma {:induction false} SumRefAbsent(rows: seq<Movement>, k: string)
    requires CountRef(rows, k) == 0
    ensures SumRef(rows, k) == 0.0
    decreases |rows|
  {
    if |rows| > 0 {
      SumRefAbsent(rows[..|rows| - 1], k);
    }
  }

  /** Column sums over the groups. */
  function TotalCount(gs: seq<Group>): nat
    decreases |gs|
  {
    if |gs| == 0 then 0 else gs[0].cantidad + TotalCount(gs[1..])
  }

  function TotalSum(gs: seq<Group>): real
    decreases |gs|
  {
    if |gs| == 0 then 0.0 else gs[0].sumImporte + TotalSum(gs[1..])
  }

  /** No group in `gs` has a key at or below `k`. */
  lemma {:induction false} AboveMissing(k: string, gs: seq<Group>)
    requires Above(k, gs)
    ensures Lookup(gs, k).None?
    decreases |gs|
  {
    if |gs| > 0 {
      assert Before(k, gs[0].referencia);
      BeforeIrreflexive(k);
      AboveMissing(k, gs[1..]);
    }
  }

  lemma {:induction false} AboveLower(a: string, b: string, gs: seq<Group>)
    requires Before(a, b) && Above(b, gs)
    ensures Above(a, gs)
  {
    forall i | 0 <= i < |gs| ensures Before(a, gs[i].referencia) {
      BeforeTransitive(a, b, gs[i].referencia);
    }
  }

  /** Inserting a key above `k` keeps every key above `k`. */
  lemma {:induction false} InsertAbove(k: string, gs: seq<Group>, m: Movement)
    requires Above(k, gs) && Before(k, m.referencia)
    ensures Above(k, Insert(gs, m))
    decreases |gs|
  {
    if |gs| > 0 && gs[0].referencia != m.referencia && !Before(m.referencia, gs[0].referencia) {
      InsertAbove(k, gs[1..], m);
      var r := Insert(gs, m);
      assert r == [gs[0]] + Insert(gs[1..], m);
      forall i | 0 <= i < |r| ensures Before(k, r[i].referencia) {
        if i > 0 {
          assert r[i] == Insert(gs[1..], m)[i - 1];
        }
      }
    }
  }

  /** Inserting keeps the groups sorted by key. */
  lemma {:induction false} InsertSorted(gs: seq<Group>, m: Movement)
    requires Sorted(gs)
    ensures Sorted(Insert(gs, m))
    decreases |gs|
  {
    if |gs| > 0 {
      var g := gs[0];
      if g.referencia == m.referencia {
        assert Insert(gs, m)[1..] == gs[1..];
      } else if Before(m.referencia, g.referencia) {
        AboveLower(m.referencia, g.referencia, gs[1..]);
        assert Above(m.referencia, gs);
        assert Insert(gs, m)[1..] == gs;
      } else {
        BeforeTotal(g.referencia, m.referencia);
        InsertSorted(gs[1..], m);
        InsertAbove(g.referencia, gs[1..], m);
        assert Insert(gs, m)[1..] == Insert(gs[1..], m);
      }
    } else {
      assert Insert(gs, m)[1..] == [];
    }
  }

  /** Inserting a row changes only the group of its reference, which it joins. */
  lemma {:induction false} InsertLookup(gs: seq<Group>, m: Movement, k: string)
    requires Sorted(gs)
    ensures Lookup(Insert(gs, m), k) == if k == m.referencia then Some(Joined(Lookup(gs, k), m)) else Lookup(gs, k)
    decreases |gs|
  {
    if |gs| > 0 {
      var g := gs[0];
      if g.referencia == m.referencia {
        assert Insert(gs, m)[1..] == gs[1..];
      } else if Before(m.referencia, g.referencia) {
        if k == m.referencia {
          AboveLower(m.referencia, g.referencia, gs[1..]);
          assert Above(m.referencia, gs);
          AboveMissing(m.referencia, gs);
        } else {
          assert Insert(gs, m)[1..] == gs;
        }
      } else {
        InsertLookup(gs[1..], m, k);
        assert Insert(gs, m)[1..] == Insert(gs[1..], m);
      }
    }
  }

  /** Inserting a row adds one to the total count and its contribution to the total sum. */
  lemma {:induction false} InsertTotals(gs: seq<Group>, m: Movement)
    ensures TotalCount(Insert(gs, m)) == TotalCount(gs) + 1
    ensures TotalSum(Insert(gs, m)) == TotalSum(gs) + Contribution(m)
    decreases |gs|
  {
    if |gs| > 0 {
      var g := gs[0];
      if g.referencia == m.referencia {
        assert Insert(gs, m)[1..] == gs[1..];
      } else if Before(m.referencia, g.referencia) {
        assert Insert(gs, m)[1..] == gs;
      } else {
        InsertTotals(gs[1..], m);
        assert Insert(gs, m)[1..] == Insert(gs[1..], m);
      }
    }
  }

  /** The group of reference `k` exists exactly when some row carries `k`, and then holds
      those rows' count and sum. */
  lemma {:induction false} GroupByLookup(rows: seq<Movement>, k: string)
    ensures Lookup(GroupBy(rows), k) ==
              if CountRef(rows, k) == 0 then None else Some(Group(k, SumRef(rows, k), CountRef(rows, k)))
    decreases |rows|
  {
    if |rows| > 0 {
      var init, m := rows[..|rows| - 1], rows[|rows| - 1];
      var gs := GroupBy(init);
      assert GroupBy(rows) == Insert(gs, m);
      assert CountRef(rows, k) == CountRef(init, k) + (if m.referencia == k then 1 else 0);
      assert SumRef(rows, k) == SumRef(init, k) + (if m.referencia == k then Contribution(m) else 0.0);
      GroupByLookup(init, k);
      InsertLookup(gs, m, k);
      if CountRef(init, k) == 0 {
        SumRefAbsent(init, k);
      }
    }
  }

  // ---------------------------------------------------------------------------
  // The tables

  /** The groups of `movs` followed by the TOTAL row of their column sums. */
  function Tabulate(movs: seq<Movement>): (r: seq<Group>)
    ensures |r| > 0 && r[|r| - 1] == Group(TotalTag, SumImporte(movs), |movs|)
    ensures Sorted(r[..|r| - 1])
  {
    var gs := GroupBy(movs);
    gs + [Group(TotalTag, TotalSum(gs), TotalCount(gs))]
  }

  /** The table tabulates `movs`: sorted groups with each reference's count and sum, and a
      TOTAL row that counts every row and sums every amount. */
  ghost predicate Tabulates(r: seq<Group>, movs: seq<Movement>) {
    && |r| > 0
    && r[|r| - 1] == Group(TotalTag, SumImporte(movs), |movs|)
    && Sorted(r[..|r| - 1])
    && forall k :: Lookup(r[..|r| - 1], k) ==
                     if CountRef(movs, k) == 0 then None else Some(Group(k, SumRef(movs, k), CountRef(movs, k)))
  }

  lemma {:induction false} TabulateMeans(movs: seq<Movement>)
    ensures Tabulates(Tabulate(movs), movs)
  {
    var r := Tabulate(movs);
    assert r[..|r| - 1] == GroupBy(movs);
    forall k
      ensures Lookup(r[..|r| - 1], k) ==
                if CountRef(movs, k) == 0 then None else Some(Group(k, SumRef(movs, k), CountRef(movs, k)))
    {
      GroupByLookup(movs, k);
    }
  }

  /** `build_summary` of the Santander script: an empty table for no rows; otherwise the
      rows after the first, tabulated. */
  function BuildSummary(rows: seq<Movement>): (r: seq<Group>)
    ensures |rows| == 0 <==> |r| == 0
    ensures |rows| > 0 ==> r[|r| - 1] == Group(TotalTag, SumImporte(rows[1..]), |rows| - 1)
  {
    if |rows| == 0 then [] else Tabulate(rows[1..])
  }

  /** What `build_summary` reports: for a non-empty input, the TOTAL row counts every row
      but the first and sums their amounts, and each reference's group gathers its rows
      among them. */
  lemma {:induction false} BuildSummaryMeans(rows: seq<Movement>)
    ensures |rows| > 0 ==> Tabulates(BuildSummary(rows), rows[1..])
    ensures |rows| == 0 ==> BuildSummary(rows) == []
  {
    if |rows| > 0 {
      TabulateMeans(rows[1..]);
    }
  }

  /** The three figures the HSBC script prints under its table. */
  datatype Report = Report(table: seq<Group>, saldoInicial: real, totalMovimientos: real, saldoFinal: real)

  /** `summary` of the HSBC script: the table of the rows after the first, the first row's
      balance, the sum of the amounts rounded to cents, and the last row's balance. With no
      rows the frame has no 'Importe' column; with one row there is no last movement. */
  function HsbcSummary(rows: seq<Movement>): (r: Result<Report>)
    ensures r.Ok? <==> |rows| >= 2
    ensures |rows| == 0 ==> r == Err(MissingColumn)
    ensures |rows| == 1 ==> r == Err(NoMovementRows)
    ensures r.Ok? ==> IsCents(r.value.totalMovimientos)
  {
    if |rows| == 0 then Err(MissingColumn)
    else if |rows| == 1 then Err(NoMovementRows)
    else Ok(Report(Tabulate(rows[1..]), rows[0].saldo, Round2(SumImporte(rows[1..])), rows[|rows| - 1].saldo))
  }

  lemma {:induction false} HsbcSummaryMeans(rows: seq<Movement>)
    requires |rows| >= 2
    ensures var rep := HsbcSummary(rows).value;
            && Tabulates(rep.table, rows[1..])
            && rep.saldoInicial == rows[0].saldo
            && rep.saldoFinal == rows[|rows| - 1].saldo
            && -0.005 <= rep.totalMovimientos - SumImporte(rows[1..]) <= 0.005
  {
    TabulateMeans(rows[1..]);
  }

  // ---------------------------------------------------------------------------
  // Skipping the first row

  /** The summary over the movement rows proper, wherever the opening-balance row is. */
  function MovementSummary(rows: seq<Movement>): (r: seq<Group>)
    ensures |rows| == 0 <==> |r| == 0
    ensures |rows| > 0 ==> && r[|r| - 1].referencia == TotalTag
                           && r[|r| - 1].sumImporte == SumImporte(rows)
                           && r[|r| - 1].cantidad + SentinelCount(rows) == |rows|
  {
    if |rows| == 0 then []
    else
      MovementRowsSum(rows);
      Tabulate(MovementRows(rows))
  }

  /** What the summary of the movements reports: every movement row counted and summed
      once, and no opening-balance row. */
  lemma {:induction false} MovementSummaryMeans(rows: seq<Movement>)
    requires |rows| > 0
    ensures Tabulates(MovementSummary(rows), MovementRows(rows))
    ensures MovementSummary(rows)[|MovementSummary(rows)| - 1].cantidad == |rows| - SentinelCount(rows)
    ensures MovementSummary(rows)[|MovementSummary(rows)| - 1].sumImporte == SumImporte(rows)
  {
    TabulateMeans(MovementRows(rows));
    MovementRowsSum(rows);
  }

  /** Opening-balance rows contribute nothing to a sum. */
  lemma {:induction false} MovementRowsSum(rows: seq<Movement>)
    ensures SumImporte(MovementRows(rows)) == SumImporte(rows)
    decreases |rows|
  {
    if |rows| > 0 {
      var init, last := rows[..|rows| - 1], rows[|rows| - 1];
      MovementRowsSum(init);
      SumImporteAppend(MovementRows(init), if IsSentinel(last) then [] else [last]);
      assert SumImporte([last]) == Contribution(last) by {
        assert [last][..0] == [];
      }
    }
  }

  /** Skipping the first row is right when it is the only opening-balance row:
      then `build_summary` is the summary of the movements. */
  lemma {:induction false} SkipAgrees(rows: seq<Movement>)
    requires |rows| > 0 && IsSentinel(rows[0])
    requires forall i :: 1 <= i < |rows| ==> !IsSentinel(rows[i])
    ensures BuildSummary(rows) == MovementSummary(rows)
  {
    MovementRowsAfterHead(rows);
  }

  /** When the first row is a movement, `build_summary` leaves it out: the TOTAL row misses
      its amount, and misses it from the count unless an opening-balance row is counted
      in its place. */
  lemma {:induction false} FirstMovementDropped(rows: seq<Movement>)
    requires |rows| > 0 && !IsSentinel(rows[0])
    ensures var t := BuildSummary(rows)[|BuildSummary(rows)| - 1];
            var u := MovementSummary(rows)[|MovementSummary(rows)| - 1];
            && t.sumImporte == u.sumImporte - rows[0].importe.value
            && t.cantidad == |rows| - 1
            && u.cantidad == |rows| - SentinelCount(rows)
  {
    assert rows == [rows[0]] + rows[1..];
    SumImporteAppend([rows[0]], rows[1..]);
    assert SumImporte([rows[0]]) == Contribution(rows[0]) by {
      assert [rows[0]][..0] == [];
    }
  }

  /** The smallest case: a purchase printed before the "Saldo Inicial" line. The
      summary reports the opening-balance row as a reference of its own and no purchase;
      the summary of the movements reports the purchase. */
  lemma {:induction false} FirstMovementDroppedExample()
    ensures var buy := Movement(Some("01/02/25"), "Compra", Some(-100.0), 900.0);
            var rows := [buy, Sentinel("Saldo Inicial", 1000.0)];
            && BuildSummary(rows) == [Group("Saldo Inicial", 0.0, 1), Group(TotalTag, 0.0, 1)]
            && MovementSummary(rows) == [Group("Compra", -100.0, 1), Group(TotalTag, -100.0, 1)]
  {
    var buy := Movement(Some("01/02/25"), "Compra", Some(-100.0), 900.0);
    var open := Sentinel("Saldo Inicial", 1000.0);
    var rows := [buy, open];
    assert rows[1..] == [open];
    assert [open][..0] == [];
    assert MovementRows(rows) == [buy] by {
      assert rows[..1] == [buy];
      assert [buy][..0] == [];
    }
  }
}
