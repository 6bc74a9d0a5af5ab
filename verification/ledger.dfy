/** The movement rows both parsers emit, and the sums the summaries take over them. */
module Ledger {
  import opened Base

  /** One output row `{Fecha, Referencia, Importe, Saldo}`. `fecha` is None where the
      source stores Python's `None`; `importe` is None where it stores the empty
      string "" (the opening-balance row), which pandas later reads as NaN. */
  datatype Movement = Movement(fecha: Option<string>, referencia: string, importe: Option<real>, saldo: real)

  /** The opening-balance row: empty date, a fixed tag, no amount. */
  function Sentinel(tag: string, saldo: real): Movement {
    Movement(Some(""), tag, None, saldo)
  }

  /** The row is the opening-balance row rather than a movement: it carries no amount. */
  predicate IsSentinel(m: Movement) {
    m.importe.None?
  }

  /** Python truthiness of an optional string (`if fecha:`): present and non-empty. */
  predicate Truthy(o: Option<string>) {
    o.Some? && |o.value| > 0
  }

  /** What one parsing step leaves behind: the new state and the rows it emitted. */
  datatype Progress<S> = Progress(state: S, rows: seq<Movement>)

  /** A row's contribution to `Sum_Importe`: its amount, or 0 where pandas sums a NaN. */
  function Contribution(m: Movement): real {
    if m.importe.Some? then m.importe.value else 0.0
  }

  /** Sum of the contributions of `rows`, accumulated left to right. */
  function SumImporte(rows: seq<Movement>): real {
    if |rows| == 0 then 0.0 else SumImporte(rows[..|rows| - 1]) + Contribution(rows[|rows| - 1])
  }

  lemma {:induction false} SumImporteAppend(a: seq<Movement>, b: seq<Movement>)
    ensures SumImporte(a + b) == SumImporte(a) + SumImporte(b)
    decreases |b|
  {
    if |b| == 0 {
      assert a + b == a;
    } else {
      assert (a + b)[..|a + b| - 1] == a + b[..|b| - 1];
      SumImporteAppend(a, b[..|b| - 1]);
    }
  }

  /** Number of opening-balance rows in `rows`. */
  function SentinelCount(rows: seq<Movement>): nat {
    if |rows| == 0 then 0
    else SentinelCount(rows[..|rows| - 1]) + (if IsSentinel(rows[|rows| - 1]) then 1 else 0)
  }

  lemma {:induction false} SentinelCountAppend(a: seq<Movement>, b: seq<Movement>)
    ensures SentinelCount(a + b) == SentinelCount(a) + SentinelCount(b)
    decreases |b|
  {
    if |b| == 0 {
      assert a + b == a;
    } else {
      assert (a + b)[..|a + b| - 1] == a + b[..|b| - 1];
      SentinelCountAppend(a, b[..|b| - 1]);
    }
  }

  /** Rows that count no opening-balance row hold none. */
  lemma {:induction false} NoSentinels(rows: seq<Movement>)
    requires SentinelCount(rows) == 0
    ensures forall i :: 0 <= i < |rows| ==> !IsSentinel(rows[i])
    decreases |rows|
  {
    if |rows| > 0 {
      var init := rows[..|rows| - 1];
      NoSentinels(init);
      assert forall i :: 0 <= i < |init| ==> rows[i] == init[i];
    }
  }

  /** The rows that carry an amount, in order: the movements proper. */
  function MovementRows(rows: seq<Movement>): (r: seq<Movement>)
    ensures |r| + SentinelCount(rows) == |rows|
    ensures forall i :: 0 <= i < |r| ==> !IsSentinel(r[i])
  {
    if |rows| == 0 then []
    else
      var last := rows[|rows| - 1];
      MovementRows(rows[..|rows| - 1]) + (if IsSentinel(last) then [] else [last])
  }

  /** The movements are exactly the rows that are not opening-balance rows. */
  lemma {:induction false} MovementRowsMembers(rows: seq<Movement>, m: Movement)
    ensures m in MovementRows(rows) <==> m in rows && !IsSentinel(m)
    decreases |rows|
  {
    if |rows| > 0 {
      var init, last := rows[..|rows| - 1], rows[|rows| - 1];
      MovementRowsMembers(init, m);
      assert rows == init + [last];
      assert m in rows <==> m in init || m == last;
    }
  }

  /** Filtering distributes over concatenation: the movements of `a + b` are those of `a`
      followed by those of `b`, each in order. */
  lemma {:induction false} MovementRowsAppend(a: seq<Movement>, b: seq<Movement>)
    ensures MovementRows(a + b) == MovementRows(a) + MovementRows(b)
    decreases |b|
  {
    if |b| == 0 {
      assert a + b == a;
    } else {
      var b0, last := b[..|b| - 1], b[|b| - 1];
      assert (a + b)[..|a + b| - 1] == a + b0;
      assert (a + b)[|a + b| - 1] == last;
      MovementRowsAppend(a, b0);
      var tail := if IsSentinel(last) then [] else [last];
      assert MovementRows(a) + MovementRows(b0) + tail == MovementRows(a) + (MovementRows(b0) + tail);
    }
  }

  /** Rows without an opening-balance row are their own movements. */
  lemma {:induction false} MovementRowsUnchanged(rows: seq<Movement>)
    requires forall i :: 0 <= i < |rows| ==> !IsSentinel(rows[i])
    ensures MovementRows(rows) == rows
    decreases |rows|
  {
    if |rows| > 0 {
      var init := rows[..|rows| - 1];
      assert forall i :: 0 <= i < |init| ==> init[i] == rows[i];
      MovementRowsUnchanged(init);
      assert init + [rows[|rows| - 1]] == rows;
    }
  }

  /** When only the first row is an opening-balance row, the movements are the rest. */
  lemma {:induction false} MovementRowsAfterHead(rows: seq<Movement>)
    requires |rows| > 0 && IsSentinel(rows[0])
    requires forall i :: 1 <= i < |rows| ==> !IsSentinel(rows[i])
    ensures MovementRows(rows) == rows[1..]
  {
    var rest := rows[1..];
    assert forall i :: 0 <= i < |rest| ==> rest[i] == rows[i + 1];
    MovementRowsUnchanged(rest);
    assert rows == [rows[0]] + rest;
    MovementRowsAppend([rows[0]], rest);
    assert MovementRows([rows[0]]) == [] by {
      assert [rows[0]][..0] == [];
    }
  }

}
