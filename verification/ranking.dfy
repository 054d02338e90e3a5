/** The sort step of `Core.convert_tabulate`: the pivot rows in
    non-increasing order of their cost in one period column, a missing cost
    counting as 0, rows with equal costs keeping their order. Python's
    `sorted(..., reverse=True)` is stable; `StableArrangementUnique` shows
    that any stable non-increasing arrangement equals the one built here. */
module Ranking {
  import opened OrderedMap
  import opened Pivot

  /** `0 if x.get(col) is None else x.get(col)`. A period label never equals
      `"key"`, so the lookup never hits the row's key column. */
  function SortValue(row: PivotRow, col: string): (v: int)
    ensures Lookup(row.cells, col).None? ==> v == 0
    ensures Lookup(row.cells, col).Some? ==> v == Lookup(row.cells, col).value
  {
    if col in row.cells.vals then row.cells.vals[col] else 0
  }

  predicate NonIncreasing(rows: seq<PivotRow>, col: string) {
    forall i, j :: 0 <= i < j < |rows| ==> SortValue(rows[i], col) >= SortValue(rows[j], col)
  }

  /** Places `x` before the first row whose value does not exceed its own. */
  function Insert(x: PivotRow, rows: seq<PivotRow>, col: string): (r: seq<PivotRow>)
    requires NonIncreasing(rows, col)
    ensures NonIncreasing(r, col)
    ensures multiset(r) == multiset(rows) + multiset{x}
    ensures forall y :: y in r ==> y == x || y in rows
  {
    if rows == [] || SortValue(x, col) >= SortValue(rows[0], col) then [x] + rows
    else
      var tail := Insert(x, rows[1..], col);
      assert rows == [rows[0]] + rows[1..];
      TailBelowHead(x, rows, tail, col);
      [rows[0]] + tail
  }

  lemma TailBelowHead(x: PivotRow, rows: seq<PivotRow>, tail: seq<PivotRow>, col: string)
    requires rows != [] && NonIncreasing(rows, col) && NonIncreasing(tail, col)
    requires SortValue(x, col) < SortValue(rows[0], col)
    requires forall y :: y in tail ==> y == x || y in rows[1..]
    ensures NonIncreasing([rows[0]] + tail, col)
  {
    forall j | 0 <= j < |tail|
      ensures SortValue(tail[j], col) <= SortValue(rows[0], col)
    {
      assert tail[j] in tail;
      if tail[j] != x {
        var k :| 0 <= k < |rows[1..]| && rows[1..][k] == tail[j];
        assert rows[k + 1] == tail[j];
      }
    }
  }

  /** `sorted(rows, key=..., reverse=True)` */
  function SortDesc(rows: seq<PivotRow>, col: string): (r: seq<PivotRow>)
    ensures NonIncreasing(r, col)
    ensures multiset(r) == multiset(rows)
  {
    if rows == [] then []
    else
      assert rows == [rows[0]] + rows[1..];
      Insert(rows[0], SortDesc(rows[1..], col), col)
  }

  /** The rows whose sort value is `v`, in their order. */
  function WithValue(rows: seq<PivotRow>, col: string, v: int): seq<PivotRow> {
    if rows == [] then []
    else (if SortValue(rows[0], col) == v then [rows[0]] else []) + WithValue(rows[1..], col, v)
  }

  lemma WithValueCons(x: PivotRow, rows: seq<PivotRow>, col: string, v: int)
    ensures WithValue([x] + rows, col, v) == (if SortValue(x, col) == v then [x] else []) + WithValue(rows, col, v)
  {
    assert ([x] + rows)[1..] == rows;
  }

  lemma {:induction false} WithValueMember(rows: seq<PivotRow>, col: string, v: int, x: PivotRow)
    ensures x in WithValue(rows, col, v) <==> x in rows && SortValue(x, col) == v
  {
    if rows != [] {
      WithValueMember(rows[1..], col, v, x);
      assert rows == [rows[0]] + rows[1..];
    }
  }

  /** Two prefixes of which one is empty commute. */
  lemma SwapEmpty<T>(a: seq<T>, b: seq<T>, w: seq<T>)
    requires a == [] || b == []
    ensures b + (a + w) == a + (b + w)
  {
  }

  lemma {:induction false} InsertStable(x: PivotRow, rows: seq<PivotRow>, col: string, v: int)
    requires NonIncreasing(rows, col)
    ensures WithValue(Insert(x, rows, col), col, v) == WithValue([x] + rows, col, v)
  {
    if rows != [] && SortValue(x, col) < SortValue(rows[0], col) {
      var r0, rest := rows[0], rows[1..];
      assert rows == [r0] + rest;
      var tail := Insert(x, rest, col);
      assert Insert(x, rows, col) == [r0] + tail;
      InsertStable(x, rest, col, v);
      var hx := if SortValue(x, col) == v then [x] else [];
      var hr := if SortValue(r0, col) == v then [r0] else [];
      WithValueCons(r0, tail, col, v);
      WithValueCons(x, rest, col, v);
      WithValueCons(x, rows, col, v);
      WithValueCons(r0, rest, col, v);
      SwapEmpty(hx, hr, WithValue(rest, col, v));
    }
  }

  /** Rows with equal sort values keep their relative order. */
  lemma {:induction false} SortDescStable(rows: seq<PivotRow>, col: string)
    ensures forall v :: WithValue(SortDesc(rows, col), col, v) == WithValue(rows, col, v)
  {
    if rows != [] {
      SortDescStable(rows[1..], col);
      forall v
        ensures WithValue(SortDesc(rows, col), col, v) == WithValue(rows, col, v)
      {
        InsertStable(rows[0], SortDesc(rows[1..], col), col, v);
        WithValueCons(rows[0], SortDesc(rows[1..], col), col, v);
        WithValueCons(rows[0], rows[1..], col, v);
        assert rows == [rows[0]] + rows[1..];
      }
    }
  }

  lemma NonEmptyHasValue(rows: seq<PivotRow>, col: string)
    requires rows != []
    ensures WithValue(rows, col, SortValue(rows[0], col)) != []
  {
  }

  /** Arrangements that agree on the rows of every sort value are both empty
      or both not. */
  lemma SameValuesBothEmpty(a: seq<PivotRow>, b: seq<PivotRow>, col: string)
    requires forall v :: WithValue(a, col, v) == WithValue(b, col, v)
    ensures a == [] <==> b == []
  {
    if a != [] {
      NonEmptyHasValue(a, col);
    }
    if b != [] {
      NonEmptyHasValue(b, col);
    }
  }

  /** Two non-increasing arrangements that agree on the order of the rows of
      every sort value are the same sequence: a stable descending sort has
      exactly one possible output. */
  lemma {:induction false} StableArrangementUnique(a: seq<PivotRow>, b: seq<PivotRow>, col: string)
    requires NonIncreasing(a, col) && NonIncreasing(b, col)
    requires forall v :: WithValue(a, col, v) == WithValue(b, col, v)
    ensures a == b
  {
    SameValuesBothEmpty(a, b, col);
    if a != [] {
      var va := SortValue(a[0], col);
      var vb := SortValue(b[0], col);
      WithValueMember(a, col, va, a[0]);
      WithValueMember(b, col, va, a[0]);
      WithValueMember(b, col, vb, b[0]);
      WithValueMember(a, col, vb, b[0]);
      assert va == vb;
      assert a == [a[0]] + a[1..] && b == [b[0]] + b[1..];
      WithValueCons(a[0], a[1..], col, va);
      WithValueCons(b[0], b[1..], col, va);
      assert WithValue(a, col, va)[0] == a[0];
      assert WithValue(b, col, va)[0] == b[0];
      forall v
        ensures WithValue(a[1..], col, v) == WithValue(b[1..], col, v)
      {
        WithValueCons(a[0], a[1..], col, v);
        WithValueCons(b[0], b[1..], col, v);
        var h := if SortValue(a[0], col) == v then [a[0]] else [];
        assert (h + WithValue(a[1..], col, v))[|h|..] == WithValue(a[1..], col, v);
        assert (h + WithValue(b[1..], col, v))[|h|..] == WithValue(b[1..], col, v);
      }
      StableArrangementUnique(a[1..], b[1..], col);
    }
  }
}
