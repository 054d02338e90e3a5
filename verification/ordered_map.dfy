/** String-keyed finite maps that remember the order in which keys were
    first inserted, the way a Python `dict` does: assigning to an existing
    key replaces its value and keeps its position, assigning to a new key
    appends it. */
module OrderedMap {
  import opened Wrappers

  datatype OMap<V> = OMap(order: seq<string>, vals: map<string, V>)

  ghost predicate Distinct(s: seq<string>) {
    forall i, j :: 0 <= i < j < |s| ==> s[i] != s[j]
  }

  /** The order lists every key of the map exactly once. */
  ghost predicate Valid<V>(m: OMap<V>) {
    Distinct(m.order) && forall k :: k in m.order <==> k in m.vals
  }

  function Empty<V>(): OMap<V> {
    OMap([], map[])
  }

  function Lookup<V>(m: OMap<V>, k: string): Option<V> {
    if k in m.vals then Some(m.vals[k]) else None
  }

  /** `m[k] = v` */
  function Put<V>(m: OMap<V>, k: string, v: V): (r: OMap<V>)
    requires Valid(m)
    ensures Valid(r)
    ensures r.vals == m.vals[k := v]
    ensures k in m.vals ==> r.order == m.order
    ensures k !in m.vals ==> r.order == m.order + [k]
  {
    if k in m.vals then OMap(m.order, m.vals[k := v]) else OMap(m.order + [k], m.vals[k := v])
  }

  /** The elements of `xs` in order of first occurrence. */
  function Dedup(xs: seq<string>): (r: seq<string>)
    ensures Distinct(r)
    ensures forall k :: k in r <==> k in xs
    ensures |xs| > 0 ==> |r| > 0 && r[0] == xs[0]
  {
    if xs == [] then []
    else
      var d := Dedup(xs[..|xs| - 1]);
      var x := xs[|xs| - 1];
      assert |xs| > 1 ==> xs[..|xs| - 1][0] == xs[0];
      if x in d then d else d + [x]
  }

  /** Removing a trailing element that has already occurred, or appending a new one. */
  lemma DedupSnoc(xs: seq<string>, x: string)
    ensures Dedup(xs + [x]) == if x in xs then Dedup(xs) else Dedup(xs) + [x]
  {
    assert (xs + [x])[..|xs + [x]| - 1] == xs;
  }

  /** Index of the first occurrence of `x` in `xs`. */
  function IndexOf(xs: seq<string>, x: string): (i: nat)
    requires x in xs
    ensures i < |xs| && xs[i] == x && x !in xs[..i]
  {
    if xs[0] == x then 0
    else
      var j := IndexOf(xs[1..], x);
      assert xs[..j + 1] == [xs[0]] + xs[1..][..j];
      j + 1
  }

  lemma IndexOfUnique(xs: seq<string>, x: string, i: nat)
    requires i < |xs| && xs[i] == x && x !in xs[..i]
    ensures IndexOf(xs, x) == i
  {
    var j := IndexOf(xs, x);
    NotInPrefix(xs, x, i);
    NotInPrefix(xs, x, j);
  }

  lemma NotInPrefix(xs: seq<string>, x: string, n: nat)
    requires n <= |xs| && x !in xs[..n]
    ensures forall k :: 0 <= k < n ==> xs[k] != x
  {
    forall k | 0 <= k < n
      ensures xs[k] != x
    {
      assert xs[..n][k] == xs[k];
    }
  }

  lemma IndexOfSnoc(xs: seq<string>, x: string, y: string)
    requires y in xs + [x]
    ensures y in xs ==> IndexOf(xs + [x], y) == IndexOf(xs, y)
    ensures y !in xs ==> IndexOf(xs + [x], y) == |xs|
  {
    if y in xs {
      var i := IndexOf(xs, y);
      assert (xs + [x])[..i] == xs[..i];
      IndexOfUnique(xs + [x], y, i);
    } else {
      assert (xs + [x])[..|xs|] == xs;
      IndexOfUnique(xs + [x], y, |xs|);
    }
  }

  /** `Dedup` lists the elements in the order of their first occurrences. */
  lemma {:induction false} DedupFirstOccurrence(xs: seq<string>)
    ensures forall i, j :: 0 <= i < j < |Dedup(xs)| ==> IndexOf(xs, Dedup(xs)[i]) < IndexOf(xs, Dedup(xs)[j])
  {
    if xs != [] {
      var init := xs[..|xs| - 1];
      var x := xs[|xs| - 1];
      assert xs == init + [x];
      DedupFirstOccurrence(init);
      DedupSnoc(init, x);
      var d := Dedup(init);
      var r := Dedup(xs);
      forall i, j | 0 <= i < j < |r|
        ensures IndexOf(xs, r[i]) < IndexOf(xs, r[j])
      {
        IndexOfSnoc(init, x, r[i]);
        IndexOfSnoc(init, x, r[j]);
        if j < |d| {
          assert r[i] == d[i] && r[j] == d[j];
        } else {
          assert r[i] == d[i] && r[i] in init;
        }
      }
    }
  }
}
