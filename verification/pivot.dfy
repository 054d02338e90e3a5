/** The pivot step of `Core.convert_tabulate`: flat result rows become a
    key -> (period -> cost) dict, and then one output row per key. */
module Pivot {
  import opened Wrappers
  import opened Timestamp
  import opened OrderedMap

  /** One result row as the cost query returns it, read positionally:
      `result[0]` is the cost, `result[1]` the timestamp, and `rest` holds
      `result[2]` onwards. Costs are whole hundredths. */
  datatype Row = Row(cost: int, stamp: string, rest: seq<string>)

  /** What one row contributes to the pivot: `dd[key][period] = cost`. */
  datatype Entry = Entry(key: string, period: string, cost: int)

  /** One output row: `{"key": key}` followed by the key's periods. */
  datatype PivotRow = PivotRow(key: string, cells: OMap<int>)

  datatype PivotError =
    | BadTimestamp(stamp: string)  // strptime raises ValueError
    | MissingKeyColumn             // `result[2]` raises IndexError
    | NoRows                       // `costs[0]` raises IndexError

  const TotalKey := "total"

  /** The entry for one row of the total query (`grouped == false`) or of
      the grouped query (`grouped == true`). */
  function RowEntry(granularity: string, grouped: bool, row: Row): (r: Result<Entry, PivotError>)
    ensures r.Ok? <==> Parse(row.stamp).Some? && (grouped ==> |row.rest| > 0)
    ensures Parse(row.stamp).None? ==> r == Err(BadTimestamp(row.stamp))
    ensures Parse(row.stamp).Some? && grouped && |row.rest| == 0 ==> r == Err(MissingKeyColumn)
    ensures r.Ok? ==> r.value.key == (if grouped then row.rest[0] else TotalKey)
    ensures r.Ok? ==> r.value.period == row.stamp[..LabelWidth(granularity)]
    ensures r.Ok? ==> r.value.cost == row.cost
  {
    match Parse(row.stamp)
    case None => Err(BadTimestamp(row.stamp))
    case Some(t) =>
      PeriodLabelIsPrefix(granularity, row.stamp);
      if grouped && |row.rest| == 0 then Err(MissingKeyColumn)
      else Ok(Entry(if grouped then row.rest[0] else TotalKey, PeriodLabel(granularity, t), row.cost))
  }

  /** The values of a list of results, or the error of the first failure. */
  function Collect(rs: seq<Result<Entry, PivotError>>): (r: Result<seq<Entry>, PivotError>)
    ensures r.Ok? <==> forall i :: 0 <= i < |rs| ==> rs[i].Ok?
    ensures r.Ok? ==> |r.value| == |rs| && forall i :: 0 <= i < |rs| ==> r.value[i] == rs[i].value
    ensures r.Err? ==> exists i :: (0 <= i < |rs| && rs[i] == Err(r.error)
      && forall j :: 0 <= j < i ==> rs[j].Ok?)
  {
    if rs == [] then Ok([])
    else
      match rs[0]
      case Err(e) => Err(e)
      case Ok(e) =>
        var tail := Collect(rs[1..]);
        assert forall i :: 1 <= i < |rs| ==> rs[i] == rs[1..][i - 1];
        match tail
        case Err(e') => Err(e')
        case Ok(es) => Ok([e] + es)
  }

  /** The entries of a list of rows, or the error of the first row that
      fails: Python raises at the first bad row. */
  function EntriesOf(granularity: string, grouped: bool, rows: seq<Row>): (r: Result<seq<Entry>, PivotError>)
    ensures r.Ok? <==> forall i :: 0 <= i < |rows| ==> RowEntry(granularity, grouped, rows[i]).Ok?
    ensures r.Ok? ==> |r.value| == |rows|
    ensures r.Ok? ==> forall i :: 0 <= i < |rows| ==> r.value[i] == RowEntry(granularity, grouped, rows[i]).value
    ensures r.Err? ==> exists i :: (0 <= i < |rows|
      && RowEntry(granularity, grouped, rows[i]) == Err(r.error)
      && forall j :: 0 <= j < i ==> RowEntry(granularity, grouped, rows[j]).Ok?)
  {
    var rs := seq(|rows|, i requires 0 <= i < |rows| => RowEntry(granularity, grouped, rows[i]));
    assert forall i :: 0 <= i < |rows| ==> rs[i] == RowEntry(granularity, grouped, rows[i]);
    Collect(rs)
  }

  /** The keys of the entries, in order. */
  function Keys(es: seq<Entry>): seq<string> {
    if es == [] then [] else Keys(es[..|es| - 1]) + [es[|es| - 1].key]
  }

  /** The periods of the entries under key `k`, in order. */
  function PeriodsFor(es: seq<Entry>, k: string): seq<string> {
    if es == [] then []
    else
      var e := es[|es| - 1];
      PeriodsFor(es[..|es| - 1], k) + (if e.key == k then [e.period] else [])
  }

  /** The cost of the last entry for `(k, p)`, if there is one. */
  function LastCost(es: seq<Entry>, k: string, p: string): Option<int> {
    if es == [] then None
    else
      var e := es[|es| - 1];
      if e.key == k && e.period == p then Some(e.cost) else LastCost(es[..|es| - 1], k, p)
  }

  ghost predicate WellFormed(dd: OMap<OMap<int>>) {
    && Valid(dd)
    && forall k :: k in dd.vals ==> Valid(dd.vals[k]) && |dd.vals[k].order| > 0
  }

  /** The `defaultdict` after `dd[e.key][e.period] = e.cost` for every entry in turn. */
  function Build(es: seq<Entry>): (dd: OMap<OMap<int>>)
    ensures WellFormed(dd)
  {
    if es == [] then Empty()
    else
      var prev := Build(es[..|es| - 1]);
      var e := es[|es| - 1];
      var cells := if e.key in prev.vals then prev.vals[e.key] else Empty();
      Put(prev, e.key, Put(cells, e.period, e.cost))
  }

  lemma {:induction false} AbsentKey(es: seq<Entry>, k: string)
    requires k !in Keys(es)
    ensures PeriodsFor(es, k) == []
    ensures forall p :: LastCost(es, k, p) == None
  {
    if es != [] {
      AbsentKey(es[..|es| - 1], k);
    }
  }

  /** The dict holds the keys in order of first occurrence; under each key
      the periods in order of first occurrence, each with the cost of the
      last entry for that key and period. */
  lemma {:induction false} BuildShape(es: seq<Entry>)
    ensures Build(es).order == Dedup(Keys(es))
    ensures forall k :: k in Build(es).vals ==> CellsShaped(es, Build(es).vals[k], k)
  {
    if es != [] {
      BuildShape(es[..|es| - 1]);
      BuildShapeStep(es);
    }
  }

  lemma BuildShapeStep(es: seq<Entry>)
    requires es != []
    requires var init := es[..|es| - 1];
      && Build(init).order == Dedup(Keys(init))
      && forall k :: k in Build(init).vals ==> CellsShaped(init, Build(init).vals[k], k)
    ensures Build(es).order == Dedup(Keys(es))
    ensures forall k :: k in Build(es).vals ==> CellsShaped(es, Build(es).vals[k], k)
  {
    var init := es[..|es| - 1];
    var e := es[|es| - 1];
    assert init + [e] == es;
    DedupSnoc(Keys(init), e.key);
    forall k | k in Build(es).vals
      ensures CellsShaped(es, Build(es).vals[k], k)
    {
      if k == e.key {
        BuildStepSame(init, e);
      } else {
        BuildStepOther(init, e, k);
      }
    }
  }

  /** The cells under key `k` list the periods seen for `k` in order of
      first occurrence, each with its last cost. */
  ghost predicate CellsShaped(es: seq<Entry>, cells: OMap<int>, k: string) {
    && cells.order == Dedup(PeriodsFor(es, k))
    && forall p :: Lookup(cells, p) == LastCost(es, k, p)
  }

  lemma BuildStepOther(init: seq<Entry>, e: Entry, k: string)
    requires k != e.key
    requires k in Build(init).vals ==> CellsShaped(init, Build(init).vals[k], k)
    requires k in Build(init + [e]).vals
    ensures CellsShaped(init + [e], Build(init + [e]).vals[k], k)
  {
    var es := init + [e];
    assert es[..|es| - 1] == init;
    assert es[|es| - 1] == e;
    var prev := Build(init);
    var cells := if e.key in prev.vals then prev.vals[e.key] else Empty();
    assert Build(es) == Put(prev, e.key, Put(cells, e.period, e.cost));
    assert PeriodsFor(es, k) == PeriodsFor(init, k);
    forall p
      ensures LastCost(es, k, p) == LastCost(init, k, p)
    {
    }
  }

  lemma BuildStepSame(init: seq<Entry>, e: Entry)
    requires e.key in Build(init).vals ==> CellsShaped(init, Build(init).vals[e.key], e.key)
    requires e.key in Build(init).vals <==> e.key in Keys(init)
    ensures CellsShaped(init + [e], Build(init + [e]).vals[e.key], e.key)
  {
    var prev := Build(init);
    var cells := if e.key in prev.vals then prev.vals[e.key] else Empty();
    BuildSnoc(init, e);
    if e.key !in prev.vals {
      AbsentKey(init, e.key);
    }
    PutShaped(init, e, cells);
  }

  lemma BuildSnoc(init: seq<Entry>, e: Entry)
    ensures var prev := Build(init);
      var cells := if e.key in prev.vals then prev.vals[e.key] else Empty();
      Valid(cells) && Build(init + [e]).vals[e.key] == Put(cells, e.period, e.cost)
  {
    var es := init + [e];
    assert es[..|es| - 1] == init;
  }

  lemma PutShaped(init: seq<Entry>, e: Entry, cells: OMap<int>)
    requires Valid(cells) && CellsShaped(init, cells, e.key)
    ensures CellsShaped(init + [e], Put(cells, e.period, e.cost), e.key)
  {
    var es := init + [e];
    assert es[..|es| - 1] == init;
    PutOrder(init, e, cells);
    PutLookup(init, e, cells);
  }

  lemma PutOrder(init: seq<Entry>, e: Entry, cells: OMap<int>)
    requires Valid(cells) && cells.order == Dedup(PeriodsFor(init, e.key))
    ensures Put(cells, e.period, e.cost).order == Dedup(PeriodsFor(init + [e], e.key))
  {
    var es := init + [e];
    assert es[..|es| - 1] == init;
    assert PeriodsFor(es, e.key) == PeriodsFor(init, e.key) + [e.period];
    DedupSnoc(PeriodsFor(init, e.key), e.period);
    assert e.period in cells.vals <==> e.period in PeriodsFor(init, e.key);
  }

  lemma PutLookup(init: seq<Entry>, e: Entry, cells: OMap<int>)
    requires Valid(cells) && forall p :: Lookup(cells, p) == LastCost(init, e.key, p)
    ensures forall p :: Lookup(Put(cells, e.period, e.cost), p) == LastCost(init + [e], e.key, p)
  {
    var es := init + [e];
    assert es[..|es| - 1] == init;
    forall p
      ensures Lookup(Put(cells, e.period, e.cost), p) == LastCost(es, e.key, p)
    {
      assert LastCost(es, e.key, p) == if p == e.period then Some(e.cost) else LastCost(init, e.key, p);
    }
  }

  /** `costs`: one output row per key of the dict, in the dict's order,
      holding that key's cells. There is one row per distinct key, in order
      of first occurrence, and each row lists the periods seen for its key
      in order of first occurrence. */
  function PivotRows(es: seq<Entry>): (rows: seq<PivotRow>)
    ensures |rows| == |Build(es).order|
    ensures RowKeys(rows) == Dedup(Keys(es))
    ensures forall i :: 0 <= i < |rows| ==>
      Valid(rows[i].cells) && CellsShaped(es, rows[i].cells, rows[i].key)
  {
    var dd := Build(es);
    var rows := seq(|dd.order|, i requires 0 <= i < |dd.order| => PivotRow(dd.order[i], dd.vals[dd.order[i]]));
    BuildShape(es);
    RowsShaped(es, rows);
    rows
  }

  function RowKeys(rows: seq<PivotRow>): seq<string> {
    seq(|rows|, i requires 0 <= i < |rows| => rows[i].key)
  }

  lemma RowsShaped(es: seq<Entry>, rows: seq<PivotRow>)
    requires Build(es).order == Dedup(Keys(es))
    requires forall k :: k in Build(es).vals ==> CellsShaped(es, Build(es).vals[k], k)
    requires |rows| == |Build(es).order|
    requires forall i :: 0 <= i < |rows| ==> rows[i] == PivotRow(Build(es).order[i], Build(es).vals[Build(es).order[i]])
    ensures RowKeys(rows) == Dedup(Keys(es))
    ensures forall i :: 0 <= i < |rows| ==>
      Valid(rows[i].cells) && CellsShaped(es, rows[i].cells, rows[i].key)
  {
    var dd := Build(es);
    assert RowKeys(rows) == dd.order by {
      forall i | 0 <= i < |rows|
        ensures RowKeys(rows)[i] == dd.order[i]
      {
      }
    }
    forall i | 0 <= i < |rows|
      ensures Valid(rows[i].cells) && CellsShaped(es, rows[i].cells, rows[i].key)
    {
      assert dd.order[i] in dd.vals;
    }
  }

  /** The pivot has exactly one row per distinct key, in order of first
      occurrence; each row's periods are exactly those seen for its key, in
      order of first occurrence, each with the cost of the key's last entry
      for that period. */
  lemma PivotShape(es: seq<Entry>)
    ensures RowKeys(PivotRows(es)) == Dedup(Keys(es))
    ensures forall i :: 0 <= i < |PivotRows(es)| ==>
      PivotRows(es)[i].cells.order == Dedup(PeriodsFor(es, PivotRows(es)[i].key))
    ensures forall i, p :: 0 <= i < |PivotRows(es)| ==>
      Lookup(PivotRows(es)[i].cells, p) == LastCost(es, PivotRows(es)[i].key, p)
  {
    var rows := PivotRows(es);
    forall i, p | 0 <= i < |rows|
      ensures Lookup(rows[i].cells, p) == LastCost(es, rows[i].key, p)
    {
      assert CellsShaped(es, rows[i].cells, rows[i].key);
    }
  }

  lemma {:induction false} KeyListed(es: seq<Entry>, i: nat)
    requires i < |es|
    ensures es[i].key in Keys(es)
  {
    if i < |es| - 1 {
      KeyListed(es[..|es| - 1], i);
    }
  }

  lemma {:induction false} PeriodListed(es: seq<Entry>, i: nat)
    requires i < |es|
    ensures es[i].period in PeriodsFor(es, es[i].key)
  {
    if i < |es| - 1 {
      var init := es[..|es| - 1];
      assert init[i] == es[i];
      PeriodListed(init, i);
    }
  }

  /** Every entry shows up in the pivot: in the row of its key, under its
      period, with its own cost unless a later entry for the same key and
      period replaced it. */
  lemma EntryInPivot(es: seq<Entry>, i: nat)
    requires i < |es|
    ensures exists r :: (0 <= r < |PivotRows(es)| && PivotRows(es)[r].key == es[i].key
      && es[i].period in PivotRows(es)[r].cells.vals
      && ((forall j :: i < j < |es| ==> !(es[j].key == es[i].key && es[j].period == es[i].period))
          ==> PivotRows(es)[r].cells.vals[es[i].period] == es[i].cost))
  {
    var rows := PivotRows(es);
    var e := es[i];
    KeyListed(es, i);
    PeriodListed(es, i);
    PivotShape(es);
    assert e.key in RowKeys(rows);
    var r :| 0 <= r < |rows| && RowKeys(rows)[r] == e.key;
    assert rows[r].key == e.key;
    assert e.period in rows[r].cells.order;
    LastWriteWins(es, e.key, e.period);
    assert Lookup(rows[r].cells, e.period) == LastCost(es, e.key, e.period);
  }

  /** Every row's period list is non-empty, and the first row carries the
      first entry's key. */
  lemma FirstPivotRow(es: seq<Entry>)
    requires |es| > 0
    ensures |PivotRows(es)| > 0
    ensures PivotRows(es)[0].key == es[0].key
    ensures PivotRows(es)[0].cells.order == Dedup(PeriodsFor(es, es[0].key))
    ensures |PivotRows(es)[0].cells.order| > 0
  {
    BuildShape(es);
    KeysHead(es);
    var dd := Build(es);
    assert dd.order[0] == es[0].key;
    assert dd.order[0] in dd.vals;
  }

  lemma {:induction false} KeysHead(es: seq<Entry>)
    requires |es| > 0
    ensures |Keys(es)| > 0 && Keys(es)[0] == es[0].key
  {
    if |es| > 1 {
      KeysHead(es[..|es| - 1]);
    }
  }

  lemma {:induction false} FirstKeyHasPeriod(es: seq<Entry>)
    requires |es| > 0
    ensures |PeriodsFor(es, es[0].key)| > 0
  {
    if |es| > 1 {
      var init := es[..|es| - 1];
      assert init[0] == es[0];
      FirstKeyHasPeriod(init);
    }
  }

  /** Among the periods of the first entry's key, the one first seen last. */
  function FirstKeyLastPeriod(es: seq<Entry>): string
    requires |es| > 0
  {
    FirstKeyHasPeriod(es);
    var ps := Dedup(PeriodsFor(es, es[0].key));
    ps[|ps| - 1]
  }

  /** A later entry for the same key and period replaces the earlier cost
      (costs are not summed); a pair never seen has no cost. */
  lemma {:induction false} LastWriteWins(es: seq<Entry>, k: string, p: string)
    ensures LastCost(es, k, p).None? <==>
      forall i :: 0 <= i < |es| ==> !(es[i].key == k && es[i].period == p)
    ensures forall i :: (0 <= i < |es| && es[i].key == k && es[i].period == p &&
      (forall j :: i < j < |es| ==> !(es[j].key == k && es[j].period == p))
      ==> LastCost(es, k, p) == Some(es[i].cost))
  {
    if es != [] {
      var init := es[..|es| - 1];
      LastWriteWins(init, k, p);
      assert forall i :: 0 <= i < |init| ==> init[i] == es[i];
    }
  }
}
