/** `Core` of `azurecost`: the cost query scope and payloads built by
    `get_usage`, the subscription lookup, and `convert_tabulate` up to the
    text rendering. The two calls to the cost query service and the call
    listing subscriptions are not modelled: their results are inputs. */
module Core {
  import opened Wrappers
  import opened DateUtil
  import opened Timestamp
  import opened Pivot
  import opened Ranking

  // ---------------------------------------------------------------------
  // Scope

  const SubscriptionsPrefix := "/subscriptions/"
  const ResourceGroupsInfix := "/resourceGroups/"

  /** The scope a query runs against: the subscription, narrowed to a
      resource group when one is given. */
  function Scope(subscriptionId: string, resourceGroup: Option<string>): (s: string)
    ensures |s| >= |SubscriptionsPrefix| && s[..|SubscriptionsPrefix|] == SubscriptionsPrefix
    ensures resourceGroup.None? ==> s[|SubscriptionsPrefix|..] == subscriptionId
  {
    var base := SubscriptionsPrefix + subscriptionId;
    match resourceGroup
    case None => base
    case Some(rg) => base + ResourceGroupsInfix + rg
  }

  /** Index of the first `/` in `s`. */
  function FirstSlash(s: string): (r: Option<nat>)
    ensures r.None? <==> '/' !in s
    ensures r.Some? ==> r.value < |s| && s[r.value] == '/' && '/' !in s[..r.value]
  {
    if s == [] then None
    else if s[0] == '/' then Some(0)
    else
      match FirstSlash(s[1..])
      case None => None
      case Some(i) =>
        assert s[..i + 1] == [s[0]] + s[1..][..i];
        Some(i + 1)
  }

  /** Reads a scope back into its subscription id and resource group. */
  function ParseScope(s: string): Option<(string, Option<string>)> {
    var n := |SubscriptionsPrefix|;
    if |s| < n || s[..n] != SubscriptionsPrefix then None
    else
      var rest := s[n..];
      match FirstSlash(rest)
      case None => Some((rest, None))
      case Some(i) =>
        var tail := rest[i..];
        var m := |ResourceGroupsInfix|;
        if |tail| >= m && tail[..m] == ResourceGroupsInfix then Some((rest[..i], Some(tail[m..])))
        else None
  }

  /** A subscription id without `/` can be read back from the scope, with
      the resource group exactly when one was given. */
  lemma ScopeRoundTrip(subscriptionId: string, resourceGroup: Option<string>)
    requires '/' !in subscriptionId
    ensures ParseScope(Scope(subscriptionId, resourceGroup)) == Some((subscriptionId, resourceGroup))
  {
    match resourceGroup
    case None => SubscriptionScopeRoundTrip(subscriptionId);
    case Some(rg) => GroupScopeRoundTrip(subscriptionId, rg);
  }

  lemma SubscriptionScopeRoundTrip(subscriptionId: string)
    requires '/' !in subscriptionId
    ensures ParseScope(Scope(subscriptionId, None)) == Some((subscriptionId, None))
  {
    var s := Scope(subscriptionId, None);
    var n := |SubscriptionsPrefix|;
    assert s[..n] == SubscriptionsPrefix;
    assert s[n..] == subscriptionId;
  }

  lemma GroupScopeRoundTrip(subscriptionId: string, resourceGroup: string)
    requires '/' !in subscriptionId
    ensures ParseScope(Scope(subscriptionId, Some(resourceGroup))) == Some((subscriptionId, Some(resourceGroup)))
  {
    var s := Scope(subscriptionId, Some(resourceGroup));
    var n := |SubscriptionsPrefix|;
    var m := |ResourceGroupsInfix|;
    var rest := subscriptionId + ResourceGroupsInfix + resourceGroup;
    assert s == SubscriptionsPrefix + rest;
    assert s[..n] == SubscriptionsPrefix;
    assert s[n..] == rest;
    var i := |subscriptionId|;
    assert rest[..i] == subscriptionId;
    var tail := rest[i..];
    assert tail == ResourceGroupsInfix + resourceGroup;
    assert rest[i] == tail[0] == '/';
    FirstSlashAt(rest, i);
    assert tail[..m] == ResourceGroupsInfix;
    assert tail[m..] == resourceGroup;
  }

  lemma {:induction false} FirstSlashAt(s: string, i: nat)
    requires i < |s| && s[i] == '/' && '/' !in s[..i]
    ensures FirstSlash(s) == Some(i)
  {
    if i > 0 {
      assert s[..i][0] == s[0];
      assert s[1..][..i - 1] == s[..i][1..];
      FirstSlashAt(s[1..], i - 1);
    }
  }

  /** Every string that reads as a scope is the scope of what it reads to. */
  lemma ParseScopeRoundTrip(s: string)
    requires ParseScope(s).Some?
    ensures var (id, rg) := ParseScope(s).value; '/' !in id && Scope(id, rg) == s
  {
    var n := |SubscriptionsPrefix|;
    var rest := s[n..];
    assert s == SubscriptionsPrefix + rest;
    match FirstSlash(rest)
    case None =>
    case Some(i) =>
      ScopeWithGroupRoundTrip(rest, i);
  }

  lemma ScopeWithGroupRoundTrip(rest: string, i: nat)
    requires i < |rest| && '/' !in rest[..i]
    requires |rest[i..]| >= |ResourceGroupsInfix| && rest[i..][..|ResourceGroupsInfix|] == ResourceGroupsInfix
    ensures Scope(rest[..i], Some(rest[i..][|ResourceGroupsInfix|..])) == SubscriptionsPrefix + rest
  {
    var tail := rest[i..];
    var m := |ResourceGroupsInfix|;
    assert tail == ResourceGroupsInfix + tail[m..];
    assert rest == rest[..i] + tail;
    calc {
      Scope(rest[..i], Some(tail[m..]));
      SubscriptionsPrefix + rest[..i] + ResourceGroupsInfix + tail[m..];
      SubscriptionsPrefix + (rest[..i] + (ResourceGroupsInfix + tail[m..]));
    }
  }

  // ---------------------------------------------------------------------
  // Query payloads

  datatype Aggregation = Aggregation(name: string, func: string)

  datatype Grouping = Grouping(kind: string, name: string)

  datatype Dataset = Dataset(
    granularity: string,
    aggregation: map<string, Aggregation>,
    grouping: Option<seq<Grouping>>)

  datatype Payload = Payload(costType: string, timeframe: string, timePeriod: Window, dataset: Dataset)

  /** The sum of pre-tax cost, reported under `totalCost`. */
  const TotalCostAggregation := map["totalCost" := Aggregation("PreTaxCost", "Sum")]

  /** The payload of the first (total) query. */
  function BasePayload(granularity: string, window: Window): (p: Payload)
    ensures p.costType == "ActualCost" && p.timeframe == "Custom" && p.timePeriod == window
    ensures p.dataset.granularity == granularity
    ensures p.dataset.aggregation.Keys == {"totalCost"}
    ensures p.dataset.aggregation["totalCost"] == Aggregation("PreTaxCost", "Sum")
    ensures GroupingNames(p).None?
  {
    Payload("ActualCost", "Custom", window, Dataset(granularity, TotalCostAggregation, None))
  }

  /** The dimension names a payload groups by, in order; `None` when it is
      not grouped. */
  function GroupingNames(p: Payload): Option<seq<string>> {
    match p.dataset.grouping
    case None => None
    case Some(gs) => Some(seq(|gs|, i requires 0 <= i < |gs| => gs[i].name))
  }

  /** `payload["dataset"]["grouping"] = [...]`: the payload of the second
      query, one dimension clause per requested dimension. */
  function WithGrouping(p: Payload, dimensions: seq<string>): (r: Payload)
    ensures r.costType == p.costType && r.timeframe == p.timeframe && r.timePeriod == p.timePeriod
    ensures r.dataset.granularity == p.dataset.granularity
    ensures r.dataset.aggregation == p.dataset.aggregation
    ensures GroupingNames(r) == Some(dimensions)
    ensures r.dataset.grouping.Some? && forall g :: g in r.dataset.grouping.value ==> g.kind == "Dimension"
  {
    var clauses := seq(|dimensions|, i requires 0 <= i < |dimensions| => Grouping("Dimension", dimensions[i]));
    assert GroupingNames(p.(dataset := p.dataset.(grouping := Some(clauses)))).value == dimensions;
    p.(dataset := p.dataset.(grouping := Some(clauses)))
  }

  // ---------------------------------------------------------------------
  // Subscriptions

  datatype Subscription = Subscription(displayName: string, subscriptionId: string)

  /** `get_subscription_from_name`: the first subscription listed under
      exactly that display name, `None` when there is none. */
  function FindSubscription(subs: seq<Subscription>, name: string): (r: Option<Subscription>)
    ensures r.None? <==> forall i :: 0 <= i < |subs| ==> subs[i].displayName != name
    ensures r.Some? ==> exists i :: (0 <= i < |subs| && subs[i] == r.value && r.value.displayName == name
      && forall j :: 0 <= j < i ==> subs[j].displayName != name)
  {
    if subs == [] then None
    else if subs[0].displayName == name then Some(subs[0])
    else
      var r := FindSubscription(subs[1..], name);
      assert forall i :: 1 <= i < |subs| ==> subs[i] == subs[1..][i - 1];
      r
  }

  // ---------------------------------------------------------------------
  // get_usage

  datatype Usage = Usage(scope: string, totalQuery: Payload, groupedQuery: Payload)

  datatype UsageError =
    | WindowError(error: DateError)       // raised by `DateUtil.get_start_and_end`
    | SubscriptionNotFound(name: string)  // `None.subscription_id` raises AttributeError

  /** What `get_usage` sends to the cost query service: the scope and the
      two payloads. The window is computed before the subscription is
      dereferenced, so a window error takes precedence. */
  function GetUsage(subs: seq<Subscription>, subscriptionName: string, resourceGroup: Option<string>,
                    dimensions: seq<string>, ago: int, granularity: string, now: DateTime): (r: Result<Usage, UsageError>)
    requires ValidDateTime(now)
    ensures r.Err? && r.error.WindowError? <==> GetStartAndEnd(granularity, ago, now).Err?
    ensures r.Err? && r.error.SubscriptionNotFound? <==>
      GetStartAndEnd(granularity, ago, now).Ok? && forall i :: 0 <= i < |subs| ==> subs[i].displayName != subscriptionName
    ensures r.Ok? ==> exists i :: (0 <= i < |subs| && subs[i].displayName == subscriptionName
      && (forall j :: 0 <= j < i ==> subs[j].displayName != subscriptionName)
      && r.value.scope == Scope(subs[i].subscriptionId, resourceGroup))
    ensures r.Ok? ==> r.value.totalQuery == BasePayload(granularity, GetStartAndEnd(granularity, ago, now).value)
    ensures r.Ok? ==> r.value.groupedQuery == WithGrouping(r.value.totalQuery, dimensions)
    ensures var w := GetStartAndEnd(granularity, ago, now);
      w.Err? ==> r == Err(WindowError(w.error))
    ensures r.Err? && r.error.SubscriptionNotFound? ==> r.error == SubscriptionNotFound(subscriptionName)
  {
    var subscription := FindSubscription(subs, subscriptionName);
    match GetStartAndEnd(granularity, ago, now)
    case Err(e) => Err(WindowError(e))
    case Ok(window) =>
      match subscription
      case None => Err(SubscriptionNotFound(subscriptionName))
      case Some(sub) =>
        var payload := BasePayload(granularity, window);
        Ok(Usage(Scope(sub.subscriptionId, resourceGroup), payload, WithGrouping(payload, dimensions)))
  }

  /** Both payloads ask for the actual cost over a custom timeframe from the
      window's start to `now`, at the given granularity, summing pre-tax
      cost; the first is ungrouped, the second grouped by the requested
      dimensions in the requested order. */
  lemma UsagePayloads(subs: seq<Subscription>, subscriptionName: string, resourceGroup: Option<string>,
                      dimensions: seq<string>, ago: int, granularity: string, now: DateTime)
    requires ValidDateTime(now)
    requires GetUsage(subs, subscriptionName, resourceGroup, dimensions, ago, granularity, now).Ok?
    ensures var u := GetUsage(subs, subscriptionName, resourceGroup, dimensions, ago, granularity, now).value;
      forall p :: p in [u.totalQuery, u.groupedQuery] ==>
        && p.costType == "ActualCost" && p.timeframe == "Custom"
        && p.timePeriod.end == now
        && p.dataset.granularity == granularity
        && p.dataset.aggregation == map["totalCost" := Aggregation("PreTaxCost", "Sum")]
    ensures var u := GetUsage(subs, subscriptionName, resourceGroup, dimensions, ago, granularity, now).value;
      && GroupingNames(u.totalQuery).None?
      && GroupingNames(u.groupedQuery) == Some(dimensions)
  {
  }

  // ---------------------------------------------------------------------
  // convert_tabulate

  /** The sorted rows handed to `tabulate`, and the period column they are
      sorted by. */
  datatype Table = Table(rows: seq<PivotRow>, sortColumn: string)

  /** The entries of the total rows followed by those of the grouped rows,
      or the error of the first row that fails. */
  function PivotEntries(granularity: string, totals: seq<Row>, results: seq<Row>): Result<seq<Entry>, PivotError> {
    match EntriesOf(granularity, false, totals)
    case Err(e) => Err(e)
    case Ok(te) =>
      match EntriesOf(granularity, true, results)
      case Err(e) => Err(e)
      case Ok(ge) => Ok(te + ge)
  }

  /** The entry of the `i`th row of the total rows followed by the grouped rows. */
  function EntryAt(granularity: string, totals: seq<Row>, results: seq<Row>, i: nat): Result<Entry, PivotError>
    requires i < |totals| + |results|
  {
    if i < |totals| then RowEntry(granularity, false, totals[i])
    else RowEntry(granularity, true, results[i - |totals|])
  }

  /** The pivot has entries exactly when every timestamp parses and every
      grouped row has a third column. */
  lemma PivotEntriesDefined(granularity: string, totals: seq<Row>, results: seq<Row>)
    ensures PivotEntries(granularity, totals, results).Ok? <==>
      && (forall i :: 0 <= i < |totals| ==> Parse(totals[i].stamp).Some?)
      && (forall j :: 0 <= j < |results| ==> Parse(results[j].stamp).Some? && |results[j].rest| > 0)
  {
    if EntriesOf(granularity, false, totals).Err? {
      var i :| 0 <= i < |totals| && RowEntry(granularity, false, totals[i]).Err?;
    } else if EntriesOf(granularity, true, results).Err? {
      var j :| 0 <= j < |results| && RowEntry(granularity, true, results[j]).Err?;
    }
  }

  /** Every total row lands under `"total"` and every grouped row under its
      third column, each at its period label with its own cost. */
  lemma EntryPlacement(granularity: string, totals: seq<Row>, results: seq<Row>)
    requires PivotEntries(granularity, totals, results).Ok?
    ensures var es := PivotEntries(granularity, totals, results).value;
      && |es| == |totals| + |results|
      && (forall i :: 0 <= i < |totals| ==>
            es[i] == Entry(TotalKey, totals[i].stamp[..LabelWidth(granularity)], totals[i].cost))
      && (forall j :: 0 <= j < |results| ==>
            es[|totals| + j] == Entry(results[j].rest[0], results[j].stamp[..LabelWidth(granularity)], results[j].cost))
  {
    var te := EntriesOf(granularity, false, totals).value;
    var ge := EntriesOf(granularity, true, results).value;
    RowsPlaced(granularity, false, totals);
    RowsPlaced(granularity, true, results);
    assert forall i :: 0 <= i < |totals| ==> (te + ge)[i] == te[i];
    assert forall j :: 0 <= j < |results| ==> (te + ge)[|totals| + j] == ge[j];
  }

  lemma RowsPlaced(granularity: string, grouped: bool, rows: seq<Row>)
    requires EntriesOf(granularity, grouped, rows).Ok?
    ensures forall i :: 0 <= i < |rows| ==> grouped ==> |rows[i].rest| > 0
    ensures var es := EntriesOf(granularity, grouped, rows).value;
      forall i :: 0 <= i < |rows| ==>
        es[i] == Entry(if grouped then rows[i].rest[0] else TotalKey, rows[i].stamp[..LabelWidth(granularity)], rows[i].cost)
  {
    var es := EntriesOf(granularity, grouped, rows).value;
    forall i | 0 <= i < |rows|
      ensures grouped ==> |rows[i].rest| > 0
      ensures es[i] == Entry(if grouped then rows[i].rest[0] else TotalKey, rows[i].stamp[..LabelWidth(granularity)], rows[i].cost)
    {
      assert RowEntry(granularity, grouped, rows[i]).Ok?;
    }
  }

  /** Every total row shows up in the `"total"` pivot row under its period
      label, with its own cost unless a later row lands on the same key and
      label. */
  lemma TotalRowInPivot(granularity: string, totals: seq<Row>, results: seq<Row>, i: nat)
    requires PivotEntries(granularity, totals, results).Ok? && i < |totals|
    ensures |totals[i].stamp| >= LabelWidth(granularity)
    ensures var es := PivotEntries(granularity, totals, results).value;
      var period := totals[i].stamp[..LabelWidth(granularity)];
      exists r :: (0 <= r < |PivotRows(es)| && PivotRows(es)[r].key == TotalKey
        && period in PivotRows(es)[r].cells.vals
        && ((forall j :: i < j < |es| ==> !(es[j].key == TotalKey && es[j].period == period))
            ==> PivotRows(es)[r].cells.vals[period] == totals[i].cost))
  {
    PivotEntriesDefined(granularity, totals, results);
    EntryPlacement(granularity, totals, results);
    EntryInPivot(PivotEntries(granularity, totals, results).value, i);
  }

  /** Every grouped row shows up in the pivot row of its third column under
      its period label, with its own cost unless a later row lands on the
      same key and label. */
  lemma GroupedRowInPivot(granularity: string, totals: seq<Row>, results: seq<Row>, j: nat)
    requires PivotEntries(granularity, totals, results).Ok? && j < |results|
    ensures |results[j].rest| > 0 && |results[j].stamp| >= LabelWidth(granularity)
    ensures var es := PivotEntries(granularity, totals, results).value;
      var key := results[j].rest[0];
      var period := results[j].stamp[..LabelWidth(granularity)];
      var n := |totals| + j;
      exists r :: (0 <= r < |PivotRows(es)| && PivotRows(es)[r].key == key
        && period in PivotRows(es)[r].cells.vals
        && ((forall m :: n < m < |es| ==> !(es[m].key == key && es[m].period == period))
            ==> PivotRows(es)[r].cells.vals[period] == results[j].cost))
  {
    PivotEntriesDefined(granularity, totals, results);
    EntryPlacement(granularity, totals, results);
    EntryInPivot(PivotEntries(granularity, totals, results).value, |totals| + j);
  }

  /** A failure reports the first failing row, total rows first. */
  lemma FirstErrorReported(granularity: string, totals: seq<Row>, results: seq<Row>)
    requires PivotEntries(granularity, totals, results).Err?
    ensures exists i :: (0 <= i < |totals| + |results|
      && EntryAt(granularity, totals, results, i) == Err(PivotEntries(granularity, totals, results).error)
      && forall j :: 0 <= j < i ==> EntryAt(granularity, totals, results, j).Ok?)
  {
    if EntriesOf(granularity, false, totals).Err? {
      FirstErrorInTotals(granularity, totals, results);
    } else {
      FirstErrorInResults(granularity, totals, results);
    }
  }

  lemma FirstErrorInTotals(granularity: string, totals: seq<Row>, results: seq<Row>)
    requires EntriesOf(granularity, false, totals).Err?
    ensures exists i :: (0 <= i < |totals| + |results|
      && EntryAt(granularity, totals, results, i) == Err(EntriesOf(granularity, false, totals).error)
      && forall j :: 0 <= j < i ==> EntryAt(granularity, totals, results, j).Ok?)
  {
    var e := EntriesOf(granularity, false, totals).error;
    var i := FirstBadRow(granularity, false, totals);
    assert EntryAt(granularity, totals, results, i) == Err(e);
    assert forall j :: 0 <= j < i ==> EntryAt(granularity, totals, results, j) == RowEntry(granularity, false, totals[j]);
  }

  lemma FirstErrorInResults(granularity: string, totals: seq<Row>, results: seq<Row>)
    requires EntriesOf(granularity, false, totals).Ok?
    requires EntriesOf(granularity, true, results).Err?
    ensures exists i :: (0 <= i < |totals| + |results|
      && EntryAt(granularity, totals, results, i) == Err(EntriesOf(granularity, true, results).error)
      && forall j :: 0 <= j < i ==> EntryAt(granularity, totals, results, j).Ok?)
  {
    var e := EntriesOf(granularity, true, results).error;
    var k := FirstBadRow(granularity, true, results);
    EntriesBeforeOk(granularity, totals, results, k);
    var i := |totals| + k;
    assert EntryAt(granularity, totals, results, i) == Err(e);
    assert 0 <= i < |totals| + |results|
      && EntryAt(granularity, totals, results, i) == Err(e)
      && forall j :: 0 <= j < i ==> EntryAt(granularity, totals, results, j).Ok?;
  }

  lemma FirstBadRow(granularity: string, grouped: bool, rows: seq<Row>) returns (k: nat)
    requires EntriesOf(granularity, grouped, rows).Err?
    ensures k < |rows| && RowEntry(granularity, grouped, rows[k]) == Err(EntriesOf(granularity, grouped, rows).error)
    ensures forall j :: 0 <= j < k ==> RowEntry(granularity, grouped, rows[j]).Ok?
  {
    k :| 0 <= k < |rows| && RowEntry(granularity, grouped, rows[k]) == Err(EntriesOf(granularity, grouped, rows).error)
      && forall j :: 0 <= j < k ==> RowEntry(granularity, grouped, rows[j]).Ok?;
  }

  lemma EntriesBeforeOk(granularity: string, totals: seq<Row>, results: seq<Row>, k: nat)
    requires EntriesOf(granularity, false, totals).Ok?
    requires k <= |results| && forall j :: 0 <= j < k ==> RowEntry(granularity, true, results[j]).Ok?
    ensures forall j :: 0 <= j < |totals| + k ==> EntryAt(granularity, totals, results, j).Ok?
  {
    forall j | 0 <= j < |totals| + k
      ensures EntryAt(granularity, totals, results, j).Ok?
    {
      if j < |totals| {
        assert EntryAt(granularity, totals, results, j) == RowEntry(granularity, false, totals[j]);
      } else {
        assert EntryAt(granularity, totals, results, j) == RowEntry(granularity, true, results[j - |totals|]);
      }
    }
  }

  function Last(s: seq<string>): string
    requires |s| > 0
  {
    s[|s| - 1]
  }

  /** `convert_tabulate` up to the `tabulate` call: the pivot rows, sorted
      non-increasingly by their cost in the last period column of the first
      pivot row, rows of equal cost in pivot order. */
  function ConvertTabulate(granularity: string, totals: seq<Row>, results: seq<Row>): (r: Result<Table, PivotError>)
    ensures PivotEntries(granularity, totals, results).Err? ==> r == Err(PivotEntries(granularity, totals, results).error)
    ensures PivotEntries(granularity, totals, results).Ok? ==>
      if totals == [] && results == [] then r == Err(NoRows) else r.Ok?
    ensures r.Ok? ==> var es := PivotEntries(granularity, totals, results).value;
      && |es| > 0
      && r.value.sortColumn == FirstKeyLastPeriod(es)
      && NonIncreasing(r.value.rows, r.value.sortColumn)
      && multiset(r.value.rows) == multiset(PivotRows(es))
      && forall v :: WithValue(r.value.rows, r.value.sortColumn, v) == WithValue(PivotRows(es), r.value.sortColumn, v)
  {
    match PivotEntries(granularity, totals, results)
    case Err(e) => Err(e)
    case Ok(es) =>
      if es == [] then
        EntryCount(granularity, totals, results);
        Err(NoRows)
      else
        var pivot := PivotRows(es);
        FirstPivotRow(es);
        var col := Last(pivot[0].cells.order);
        SortDescStable(pivot, col);
        EntryCount(granularity, totals, results);
        Ok(Table(SortDesc(pivot, col), col))
  }

  lemma EntryCount(granularity: string, totals: seq<Row>, results: seq<Row>)
    requires PivotEntries(granularity, totals, results).Ok?
    ensures |PivotEntries(granularity, totals, results).value| == |totals| + |results|
  {
  }

  /** With at least one total row the first key is `"total"`, so the sort
      column is the last period first seen under that key: from the total
      rows and from any grouped row whose third column is `"total"`. */
  lemma SortColumnOfTotals(granularity: string, totals: seq<Row>, results: seq<Row>)
    requires totals != []
    requires ConvertTabulate(granularity, totals, results).Ok?
    ensures var es := PivotEntries(granularity, totals, results).value;
      && es[0].key == TotalKey
      && ConvertTabulate(granularity, totals, results).value.sortColumn == FirstKeyLastPeriod(es)
  {
    EntryPlacement(granularity, totals, results);
  }
}
