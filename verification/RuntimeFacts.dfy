/**
 From a collector snapshot to billed request rows (src/mcp/execution/runtime-facts.ts, build.ts
 and pricing.ts).
 */
module RuntimeFacts {
  import opened Wrappers
  import opened JsText
  import opened Telemetry

  type Pair = (Text, Text)

  datatype Row = Row(service: Text, action: Text, region: Option<Text>, requestCount: nat, unitCost: Option<real>) {
    function Pair(): Pair { (service, action) }
  }

  function PairOf(registry: Registry, capability: Text): Pair
    requires capability in registry
  {
    (registry[capability].service, registry[capability].action)
  }

  function EmptyRow(registry: Registry, capability: Text): Row
    requires capability in registry
  {
    var c := registry[capability];
    Row(c.service, c.action, None, 0, c.unitCost)
  }

  predicate Registered(registry: Registry, capabilities: seq<Text>) {
    forall i :: 0 <= i < |capabilities| ==> capabilities[i] in registry
  }

  function EmptyRows(registry: Registry, capabilities: seq<Text>): (rows: seq<Row>)
    requires Registered(registry, capabilities)
    ensures |rows| == |capabilities|
    ensures forall i :: 0 <= i < |rows| ==> rows[i] == EmptyRow(registry, capabilities[i])
  {
    seq(|capabilities|, i requires 0 <= i < |capabilities| => EmptyRow(registry, capabilities[i]))
  }

  /** The first row of a pair, or the number of rows when there is none. */
  function FindRow(rows: seq<Row>, pair: Pair): (i: nat)
    ensures i <= |rows|
    ensures forall j :: 0 <= j < i ==> rows[j].Pair() != pair
    ensures i < |rows| ==> rows[i].Pair() == pair
  {
    if rows == [] || rows[0].Pair() == pair then 0 else 1 + FindRow(rows[1..], pair)
  }

  function MergeOne(registry: Registry, rows: seq<Row>, r: Recorded): seq<Row>
    requires r.capability in registry
  {
    var i := FindRow(rows, PairOf(registry, r.capability));
    if i < |rows| then
      var row := rows[i];
      rows[i := row.(requestCount := row.requestCount + r.requestCount,
                     region := if r.region.Some? && row.region.None? then r.region else row.region)]
    else
      var c := registry[r.capability];
      rows + [Row(c.service, c.action, r.region, r.requestCount, c.unitCost)]
  }

  function Merge(registry: Registry, rows: seq<Row>, rs: seq<Recorded>): seq<Row>
    requires AllKnown(registry, rs)
    decreases |rs|
  {
    if rs == [] then rows else Merge(registry, MergeOne(registry, rows, rs[0]), rs[1..])
  }

  /** The recorded requests of a pair. */
  function Total(registry: Registry, rs: seq<Recorded>, pair: Pair): nat
    requires AllKnown(registry, rs)
  {
    if rs == [] then 0
    else (if PairOf(registry, rs[0].capability) == pair then rs[0].requestCount else 0) + Total(registry, rs[1..], pair)
  }

  function BackFillRow(registry: Registry, rs: seq<Recorded>, row: Row): Row
    requires AllKnown(registry, rs)
  {
    var total := Total(registry, rs, row.Pair());
    if row.requestCount == 0 && total > 0 then row.(requestCount := total) else row
  }

  function BackFill(registry: Registry, rs: seq<Recorded>, rows: seq<Row>): (r: seq<Row>)
    requires AllKnown(registry, rs)
    ensures |r| == |rows|
    ensures forall i :: 0 <= i < |rows| ==> r[i] == BackFillRow(registry, rs, rows[i])
  {
    seq(|rows|, i requires 0 <= i < |rows| => BackFillRow(registry, rs, rows[i]))
  }

  datatype Facts = Facts(cacheStatus: Option<CacheStatus>, awsRequests: seq<Row>)

  function FactsRows(registry: Registry, capabilities: seq<Text>, rs: seq<Recorded>): seq<Row>
    requires Registered(registry, capabilities) && AllKnown(registry, rs)
  {
    BackFill(registry, rs, Merge(registry, EmptyRows(registry, capabilities), rs))
  }

  /** The manifest rows, or the first unregistered capability. */
  method InitialRows(registry: Registry, capabilities: seq<Text>) returns (r: Result<seq<Row>, Text>)
    ensures if Registered(registry, capabilities) then r == Success(EmptyRows(registry, capabilities)) else r.Failure?
  {
    var rows: seq<Row> := [];
    for i := 0 to |capabilities|
      invariant Registered(registry, capabilities[..i])
      invariant rows == EmptyRows(registry, capabilities[..i])
    {
      if capabilities[i] !in registry {
        return Failure(capabilities[i]);
      }
      rows := rows + [EmptyRow(registry, capabilities[i])];
    }
    assert capabilities[..|capabilities|] == capabilities;
    return Success(rows);
  }

  method MergeRecorded(registry: Registry, empty: seq<Row>, rs: seq<Recorded>) returns (r: Result<seq<Row>, Text>)
    ensures if AllKnown(registry, rs) then r == Success(Merge(registry, empty, rs)) else r.Failure?
  {
    var rows := empty;
    for i := 0 to |rs|
      invariant AllKnown(registry, rs[..i])
      invariant AllKnown(registry, rs) ==> Merge(registry, rows, rs[i..]) == Merge(registry, empty, rs)
    {
      if rs[i].capability !in registry {
        return Failure(rs[i].capability);
      }
      assert AllKnown(registry, rs) ==> rs[i..][1..] == rs[i + 1..];
      rows := MergeOne(registry, rows, rs[i]);
    }
    assert rs[..|rs|] == rs;
    return Success(rows);
  }

  method TotalForPair(registry: Registry, rs: seq<Recorded>, pair: Pair) returns (total: nat)
    requires AllKnown(registry, rs)
    ensures total == Total(registry, rs, pair)
  {
    total := 0;
    for j := 0 to |rs|
      invariant total + Total(registry, rs[j..], pair) == Total(registry, rs, pair)
    {
      assert rs[j..][1..] == rs[j + 1..];
      if PairOf(registry, rs[j].capability) == pair {
        total := total + rs[j].requestCount;
      }
    }
  }

  method BackFillRows(registry: Registry, rs: seq<Recorded>, merged: seq<Row>) returns (rows: seq<Row>)
    requires AllKnown(registry, rs)
    ensures rows == BackFill(registry, rs, merged)
  {
    rows := merged;
    for i := 0 to |rows|
      invariant |rows| == |merged|
      invariant forall j :: 0 <= j < i ==> rows[j] == BackFillRow(registry, rs, merged[j])
      invariant forall j :: i <= j < |rows| ==> rows[j] == merged[j]
    {
      if rows[i].requestCount > 0 {
        continue;
      }
      var total := TotalForPair(registry, rs, rows[i].Pair());
      if total > 0 {
        rows := rows[i := rows[i].(requestCount := total)];
      }
    }
  }

  /** buildRuntimeFactsFromSnapshot: the merge loop, then the back-fill loop. */
  method BuildRuntimeFacts(registry: Registry, capabilities: seq<Text>, snapshot: Snapshot)
    returns (r: Result<Facts, Text>)
    ensures if Registered(registry, capabilities) && AllKnown(registry, snapshot.awsRequests)
            then r == Success(Facts(Resolve(snapshot.cacheStatuses),
                                    FactsRows(registry, capabilities, snapshot.awsRequests)))
            else r.Failure?
  {
    var empty := InitialRows(registry, capabilities);
    if empty.Failure? {
      return Failure(empty.error);
    }
    var merged := MergeRecorded(registry, empty.value, snapshot.awsRequests);
    if merged.Failure? {
      return Failure(merged.error);
    }
    var rows := BackFillRows(registry, snapshot.awsRequests, merged.value);
    var status := None;
    if |snapshot.cacheStatuses| > 0 {
      status := FindStatus(snapshot.cacheStatuses);
    }
    return Success(Facts(status, rows));
  }

  /** `priority.find(...)` of the facts builder agrees with the collector's own search. */
  method FindStatus(statuses: seq<CacheStatus>) returns (r: Option<CacheStatus>)
    requires statuses != []
    ensures r == Resolve(statuses)
  {
    var p := CACHE_STATUS_PRIORITY;
    assert p[0] == Miss && p[1] == Bypass && p[2] == Unavailable && p[3] == Hit && p[4] == Disabled;
    ghost var first := statuses[0];
    assert first.Miss? || first.Bypass? || first.Unavailable? || first.Hit? || first.Disabled?;
    assert first == p[0] || first == p[1] || first == p[2] || first == p[3] || first == p[4];
    for i := 0 to |p|
      invariant forall j :: 0 <= j < i ==> p[j] !in statuses
    {
      if p[i] in statuses {
        return Some(p[i]);
      }
    }
    assert false;
  }

  // ----- what the merge and back-fill loops compute

  ghost predicate IsFirst(rows: seq<Row>, i: nat)
    requires i < |rows|
  {
    forall j :: 0 <= j < i ==> rows[j].Pair() != rows[i].Pair()
  }

  ghost predicate HasPair(rows: seq<Row>, pair: Pair) {
    exists i :: 0 <= i < |rows| && rows[i].Pair() == pair
  }

  lemma MergeOneStep(registry: Registry, rows: seq<Row>, r: Recorded)
    requires r.capability in registry
    ensures var pair := PairOf(registry, r.capability);
            var next, at := MergeOne(registry, rows, r), FindRow(rows, pair);
            && |next| == (if at < |rows| then |rows| else |rows| + 1)
            && next[at].Pair() == pair && IsFirst(next, at)
            && (at == |rows| ==> next[at].requestCount == r.requestCount)
            && (forall i :: 0 <= i < |rows| ==>
                  && next[i].Pair() == rows[i].Pair() && IsFirst(next, i) == IsFirst(rows, i)
                  && next[i].requestCount == rows[i].requestCount +
                     if IsFirst(rows, i) && rows[i].Pair() == pair then r.requestCount else 0)
  {
  }

  lemma {:induction false} Merged(registry: Registry, rows: seq<Row>, rs: seq<Recorded>)
    requires AllKnown(registry, rs)
    ensures var final := Merge(registry, rows, rs);
            && |final| >= |rows|
            && (forall i :: 0 <= i < |rows| ==>
                  && final[i].Pair() == rows[i].Pair()
                  && final[i].requestCount == rows[i].requestCount
                     + if IsFirst(rows, i) then Total(registry, rs, rows[i].Pair()) else 0)
            && (forall i :: |rows| <= i < |final| ==>
                  && IsFirst(final, i) && final[i].requestCount == Total(registry, rs, final[i].Pair()))
    decreases |rs|
  {
    if rs != [] {
      var pair := PairOf(registry, rs[0].capability);
      var next, at := MergeOne(registry, rows, rs[0]), FindRow(rows, pair);
      var rest := rs[1..];
      MergeOneStep(registry, rows, rs[0]);
      Merged(registry, next, rest);
      var final := Merge(registry, next, rest);
      assert final[at].Pair() == pair;
      if at == |rows| {
        assert IsFirst(final, at);
      }
    }
  }

  /** Every recorded pair has a row after the merge. */
  lemma {:induction false} MergedCovers(registry: Registry, rows: seq<Row>, rs: seq<Recorded>)
    requires AllKnown(registry, rs)
    ensures forall k :: 0 <= k < |rs| ==> HasPair(Merge(registry, rows, rs), PairOf(registry, rs[k].capability))
    decreases |rs|
  {
    if rs != [] {
      var next, at := MergeOne(registry, rows, rs[0]), FindRow(rows, PairOf(registry, rs[0].capability));
      var final := Merge(registry, next, rs[1..]);
      MergeOneStep(registry, rows, rs[0]);
      Merged(registry, next, rs[1..]);
      MergedCovers(registry, next, rs[1..]);
      assert final[at].Pair() == PairOf(registry, rs[0].capability);
      forall k | 0 <= k < |rs|
        ensures HasPair(final, PairOf(registry, rs[k].capability))
      {
        assert k > 0 ==> rs[k] == rs[1..][k - 1];
      }
    }
  }

  /** After both loops every row reports exactly the recorded total of its pair. */
  lemma RowsReportTotals(registry: Registry, capabilities: seq<Text>, rs: seq<Recorded>)
    requires Registered(registry, capabilities) && AllKnown(registry, rs)
    ensures var rows := FactsRows(registry, capabilities, rs);
            && |rows| >= |capabilities|
            && (forall i :: 0 <= i < |rows| ==> rows[i].requestCount == Total(registry, rs, rows[i].Pair()))
            && (forall i :: 0 <= i < |capabilities| ==> rows[i].Pair() == PairOf(registry, capabilities[i]))
            && (forall i :: |capabilities| <= i < |rows| ==> IsFirst(rows, i))
            && (forall k :: 0 <= k < |rs| ==> HasPair(rows, PairOf(registry, rs[k].capability)))
  {
    var empty := EmptyRows(registry, capabilities);
    var merged := Merge(registry, empty, rs);
    var rows := FactsRows(registry, capabilities, rs);
    Merged(registry, empty, rs);
    MergedCovers(registry, empty, rs);
    assert forall i :: 0 <= i < |rows| ==> rows[i].Pair() == merged[i].Pair();
    forall i | |capabilities| <= i < |rows|
      ensures IsFirst(rows, i)
    {
      assert IsFirst(merged, i);
    }
    forall k | 0 <= k < |rs|
      ensures HasPair(rows, PairOf(registry, rs[k].capability))
    {
      var i :| 0 <= i < |merged| && merged[i].Pair() == PairOf(registry, rs[k].capability);
      assert rows[i].Pair() == merged[i].Pair();
    }
  }

  // ----- the region of a row

  /** The first region that was recorded with the pair. */
  function FirstRegion(registry: Registry, rs: seq<Recorded>, pair: Pair): (r: Option<Text>)
    requires AllKnown(registry, rs)
    ensures r.None? <==> forall k :: 0 <= k < |rs| && PairOf(registry, rs[k].capability) == pair ==> rs[k].region.None?
    ensures r.Some? ==> exists k ::
                          && 0 <= k < |rs| && PairOf(registry, rs[k].capability) == pair && rs[k].region == r
                          && forall j :: 0 <= j < k && PairOf(registry, rs[j].capability) == pair ==> rs[j].region.None?
  {
    if rs == [] then None
    else if PairOf(registry, rs[0].capability) == pair && rs[0].region.Some? then rs[0].region
    else
      var r := FirstRegion(registry, rs[1..], pair);
      assert forall k :: 0 < k < |rs| ==> rs[k] == rs[1..][k - 1];
      r
  }

  lemma {:induction false} MergedRegions(registry: Registry, rows: seq<Row>, rs: seq<Recorded>)
    requires AllKnown(registry, rs)
    ensures var final := Merge(registry, rows, rs);
            && |final| >= |rows|
            && forall i :: 0 <= i < |final| ==>
                 final[i].region ==
                 if i < |rows| && (rows[i].region.Some? || !IsFirst(rows, i)) then rows[i].region
                 else FirstRegion(registry, rs, final[i].Pair())
    decreases |rs|
  {
    if rs != [] {
      var pair := PairOf(registry, rs[0].capability);
      var next, at := MergeOne(registry, rows, rs[0]), FindRow(rows, pair);
      MergeOneStep(registry, rows, rs[0]);
      Merged(registry, next, rs[1..]);
      MergedRegions(registry, next, rs[1..]);
    }
  }

  /** Every first row of a pair reports the first region recorded with the pair, and a repeated manifest row none. */
  lemma RowsReportRegions(registry: Registry, capabilities: seq<Text>, rs: seq<Recorded>)
    requires Registered(registry, capabilities) && AllKnown(registry, rs)
    ensures var rows := FactsRows(registry, capabilities, rs);
            forall i :: 0 <= i < |rows| ==>
              rows[i].region == if IsFirst(rows, i) then FirstRegion(registry, rs, rows[i].Pair()) else None
  {
    var empty := EmptyRows(registry, capabilities);
    var merged, rows := Merge(registry, empty, rs), FactsRows(registry, capabilities, rs);
    MergedRegions(registry, empty, rs);
    Merged(registry, empty, rs);
    RowsReportTotals(registry, capabilities, rs);
    forall i | 0 <= i < |rows|
      ensures rows[i].region == if IsFirst(rows, i) then FirstRegion(registry, rs, rows[i].Pair()) else None
    {
      assert forall j :: 0 <= j < |rows| ==> rows[j].Pair() == merged[j].Pair();
      if i < |empty| {
        assert IsFirst(empty, i) <==> IsFirst(rows, i);
      }
    }
  }
}
