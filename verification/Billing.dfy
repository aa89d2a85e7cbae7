/**
 Conservation of request counts, independence from the interleaving of recorders, and when a
 call is charged.
 */
module Billing {
  import opened Wrappers
  import opened JsText
  import opened Sequences
  import opened Telemetry
  import opened RuntimeFacts

  // ----- src/mcp/execution/build.ts and pricing.ts

  function SumRequestCounts(rows: seq<Row>): nat {
    if rows == [] then 0 else rows[0].requestCount + SumRequestCounts(rows[1..])
  }

  function RowCost(row: Row): real {
    if row.requestCount == 0 || row.unitCost.None? then 0.0 else row.requestCount as real * row.unitCost.value
  }

  function EstimateCostUsd(rows: seq<Row>): real {
    if rows == [] then 0.0 else RowCost(rows[0]) + EstimateCostUsd(rows[1..])
  }

  predicate ShouldCharge(status: CacheStatus) {
    status == Miss || status == Bypass
  }

  datatype Metadata = Metadata(awsRequests: seq<Row>, awsRequestCount: nat, charged: bool, estimatedCostUsd: real)

  /** The counts, cost and charged flag of buildAwsExecutionMetadataFromManifest for an AWS-backed tool. */
  function BuildMetadata(facts: Facts): Metadata {
    var cost := EstimateCostUsd(facts.awsRequests);
    var charged := facts.cacheStatus.Some? && ShouldCharge(facts.cacheStatus.value) && cost > 0.0;
    Metadata(facts.awsRequests, SumRequestCounts(facts.awsRequests), charged, if charged then cost else 0.0)
  }

  // ----- conservation

  function RecordedTotal(rs: seq<Recorded>): nat {
    if rs == [] then 0 else rs[0].requestCount + RecordedTotal(rs[1..])
  }

  /** How many rows a pair has. */
  function Mult(rows: seq<Row>, pair: Pair): nat {
    if rows == [] then 0 else (if rows[0].Pair() == pair then 1 else 0) + Mult(rows[1..], pair)
  }

  /** The recorded requests, each counted once for every row its pair is given. */
  function Reported(registry: Registry, rows: seq<Row>, rs: seq<Recorded>): nat
    requires AllKnown(registry, rs)
  {
    if rs == [] then 0
    else rs[0].requestCount * Mult(rows, PairOf(registry, rs[0].capability)) + Reported(registry, rows, rs[1..])
  }

  function SumOfTotals(registry: Registry, rows: seq<Row>, rs: seq<Recorded>): nat
    requires AllKnown(registry, rs)
  {
    if rows == [] then 0 else Total(registry, rs, rows[0].Pair()) + SumOfTotals(registry, rows[1..], rs)
  }

  lemma OneMore(c: nat, m: nat)
    ensures c * (1 + m) == c + c * m
  {
  }

  lemma {:induction false} SumOfTotalsStep(registry: Registry, rows: seq<Row>, rs: seq<Recorded>)
    requires AllKnown(registry, rs) && rs != []
    ensures SumOfTotals(registry, rows, rs) ==
            rs[0].requestCount * Mult(rows, PairOf(registry, rs[0].capability)) + SumOfTotals(registry, rows, rs[1..])
  {
    if rows != [] {
      SumOfTotalsStep(registry, rows[1..], rs);
      OneMore(rs[0].requestCount, Mult(rows[1..], PairOf(registry, rs[0].capability)));
    }
  }

  lemma {:induction false} SumOfTotalsIsReported(registry: Registry, rows: seq<Row>, rs: seq<Recorded>)
    requires AllKnown(registry, rs)
    ensures SumOfTotals(registry, rows, rs) == Reported(registry, rows, rs)
  {
    if rs == [] {
      NoRecordings(registry, rows);
    } else {
      SumOfTotalsStep(registry, rows, rs);
      SumOfTotalsIsReported(registry, rows, rs[1..]);
    }
  }

  lemma {:induction false} NoRecordings(registry: Registry, rows: seq<Row>)
    ensures SumOfTotals(registry, rows, []) == 0
  {
    if rows != [] {
      NoRecordings(registry, rows[1..]);
    }
  }

  lemma {:induction false} SumWhenRowsReportTotals(registry: Registry, rows: seq<Row>, rs: seq<Recorded>)
    requires AllKnown(registry, rs)
    requires forall i :: 0 <= i < |rows| ==> rows[i].requestCount == Total(registry, rs, rows[i].Pair())
    ensures SumRequestCounts(rows) == SumOfTotals(registry, rows, rs)
  {
    if rows != [] {
      SumWhenRowsReportTotals(registry, rows[1..], rs);
    }
  }

  lemma {:induction false} MultAppend(a: seq<Row>, b: seq<Row>, pair: Pair)
    ensures Mult(a + b, pair) == Mult(a, pair) + Mult(b, pair)
  {
    if a == [] {
      assert a + b == b;
    } else {
      assert (a + b)[1..] == a[1..] + b;
      MultAppend(a[1..], b, pair);
    }
  }

  lemma {:induction false} MultSamePairs(a: seq<Row>, b: seq<Row>, pair: Pair)
    requires |a| == |b| && forall i :: 0 <= i < |a| ==> a[i].Pair() == b[i].Pair()
    ensures Mult(a, pair) == Mult(b, pair)
  {
    if a != [] {
      MultSamePairs(a[1..], b[1..], pair);
    }
  }

  lemma {:induction false} MultPositive(rows: seq<Row>, pair: Pair)
    ensures Mult(rows, pair) > 0 <==> HasPair(rows, pair)
  {
    if rows != [] {
      MultPositive(rows[1..], pair);
      if i :| 0 <= i < |rows| && rows[i].Pair() == pair {
        assert i > 0 ==> rows[1..][i - 1].Pair() == pair;
      }
      if HasPair(rows[1..], pair) {
        var i :| 0 <= i < |rows[1..]| && rows[1..][i].Pair() == pair;
        assert rows[i + 1].Pair() == pair;
      }
    }
  }

  /** Rows that are all the first of their pair add at most one row to it. */
  lemma {:induction false} MultOfFirsts(head: seq<Row>, tail: seq<Row>, pair: Pair)
    requires forall i :: |head| <= i < |head + tail| ==> IsFirst(head + tail, i)
    ensures Mult(head, pair) > 0 ==> Mult(tail, pair) == 0
    ensures Mult(tail, pair) <= 1
    decreases |tail|
  {
    if tail != [] {
      var more := head + [tail[0]];
      assert head + tail == more + tail[1..];
      MultOfFirsts(more, tail[1..], pair);
      MultAppend(head, [tail[0]], pair);
      assert Mult([tail[0]], pair) == if tail[0].Pair() == pair then 1 else 0;
      MultPositive(head, pair);
      assert IsFirst(head + tail, |head|);
      assert forall i :: 0 <= i < |head| ==> (head + tail)[i] == head[i];
    }
  }

  lemma MultSplit(rows: seq<Row>, n: nat, pair: Pair)
    requires n <= |rows|
    ensures Mult(rows, pair) == Mult(rows[..n], pair) + Mult(rows[n..], pair)
  {
    assert rows == rows[..n] + rows[n..];
    MultAppend(rows[..n], rows[n..], pair);
  }

  lemma MultOfNewRows(rows: seq<Row>, n: nat, pair: Pair)
    requires n <= |rows| && forall i :: n <= i < |rows| ==> IsFirst(rows, i)
    ensures Mult(rows[..n], pair) > 0 ==> Mult(rows[n..], pair) == 0
    ensures Mult(rows[n..], pair) <= 1
  {
    assert rows == rows[..n] + rows[n..];
    MultOfFirsts(rows[..n], rows[n..], pair);
  }

  /** A recorded pair gets one row per manifest capability that maps to it, and one row if there is none. */
  lemma RowsOfPair(registry: Registry, capabilities: seq<Text>, rs: seq<Recorded>, k: nat)
    requires Registered(registry, capabilities) && AllKnown(registry, rs) && k < |rs|
    ensures var pair := PairOf(registry, rs[k].capability);
            var manifest := Mult(EmptyRows(registry, capabilities), pair);
            Mult(FactsRows(registry, capabilities, rs), pair) == if manifest == 0 then 1 else manifest
  {
    var pair := PairOf(registry, rs[k].capability);
    var empty, rows := EmptyRows(registry, capabilities), FactsRows(registry, capabilities, rs);
    RowsReportTotals(registry, capabilities, rs);
    var n := |capabilities|;
    MultSplit(rows, n, pair);
    MultSamePairs(rows[..n], empty, pair);
    MultOfNewRows(rows, n, pair);
    MultPositive(rows, pair);
  }

  /** The reported request count: each recorded request once per row of its pair. */
  lemma ReportedCount(registry: Registry, capabilities: seq<Text>, rs: seq<Recorded>, status: Option<CacheStatus>)
    requires Registered(registry, capabilities) && AllKnown(registry, rs)
    ensures var rows := FactsRows(registry, capabilities, rs);
            BuildMetadata(Facts(status, rows)).awsRequestCount == Reported(registry, rows, rs)
  {
    var rows := FactsRows(registry, capabilities, rs);
    RowsReportTotals(registry, capabilities, rs);
    SumWhenRowsReportTotals(registry, rows, rs);
    SumOfTotalsIsReported(registry, rows, rs);
  }

  /** No two manifest capabilities share the pair of a request that was recorded. */
  ghost predicate NoSharedPair(registry: Registry, capabilities: seq<Text>, rs: seq<Recorded>)
    requires Registered(registry, capabilities) && AllKnown(registry, rs)
  {
    forall k :: 0 <= k < |rs| && rs[k].requestCount > 0 ==>
      Mult(EmptyRows(registry, capabilities), PairOf(registry, rs[k].capability)) <= 1
  }

  lemma {:induction false} ReportedAtLeast(registry: Registry, rows: seq<Row>, rs: seq<Recorded>)
    requires AllKnown(registry, rs)
    requires forall k :: 0 <= k < |rs| ==> Mult(rows, PairOf(registry, rs[k].capability)) >= 1
    ensures Reported(registry, rows, rs) >= RecordedTotal(rs)
    ensures Reported(registry, rows, rs) == RecordedTotal(rs) <==>
            forall k :: 0 <= k < |rs| && rs[k].requestCount > 0 ==> Mult(rows, PairOf(registry, rs[k].capability)) == 1
  {
    if rs != [] {
      var rest := rs[1..];
      forall k | 0 <= k < |rest|
        ensures Mult(rows, PairOf(registry, rest[k].capability)) >= 1
      {
        assert rest[k] == rs[k + 1];
      }
      ReportedAtLeast(registry, rows, rest);
      var c, m := rs[0].requestCount, Mult(rows, PairOf(registry, rs[0].capability));
      assert c * m >= c && (c * m == c <==> c == 0 || m == 1) by {
        Scaled(c, m);
      }
      assert forall k :: 0 < k < |rs| ==> rs[k] == rest[k - 1];
    }
  }

  lemma Scaled(c: nat, m: nat)
    requires m >= 1
    ensures c * m >= c && (c * m == c <==> c == 0 || m == 1)
  {
  }

  /**
   Conservation: the reported count is never below the recorded one, and equals it exactly when
   no recorded pair is shared by two manifest capabilities.
   */
  lemma CountConservation(registry: Registry, capabilities: seq<Text>, rs: seq<Recorded>, status: Option<CacheStatus>)
    requires Registered(registry, capabilities) && AllKnown(registry, rs)
    ensures var reported := BuildMetadata(Facts(status, FactsRows(registry, capabilities, rs))).awsRequestCount;
            && reported >= RecordedTotal(rs)
            && (reported == RecordedTotal(rs) <==> NoSharedPair(registry, capabilities, rs))
  {
    var rows := FactsRows(registry, capabilities, rs);
    ReportedCount(registry, capabilities, rs, status);
    forall k | 0 <= k < |rs|
      ensures var pair := PairOf(registry, rs[k].capability);
              var manifest := Mult(EmptyRows(registry, capabilities), pair);
              Mult(rows, pair) == if manifest == 0 then 1 else manifest
    {
      RowsOfPair(registry, capabilities, rs, k);
    }
    ReportedAtLeast(registry, rows, rs);
  }

  /** The back-fill loop changes nothing exactly when no recorded pair is shared. */
  lemma BackFillIdleIff(registry: Registry, capabilities: seq<Text>, rs: seq<Recorded>)
    requires Registered(registry, capabilities) && AllKnown(registry, rs)
    ensures FactsRows(registry, capabilities, rs) == Merge(registry, EmptyRows(registry, capabilities), rs)
            <==> forall i :: 0 <= i < |capabilities| && !IsFirst(EmptyRows(registry, capabilities), i) ==>
                   Total(registry, rs, PairOf(registry, capabilities[i])) == 0
  {
    var empty := EmptyRows(registry, capabilities);
    var merged, rows := Merge(registry, empty, rs), FactsRows(registry, capabilities, rs);
    Merged(registry, empty, rs);
    forall i | 0 <= i < |rows|
      ensures rows[i] == merged[i] <==>
              !(i < |capabilities| && !IsFirst(empty, i) && Total(registry, rs, PairOf(registry, capabilities[i])) > 0)
    {
      if i < |capabilities| {
        assert merged[i].Pair() == empty[i].Pair() == PairOf(registry, capabilities[i]);
      }
    }
  }

  // ----- from recorded events to counts

  predicate IsRequest(e: Event) { e.Request? }

  /** The registry lists every recorded capability, and its ids have no bar. */
  ghost predicate WellRecorded(registry: Registry, events: seq<Event>) {
    && (forall c :: c in registry ==> BAR !in c)
    && (forall e :: e in events && e.Request? ==> e.capability in registry)
  }

  function RequestsOfPair(registry: Registry, pair: Pair): Event -> bool {
    (e: Event) => e.Request? && e.capability in registry && PairOf(registry, e.capability) == pair
  }

  lemma TotalOfCons(registry: Registry, c: Counted, counts: seq<Counted>, pair: Pair)
    requires RecordedOf(c).capability in registry && AllKnown(registry, RecordedList(counts))
    ensures AllKnown(registry, RecordedList([c] + counts))
    ensures Total(registry, RecordedList([c] + counts), pair) ==
            (if PairOf(registry, RecordedOf(c).capability) == pair then c.count else 0)
            + Total(registry, RecordedList(counts), pair)
    ensures RecordedTotal(RecordedList([c] + counts)) == c.count + RecordedTotal(RecordedList(counts))
  {
    var rs := RecordedList([c] + counts);
    assert rs[0] == RecordedOf(c) && rs[1..] == RecordedList(counts);
  }

  lemma KnownTail(registry: Registry, counts: seq<Counted>)
    requires counts != []
    ensures AllKnown(registry, RecordedList(counts)) <==>
            RecordedOf(counts[0]).capability in registry && AllKnown(registry, RecordedList(counts[1..]))
  {
  }

  lemma {:induction false} BumpKnown(registry: Registry, counts: seq<Counted>, key: Text)
    requires AllKnown(registry, RecordedList(counts)) && ParseAwsRequestKey(key).0 in registry
    ensures AllKnown(registry, RecordedList(Bump(counts, key)))
  {
    var bumped := Bump(counts, key);
    if counts != [] {
      KnownTail(registry, counts);
      if counts[0].key != key {
        BumpKnown(registry, counts[1..], key);
      }
    }
    KnownTail(registry, bumped);
  }

  /** One more request of a key adds one to the total of its pair and to the grand total. */
  lemma {:induction false} BumpAddsOne(registry: Registry, counts: seq<Counted>, key: Text, pair: Pair)
    requires AllKnown(registry, RecordedList(counts)) && ParseAwsRequestKey(key).0 in registry
    requires AllKnown(registry, RecordedList(Bump(counts, key)))
    ensures Total(registry, RecordedList(Bump(counts, key)), pair) ==
            Total(registry, RecordedList(counts), pair) +
            if PairOf(registry, ParseAwsRequestKey(key).0) == pair then 1 else 0
    ensures RecordedTotal(RecordedList(Bump(counts, key))) == RecordedTotal(RecordedList(counts)) + 1
  {
    if counts == [] {
      assert Bump(counts, key) == [Counted(key, 1)] + [];
      TotalOfCons(registry, Counted(key, 1), [], pair);
    } else {
      var c, rest := counts[0], counts[1..];
      KnownTail(registry, counts);
      assert counts == [c] + rest;
      TotalOfCons(registry, c, rest, pair);
      if c.key == key {
        TotalOfCons(registry, Counted(key, c.count + 1), rest, pair);
      } else {
        BumpKnown(registry, rest, key);
        assert Bump(counts, key) == [c] + Bump(rest, key);
        BumpAddsOne(registry, rest, key, pair);
        TotalOfCons(registry, c, Bump(rest, key), pair);
      }
    }
  }

  /** The snapshot of well-recorded events is accepted, and its totals count the events. */
  lemma {:induction false} SnapshotCountsEvents(registry: Registry, events: seq<Event>, pair: Pair)
    requires WellRecorded(registry, events)
    ensures AllKnown(registry, RecordedList(CountsOf(events)))
    ensures Total(registry, RecordedList(CountsOf(events)), pair) == CountIf(RequestsOfPair(registry, pair), events)
    ensures RecordedTotal(RecordedList(CountsOf(events))) == CountIf(IsRequest, events)
  {
    if events != [] {
      var before, e := events[..|events| - 1], events[|events| - 1];
      assert WellRecorded(registry, before);
      SnapshotCountsEvents(registry, before, pair);
      assert IsRequest(e) <==> e.Request?;
      if e.Request? {
        var key := AwsRequestKey(e.capability, e.region);
        RequestKeyRoundTrip(e.capability, e.region);
        BumpKnown(registry, CountsOf(before), key);
        BumpAddsOne(registry, CountsOf(before), key, pair);
      }
    }
  }

  lemma {:induction false} CountIfPositive(p: Event -> bool, events: seq<Event>)
    ensures CountIf(p, events) > 0 <==> exists e :: e in events && p(e)
  {
    if events != [] {
      var init := events[..|events| - 1];
      assert events == init + [events[|events| - 1]];
      CountIfPositive(p, init);
    }
  }

  // ----- what a snapshot lists

  function OfKey(key: Text): Event -> bool {
    (e: Event) => e.Request? && AwsRequestKey(e.capability, e.region) == key
  }

  /** The events hold the first use of `a` before any use of `b`. */
  ghost predicate UsedBefore(events: seq<Event>, a: Text, b: Text) {
    exists p :: 0 <= p < |events| && OfKey(a)(events[p]) && forall q :: 0 <= q <= p ==> !OfKey(b)(events[q])
  }

  /** A key is counted in place, or else appended. */
  lemma {:induction false} BumpAt(counts: seq<Counted>, key: Text) returns (i: nat)
    ensures i <= |counts| && forall j :: 0 <= j < i ==> counts[j].key != key
    ensures i < |counts| ==> counts[i].key == key && Bump(counts, key) == counts[i := Counted(key, counts[i].count + 1)]
    ensures i == |counts| ==> Bump(counts, key) == counts + [Counted(key, 1)]
  {
    if counts == [] || counts[0].key == key {
      i := 0;
    } else {
      var k := BumpAt(counts[1..], key);
      i := k + 1;
      assert counts == [counts[0]] + counts[1..];
    }
  }

  ghost predicate ListsKeys(counts: seq<Counted>, events: seq<Event>) {
    && (forall i, j :: 0 <= i < j < |counts| ==> counts[i].key != counts[j].key)
    && (forall i :: 0 <= i < |counts| ==> counts[i].count == CountIf(OfKey(counts[i].key), events))
    && (forall e :: e in events && e.Request? ==>
          exists i :: 0 <= i < |counts| && counts[i].key == AwsRequestKey(e.capability, e.region))
    && (forall i :: 0 <= i < |counts| ==> counts[i].count > 0)
    && (forall i, j :: 0 <= i < j < |counts| ==> UsedBefore(events, counts[i].key, counts[j].key))
  }

  lemma UsedBeforeMore(events: seq<Event>, e: Event, a: Text, b: Text)
    requires UsedBefore(events, a, b)
    ensures UsedBefore(events + [e], a, b)
  {
    var p :| 0 <= p < |events| && OfKey(a)(events[p]) && forall q :: 0 <= q <= p ==> !OfKey(b)(events[q]);
    assert OfKey(a)((events + [e])[p]);
  }

  lemma OneEventMore(events: seq<Event>, e: Event, key: Text)
    ensures CountIf(OfKey(key), events + [e]) == CountIf(OfKey(key), events) + if OfKey(key)(e) then 1 else 0
  {
    assert (events + [e])[..|events|] == events;
  }

  lemma {:induction false} NotUsed(events: seq<Event>, key: Text)
    requires forall e :: e in events ==> !OfKey(key)(e)
    ensures CountIf(OfKey(key), events) == 0
  {
    if events != [] {
      NotUsed(events[..|events| - 1], key);
    }
  }

  lemma StatusKeepsList(counts: seq<Counted>, events: seq<Event>, e: Event)
    requires ListsKeys(counts, events) && e.Status?
    ensures ListsKeys(counts, events + [e])
  {
    forall i | 0 <= i < |counts|
      ensures counts[i].count == CountIf(OfKey(counts[i].key), events + [e])
    {
      OneEventMore(events, e, counts[i].key);
    }
    forall i, j | 0 <= i < j < |counts|
      ensures UsedBefore(events + [e], counts[i].key, counts[j].key)
    {
      UsedBeforeMore(events, e, counts[i].key, counts[j].key);
    }
  }

  /** `next` counts one more request of `key` than `counts`, in place or at the end. */
  predicate CountsOneMore(counts: seq<Counted>, key: Text, at: nat, next: seq<Counted>) {
    && at <= |counts| && (forall j :: 0 <= j < at ==> counts[j].key != key)
    && (at < |counts| ==> counts[at].key == key && next == counts[at := Counted(key, counts[at].count + 1)])
    && (at == |counts| ==> next == counts + [Counted(key, 1)])
  }

  lemma CountsStayRight(counts: seq<Counted>, events: seq<Event>, e: Event, at: nat, next: seq<Counted>)
    requires ListsKeys(counts, events) && e.Request?
    requires CountsOneMore(counts, AwsRequestKey(e.capability, e.region), at, next)
    ensures forall i :: 0 <= i < |next| ==> next[i].count == CountIf(OfKey(next[i].key), events + [e])
  {
    var key := AwsRequestKey(e.capability, e.region);
    if at == |counts| {
      assert forall x :: x in events ==> !OfKey(key)(x);
      NotUsed(events, key);
    }
    forall i | 0 <= i < |next|
      ensures next[i].count == CountIf(OfKey(next[i].key), events + [e])
    {
      OneEventMore(events, e, next[i].key);
    }
  }

  lemma EveryKeyIsListed(counts: seq<Counted>, events: seq<Event>, e: Event, at: nat, next: seq<Counted>)
    requires ListsKeys(counts, events) && e.Request?
    requires CountsOneMore(counts, AwsRequestKey(e.capability, e.region), at, next)
    ensures forall x :: x in events + [e] && x.Request? ==>
              exists i :: 0 <= i < |next| && next[i].key == AwsRequestKey(x.capability, x.region)
  {
    forall x | x in events + [e] && x.Request?
      ensures exists i :: 0 <= i < |next| && next[i].key == AwsRequestKey(x.capability, x.region)
    {
      if x in events {
        var i :| 0 <= i < |counts| && counts[i].key == AwsRequestKey(x.capability, x.region);
        assert next[i].key == counts[i].key;
      } else {
        assert next[at].key == AwsRequestKey(x.capability, x.region);
      }
    }
  }

  lemma OrderStays(counts: seq<Counted>, events: seq<Event>, e: Event, at: nat, next: seq<Counted>)
    requires ListsKeys(counts, events) && e.Request?
    requires CountsOneMore(counts, AwsRequestKey(e.capability, e.region), at, next)
    ensures forall i, j :: 0 <= i < j < |next| ==> UsedBefore(events + [e], next[i].key, next[j].key)
  {
    forall i, j | 0 <= i < j < |next|
      ensures UsedBefore(events + [e], next[i].key, next[j].key)
    {
      if j < |counts| {
        UsedBeforeMore(events, e, counts[i].key, counts[j].key);
      } else {
        assert forall x :: x in events ==> !OfKey(AwsRequestKey(e.capability, e.region))(x);
        NewKeyIsLast(counts, events, e, i);
      }
    }
  }

  lemma RequestKeepsList(counts: seq<Counted>, events: seq<Event>, e: Event)
    requires ListsKeys(counts, events) && e.Request?
    ensures ListsKeys(Bump(counts, AwsRequestKey(e.capability, e.region)), events + [e])
  {
    var at := BumpAt(counts, AwsRequestKey(e.capability, e.region));
    var next := Bump(counts, AwsRequestKey(e.capability, e.region));
    CountsStayRight(counts, events, e, at, next);
    EveryKeyIsListed(counts, events, e, at, next);
    OrderStays(counts, events, e, at, next);
  }

  lemma NewKeyIsLast(counts: seq<Counted>, events: seq<Event>, e: Event, i: nat)
    requires ListsKeys(counts, events) && e.Request? && i < |counts| && counts[i].count > 0
    requires forall x :: x in events ==> !OfKey(AwsRequestKey(e.capability, e.region))(x)
    ensures UsedBefore(events + [e], counts[i].key, AwsRequestKey(e.capability, e.region))
  {
    CountIfPositive(OfKey(counts[i].key), events);
    var x :| x in events && OfKey(counts[i].key)(x);
    var p :| 0 <= p < |events| && events[p] == x;
    assert OfKey(counts[i].key)((events + [e])[p]);
  }

  /** One entry per key, counting its requests, in the order in which the keys were first used. */
  lemma {:induction false} CountsList(events: seq<Event>)
    ensures ListsKeys(CountsOf(events), events)
  {
    if events != [] {
      var init, e := events[..|events| - 1], events[|events| - 1];
      assert events == init + [e];
      CountsList(init);
      if e.Status? {
        StatusKeepsList(CountsOf(init), init, e);
      } else {
        RequestKeepsList(CountsOf(init), init, e);
      }
    }
  }

  function OfRequest(capability: Text, region: Option<Text>): Event -> bool {
    (e: Event) => e.Request? && e.capability == capability && NormalRegion(e.region) == region
  }

  lemma KeyIsOfRequest(registry: Registry, events: seq<Event>, i: nat, e: Event)
    requires WellRecorded(registry, events) && e in events && i < |CountsOf(events)|
    ensures var c := CountsOf(events)[i];
            OfKey(c.key)(e) <==> OfRequest(RecordedOf(c).capability, RecordedOf(c).region)(e)
  {
    var c := CountsOf(events)[i];
    CountsList(events);
    CountIfPositive(OfKey(c.key), events);
    var x :| x in events && OfKey(c.key)(x);
    RequestKeyRoundTrip(x.capability, x.region);
    if e.Request? {
      RequestKeyRoundTrip(e.capability, e.region);
    }
  }

  function OfEntry(r: Recorded): Event -> bool {
    OfRequest(r.capability, r.region)
  }

  /** A request of `a` was recorded before any of `b`. */
  ghost predicate RecordedBefore(events: seq<Event>, a: Recorded, b: Recorded) {
    exists p :: 0 <= p < |events| && OfEntry(a)(events[p]) && forall q :: 0 <= q <= p ==> !OfEntry(b)(events[q])
  }

  lemma EntryCounts(registry: Registry, events: seq<Event>, i: nat)
    requires WellRecorded(registry, events) && i < |CountsOf(events)|
    ensures var r := RecordedOf(CountsOf(events)[i]); r.requestCount == CountIf(OfEntry(r), events) > 0
  {
    var c := CountsOf(events)[i];
    CountsList(events);
    forall e | e in events
      ensures Indicator(OfKey(c.key))(e) == Indicator(OfEntry(RecordedOf(c)))(e)
    {
      KeyIsOfRequest(registry, events, i, e);
    }
    SumPointwise(Indicator(OfKey(c.key)), Indicator(OfEntry(RecordedOf(c))), events);
  }

  lemma EntryOrder(registry: Registry, events: seq<Event>, i: nat, j: nat)
    requires WellRecorded(registry, events) && i < j < |CountsOf(events)|
    ensures RecordedBefore(events, RecordedOf(CountsOf(events)[i]), RecordedOf(CountsOf(events)[j]))
  {
    var c, d := CountsOf(events)[i], CountsOf(events)[j];
    CountsList(events);
    assert UsedBefore(events, c.key, d.key);
    var p :| 0 <= p < |events| && OfKey(c.key)(events[p]) && forall q :: 0 <= q <= p ==> !OfKey(d.key)(events[q]);
    KeyIsOfRequest(registry, events, i, events[p]);
    forall q | 0 <= q <= p
      ensures !OfEntry(RecordedOf(d))(events[q])
    {
      KeyIsOfRequest(registry, events, j, events[q]);
    }
  }

  lemma EntryExists(registry: Registry, events: seq<Event>, e: Event) returns (i: nat)
    requires WellRecorded(registry, events) && e in events && e.Request?
    ensures i < |CountsOf(events)| && OfEntry(RecordedOf(CountsOf(events)[i]))(e)
  {
    CountsList(events);
    i :| 0 <= i < |CountsOf(events)| && CountsOf(events)[i].key == AwsRequestKey(e.capability, e.region);
    KeyIsOfRequest(registry, events, i, e);
  }

  /**
   The snapshot of a run has an entry for every capability and region with which a request was recorded, an empty
   region counting as none; it counts those requests, and the entries come in the order of their first requests.
   */
  lemma SnapshotIs(registry: Registry, events: seq<Event>)
    requires WellRecorded(registry, events)
    ensures var rs := RecordedList(CountsOf(events));
            && (forall i :: 0 <= i < |rs| ==> rs[i].requestCount == CountIf(OfEntry(rs[i]), events) > 0)
            && (forall e :: e in events && e.Request? ==> exists i :: 0 <= i < |rs| && OfEntry(rs[i])(e))
            && (forall i, j :: 0 <= i < j < |rs| ==> RecordedBefore(events, rs[i], rs[j]))
  {
    var rs := RecordedList(CountsOf(events));
    forall i | 0 <= i < |rs|
      ensures rs[i].requestCount == CountIf(OfEntry(rs[i]), events) > 0
    {
      EntryCounts(registry, events, i);
    }
    forall e | e in events && e.Request?
      ensures exists i :: 0 <= i < |rs| && OfEntry(rs[i])(e)
    {
      var i := EntryExists(registry, events, e);
      assert OfEntry(rs[i])(e);
    }
    forall i, j | 0 <= i < j < |rs|
      ensures RecordedBefore(events, rs[i], rs[j])
    {
      EntryOrder(registry, events, i, j);
    }
  }

  /** One collector run, from the events to the execution metadata. */
  function RunMetadata(registry: Registry, capabilities: seq<Text>, events: seq<Event>): Metadata
    requires Registered(registry, capabilities) && AllKnown(registry, RecordedList(CountsOf(events)))
  {
    var rs := RecordedList(CountsOf(events));
    BuildMetadata(Facts(Resolve(StatusesOf(events)), FactsRows(registry, capabilities, rs)))
  }

  /** Two manifest capabilities never map to one pair. */
  ghost predicate DistinctPairs(registry: Registry, capabilities: seq<Text>)
    requires Registered(registry, capabilities)
  {
    forall i :: 0 <= i < |capabilities| ==> IsFirst(EmptyRows(registry, capabilities), i)
  }

  lemma DistinctPairsAreUnshared(registry: Registry, capabilities: seq<Text>, pair: Pair)
    requires Registered(registry, capabilities) && DistinctPairs(registry, capabilities)
    ensures Mult(EmptyRows(registry, capabilities), pair) <= 1
  {
    var rows := EmptyRows(registry, capabilities);
    assert [] + rows == rows;
    MultOfFirsts([], rows, pair);
  }

  lemma {:induction false} StatusMembers(events: seq<Event>, s: CacheStatus)
    ensures s in StatusesOf(events) <==> Status(s) in events
  {
    if events != [] {
      var init := events[..|events| - 1];
      assert events == init + [events[|events| - 1]];
      StatusMembers(init, s);
    }
  }

  /**
   The reported status: a miss before a bypass, that before an unavailable cache, that before a hit, that
   before none.
   */
  lemma StatusIs(events: seq<Event>)
    ensures var r := Resolve(StatusesOf(events));
            && (r == Some(Miss) <==> Status(Miss) in events)
            && (r == Some(Bypass) <==> Status(Bypass) in events && Status(Miss) !in events)
            && (r == Some(Unavailable) <==>
                  Status(Unavailable) in events && Status(Miss) !in events && Status(Bypass) !in events)
            && (r == Some(Hit) <==>
                  Status(Hit) in events && forall s :: Status(s) in events ==> s == Hit || s == Disabled)
            && (r == Some(Disabled) <==>
                  Status(Disabled) in events && forall s :: Status(s) in events ==> s == Disabled)
            && (r == None <==> forall s :: Status(s) !in events)
  {
    forall s
      ensures s in StatusesOf(events) <==> Status(s) in events
    {
      StatusMembers(events, s);
    }
    if StatusesOf(events) != [] {
      var first := StatusesOf(events)[0];
      assert first in StatusesOf(events);
      assert first.Miss? || first.Bypass? || first.Unavailable? || first.Hit? || first.Disabled?;
    }
  }

  // ----- charging

  /** Unit costs are not negative, and capabilities of one pair have one cost. */
  ghost predicate PricedByPair(registry: Registry) {
    && (forall c :: c in registry && registry[c].unitCost.Some? ==> registry[c].unitCost.value >= 0.0)
    && (forall c, d :: c in registry && d in registry && PairOf(registry, c) == PairOf(registry, d) ==>
          registry[c].unitCost == registry[d].unitCost)
  }

  /** The row has the pair and the cost of this capability. */
  predicate PricedAs(registry: Registry, row: Row, capability: Text) {
    && capability in registry && row.Pair() == PairOf(registry, capability)
    && row.unitCost == registry[capability].unitCost
  }

  ghost predicate RowPriced(registry: Registry, row: Row) {
    exists c :: PricedAs(registry, row, c)
  }

  ghost predicate AllPriced(registry: Registry, rows: seq<Row>) {
    forall i :: 0 <= i < |rows| ==> RowPriced(registry, rows[i])
  }

  lemma {:induction false} MergeKeepsPrices(registry: Registry, rows: seq<Row>, rs: seq<Recorded>)
    requires AllKnown(registry, rs)
    requires AllPriced(registry, rows)
    ensures AllPriced(registry, Merge(registry, rows, rs))
    decreases |rs|
  {
    if rs != [] {
      var next := MergeOne(registry, rows, rs[0]);
      forall i | 0 <= i < |next|
        ensures RowPriced(registry, next[i])
      {
        if i < |rows| {
          assert RowPriced(registry, rows[i]);
          var c :| PricedAs(registry, rows[i], c);
          assert PricedAs(registry, next[i], c);
        } else {
          var c := rs[0].capability;
          assert PricedAs(registry, next[i], c);
        }
      }
      MergeKeepsPrices(registry, next, rs[1..]);
    }
  }

  lemma FactsRowsArePriced(registry: Registry, capabilities: seq<Text>, rs: seq<Recorded>)
    requires Registered(registry, capabilities) && AllKnown(registry, rs)
    ensures AllPriced(registry, FactsRows(registry, capabilities, rs))
  {
    var empty := EmptyRows(registry, capabilities);
    forall i | 0 <= i < |empty|
      ensures RowPriced(registry, empty[i])
    {
      assert PricedAs(registry, empty[i], capabilities[i]);
    }
    MergeKeepsPrices(registry, empty, rs);
    var merged, rows := Merge(registry, empty, rs), FactsRows(registry, capabilities, rs);
    forall i | 0 <= i < |rows|
      ensures RowPriced(registry, rows[i])
    {
      assert RowPriced(registry, merged[i]);
      var c :| PricedAs(registry, merged[i], c);
      assert PricedAs(registry, rows[i], c);
    }
  }

  predicate PaidRow(row: Row) {
    row.requestCount > 0 && row.unitCost.Some? && row.unitCost.value > 0.0
  }

  lemma {:induction false} CostPositiveIff(rows: seq<Row>)
    requires forall i :: 0 <= i < |rows| && rows[i].unitCost.Some? ==> rows[i].unitCost.value >= 0.0
    ensures EstimateCostUsd(rows) >= 0.0
    ensures EstimateCostUsd(rows) > 0.0 <==> exists i :: 0 <= i < |rows| && PaidRow(rows[i])
  {
    if rows != [] {
      CostPositiveIff(rows[1..]);
      var row := rows[0];
      assert RowCost(row) >= 0.0 && (RowCost(row) > 0.0 <==> PaidRow(row)) by {
        if row.requestCount > 0 && row.unitCost.Some? {
          ScaledReal(row.requestCount, row.unitCost.value);
        }
      }
      if exists i :: 0 <= i < |rows| && PaidRow(rows[i]) {
        var i :| 0 <= i < |rows| && PaidRow(rows[i]);
        assert i > 0 ==> rows[1..][i - 1] == rows[i];
      }
      if exists i :: 0 <= i < |rows[1..]| && PaidRow(rows[1..][i]) {
        var i :| 0 <= i < |rows[1..]| && PaidRow(rows[1..][i]);
        assert rows[i + 1] == rows[1..][i];
      }
    }
  }

  lemma ScaledReal(n: nat, u: real)
    requires n > 0 && u >= 0.0
    ensures n as real * u >= 0.0 && (n as real * u > 0.0 <==> u > 0.0)
  {
    assert n as real >= 1.0;
    assert n as real * u >= 1.0 * u;
  }

  ghost predicate PaidRequestRecorded(registry: Registry, events: seq<Event>) {
    exists e :: e in events && e.Request? && e.capability in registry
                && registry[e.capability].unitCost.Some? && registry[e.capability].unitCost.value > 0.0
  }

  lemma PricedRowsCostNothingLess(registry: Registry, rows: seq<Row>)
    requires PricedByPair(registry) && AllPriced(registry, rows)
    ensures forall i :: 0 <= i < |rows| && rows[i].unitCost.Some? ==> rows[i].unitCost.value >= 0.0
  {
  }

  ghost predicate RowsReport(registry: Registry, rs: seq<Recorded>, rows: seq<Row>)
    requires AllKnown(registry, rs)
  {
    && (forall i :: 0 <= i < |rows| ==> rows[i].requestCount == Total(registry, rs, rows[i].Pair()))
    && (forall k :: 0 <= k < |rs| ==> HasPair(rows, PairOf(registry, rs[k].capability)))
  }

  lemma PaidRowMeansPaidRequest(registry: Registry, events: seq<Event>, rows: seq<Row>, i: nat)
    requires PricedByPair(registry) && WellRecorded(registry, events)
    requires AllKnown(registry, RecordedList(CountsOf(events)))
    requires AllPriced(registry, rows) && RowsReport(registry, RecordedList(CountsOf(events)), rows)
    requires i < |rows| && PaidRow(rows[i])
    ensures PaidRequestRecorded(registry, events)
  {
    var pair := rows[i].Pair();
    SnapshotCountsEvents(registry, events, pair);
    CountIfPositive(RequestsOfPair(registry, pair), events);
    var e :| e in events && RequestsOfPair(registry, pair)(e);
    assert RowPriced(registry, rows[i]);
    var c :| PricedAs(registry, rows[i], c);
    assert PairOf(registry, e.capability) == pair;
  }

  lemma PaidRequestMeansPaidRow(registry: Registry, events: seq<Event>, rows: seq<Row>)
    requires PricedByPair(registry) && WellRecorded(registry, events)
    requires AllKnown(registry, RecordedList(CountsOf(events)))
    requires AllPriced(registry, rows) && RowsReport(registry, RecordedList(CountsOf(events)), rows)
    requires PaidRequestRecorded(registry, events)
    ensures exists i :: 0 <= i < |rows| && PaidRow(rows[i])
  {
    var rs := RecordedList(CountsOf(events));
    var e :| e in events && e.Request? && e.capability in registry
             && registry[e.capability].unitCost.Some? && registry[e.capability].unitCost.value > 0.0;
    var pair := PairOf(registry, e.capability);
    SnapshotCountsEvents(registry, events, pair);
    assert RequestsOfPair(registry, pair)(e);
    CountIfPositive(RequestsOfPair(registry, pair), events);
    PairWithTotal(registry, rs, pair);
    var i :| 0 <= i < |rows| && rows[i].Pair() == pair;
    assert RowPriced(registry, rows[i]);
    var c :| PricedAs(registry, rows[i], c);
    assert PaidRow(rows[i]);
  }

  lemma {:induction false} PairWithTotal(registry: Registry, rs: seq<Recorded>, pair: Pair)
    requires AllKnown(registry, rs) && Total(registry, rs, pair) > 0
    ensures exists k :: 0 <= k < |rs| && PairOf(registry, rs[k].capability) == pair
  {
    if PairOf(registry, rs[0].capability) != pair {
      PairWithTotal(registry, rs[1..], pair);
      var k :| 0 <= k < |rs[1..]| && PairOf(registry, rs[1..][k].capability) == pair;
      assert rs[k + 1] == rs[1..][k];
    }
  }

  lemma CostIffPaidRequest(registry: Registry, capabilities: seq<Text>, events: seq<Event>)
    requires Registered(registry, capabilities) && PricedByPair(registry) && WellRecorded(registry, events)
    requires AllKnown(registry, RecordedList(CountsOf(events)))
    ensures EstimateCostUsd(FactsRows(registry, capabilities, RecordedList(CountsOf(events)))) > 0.0 <==>
            PaidRequestRecorded(registry, events)
  {
    var rs := RecordedList(CountsOf(events));
    var rows := FactsRows(registry, capabilities, rs);
    FactsRowsArePriced(registry, capabilities, rs);
    RowsReportTotals(registry, capabilities, rs);
    assert RowsReport(registry, rs, rows);
    PricedRowsCostNothingLess(registry, rows);
    CostPositiveIff(rows);
    if i :| 0 <= i < |rows| && PaidRow(rows[i]) {
      PaidRowMeansPaidRequest(registry, events, rows, i);
    }
    if PaidRequestRecorded(registry, events) {
      PaidRequestMeansPaidRow(registry, events, rows);
    }
  }

  /** A run is charged exactly when a miss or bypass and a paid request were both recorded. */
  lemma ChargedIff(registry: Registry, capabilities: seq<Text>, events: seq<Event>)
    requires Registered(registry, capabilities) && PricedByPair(registry) && WellRecorded(registry, events)
    ensures AllKnown(registry, RecordedList(CountsOf(events)))
    ensures RunMetadata(registry, capabilities, events).charged <==>
            (Status(Miss) in events || Status(Bypass) in events) && PaidRequestRecorded(registry, events)
  {
    SnapshotCountsEvents(registry, events, ([], []));
    CostIffPaidRequest(registry, capabilities, events);
    StatusMembers(events, Miss);
    StatusMembers(events, Bypass);
  }
}
