/**
 The execution collector (src/telemetry/collector.ts): closure state that concurrent requests
 record into, and the snapshot taken of it.
 */
module Telemetry {
  import opened Wrappers
  import opened JsText

  datatype CacheStatus = Hit | Miss | Disabled | Unavailable | Bypass

  const CACHE_STATUS_PRIORITY := [Miss, Bypass, Unavailable, Hit, Disabled]

  const BAR: CodeUnit := 0x7C

  /** A registered AWS capability, with its published unit cost if it has one. */
  datatype Capability = Capability(service: Text, action: Text, unitCost: Option<real>)

  type Registry = map<Text, Capability>

  /** What the collector is told: a cache status, or one AWS request. */
  datatype Event = Status(status: CacheStatus) | Request(capability: Text, region: Option<Text>)

  // ----- request keys

  function AwsRequestKey(capability: Text, region: Option<Text>): Text {
    if region.Some? && region.value != [] then capability + [BAR] + region.value else capability
  }

  function FirstBar(key: Text): (i: nat)
    ensures i <= |key| && forall j :: 0 <= j < i ==> key[j] != BAR
    ensures i < |key| ==> key[i] == BAR
  {
    if key == [] || key[0] == BAR then 0 else 1 + FirstBar(key[1..])
  }

  function ParseAwsRequestKey(key: Text): (Text, Option<Text>) {
    var i := FirstBar(key);
    if i == |key| then (key, None) else (key[..i], Some(key[i + 1..]))
  }

  /** An empty region counts as no region. */
  function NormalRegion(region: Option<Text>): Option<Text> {
    if region == Some([]) then None else region
  }

  /** Parsing a request key recovers what was recorded exactly when the capability id has no bar. */
  lemma RequestKeyRoundTrip(capability: Text, region: Option<Text>)
    ensures ParseAwsRequestKey(AwsRequestKey(capability, region)) == (capability, NormalRegion(region)) <==>
            BAR !in capability
  {
    var key := AwsRequestKey(capability, region);
    var i := FirstBar(key);
    assert key[..|capability|] == capability;
    assert forall j :: 0 <= j < |capability| ==> key[j] == capability[j];
    assert |key| > |capability| ==> key[|capability|] == BAR && key[|capability| + 1..] == region.value;
    if BAR in capability {
      var j :| 0 <= j < |capability| && capability[j] == BAR;
      assert key[j] == BAR;
    }
  }

  // ----- counting

  datatype Counted = Counted(key: Text, count: nat)

  /** `counts.set(key, (counts.get(key) ?? 0) + 1)` on an insertion-ordered map. */
  function Bump(counts: seq<Counted>, key: Text): seq<Counted> {
    if counts == [] then [Counted(key, 1)]
    else if counts[0].key == key then [Counted(key, counts[0].count + 1)] + counts[1..]
    else [counts[0]] + Bump(counts[1..], key)
  }

  /** The statuses among the events, in order. */
  function StatusesOf(events: seq<Event>): seq<CacheStatus> {
    if events == [] then [] else
      var e := events[|events| - 1];
      StatusesOf(events[..|events| - 1]) + if e.Status? then [e.status] else []
  }

  /** The insertion-ordered request counts after the events. */
  function CountsOf(events: seq<Event>): seq<Counted> {
    if events == [] then [] else
      var e := events[|events| - 1];
      var before := CountsOf(events[..|events| - 1]);
      if e.Request? then Bump(before, AwsRequestKey(e.capability, e.region)) else before
  }

  /** The first status in priority order among the recorded ones. */
  function Resolve(statuses: seq<CacheStatus>): (r: Option<CacheStatus>)
    ensures r.None? <==> statuses == []
  {
    if statuses == [] then None
    else if Miss in statuses then Some(Miss)
    else if Bypass in statuses then Some(Bypass)
    else if Unavailable in statuses then Some(Unavailable)
    else if Hit in statuses then Some(Hit)
    else
      assert statuses[0] == Disabled;
      Some(Disabled)
  }

  datatype Recorded = Recorded(capability: Text, region: Option<Text>, requestCount: nat)

  datatype Snapshot = Snapshot(cacheStatuses: seq<CacheStatus>, awsRequests: seq<Recorded>)

  function RecordedOf(c: Counted): Recorded {
    var (capability, region) := ParseAwsRequestKey(c.key);
    Recorded(capability, region, c.count)
  }

  function RecordedList(counts: seq<Counted>): (r: seq<Recorded>)
    ensures |r| == |counts|
    ensures forall i :: 0 <= i < |r| ==> r[i] == RecordedOf(counts[i])
  {
    seq(|counts|, i requires 0 <= i < |counts| => RecordedOf(counts[i]))
  }

  predicate AllKnown(registry: Registry, rs: seq<Recorded>) {
    forall i :: 0 <= i < |rs| ==> rs[i].capability in registry
  }

  class Collector {
    var cacheStatuses: seq<CacheStatus>
    var awsRequestCounts: seq<Counted>

    /** Everything recorded since the last reset. */
    ghost var events: seq<Event>

    ghost predicate Valid()
      reads this
    {
      cacheStatuses == StatusesOf(events) && awsRequestCounts == CountsOf(events)
    }

    constructor ()
      ensures Valid() && events == []
    {
      cacheStatuses := [];
      awsRequestCounts := [];
      events := [];
    }

    method Reset()
      modifies this
      ensures Valid() && events == []
    {
      cacheStatuses := [];
      awsRequestCounts := [];
      events := [];
    }

    method RecordCacheStatus(status: CacheStatus)
      requires Valid()
      modifies this
      ensures Valid() && events == old(events) + [Status(status)]
    {
      cacheStatuses := cacheStatuses + [status];
      events := events + [Status(status)];
      assert events[..|events| - 1] == old(events);
    }

    method RecordAwsRequest(capability: Text, region: Option<Text>)
      requires Valid()
      modifies this
      ensures Valid() && events == old(events) + [Request(capability, region)]
    {
      awsRequestCounts := Bump(awsRequestCounts, AwsRequestKey(capability, region));
      events := events + [Request(capability, region)];
      assert events[..|events| - 1] == old(events);
    }

    method ResolveCacheStatus() returns (r: Option<CacheStatus>)
      requires Valid()
      ensures r == Resolve(StatusesOf(events))
    {
      if |cacheStatuses| == 0 {
        return None;
      }
      ghost var p := CACHE_STATUS_PRIORITY;
      assert p[0] == Miss && p[1] == Bypass && p[2] == Unavailable && p[3] == Hit && p[4] == Disabled;
      ghost var first := cacheStatuses[0];
      assert first.Miss? || first.Bypass? || first.Unavailable? || first.Hit? || first.Disabled?;
      assert first == p[0] || first == p[1] || first == p[2] || first == p[3] || first == p[4];
      for i := 0 to |CACHE_STATUS_PRIORITY|
        invariant forall j :: 0 <= j < i ==> CACHE_STATUS_PRIORITY[j] !in cacheStatuses
      {
        if CACHE_STATUS_PRIORITY[i] in cacheStatuses {
          return Some(CACHE_STATUS_PRIORITY[i]);
        }
      }
      // the source falls back to the first status here; every status has a priority
      assert false;
    }

    /** Fails when a recorded capability is not registered. */
    method TakeSnapshot(registry: Registry) returns (r: Result<Snapshot, Text>)
      requires Valid()
      ensures var requests := RecordedList(CountsOf(events));
              if AllKnown(registry, requests) then r == Success(Snapshot(StatusesOf(events), requests)) else r.Failure?
    {
      var awsRequests: seq<Recorded> := [];
      for i := 0 to |awsRequestCounts|
        invariant awsRequests == RecordedList(awsRequestCounts)[..i]
        invariant AllKnown(registry, awsRequests)
      {
        var recorded := RecordedOf(awsRequestCounts[i]);
        if recorded.capability !in registry {
          assert RecordedList(awsRequestCounts)[i] == recorded;
          return Failure(recorded.capability);
        }
        awsRequests := awsRequests + [recorded];
      }
      assert awsRequests == RecordedList(awsRequestCounts);
      return Success(Snapshot(cacheStatuses, awsRequests));
    }
  }
}
