/** Runs of concurrent recorders do not depend on how their events interleave. */
module Interleavings {
  import opened Wrappers
  import opened JsText
  import opened Sequences
  import opened Telemetry
  import opened RuntimeFacts
  import opened Billing
  import opened RunTotals

  // ----- permutations

  lemma ResolvePermutation(s: seq<Event>, t: seq<Event>)
    requires multiset(s) == multiset(t)
    ensures Resolve(StatusesOf(s)) == Resolve(StatusesOf(t))
  {
    forall x: CacheStatus
      ensures x in StatusesOf(s) <==> x in StatusesOf(t)
    {
      StatusMembers(s, x);
      StatusMembers(t, x);
      assert Status(x) in s <==> Status(x) in multiset(s);
      assert Status(x) in t <==> Status(x) in multiset(t);
    }
    assert StatusesOf(s) == [] <==> StatusesOf(t) == [] by {
      if StatusesOf(s) != [] {
        assert StatusesOf(s)[0] in StatusesOf(t);
      }
      if StatusesOf(t) != [] {
        assert StatusesOf(t)[0] in StatusesOf(s);
      }
    }
  }

  lemma PermutedIsWellRecorded(registry: Registry, zs: seq<Event>, others: seq<Event>)
    requires multiset(zs) == multiset(others) && WellRecorded(registry, zs)
    ensures WellRecorded(registry, others)
    ensures forall e :: e in zs <==> e in others
  {
    forall e
      ensures e in zs <==> e in others
    {
      assert e in zs <==> e in multiset(zs);
      assert e in others <==> e in multiset(others);
    }
  }

  /**
   In whatever order the events are recorded, totals, status and count are the same, and under one price per
   pair the charge and the cost.
   */
  lemma PermutationsAgree(registry: Registry, capabilities: seq<Text>, zs: seq<Event>, others: seq<Event>, pair: Pair)
    requires multiset(zs) == multiset(others)
    requires Registered(registry, capabilities) && WellRecorded(registry, zs)
    ensures AllKnown(registry, RecordedList(CountsOf(zs))) && AllKnown(registry, RecordedList(CountsOf(others)))
    ensures Total(registry, RecordedList(CountsOf(zs)), pair) == Total(registry, RecordedList(CountsOf(others)), pair)
    ensures Resolve(StatusesOf(zs)) == Resolve(StatusesOf(others))
    ensures var m, n := RunMetadata(registry, capabilities, zs), RunMetadata(registry, capabilities, others);
            && m.awsRequestCount == n.awsRequestCount
            && (PricedByPair(registry) ==> m.charged == n.charged && m.estimatedCostUsd == n.estimatedCostUsd)
  {
    PermutedIsWellRecorded(registry, zs, others);
    SnapshotCountsEvents(registry, zs, pair);
    SnapshotCountsEvents(registry, others, pair);
    SumPermutation(Indicator(RequestsOfPair(registry, pair)), zs, others);
    SumPermutation(ReportedTimes(registry, capabilities), zs, others);
    ResolvePermutation(zs, others);
    RunCountIs(registry, capabilities, zs);
    RunCountIs(registry, capabilities, others);
    if PricedByPair(registry) {
      ChargedIff(registry, capabilities, zs);
      ChargedIff(registry, capabilities, others);
      assert PaidRequestRecorded(registry, zs) <==> PaidRequestRecorded(registry, others);
      RunCostIs(registry, capabilities, zs);
      RunCostIs(registry, capabilities, others);
      RealSumPermutation(EventCost(registry, capabilities), zs, others);
    }
  }

  // ----- concurrent recorders

  predicate HasNext(recorders: seq<seq<Event>>, r: nat, e: Event) {
    r < |recorders| && recorders[r] != [] && recorders[r][0] == e
  }

  function Advanced(recorders: seq<seq<Event>>, r: nat): seq<seq<Event>>
    requires r < |recorders| && recorders[r] != []
  {
    recorders[r := recorders[r][1..]]
  }

  /** `zs` is a merge of what any number of concurrent recorders did. */
  ghost predicate Interleaves(recorders: seq<seq<Event>>, zs: seq<Event>)
    decreases |zs|
  {
    if zs == [] then forall r :: 0 <= r < |recorders| ==> recorders[r] == []
    else exists r: nat :: HasNext(recorders, r, zs[0]) && Interleaves(Advanced(recorders, r), zs[1..])
  }

  function AllEvents(recorders: seq<seq<Event>>): multiset<Event> {
    if recorders == [] then multiset{} else multiset(recorders[0]) + AllEvents(recorders[1..])
  }

  lemma {:induction false} NothingLeft(recorders: seq<seq<Event>>)
    requires forall r :: 0 <= r < |recorders| ==> recorders[r] == []
    ensures AllEvents(recorders) == multiset{}
  {
    if recorders != [] {
      NothingLeft(recorders[1..]);
    }
  }

  lemma {:induction false} AdvancingTakesOne(recorders: seq<seq<Event>>, r: nat)
    requires r < |recorders| && recorders[r] != []
    ensures AllEvents(recorders) == multiset{recorders[r][0]} + AllEvents(Advanced(recorders, r))
  {
    var next := Advanced(recorders, r);
    assert recorders[r] == [recorders[r][0]] + recorders[r][1..];
    if r == 0 {
      assert next[1..] == recorders[1..];
    } else {
      AdvancingTakesOne(recorders[1..], r - 1);
      assert next[0] == recorders[0] && next[1..] == Advanced(recorders[1..], r - 1);
    }
  }

  /** Any merge is a permutation of everything that was recorded. */
  lemma {:induction false} InterleavingIsPermutation(recorders: seq<seq<Event>>, zs: seq<Event>)
    requires Interleaves(recorders, zs)
    ensures multiset(zs) == AllEvents(recorders)
    decreases |zs|
  {
    if zs == [] {
      NothingLeft(recorders);
    } else {
      var r: nat :| HasNext(recorders, r, zs[0]) && Interleaves(Advanced(recorders, r), zs[1..]);
      InterleavingIsPermutation(Advanced(recorders, r), zs[1..]);
      AdvancingTakesOne(recorders, r);
      assert zs == [zs[0]] + zs[1..];
    }
  }

  /** However concurrent recorders interleave, totals, status, count, charge and cost come out the same. */
  lemma InterleavingsAgree(registry: Registry, capabilities: seq<Text>, recorders: seq<seq<Event>>,
                           zs: seq<Event>, others: seq<Event>, pair: Pair)
    requires Interleaves(recorders, zs) && Interleaves(recorders, others)
    requires Registered(registry, capabilities) && WellRecorded(registry, zs)
    ensures AllKnown(registry, RecordedList(CountsOf(zs))) && AllKnown(registry, RecordedList(CountsOf(others)))
    ensures Total(registry, RecordedList(CountsOf(zs)), pair) == Total(registry, RecordedList(CountsOf(others)), pair)
    ensures Resolve(StatusesOf(zs)) == Resolve(StatusesOf(others))
    ensures var m, n := RunMetadata(registry, capabilities, zs), RunMetadata(registry, capabilities, others);
            && m.awsRequestCount == n.awsRequestCount
            && (PricedByPair(registry) ==> m.charged == n.charged && m.estimatedCostUsd == n.estimatedCostUsd)
  {
    InterleavingIsPermutation(recorders, zs);
    InterleavingIsPermutation(recorders, others);
    PermutationsAgree(registry, capabilities, zs, others, pair);
  }
}
