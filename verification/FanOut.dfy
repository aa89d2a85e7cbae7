/**
 The region fan-out shared by the list calls: query every region, merge what was fulfilled,
 fail only when nothing came back and some region failed, and sort stably.
 */
module FanOut {
  import opened Wrappers
  import opened JsText
  import opened Sequences
  import opened Sorting

  /** Why a region failed: an AWS request error, or anything else. */
  datatype Reason = AwsRequestError(code: Text) | OtherError

  datatype Outcome<+T> = Fulfilled(items: seq<T>) | Rejected(reason: Reason)

  datatype ListError =
    | InvalidStateFilter(state: Text)
    | BadRegions
    | RequestFailed(reason: Reason)
    | AllRegionsFailed

  function ItemsOf<T>(o: Outcome<T>): seq<T> {
    if o.Fulfilled? then o.items else []
  }

  function Ask<T>(query: Text -> Outcome<T>, regions: seq<Text>): (os: seq<Outcome<T>>)
    ensures |os| == |regions|
    ensures forall i :: 0 <= i < |os| ==> os[i] == query(regions[i])
  {
    seq(|regions|, i requires 0 <= i < |regions| => query(regions[i]))
  }

  function Gather<T>(outcomes: seq<Outcome<T>>): seq<T> {
    if outcomes == [] then [] else Gather(outcomes[..|outcomes| - 1]) + ItemsOf(outcomes[|outcomes| - 1])
  }

  function Reasons<T>(outcomes: seq<Outcome<T>>): seq<Reason> {
    if outcomes == [] then [] else
      var last := outcomes[|outcomes| - 1];
      Reasons(outcomes[..|outcomes| - 1]) + if last.Rejected? then [last.reason] else []
  }

  function ErrorOf(reasons: seq<Reason>): ListError
    requires reasons != []
  {
    if reasons[0].AwsRequestError? then RequestFailed(reasons[0]) else AllRegionsFailed
  }

  /** The answer of an uncached list call. */
  function Combine<T>(le: (T, T) -> bool, outcomes: seq<Outcome<T>>): Result<seq<T>, ListError> {
    var all, reasons := Gather(outcomes), Reasons(outcomes);
    if all == [] && reasons != [] then Failure(ErrorOf(reasons)) else Success(Sort(le, all))
  }

  /** The loop over settled outcomes, as all three clients write it. */
  method MergeOutcomes<T>(outcomes: seq<Outcome<T>>) returns (all: seq<T>, errors: seq<Reason>)
    ensures all == Gather(outcomes) && errors == Reasons(outcomes)
  {
    all, errors := [], [];
    for i := 0 to |outcomes|
      invariant all == Gather(outcomes[..i]) && errors == Reasons(outcomes[..i])
    {
      assert outcomes[..i + 1][..i] == outcomes[..i];
      if outcomes[i].Fulfilled? {
        all := all + outcomes[i].items;
      } else {
        errors := errors + [outcomes[i].reason];
      }
    }
    assert outcomes[..|outcomes|] == outcomes;
  }

  // ----- what the answer is, from the outcomes

  /** Some region came back with something, or none failed. */
  predicate Succeeds<T>(outcomes: seq<Outcome<T>>) {
    || (exists i :: 0 <= i < |outcomes| && outcomes[i].Fulfilled? && |outcomes[i].items| > 0)
    || (forall i :: 0 <= i < |outcomes| ==> outcomes[i].Fulfilled?)
  }

  /** The first region that failed decides the error. */
  predicate FailsAs<T>(outcomes: seq<Outcome<T>>, error: ListError) {
    exists i ::
      && 0 <= i < |outcomes| && outcomes[i].Rejected?
      && (forall j :: 0 <= j < i ==> outcomes[j].Fulfilled?)
      && error == match outcomes[i].reason
                  case AwsRequestError(_) => RequestFailed(outcomes[i].reason)
                  case OtherError => AllRegionsFailed
  }

  /** How often an outcome holds `x`. */
  function TimesIn<T(==)>(x: T): Outcome<T> -> nat {
    (o: Outcome<T>) => match o
                       case Fulfilled(items) => multiset(items)[x]
                       case Rejected(_) => 0
  }

  lemma LastOf<T>(outcomes: seq<Outcome<T>>)
    requires outcomes != []
    ensures outcomes == outcomes[..|outcomes| - 1] + [outcomes[|outcomes| - 1]]
  {
  }

  lemma {:induction false} GatherHolds<T>(outcomes: seq<Outcome<T>>, x: T)
    ensures multiset(Gather(outcomes))[x] == SumOver(TimesIn(x), outcomes)
  {
    if outcomes != [] {
      GatherHolds(outcomes[..|outcomes| - 1], x);
    }
  }

  lemma {:induction false} NothingGathered<T>(outcomes: seq<Outcome<T>>)
    ensures Gather(outcomes) == [] <==>
            forall i :: 0 <= i < |outcomes| && outcomes[i].Fulfilled? ==> |outcomes[i].items| == 0
  {
    if outcomes != [] {
      NothingGathered(outcomes[..|outcomes| - 1]);
      LastOf(outcomes);
    }
  }

  lemma {:induction false} FirstReason<T>(outcomes: seq<Outcome<T>>)
    ensures Reasons(outcomes) == [] <==> forall i :: 0 <= i < |outcomes| ==> outcomes[i].Fulfilled?
    ensures Reasons(outcomes) != [] ==> FailsAs(outcomes, ErrorOf(Reasons(outcomes)))
  {
    if outcomes != [] {
      var n := |outcomes| - 1;
      var init := outcomes[..n];
      FirstReason(init);
      LastOf(outcomes);
      if Reasons(init) != [] {
        assert Reasons(outcomes)[0] == Reasons(init)[0];
        assert FailsAs(outcomes, ErrorOf(Reasons(init)));
      } else if outcomes[n].Rejected? {
        assert forall j :: 0 <= j < n ==> outcomes[j] == init[j];
      }
    }
  }

  /** Success, error and contents of a merged answer, from the outcomes alone. */
  lemma CombineIs<T>(le: (T, T) -> bool, outcomes: seq<Outcome<T>>)
    ensures var r := Combine(le, outcomes);
            && (r.Success? <==> Succeeds(outcomes))
            && (r.Failure? ==> FailsAs(outcomes, r.error))
            && (r.Success? ==> forall x :: multiset(r.value)[x] == SumOver(TimesIn(x), outcomes))
  {
    NothingGathered(outcomes);
    FirstReason(outcomes);
    SortPermutes(le, Gather(outcomes));
    forall x
      ensures multiset(Gather(outcomes))[x] == SumOver(TimesIn(x), outcomes)
    {
      GatherHolds(outcomes, x);
    }
  }

  /** From settled outcomes to the call's answer: merge, fail if nothing came back, sort. */
  method Settle<T>(le: (T, T) -> bool, outcomes: seq<Outcome<T>>) returns (r: Result<seq<T>, ListError>)
    ensures r == Combine(le, outcomes)
  {
    var all, errors := MergeOutcomes(outcomes);
    if |all| == 0 && |errors| > 0 {
      return Failure(ErrorOf(errors));
    }
    return Success(Sort(le, all));
  }

  // ----- independence from the order of the regions

  function Repeat<T>(s: seq<T>, n: nat): seq<T> {
    if n == 0 then [] else Repeat(s, n - 1) + s
  }

  lemma {:induction false} ClassAppend<T>(le: (T, T) -> bool, x: T, a: seq<T>, b: seq<T>)
    ensures Class(le, x, a + b) == Class(le, x, a) + Class(le, x, b)
  {
    if a == [] {
      assert a + b == b;
    } else {
      assert (a + b)[0] == a[0] && (a + b)[1..] == a[1..] + b;
      ClassAppend(le, x, a[1..], b);
      var head := if Tied(le, x, a[0]) then [a[0]] else [];
      assert Class(le, x, a + b) == head + Class(le, x, a[1..] + b);
      assert Class(le, x, a) == head + Class(le, x, a[1..]);
    }
  }

  /** Every item a region returns is of that region, and ties never cross regions. */
  ghost predicate RegionsSeparate<T(!new)>(le: (T, T) -> bool, regionOf: T -> Text, query: Text -> Outcome<T>) {
    && TotalPreorder(le)
    && (forall a, b :: Tied(le, a, b) ==> regionOf(a) == regionOf(b))
    && (forall r, i :: 0 <= i < |ItemsOf(query(r))| ==> regionOf(ItemsOf(query(r))[i]) == r)
  }

  lemma ClassOfOtherRegion<T(!new)>(le: (T, T) -> bool, regionOf: T -> Text, query: Text -> Outcome<T>, x: T, r: Text)
    requires RegionsSeparate(le, regionOf, query) && r != regionOf(x)
    ensures Class(le, x, ItemsOf(query(r))) == []
  {
    var items := ItemsOf(query(r));
    ClassMembers(le, x, items);
    assert forall i :: 0 <= i < |items| ==> regionOf(items[i]) == r;
  }

  /** The items of all regions, one region after another. */
  function Collected<T>(query: Text -> Outcome<T>, regions: seq<Text>): seq<T> {
    if regions == [] then [] else Collected(query, regions[..|regions| - 1]) + ItemsOf(query(regions[|regions| - 1]))
  }

  predicate AllFulfilled<T>(query: Text -> Outcome<T>, regions: seq<Text>) {
    forall r :: r in regions ==> query(r).Fulfilled?
  }

  lemma {:induction false} GatherCollects<T>(query: Text -> Outcome<T>, regions: seq<Text>)
    ensures Gather(Ask(query, regions)) == Collected(query, regions)
    ensures Reasons(Ask(query, regions)) == [] <==> AllFulfilled(query, regions)
  {
    if regions != [] {
      var n := |regions| - 1;
      var os := Ask(query, regions);
      assert os[..n] == Ask(query, regions[..n]);
      GatherCollects(query, regions[..n]);
      assert forall r :: r in regions <==> r in regions[..n] || r == regions[n];
    }
  }

  lemma CountLast(regions: seq<Text>, r: Text)
    requires regions != []
    ensures var n := |regions| - 1;
            multiset(regions)[r] == multiset(regions[..n])[r] + if regions[n] == r then 1 else 0
  {
    assert regions == regions[..|regions| - 1] + [regions[|regions| - 1]];
  }

  /** What ties with `x` in the merge is its own region's class, once per request of that region. */
  lemma {:induction false} ClassOfMerge<T(!new)>(le: (T, T) -> bool, regionOf: T -> Text, query: Text -> Outcome<T>,
                                                 x: T, regions: seq<Text>)
    requires RegionsSeparate(le, regionOf, query)
    ensures Class(le, x, Collected(query, regions)) ==
            Repeat(Class(le, x, ItemsOf(query(regionOf(x)))), multiset(regions)[regionOf(x)])
  {
    if regions != [] {
      var init, r := regions[..|regions| - 1], regions[|regions| - 1];
      ClassOfMerge(le, regionOf, query, x, init);
      ClassAppend(le, x, Collected(query, init), ItemsOf(query(r)));
      CountLast(regions, regionOf(x));
      if r != regionOf(x) {
        ClassOfOtherRegion(le, regionOf, query, x, r);
      }
    }
  }

  lemma {:induction false} NothingCollected<T>(query: Text -> Outcome<T>, regions: seq<Text>)
    ensures Collected(query, regions) == [] <==> forall r :: r in regions ==> ItemsOf(query(r)) == []
  {
    if regions != [] {
      var n := |regions| - 1;
      NothingCollected(query, regions[..n]);
      assert forall r :: r in regions <==> r in regions[..n] || r == regions[n];
    }
  }

  /**
   Fan-out determinism: permuting the requested regions, repeated ones included, changes neither
   whether the call succeeds nor the sequence it returns.
   */
  lemma FanOutIgnoresRegionOrder<T(!new)>(le: (T, T) -> bool, regionOf: T -> Text, query: Text -> Outcome<T>,
                                          regions: seq<Text>, others: seq<Text>)
    requires RegionsSeparate(le, regionOf, query)
    requires multiset(regions) == multiset(others)
    ensures var a, b := Combine(le, Ask(query, regions)), Combine(le, Ask(query, others));
            && (a.Success? <==> b.Success?)
            && (a.Success? ==> a == b)
  {
    GatherCollects(query, regions);
    GatherCollects(query, others);
    NothingCollected(query, regions);
    NothingCollected(query, others);
    forall r
      ensures r in regions <==> r in others
    {
      assert r in regions <==> r in multiset(regions);
      assert r in others <==> r in multiset(others);
    }
    forall x
      ensures Class(le, x, Collected(query, regions)) == Class(le, x, Collected(query, others))
    {
      ClassOfMerge(le, regionOf, query, x, regions);
      ClassOfMerge(le, regionOf, query, x, others);
    }
    SortFixedByClasses(le, Collected(query, regions), Collected(query, others));
  }
}
