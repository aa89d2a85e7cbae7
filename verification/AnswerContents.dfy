/** What a list call answers, from what the service returned: success, error and every element with its multiplicity. */
module AnswerContents {
  import opened Wrappers
  import opened JsText
  import opened Sequences
  import opened Sorting
  import opened Collations
  import opened FanOut
  import opened Paging
  import opened AwsLists
  import opened CachedLists

  // ----- paged listings

  /** The `n`-th reply of a listing. */
  function ReplyAt<T>(l: Listing<T>, n: nat): Listing<T> {
    if n == 0 || l.Broken? then l else ReplyAt(l.rest, n - 1)
  }

  /** The first `n` replies all have a token. */
  predicate GoesOn<T>(l: Listing<T>, n: nat) {
    forall i :: 0 <= i < n ==> ReplyAt(l, i).Reply? && !NoToken(ReplyAt(l, i).nextToken)
  }

  function ItemsBefore<T>(l: Listing<T>, n: nat): seq<T>
    requires GoesOn(l, n)
  {
    if n == 0 then [] else
      assert GoesOn(l, n - 1);
      ItemsBefore(l, n - 1) + ReplyAt(l, n - 1).items
  }

  lemma {:induction false} ReplyOfRest<T>(l: Listing<T>, n: nat)
    requires l.Reply?
    ensures ReplyAt(l.rest, n) == ReplyAt(l, n + 1)
  {
  }

  lemma RestGoesOn<T>(l: Listing<T>, n: nat)
    requires l.Reply? && !NoToken(l.nextToken) && GoesOn(l.rest, n)
    ensures GoesOn(l, n + 1)
  {
    forall i | 0 <= i < n + 1
      ensures ReplyAt(l, i).Reply? && !NoToken(ReplyAt(l, i).nextToken)
    {
      if i > 0 {
        ReplyOfRest(l, i - 1);
      }
    }
  }

  lemma {:induction false} ItemsOfRest<T>(l: Listing<T>, n: nat)
    requires l.Reply? && !NoToken(l.nextToken) && GoesOn(l.rest, n) && GoesOn(l, n + 1)
    ensures ItemsBefore(l, n + 1) == l.items + ItemsBefore(l.rest, n)
  {
    if n > 0 {
      assert GoesOn(l.rest, n - 1) && GoesOn(l, n);
      ItemsOfRest(l, n - 1);
      ReplyOfRest(l, n - 1);
    } else {
      assert ItemsBefore(l, 0) == [];
    }
  }

  /**
   A listing ends after some replies with a token, in one that is rejected or has none: it is rejected in the first
   case, and holds the items of all its replies in order in the second.
   */
  lemma {:induction false} ListedIs<T>(l: Listing<T>) returns (n: nat)
    ensures GoesOn(l, n)
    ensures match ReplyAt(l, n)
            case Broken(reason) => Listed(l) == Rejected(reason)
            case Reply(items, nextToken, _) =>
              NoToken(nextToken) && Listed(l) == Fulfilled(ItemsBefore(l, n) + items)
    decreases l
  {
    n := 0;
    if l.Reply? && !NoToken(l.nextToken) {
      var m := ListedIs(l.rest);
      n := m + 1;
      RestGoesOn(l, m);
      ItemsOfRest(l, m);
      ReplyOfRest(l, m);
    }
  }

  // ----- answers of any kind

  /** The queries fail where the service does. */
  ghost predicate FailTogether<T, R>(query: Text -> Outcome<T>, service: Text -> Outcome<R>) {
    forall r :: match service(r)
                case Fulfilled(_) => query(r).Fulfilled?
                case Rejected(reason) => query(r) == Rejected(reason)
  }

  /** How often each region shows each element. */
  ghost predicate CountsAs<T(!new)>(query: Text -> Outcome<T>, shows: T -> (Text -> nat)) {
    forall r, x :: TimesIn(x)(query(r)) == shows(x)(r)
  }

  /**
   A merged answer succeeds if and only if some region shows something or none fails, and fails as the first
   that does.
   */
  ghost predicate Ends<T(!new), R>(failure: Option<ListError>, service: Text -> Outcome<R>, shows: T -> (Text -> nat),
                                   regions: seq<Text>) {
    && (failure.None? <==> || (exists r, x :: r in regions && shows(x)(r) > 0)
                           || (forall r :: r in regions ==> service(r).Fulfilled?))
    && (failure.Some? ==> FailsAs(Ask(service, regions), failure.value))
  }

  /** Every element is there as often as the regions show it. */
  ghost predicate Holds<T(!new)>(items: seq<T>, shows: T -> (Text -> nat), regions: seq<Text>) {
    forall x :: multiset(items)[x] == SumOver(shows(x), regions)
  }

  function FailureOf<T, E>(r: Result<T, E>): Option<E> {
    match r
    case Success(_) => None
    case Failure(e) => Some(e)
  }

  lemma {:induction false} SumAsked<T>(query: Text -> Outcome<T>, times: Text -> nat, regions: seq<Text>, x: T)
    requires forall r :: TimesIn(x)(query(r)) == times(r)
    ensures SumOver(TimesIn(x), Ask(query, regions)) == SumOver(times, regions)
  {
    if regions != [] {
      var n := |regions| - 1;
      SumAsked(query, times, regions[..n], x);
      assert Ask(query, regions)[..n] == Ask(query, regions[..n]);
    }
  }

  lemma HeldIs<T>(items: seq<T>)
    ensures |items| > 0 <==> exists x :: multiset(items)[x] > 0
  {
    if |items| > 0 {
      assert multiset(items)[items[0]] > 0;
    }
  }

  /** Success, error and contents of a merged answer, from what the service returned for each region. */
  lemma MergedAnswer<T(!new), R>(le: (T, T) -> bool, query: Text -> Outcome<T>, service: Text -> Outcome<R>,
                                 shows: T -> (Text -> nat), regions: seq<Text>)
    requires FailTogether(query, service) && CountsAs(query, shows)
    ensures var c := Combine(le, Ask(query, regions));
            Ends(FailureOf(c), service, shows, regions) && (c.Success? ==> Holds(c.value, shows, regions))
  {
    var outcomes, c := Ask(query, regions), Combine(le, Ask(query, regions));
    CombineIs(le, outcomes);
    forall x
      ensures SumOver(TimesIn(x), outcomes) == SumOver(shows(x), regions)
    {
      SumAsked(query, shows(x), regions, x);
    }
    SucceedsByRegion(query, service, shows, regions);
    if c.Failure? {
      SameFailure(outcomes, Ask(service, regions), c.error);
    }
  }

  lemma SucceedsByRegion<T(!new), R>(query: Text -> Outcome<T>, service: Text -> Outcome<R>, shows: T -> (Text -> nat),
                                     regions: seq<Text>)
    requires FailTogether(query, service) && CountsAs(query, shows)
    ensures Succeeds(Ask(query, regions)) <==>
            || (exists r, x :: r in regions && shows(x)(r) > 0)
            || (forall r :: r in regions ==> service(r).Fulfilled?)
  {
    var outcomes := Ask(query, regions);
    if i :| 0 <= i < |outcomes| && outcomes[i].Fulfilled? && |outcomes[i].items| > 0 {
      HeldIs(outcomes[i].items);
      var x :| multiset(outcomes[i].items)[x] > 0;
      assert TimesIn(x)(query(regions[i])) == shows(x)(regions[i]);
      assert regions[i] in regions && shows(x)(regions[i]) > 0;
    }
    if r, x :| r in regions && shows(x)(r) > 0 {
      var i :| 0 <= i < |regions| && regions[i] == r;
      assert TimesIn(x)(query(r)) > 0;
      HeldIs(outcomes[i].items);
    }
    if forall i :: 0 <= i < |outcomes| ==> outcomes[i].Fulfilled? {
      forall r | r in regions
        ensures service(r).Fulfilled?
      {
        var i :| 0 <= i < |regions| && regions[i] == r;
        assert outcomes[i].Fulfilled?;
      }
    }
  }

  lemma SameFailure<T, R>(outcomes: seq<Outcome<T>>, others: seq<Outcome<R>>, error: ListError)
    requires |outcomes| == |others| && FailsAs(outcomes, error)
    requires forall i :: 0 <= i < |outcomes| ==>
               match others[i]
               case Fulfilled(_) => outcomes[i].Fulfilled?
               case Rejected(reason) => outcomes[i] == Rejected(reason)
    ensures FailsAs(others, error)
  {
  }

  // ----- alarms

  /** An absent text is shown as the default. */
  predicate Shown(o: Option<Text>, default: string, t: Text) {
    match o
    case Some(value) => t == value
    case None => t == Units(default)
  }

  predicate ShowsAlarm(raw: RawAlarm, region: Text, a: Alarm) {
    && a.region == region && Shown(raw.name, "unknown", a.name) && Shown(raw.state, "OK", a.state)
    && Shown(raw.reason, "", a.reason) && Shown(raw.updatedAt, "", a.updatedAt)
    && Shown(raw.namespace, "", a.namespace) && Shown(raw.metricName, "", a.metricName)
  }

  /** The listing that a region answers with: a single, non-empty state is sent to the service, and no other. */
  function AlarmService(backend: Backend, stateFilter: seq<Text>): Text -> Outcome<RawAlarm> {
    (region: Text) =>
      Listed(backend.alarms(region, if |stateFilter| == 1 && |stateFilter[0]| > 0 then Some(stateFilter[0]) else None))
  }

  /** How often a region's records show the alarm; with several states, only if it has one of them. */
  function AlarmTimes(backend: Backend, stateFilter: seq<Text>, region: Text, a: Alarm): nat {
    match AlarmService(backend, stateFilter)(region)
    case Rejected(_) => 0
    case Fulfilled(raws) =>
      if |stateFilter| > 1 && a.state !in stateFilter then 0
      else CountIf((raw: RawAlarm) => ShowsAlarm(raw, region, a), raws)
  }

  function AlarmShows(backend: Backend, stateFilter: seq<Text>): Alarm -> (Text -> nat) {
    (a: Alarm) => (region: Text) => AlarmTimes(backend, stateFilter, region, a)
  }

  lemma NormalizedIsShown(raw: RawAlarm, region: Text, a: Alarm)
    ensures ShowsAlarm(raw, region, a) <==> NormalizeAlarm(region)(raw) == a
  {
    assert Units("") == [];
  }

  lemma {:induction false} CountMapped<S, T>(f: S -> T, raws: seq<S>, p: S -> bool, x: T)
    requires forall raw :: p(raw) <==> f(raw) == x
    ensures multiset(Map(f, raws))[x] == CountIf(p, raws)
  {
    if raws != [] {
      var n := |raws| - 1;
      CountMapped(f, raws[..n], p, x);
      assert Map(f, raws) == Map(f, raws[..n]) + [f(raws[n])];
    }
  }

  lemma {:induction false} KeptTimes(stateFilter: seq<Text>, alarms: seq<Alarm>, a: Alarm)
    ensures multiset(KeepStates(stateFilter, alarms))[a] == if a.state in stateFilter then multiset(alarms)[a] else 0
  {
    if alarms != [] {
      KeptTimes(stateFilter, alarms[1..], a);
      assert alarms == [alarms[0]] + alarms[1..];
    }
  }

  lemma StateIsSent(backend: Backend, stateFilter: seq<Text>)
    ensures ApiState(stateFilter) == if |stateFilter| == 1 && |stateFilter[0]| > 0 then Some(stateFilter[0]) else None
    ensures FailTogether(QueryAlarms(backend, stateFilter), AlarmService(backend, stateFilter))
  {
  }

  lemma RegionHasAlarm(backend: Backend, stateFilter: seq<Text>, region: Text, a: Alarm)
    ensures TimesIn(a)(QueryAlarms(backend, stateFilter)(region)) == AlarmTimes(backend, stateFilter, region, a)
  {
    var o := AlarmService(backend, stateFilter)(region);
    StateIsSent(backend, stateFilter);
    if o.Fulfilled? {
      var all := Map(NormalizeAlarm(region), o.items);
      forall raw
        ensures ShowsAlarm(raw, region, a) <==> NormalizeAlarm(region)(raw) == a
      {
        NormalizedIsShown(raw, region, a);
      }
      CountMapped(NormalizeAlarm(region), o.items, (raw: RawAlarm) => ShowsAlarm(raw, region, a), a);
      KeptTimes(stateFilter, all, a);
    }
  }

  lemma AlarmsCounted(backend: Backend, stateFilter: seq<Text>)
    ensures CountsAs(QueryAlarms(backend, stateFilter), AlarmShows(backend, stateFilter))
  {
    forall region, a
      ensures TimesIn(a)(QueryAlarms(backend, stateFilter)(region)) == AlarmShows(backend, stateFilter)(a)(region)
    {
      RegionHasAlarm(backend, stateFilter, region, a);
    }
  }

  /**
   An alarm call succeeds if and only if some region has an alarm to show or no region fails, fails as the first region
   that does, and answers exactly the alarms that the records of its regions show: with several states those with one
   of them, otherwise all.
   */
  lemma AlarmAnswerIs(world: World, call: Call, regions: seq<Text>)
    requires call.GetAlarms?
    ensures var r, shows := Answer(call, world, regions), AlarmShows(world.backend, call.stateFilter);
            && Ends(FailureOf(r), AlarmService(world.backend, call.stateFilter), shows, regions)
            && (r.Success? ==> r.value.AlarmList? && Holds(r.value.alarms, shows, regions))
  {
    var f := call.stateFilter;
    var query, shows := QueryAlarms(world.backend, f), AlarmShows(world.backend, f);
    StateIsSent(world.backend, f);
    AlarmsCounted(world.backend, f);
    MergedAnswer(AlarmOrder(world.loc), query, AlarmService(world.backend, f), shows, regions);
  }

  // ----- instances

  /** The value of the first tag called Name, empty without one. */
  predicate ShowsName(tags: seq<Tag>, name: Text) {
    || (exists i ::
          && 0 <= i < |tags| && tags[i].key == Some(Units("Name")) && Shown(tags[i].value, "", name)
          && forall j :: 0 <= j < i ==> tags[j].key != Some(Units("Name")))
    || (name == [] && forall i :: 0 <= i < |tags| ==> tags[i].key != Some(Units("Name")))
  }

  predicate ShowsAddress(o: Option<Text>, shown: Option<Text>) {
    if o.Some? && |o.value| > 0 then shown == o else shown == None
  }

  predicate ShowsInstance(raw: RawInstance, region: Text, x: Instance) {
    && x.region == region && Shown(raw.instanceId, "unknown", x.instanceId) && Shown(raw.state, "unknown", x.state)
    && Shown(raw.instanceType, "unknown", x.instanceType) && ShowsName(raw.tags, x.name)
    && Shown(raw.launchTime, "", x.launchTime) && Shown(raw.availabilityZone, "", x.availabilityZone)
    && ShowsAddress(raw.ipAddress, x.publicIpAddress) && ShowsAddress(raw.privateIpAddress, x.privateIpAddress)
  }

  /** The reservations that a region answers with, for exactly the states of the filter. */
  function InstanceService(backend: Backend, stateFilter: seq<Text>): Text -> Outcome<seq<RawInstance>> {
    (region: Text) => backend.reservations(region, stateFilter)
  }

  /** How often a region's records show the instance. */
  function InstanceTimes(backend: Backend, stateFilter: seq<Text>, region: Text, x: Instance): nat {
    match InstanceService(backend, stateFilter)(region)
    case Rejected(_) => 0
    case Fulfilled(reservations) => SumOver(CountOf((raw: RawInstance) => ShowsInstance(raw, region, x)), reservations)
  }

  function CountOf<T>(p: T -> bool): seq<T> -> nat {
    (s: seq<T>) => CountIf(p, s)
  }

  function InstanceShows(backend: Backend, stateFilter: seq<Text>): Instance -> (Text -> nat) {
    (x: Instance) => (region: Text) => InstanceTimes(backend, stateFilter, region, x)
  }

  lemma {:induction false} NameIsShown(tags: seq<Tag>, name: Text)
    ensures ShowsName(tags, name) <==> name == NameTag(tags)
  {
    assert Units("") == [];
    if tags != [] && tags[0].key != Some(Units("Name")) {
      NameIsShown(tags[1..], name);
      ShowsNameTail(tags, name);
    }
  }

  lemma ShowsNameTail(tags: seq<Tag>, name: Text)
    requires tags != [] && tags[0].key != Some(Units("Name"))
    ensures ShowsName(tags, name) <==> ShowsName(tags[1..], name)
  {
    var key := Some(Units("Name"));
    if i :| 0 <= i < |tags| && tags[i].key == key && Shown(tags[i].value, "", name)
            && forall j :: 0 <= j < i ==> tags[j].key != key {
      assert tags[1..][i - 1] == tags[i];
    }
    if i :| 0 <= i < |tags[1..]| && tags[1..][i].key == key && Shown(tags[1..][i].value, "", name)
            && forall j :: 0 <= j < i ==> tags[1..][j].key != key {
      assert tags[i + 1] == tags[1..][i];
      forall j | 0 <= j < i + 1
        ensures tags[j].key != key
      {
        assert j > 0 ==> tags[j] == tags[1..][j - 1];
      }
    }
  }

  lemma ParsedIsShown(raw: RawInstance, region: Text, x: Instance)
    ensures ShowsInstance(raw, region, x) <==> ParseInstance(region)(raw) == x
  {
    NameIsShown(raw.tags, x.name);
    assert Units("") == [];
  }

  lemma {:induction false} CountFlattened<S>(p: S -> bool, ss: seq<seq<S>>)
    ensures CountIf(p, Flatten(ss)) == SumOver(CountOf(p), ss)
  {
    if ss != [] {
      var n := |ss| - 1;
      CountFlattened(p, ss[..n]);
      SumAppend(Indicator(p), Flatten(ss[..n]), ss[n]);
    }
  }

  lemma RegionHasInstance(backend: Backend, stateFilter: seq<Text>, region: Text, x: Instance)
    ensures TimesIn(x)(QueryInstances(backend, stateFilter)(region)) == InstanceTimes(backend, stateFilter, region, x)
  {
    var o := backend.reservations(region, stateFilter);
    if o.Fulfilled? {
      var p := (raw: RawInstance) => ShowsInstance(raw, region, x);
      forall raw
        ensures p(raw) <==> ParseInstance(region)(raw) == x
      {
        ParsedIsShown(raw, region, x);
      }
      CountMapped(ParseInstance(region), Flatten(o.items), p, x);
      CountFlattened(p, o.items);
    }
  }

  lemma InstancesCounted(backend: Backend, stateFilter: seq<Text>)
    ensures FailTogether(QueryInstances(backend, stateFilter), InstanceService(backend, stateFilter))
    ensures CountsAs(QueryInstances(backend, stateFilter), InstanceShows(backend, stateFilter))
  {
    forall region, x
      ensures TimesIn(x)(QueryInstances(backend, stateFilter)(region)) == InstanceShows(backend, stateFilter)(x)(region)
    {
      RegionHasInstance(backend, stateFilter, region, x);
    }
  }

  /**
   An instance call asks every region for exactly the states of its filter. It succeeds if and only if some region has
   an instance or no region fails, fails as the first region that does, and answers exactly the instances that the
   reservations of its regions show.
   */
  lemma InstanceAnswerIs(world: World, call: Call, regions: seq<Text>)
    requires call.ListInstances?
    ensures var r, shows := Answer(call, world, regions), InstanceShows(world.backend, call.stateFilter);
            && Ends(FailureOf(r), InstanceService(world.backend, call.stateFilter), shows, regions)
            && (r.Success? ==> r.value.InstanceList? && Holds(r.value.instances, shows, regions))
  {
    var f := call.stateFilter;
    var query, shows := QueryInstances(world.backend, f), InstanceShows(world.backend, f);
    InstancesCounted(world.backend, f);
    MergedAnswer(InstanceOrder(world.loc), query, InstanceService(world.backend, f), shows, regions);
  }

  // ----- functions

  predicate ShowsFunction(raw: RawFunction, region: Text, x: LambdaFunction) {
    && x.region == region && Shown(raw.functionName, "", x.functionName)
    && Shown(raw.runtime, "unknown", x.runtime) && Shown(raw.state, "unknown", x.state)
  }

  function FunctionTimes(backend: Backend, region: Text, x: LambdaFunction): nat {
    match backend.functions(region)
    case Rejected(_) => 0
    case Fulfilled(raws) => CountIf((raw: RawFunction) => ShowsFunction(raw, region, x), raws)
  }

  function FunctionShows(backend: Backend): LambdaFunction -> (Text -> nat) {
    (x: LambdaFunction) => (region: Text) => FunctionTimes(backend, region, x)
  }

  lemma RegionHasFunction(backend: Backend, region: Text, x: LambdaFunction)
    ensures TimesIn(x)(QueryFunctions(backend)(region)) == FunctionTimes(backend, region, x)
  {
    var o := backend.functions(region);
    if o.Fulfilled? {
      assert Units("") == [];
      CountMapped(ParseFunction(region), o.items, (raw: RawFunction) => ShowsFunction(raw, region, x), x);
    }
  }

  /** `s` cut to `limit` elements, or by `-limit` elements at its end. */
  predicate IsCut<T(==)>(s: seq<T>, limit: int, cut: seq<T>) {
    var n := if limit >= 0 then limit else |s| + limit;
    cut == if n >= |s| then s else if n > 0 then s[..n] else []
  }

  lemma FunctionsCounted(backend: Backend)
    ensures FailTogether(QueryFunctions(backend), backend.functions)
    ensures CountsAs(QueryFunctions(backend), FunctionShows(backend))
  {
    forall region, x
      ensures TimesIn(x)(QueryFunctions(backend)(region)) == FunctionShows(backend)(x)(region)
    {
      RegionHasFunction(backend, region, x);
    }
  }

  /** The answer is the cut of a sorted list of everything that the regions show. */
  ghost predicate CutOfAll(loc: Collation, limit: int, shows: LambdaFunction -> (Text -> nat), regions: seq<Text>,
                           answer: seq<LambdaFunction>) {
    exists all :: Sorted(FunctionOrder(loc), all) && IsCut(all, limit, answer) && Holds(all, shows, regions)
  }

  /**
   A function call succeeds if and only if some region has a function or no region fails, fails as the first region
   that does, and answers the cut, to 100 functions unless a limit is given, of exactly the functions that the records
   of its regions show, in order.
   */
  lemma FunctionAnswerIs(world: World, call: Call, regions: seq<Text>)
    requires call.ListFunctions? && StrictCollation(world.loc)
    ensures var r, shows := Answer(call, world, regions), FunctionShows(world.backend);
            var limit := if call.limit.Some? then call.limit.value else 100;
            && Ends(FailureOf(r), world.backend.functions, shows, regions)
            && (r.Success? ==> r.value.FunctionList? && CutOfAll(world.loc, limit, shows, regions, r.value.functions))
  {
    var le, query, shows := FunctionOrder(world.loc), QueryFunctions(world.backend), FunctionShows(world.backend);
    FunctionsCounted(world.backend);
    MergedAnswer(le, query, world.backend.functions, shows, regions);
    MergedIsSorted(world.loc, world.backend, Ask(query, regions));
    var c := Combine(le, Ask(query, regions));
    if c.Success? {
      CutIs(world.loc, LimitOf(call.limit), shows, regions, c.value);
    }
  }

  lemma MergedIsSorted(loc: Collation, backend: Backend, outcomes: seq<Outcome<LambdaFunction>>)
    requires StrictCollation(loc)
    ensures var c := Combine(FunctionOrder(loc), outcomes); c.Success? ==> Sorted(FunctionOrder(loc), c.value)
  {
    FunctionsSeparate(loc, backend);
    SortSorted(FunctionOrder(loc), Gather(outcomes));
  }

  lemma CutIs(loc: Collation, limit: int, shows: LambdaFunction -> (Text -> nat), regions: seq<Text>,
              all: seq<LambdaFunction>)
    requires Sorted(FunctionOrder(loc), all) && Holds(all, shows, regions)
    ensures CutOfAll(loc, limit, shows, regions, SliceTo(all, limit))
  {
    assert IsCut(all, limit, SliceTo(all, limit));
  }

  // ----- the checks before a call

  /** The states that the filter of a call may hold. */
  function StatesOf(call: Call): seq<string> {
    match call
    case GetAlarms(_, _) => ["ALARM", "INSUFFICIENT_DATA", "OK"]
    case ListInstances(_, _) => ["pending", "running", "stopping", "stopped", "shutting-down", "terminated"]
    case ListFunctions(_, _) => []
  }

  predicate IsStateOf(call: Call, s: Text) {
    exists i :: 0 <= i < |StatesOf(call)| && s == Units(StatesOf(call)[i])
  }

  /** The first `i` states of the filter are valid. */
  predicate ValidBefore(call: Call, i: nat)
    requires i <= |StateFilter(call)|
  {
    forall j :: 0 <= j < i ==> IsStateOf(call, StateFilter(call)[j])
  }

  lemma ValidStateIff(call: Call, s: Text)
    requires !call.ListFunctions?
    ensures ValidState(call, s) <==> IsStateOf(call, s)
  {
    var names := StatesOf(call);
    if call.GetAlarms? {
      assert names[0] == "ALARM" && names[1] == "INSUFFICIENT_DATA" && names[2] == "OK";
    } else {
      assert names[0] == "pending" && names[1] == "running" && names[2] == "stopping";
      assert names[3] == "stopped" && names[4] == "shutting-down" && names[5] == "terminated";
    }
  }

  lemma {:induction false} FirstInvalidIs(call: Call, states: seq<Text>)
    requires call.ListFunctions? ==> states == []
    ensures match FirstInvalid(call, states)
            case None => forall j :: 0 <= j < |states| ==> IsStateOf(call, states[j])
            case Some(s) => exists i ::
              && 0 <= i < |states| && s == states[i] && !IsStateOf(call, s)
              && forall j :: 0 <= j < i ==> IsStateOf(call, states[j])
  {
    if states != [] {
      ValidStateIff(call, states[0]);
      FirstInvalidIs(call, states[1..]);
      if ValidState(call, states[0]) {
        var r := FirstInvalid(call, states[1..]);
        if r.Some? {
          var i :| 0 <= i < |states[1..]| && r.value == states[1..][i]
                   && forall j :: 0 <= j < i ==> IsStateOf(call, states[1..][j]);
          assert states[i + 1] == states[1..][i];
          forall j | 0 <= j < i + 1
            ensures IsStateOf(call, states[j])
          {
            assert j > 0 ==> states[j] == states[1..][j - 1];
          }
        } else {
          forall j | 0 <= j < |states|
            ensures IsStateOf(call, states[j])
          {
            assert j > 0 ==> states[j] == states[1..][j - 1];
          }
        }
      }
    }
  }

  /**
   A call is rejected for the first state of its filter that is none of the known ones, then for an empty list of
   allowed regions or a requested one outside it; otherwise it is of the requested regions, or of all allowed ones.
   */
  lemma CheckIs(call: Call, world: World)
    ensures var states := StateFilter(call);
            match Check(call, world)
            case Success(regions) =>
              && ValidBefore(call, |states|) && |world.allowed| > 0
              && (forall r :: r in regions ==> r in world.allowed)
              && regions == if call.regions.Some? && |call.regions.value| > 0 then call.regions.value else world.allowed
            case Failure(error) =>
              if !ValidBefore(call, |states|) then
                exists i ::
                  0 <= i < |states| && ValidBefore(call, i) && !IsStateOf(call, states[i])
                  && error == InvalidStateFilter(states[i])
              else
                && error == BadRegions
                && (|world.allowed| == 0
                    || (call.regions.Some? && exists r :: r in call.regions.value && r !in world.allowed))
  {
    FirstInvalidIs(call, StateFilter(call));
  }
}
