/**
 The cached list calls (listAlarms, listInstances, listFunctions): the key under which an answer
 is cached, and the calls as methods over a fallible cache.
 */
module CachedLists {
  import opened Wrappers
  import opened JsText
  import opened Sequences
  import opened JsonText
  import opened Sorting
  import opened Collations
  import opened CacheKeys
  import opened KeyInjectivity
  import opened Regions
  import opened FanOut
  import opened AwsLists
  import opened Paging
  import opened Telemetry
  import opened CacheStore

  const LAMBDA_MAX_FUNCTIONS := 100

  datatype Call =
    | GetAlarms(regions: Option<seq<Text>>, stateFilter: seq<Text>)
    | ListInstances(regions: Option<seq<Text>>, stateFilter: seq<Text>)
    | ListFunctions(regions: Option<seq<Text>>, limit: Option<int>)

  datatype Payload =
    | AlarmList(alarms: seq<Alarm>)
    | InstanceList(instances: seq<Instance>)
    | FunctionList(functions: seq<LambdaFunction>)

  /** What is fixed while the cache is in use. */
  datatype World = World(backend: Backend, loc: Collation, allowed: seq<Text>, sha256Hex: Text -> Text)

  // ----- the uncached calls

  predicate ValidAlarmState(s: Text) {
    s == Units("ALARM") || s == Units("INSUFFICIENT_DATA") || s == Units("OK")
  }

  predicate ValidInstanceState(s: Text) {
    || s == Units("pending") || s == Units("running") || s == Units("stopping")
    || s == Units("stopped") || s == Units("shutting-down") || s == Units("terminated")
  }

  predicate ValidState(call: Call, s: Text) {
    match call
    case GetAlarms(_, _) => ValidAlarmState(s)
    case ListInstances(_, _) => ValidInstanceState(s)
    case ListFunctions(_, _) => true
  }

  function StateFilter(call: Call): seq<Text> {
    if call.ListFunctions? then [] else call.stateFilter
  }

  function FirstInvalid(call: Call, states: seq<Text>): Option<Text> {
    if states == [] then None
    else if !ValidState(call, states[0]) then Some(states[0])
    else FirstInvalid(call, states[1..])
  }

  /** The checks before the cache is consulted; they yield the resolved regions. */
  function Check(call: Call, world: World): Result<seq<Text>, ListError> {
    var invalid := FirstInvalid(call, StateFilter(call));
    if invalid.Some? then Failure(InvalidStateFilter(invalid.value)) else
      var regions := ResolveRegions(call.regions, world.allowed);
      if regions.Failure? then Failure(BadRegions) else Success(regions.value)
  }

  function LimitOf(limit: Option<int>): int {
    if limit.Some? then limit.value else LAMBDA_MAX_FUNCTIONS
  }

  /** `s.slice(0, limit)`, a negative limit counting from the end. */
  function SliceTo<T>(s: seq<T>, limit: int): seq<T> {
    if limit >= |s| then s
    else if limit >= 0 then s[..limit]
    else if -limit <= |s| then s[..|s| + limit]
    else []
  }

  function Answer(call: Call, world: World, regions: seq<Text>): Result<Payload, ListError> {
    match call
    case GetAlarms(_, stateFilter) =>
      var r := Combine(AlarmOrder(world.loc), Ask(QueryAlarms(world.backend, stateFilter), regions));
      if r.Success? then Success(AlarmList(r.value)) else Failure(r.error)
    case ListInstances(_, stateFilter) =>
      var r := Combine(InstanceOrder(world.loc), Ask(QueryInstances(world.backend, stateFilter), regions));
      if r.Success? then Success(InstanceList(r.value)) else Failure(r.error)
    case ListFunctions(_, limit) =>
      var r := Combine(FunctionOrder(world.loc), Ask(QueryFunctions(world.backend), regions));
      if r.Success? then Success(FunctionList(SliceTo(r.value, LimitOf(limit)))) else Failure(r.error)
  }

  function Uncached(call: Call, world: World): Result<Payload, ListError> {
    var regions := Check(call, world);
    if regions.Failure? then Failure(regions.error) else Answer(call, world, regions.value)
  }

  // ----- cache keys

  function Digits(n: nat): Text {
    if n < 10 then [0x30 + n] else Digits(n / 10) + [0x30 + n % 10]
  }

  /** The printed form of an integer. */
  function Decimal(n: int): (t: NumberText) {
    if n < 0 then
      DigitsAreNumberUnits(-n);
      [0x2D] + Digits(-n)
    else
      DigitsAreNumberUnits(n);
      Digits(n)
  }

  lemma {:induction false} DigitsAreNumberUnits(n: nat)
    ensures Digits(n) != [] && Digits(n)[0] != 0x2D && AllNumberUnits(Digits(n))
  {
    if n >= 10 {
      DigitsAreNumberUnits(n / 10);
    }
  }

  lemma {:induction false} DigitsInjective(m: nat, n: nat)
    requires Digits(m) == Digits(n)
    ensures m == n
  {
    var s, t := Digits(m), Digits(n);
    DigitsAreNumberUnits(m / 10);
    DigitsAreNumberUnits(n / 10);
    assert s[|s| - 1] == 0x30 + m % 10 && t[|t| - 1] == 0x30 + n % 10;
    if m >= 10 && n >= 10 {
      assert s[..|s| - 1] == Digits(m / 10) && t[..|t| - 1] == Digits(n / 10);
      DigitsInjective(m / 10, n / 10);
    }
  }

  lemma DecimalInjective(m: int, n: int)
    requires Decimal(m) == Decimal(n)
    ensures m == n
  {
    DigitsAreNumberUnits(if m < 0 then -m else m);
    DigitsAreNumberUnits(if n < 0 then -n else n);
    if m < 0 && n < 0 {
      assert Decimal(m)[1..] == Digits(-m) && Decimal(n)[1..] == Digits(-n);
      DigitsInjective(-m, -n);
    } else if m >= 0 && n >= 0 {
      DigitsInjective(m, n);
    }
  }

  function Texts(ts: seq<Text>): Value {
    Arr(Map((t: Text) => Str(t), ts))
  }

  function ToolName(call: Call): Text {
    match call
    case GetAlarms(_, _) => Units("get_cloudwatch_alarms")
    case ListInstances(_, _) => Units("list_ec2_instances")
    case ListFunctions(_, _) => Units("list_lambda_functions")
  }

  function KeyParams(call: Call, regions: seq<Text>): seq<Entry> {
    var sortedRegions := Entry(Units("regions"), Texts(Sort(LexLe, regions)));
    if call.ListFunctions? then [sortedRegions, Entry(Units("limit"), Num(Finite(Decimal(LimitOf(call.limit)))))]
    else [sortedRegions, Entry(Units("stateFilter"), Texts(Sort(LexLe, call.stateFilter)))]
  }

  /** The text whose digest is the cache key. */
  function KeyTextOf(call: Call, regions: seq<Text>): Text {
    KeyText(ToolName(call), KeyParams(call, regions))
  }

  function CacheKey(call: Call, world: World, regions: seq<Text>): Text {
    BuildCacheKey(world.sha256Hex, ToolName(call), KeyParams(call, regions))
  }

  // ----- calls over a cache

  type Entries = map<Text, Payload>

  function LookUp(call: Call, world: World, entries: Entries, readFails: bool): Option<Payload> {
    var regions := Check(call, world);
    if regions.Success? && !readFails && CacheKey(call, world, regions.value) in entries
    then Some(entries[CacheKey(call, world, regions.value)])
    else None
  }

  /** The entries after the write that ends a call which missed the cache. */
  function Store(call: Call, world: World, entries: Entries, writeFails: bool): Entries {
    var regions, answer := Check(call, world), Uncached(call, world);
    if regions.Success? && answer.Success? && !writeFails
    then entries[CacheKey(call, world, regions.value) := answer.value]
    else entries
  }

  function CallResult(call: Call, world: World, entries: Entries, readFails: bool): Result<Payload, ListError> {
    var cached := LookUp(call, world, entries, readFails);
    if cached.Some? then Success(cached.value) else Uncached(call, world)
  }

  /** The entries after a whole call. */
  function CallEntries(call: Call, world: World, entries: Entries, readFails: bool, writeFails: bool): Entries {
    if LookUp(call, world, entries, readFails).Some? then entries else Store(call, world, entries, writeFails)
  }

  function ReadStatus(cached: bool, present: bool, readFails: bool): CacheStatus {
    if !present then Disabled else if readFails then Unavailable else if cached then Hit else Miss
  }

  function EntriesIn(cache: KvNamespace?<Payload>): Entries
    reads cache
  {
    if cache == null then map[] else cache.entries
  }

  /** What a call records: nothing when a check fails, otherwise the status of its cache read. */
  function CallEvents(call: Call, world: World, entries: Entries, present: bool, readFails: bool): seq<Event> {
    if Check(call, world).Failure? then []
    else [Status(ReadStatus(LookUp(call, world, entries, readFails).Some?, present, readFails))]
  }

  lemma LookedUp(call: Call, world: World, entries: Entries, readFails: bool, regions: seq<Text>, key: Text)
    requires Check(call, world) == Success(regions) && key == CacheKey(call, world, regions)
    ensures LookUp(call, world, entries, readFails) ==
            if !readFails && key in entries then Some(entries[key]) else None
  {
  }

  lemma StoredAway(call: Call, world: World, entries: Entries, writeFails: bool, regions: seq<Text>, key: Text,
                   r: Result<Payload, ListError>)
    requires Check(call, world) == Success(regions) && key == CacheKey(call, world, regions)
    requires r == Answer(call, world, regions)
    ensures Uncached(call, world) == r
    ensures Store(call, world, entries, writeFails) ==
            if r.Success? && !writeFails then entries[key := r.value] else entries
  {
  }

  /**
   A call that fails its checks touches nothing. Any other returns what the cache holds under its key and records a
   hit; or else returns its uncached answer, records why there was no hit, and stores the answer unless it is an
   error or the write fails.
   */
  lemma CallIs(call: Call, world: World, entries: Entries, present: bool, readFails: bool, writeFails: bool)
    requires present || entries == map[]
    ensures var r := CallResult(call, world, entries, readFails);
            var next := CallEntries(call, world, entries, readFails, writeFails);
            var recorded := CallEvents(call, world, entries, present, readFails);
            match Check(call, world)
            case Failure(error) => r == Failure(error) && next == entries && recorded == []
            case Success(regions) =>
              var key := CacheKey(call, world, regions);
              if !readFails && key in entries then
                r == Success(entries[key]) && next == entries && recorded == [Status(Hit)]
              else
                && r == Answer(call, world, regions)
                && next == (if r.Success? && !writeFails then entries[key := r.value] else entries)
                && recorded == [Status(if !present then Disabled else if readFails then Unavailable else Miss)]
  {
    if Check(call, world).Success? {
      var regions := Check(call, world).value;
      var key, answer := CacheKey(call, world, regions), Answer(call, world, regions);
      LookedUp(call, world, entries, readFails, regions, key);
      StoredAway(call, world, entries, writeFails, regions, key, answer);
    }
  }

  method CheckCall(call: Call, world: World) returns (r: Result<seq<Text>, ListError>)
    ensures r == Check(call, world)
  {
    var states := StateFilter(call);
    for i := 0 to |states|
      invariant FirstInvalid(call, states[i..]) == FirstInvalid(call, states)
    {
      assert states[i..][1..] == states[i + 1..];
      if !ValidState(call, states[i]) {
        return Failure(InvalidStateFilter(states[i]));
      }
    }
    var regions := ResolveRegions(call.regions, world.allowed);
    return if regions.Failure? then Failure(BadRegions) else Success(regions.value);
  }

  /** Takes over what one reply lists, parsed. */
  method Push<S, T>(parse: S -> T, before: seq<T>, raws: seq<S>) returns (all: seq<T>)
    ensures all == before + Map(parse, raws)
  {
    all := before;
    for i := 0 to |raws|
      invariant all == before + Map(parse, raws[..i])
    {
      all := all + [parse(raws[i])];
    }
    assert raws[..|raws|] == raws;
  }

  lemma FollowedByTwice<T>(before: seq<T>, items: seq<T>, o: Outcome<T>)
    ensures FollowedBy(before, FollowedBy(items, o)) == FollowedBy(before + items, o)
  {
    assert o.Fulfilled? ==> before + (items + o.items) == before + items + o.items;
  }

  lemma MapAppend<S, T>(f: S -> T, a: seq<S>, b: seq<S>)
    ensures Map(f, a + b) == Map(f, a) + Map(f, b)
  {
  }

  /** The token loop: a request that is rejected, on whatever page, rejects the listing. */
  method CollectAlarms(first: Listing<RawAlarm>, region: Text) returns (all: seq<Alarm>, failure: Option<Reason>)
    ensures var listed := Listed(first);
            if listed.Fulfilled? then failure.None? && all == Map(NormalizeAlarm(region), listed.items)
            else failure == Some(listed.reason)
  {
    var response := first;
    all := [];
    ghost var raws: seq<RawAlarm> := [];
    while true
      invariant Listed(first) == FollowedBy(raws, Listed(response))
      invariant all == Map(NormalizeAlarm(region), raws)
      decreases response
    {
      if response.Broken? {
        return all, Some(response.reason);
      }
      all := Push(NormalizeAlarm(region), all, response.items);
      MapAppend(NormalizeAlarm(region), raws, response.items);
      FollowedByTwice(raws, response.items, Listed(response.rest));
      raws := raws + response.items;
      if Token(response.nextToken).None? {
        return all, None;
      }
      response := response.rest;
    }
  }

  method DescribeAlarmsInRegion(backend: Backend, region: Text, stateFilter: seq<Text>) returns (o: Outcome<Alarm>)
    ensures o == QueryAlarms(backend, stateFilter)(region)
  {
    var all, failure := CollectAlarms(backend.alarms(region, ApiState(stateFilter)), region);
    if failure.Some? {
      return Rejected(failure.value);
    }
    return Fulfilled(if |stateFilter| > 1 then KeepStates(stateFilter, all) else all);
  }

  /** One request per region; all of them settle. */
  method DescribeAlarmsEverywhere(backend: Backend, regions: seq<Text>, stateFilter: seq<Text>)
    returns (outcomes: seq<Outcome<Alarm>>)
    ensures outcomes == Ask(QueryAlarms(backend, stateFilter), regions)
  {
    outcomes := [];
    for i := 0 to |regions|
      invariant outcomes == Ask(QueryAlarms(backend, stateFilter), regions[..i])
    {
      var o := DescribeAlarmsInRegion(backend, regions[i], stateFilter);
      outcomes := outcomes + [o];
    }
    assert regions[..|regions|] == regions;
  }

  /** The nested loops over reservations and their instances. */
  method DescribeInstancesInRegion(backend: Backend, region: Text, stateFilter: seq<Text>)
    returns (o: Outcome<Instance>)
    ensures o == QueryInstances(backend, stateFilter)(region)
  {
    var answer := backend.reservations(region, stateFilter);
    if answer.Rejected? {
      return Rejected(answer.reason);
    }
    var reservations := answer.items;
    var instances: seq<Instance> := [];
    for i := 0 to |reservations|
      invariant instances == Map(ParseInstance(region), Flatten(reservations[..i]))
    {
      instances := Push(ParseInstance(region), instances, reservations[i]);
      assert reservations[..i + 1][..i] == reservations[..i];
      MapAppend(ParseInstance(region), Flatten(reservations[..i]), reservations[i]);
    }
    assert reservations[..|reservations|] == reservations;
    return Fulfilled(instances);
  }

  /** One request per region; all of them settle. */
  method DescribeInstancesEverywhere(backend: Backend, regions: seq<Text>, stateFilter: seq<Text>)
    returns (outcomes: seq<Outcome<Instance>>)
    ensures outcomes == Ask(QueryInstances(backend, stateFilter), regions)
  {
    outcomes := [];
    for i := 0 to |regions|
      invariant outcomes == Ask(QueryInstances(backend, stateFilter), regions[..i])
    {
      var o := DescribeInstancesInRegion(backend, regions[i], stateFilter);
      outcomes := outcomes + [o];
    }
    assert regions[..|regions|] == regions;
  }

  method ListAlarms(call: Call, world: World, cache: KvNamespace?<Payload>, execution: Collector?, readFails: bool,
                    writeFails: bool)
    returns (r: Result<Payload, ListError>)
    requires call.GetAlarms?
    requires execution != null ==> execution.Valid()
    modifies cache, execution
    ensures r == CallResult(call, world, old(EntriesIn(cache)), readFails)
    ensures cache != null ==> cache.entries == CallEntries(call, world, old(cache.entries), readFails, writeFails)
    ensures execution != null ==>
              && execution.Valid()
              && execution.events ==
                 old(execution.events) + CallEvents(call, world, old(EntriesIn(cache)), cache != null, readFails)
  {
    var checked := CheckCall(call, world);
    if checked.Failure? {
      return Failure(checked.error);
    }
    var regions := checked.value;
    var key := CacheKey(call, world, regions);
    var cached, status := CacheReadWithStatus(cache, key, execution, readFails);
    if cached.Some? {
      return Success(cached.value);
    }
    var outcomes := DescribeAlarmsEverywhere(world.backend, regions, call.stateFilter);
    var settled := Settle(AlarmOrder(world.loc), outcomes);
    if settled.Failure? {
      return Failure(settled.error);
    }
    r := Success(AlarmList(settled.value));
    if cache != null {
      CacheSet(cache, key, r.value, writeFails);
    }
  }

  method ListInstances(call: Call, world: World, cache: KvNamespace?<Payload>, execution: Collector?, readFails: bool,
                       writeFails: bool)
    returns (r: Result<Payload, ListError>)
    requires call.ListInstances?
    requires execution != null ==> execution.Valid()
    modifies cache, execution
    ensures r == CallResult(call, world, old(EntriesIn(cache)), readFails)
    ensures cache != null ==> cache.entries == CallEntries(call, world, old(cache.entries), readFails, writeFails)
    ensures execution != null ==>
              && execution.Valid()
              && execution.events ==
                 old(execution.events) + CallEvents(call, world, old(EntriesIn(cache)), cache != null, readFails)
  {
    var checked := CheckCall(call, world);
    if checked.Failure? {
      return Failure(checked.error);
    }
    var regions := checked.value;
    var key := CacheKey(call, world, regions);
    var cached, status := CacheReadWithStatus(cache, key, execution, readFails);
    if cached.Some? {
      return Success(cached.value);
    }
    var outcomes := DescribeInstancesEverywhere(world.backend, regions, call.stateFilter);
    var settled := Settle(InstanceOrder(world.loc), outcomes);
    if settled.Failure? {
      return Failure(settled.error);
    }
    r := Success(InstanceList(settled.value));
    if cache != null {
      CacheSet(cache, key, r.value, writeFails);
    }
  }

  method ListFunctions(call: Call, world: World, cache: KvNamespace?<Payload>, execution: Collector?, readFails: bool,
                       writeFails: bool)
    returns (r: Result<Payload, ListError>)
    requires call.ListFunctions?
    requires execution != null ==> execution.Valid()
    modifies cache, execution
    ensures r == CallResult(call, world, old(EntriesIn(cache)), readFails)
    ensures cache != null ==> cache.entries == CallEntries(call, world, old(cache.entries), readFails, writeFails)
    ensures execution != null ==>
              && execution.Valid()
              && execution.events ==
                 old(execution.events) + CallEvents(call, world, old(EntriesIn(cache)), cache != null, readFails)
  {
    var checked := CheckCall(call, world);
    if checked.Failure? {
      return Failure(checked.error);
    }
    var regions := checked.value;
    var key := CacheKey(call, world, regions);
    var cached, status := CacheReadWithStatus(cache, key, execution, readFails);
    if cached.Some? {
      return Success(cached.value);
    }
    var outcomes := Ask(QueryFunctions(world.backend), regions);
    var settled := Settle(FunctionOrder(world.loc), outcomes);
    if settled.Failure? {
      return Failure(settled.error);
    }
    r := Success(FunctionList(SliceTo(settled.value, LimitOf(call.limit))));
    if cache != null {
      CacheSet(cache, key, r.value, writeFails);
    }
  }
}
