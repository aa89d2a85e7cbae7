/**
 The records of the three list calls, what one region answers, and the order the answers are
 sorted in (src/aws/cloudwatch, src/aws/ec2 and src/aws/lambda).
 */
module AwsLists {
  import opened Wrappers
  import opened JsText
  import opened Sequences
  import opened Sorting
  import opened Collations
  import opened FanOut
  import opened Paging

  /** Comparison by a first text, then by a second. */
  function CompareTwo(loc: Collation, a: Text, b: Text, x: Text, y: Text): int {
    if loc(a, b) != 0 then loc(a, b) else loc(x, y)
  }

  lemma CompareTwoTotal(loc: Collation, a: Text, b: Text, x: Text, y: Text)
    requires StrictCollation(loc)
    ensures CompareTwo(loc, a, b, x, y) <= 0 || CompareTwo(loc, b, a, y, x) <= 0
    ensures CompareTwo(loc, a, b, x, y) <= 0 && CompareTwo(loc, b, a, y, x) <= 0 ==> a == b && x == y
  {
  }

  lemma CompareTwoTransitive(loc: Collation, a: Text, b: Text, c: Text, x: Text, y: Text, z: Text)
    requires StrictCollation(loc)
    requires CompareTwo(loc, a, b, x, y) <= 0 && CompareTwo(loc, b, c, y, z) <= 0
    ensures CompareTwo(loc, a, c, x, z) <= 0
  {
  }

  function OrElse(o: Option<Text>, default: Text): Text {
    if o.Some? then o.value else default
  }

  // ----- alarms

  datatype RawAlarm = RawAlarm(name: Option<Text>, state: Option<Text>, reason: Option<Text>, updatedAt: Option<Text>,
                               namespace: Option<Text>, metricName: Option<Text>)

  datatype Alarm = Alarm(name: Text, region: Text, state: Text, reason: Text, updatedAt: Text, namespace: Text,
                         metricName: Text)

  function NormalizeAlarm(region: Text): RawAlarm -> Alarm {
    (raw: RawAlarm) => Alarm(OrElse(raw.name, Units("unknown")), region, OrElse(raw.state, Units("OK")),
                             OrElse(raw.reason, []), OrElse(raw.updatedAt, []), OrElse(raw.namespace, []),
                             OrElse(raw.metricName, []))
  }

  function StateOrder(state: Text): int {
    if state == Units("ALARM") then 0
    else if state == Units("INSUFFICIENT_DATA") then 1
    else if state == Units("OK") then 2
    else 3
  }

  function CompareAlarms(loc: Collation, a: Alarm, b: Alarm): int {
    var stateCmp := StateOrder(a.state) - StateOrder(b.state);
    if stateCmp != 0 then stateCmp else CompareTwo(loc, a.region, b.region, a.name, b.name)
  }

  function AlarmOrder(loc: Collation): (Alarm, Alarm) -> bool {
    (a, b) => CompareAlarms(loc, a, b) <= 0
  }

  /** The single state value that is sent to the service. */
  function ApiState(stateFilter: seq<Text>): Option<Text> {
    if |stateFilter| == 1 && stateFilter[0] != [] then Some(stateFilter[0]) else None
  }

  function KeepStates(stateFilter: seq<Text>, alarms: seq<Alarm>): seq<Alarm> {
    if alarms == [] then []
    else (if alarms[0].state in stateFilter then [alarms[0]] else []) + KeepStates(stateFilter, alarms[1..])
  }

  /** One region's alarms, from what the service lists. */
  function RegionAlarms(stateFilter: seq<Text>, region: Text, raws: seq<RawAlarm>): seq<Alarm> {
    var all := Map(NormalizeAlarm(region), raws);
    if |stateFilter| > 1 then KeepStates(stateFilter, all) else all
  }

  // ----- EC2 instances

  datatype Tag = Tag(key: Option<Text>, value: Option<Text>)

  datatype RawInstance = RawInstance(instanceId: Option<Text>, state: Option<Text>, instanceType: Option<Text>,
                                     launchTime: Option<Text>, availabilityZone: Option<Text>,
                                     ipAddress: Option<Text>, privateIpAddress: Option<Text>,
                                     tags: seq<Tag>)

  datatype Instance = Instance(instanceId: Text, region: Text, state: Text, instanceType: Text, name: Text,
                               launchTime: Text, availabilityZone: Text, publicIpAddress: Option<Text>,
                               privateIpAddress: Option<Text>)

  /** The value of the first tag called Name. */
  function NameTag(tags: seq<Tag>): Text {
    if tags == [] then []
    else if tags[0].key == Some(Units("Name")) then OrElse(tags[0].value, [])
    else NameTag(tags[1..])
  }

  /** An empty address is left out. */
  function NonEmpty(o: Option<Text>): Option<Text> {
    if o == Some([]) then None else o
  }

  function ParseInstance(region: Text): RawInstance -> Instance {
    (raw: RawInstance) =>
      Instance(OrElse(raw.instanceId, Units("unknown")), region, OrElse(raw.state, Units("unknown")),
               OrElse(raw.instanceType, Units("unknown")), NameTag(raw.tags), OrElse(raw.launchTime, []),
               OrElse(raw.availabilityZone, []), NonEmpty(raw.ipAddress), NonEmpty(raw.privateIpAddress))
  }

  function InstanceOrder(loc: Collation): (Instance, Instance) -> bool {
    (a: Instance, b: Instance) => CompareTwo(loc, a.region, b.region, a.instanceId, b.instanceId) <= 0
  }

  // ----- Lambda functions

  datatype RawFunction = RawFunction(functionName: Option<Text>, runtime: Option<Text>, state: Option<Text>)

  datatype LambdaFunction = LambdaFunction(functionName: Text, region: Text, runtime: Text, state: Text)

  function ParseFunction(region: Text): RawFunction -> LambdaFunction {
    (raw: RawFunction) =>
      LambdaFunction(OrElse(raw.functionName, []), region, OrElse(raw.runtime, Units("unknown")),
                     OrElse(raw.state, Units("unknown")))
  }

  function FunctionOrder(loc: Collation): (LambdaFunction, LambdaFunction) -> bool {
    (a: LambdaFunction, b: LambdaFunction) => CompareTwo(loc, a.region, b.region, a.functionName, b.functionName) <= 0
  }

  // ----- a fixed backend

  /**
   A paged listing, as its requests see it: each one is rejected or gets some items, and `rest` is what the next
   request gets, with the token.
   */
  datatype Listing<+T> = Broken(reason: Reason) | Reply(items: seq<T>, nextToken: Option<Text>, rest: Listing<T>)

  /** Items in front of an outcome; a rejection takes them with it. */
  function FollowedBy<T>(items: seq<T>, o: Outcome<T>): Outcome<T> {
    if o.Fulfilled? then Fulfilled(items + o.items) else o
  }

  /** All that a listing holds up to the first reply without a token, unless a request before that is rejected. */
  function Listed<T>(l: Listing<T>): Outcome<T> {
    match l
    case Broken(reason) => Rejected(reason)
    case Reply(items, nextToken, rest) =>
      if Token(nextToken).None? then Fulfilled(items) else FollowedBy(items, Listed(rest))
  }

  /**
   What AWS answers: the alarms of a region for a state value, the reservations of a region
   for a list of filter values, the functions of a region.
   */
  datatype Backend = Backend(alarms: (Text, Option<Text>) -> Listing<RawAlarm>,
                             reservations: (Text, seq<Text>) -> Outcome<seq<RawInstance>>,
                             functions: Text -> Outcome<RawFunction>)

  function QueryAlarms(backend: Backend, stateFilter: seq<Text>): Text -> Outcome<Alarm> {
    (region: Text) =>
      match Listed(backend.alarms(region, ApiState(stateFilter)))
      case Fulfilled(raws) => Fulfilled(RegionAlarms(stateFilter, region, raws))
      case Rejected(reason) => Rejected(reason)
  }

  function QueryInstances(backend: Backend, stateFilter: seq<Text>): Text -> Outcome<Instance> {
    (region: Text) =>
      match backend.reservations(region, stateFilter)
      case Fulfilled(rs) => Fulfilled(Map(ParseInstance(region), Flatten(rs)))
      case Rejected(reason) => Rejected(reason)
  }

  function QueryFunctions(backend: Backend): Text -> Outcome<LambdaFunction> {
    (region: Text) =>
      match backend.functions(region)
      case Fulfilled(raw) => Fulfilled(Map(ParseFunction(region), raw))
      case Rejected(reason) => Rejected(reason)
  }

  // ----- the comparators order by region before name, so ties stay inside one region

  function AlarmRegion(a: Alarm): Text { a.region }

  function InstanceRegion(a: Instance): Text { a.region }

  function FunctionRegion(a: LambdaFunction): Text { a.region }

  lemma {:induction false} KeptStatesAreAlarms(stateFilter: seq<Text>, alarms: seq<Alarm>)
    ensures forall a :: a in KeepStates(stateFilter, alarms) <==> a in alarms && a.state in stateFilter
  {
    if alarms != [] {
      KeptStatesAreAlarms(stateFilter, alarms[1..]);
    }
  }

  lemma AlarmsSeparate(loc: Collation, backend: Backend, stateFilter: seq<Text>)
    requires StrictCollation(loc)
    ensures RegionsSeparate(AlarmOrder(loc), AlarmRegion, QueryAlarms(backend, stateFilter))
  {
    var le, query := AlarmOrder(loc), QueryAlarms(backend, stateFilter);
    forall r, i | 0 <= i < |ItemsOf(query(r))|
      ensures AlarmRegion(ItemsOf(query(r))[i]) == r
    {
      var all := Map(NormalizeAlarm(r), Listed(backend.alarms(r, ApiState(stateFilter))).items);
      KeptStatesAreAlarms(stateFilter, all);
      var a := ItemsOf(query(r))[i];
      assert a in all;
    }
    forall a, b
      ensures le(a, b) || le(b, a)
      ensures Tied(le, a, b) ==> a.region == b.region
    {
      CompareTwoTotal(loc, a.region, b.region, a.name, b.name);
    }
    forall a, b, c | le(a, b) && le(b, c)
      ensures le(a, c)
    {
      if StateOrder(a.state) == StateOrder(b.state) == StateOrder(c.state) {
        CompareTwoTransitive(loc, a.region, b.region, c.region, a.name, b.name, c.name);
      }
    }
  }

  lemma InstancesSeparate(loc: Collation, backend: Backend, stateFilter: seq<Text>)
    requires StrictCollation(loc)
    ensures RegionsSeparate(InstanceOrder(loc), InstanceRegion, QueryInstances(backend, stateFilter))
  {
    var le, query := InstanceOrder(loc), QueryInstances(backend, stateFilter);
    forall r, i | 0 <= i < |ItemsOf(query(r))|
      ensures InstanceRegion(ItemsOf(query(r))[i]) == r
    {
      var raws := Flatten(backend.reservations(r, stateFilter).items);
      assert ItemsOf(query(r))[i] == ParseInstance(r)(raws[i]);
    }
    forall a, b
      ensures le(a, b) || le(b, a)
      ensures Tied(le, a, b) ==> a.region == b.region
    {
      CompareTwoTotal(loc, a.region, b.region, a.instanceId, b.instanceId);
    }
    forall a, b, c | le(a, b) && le(b, c)
      ensures le(a, c)
    {
      CompareTwoTransitive(loc, a.region, b.region, c.region, a.instanceId, b.instanceId, c.instanceId);
    }
  }

  lemma FunctionsSeparate(loc: Collation, backend: Backend)
    requires StrictCollation(loc)
    ensures RegionsSeparate(FunctionOrder(loc), FunctionRegion, QueryFunctions(backend))
  {
    var le, query := FunctionOrder(loc), QueryFunctions(backend);
    forall r, i | 0 <= i < |ItemsOf(query(r))|
      ensures FunctionRegion(ItemsOf(query(r))[i]) == r
    {
      assert ItemsOf(query(r))[i] == ParseFunction(r)(backend.functions(r).items[i]);
    }
    forall a, b
      ensures le(a, b) || le(b, a)
      ensures Tied(le, a, b) ==> a.region == b.region
    {
      CompareTwoTotal(loc, a.region, b.region, a.functionName, b.functionName);
    }
    forall a, b, c | le(a, b) && le(b, c)
      ensures le(a, c)
    {
      CompareTwoTransitive(loc, a.region, b.region, c.region, a.functionName, b.functionName, c.functionName);
    }
  }

  // ----- the order of the state filter

  lemma {:induction false} KeepStatesIgnoresOrder(f: seq<Text>, g: seq<Text>, alarms: seq<Alarm>)
    requires forall s :: s in f <==> s in g
    ensures KeepStates(f, alarms) == KeepStates(g, alarms)
  {
    if alarms != [] {
      KeepStatesIgnoresOrder(f, g, alarms[1..]);
    }
  }

  lemma AlarmQueryIgnoresFilterOrder(backend: Backend, f: seq<Text>, g: seq<Text>, regions: seq<Text>)
    requires multiset(f) == multiset(g)
    ensures Ask(QueryAlarms(backend, f), regions) == Ask(QueryAlarms(backend, g), regions)
  {
    assert |f| == |multiset(f)| && |g| == |multiset(g)|;
    forall s
      ensures s in f <==> s in g
    {
      assert s in f <==> s in multiset(f);
      assert s in g <==> s in multiset(g);
    }
    if |f| == 1 {
      assert f[0] in g;
      assert f == g;
    }
    assert ApiState(f) == ApiState(g);
    forall i | 0 <= i < |regions|
      ensures QueryAlarms(backend, f)(regions[i]) == QueryAlarms(backend, g)(regions[i])
    {
      var listed := Listed(backend.alarms(regions[i], ApiState(f)));
      if listed.Fulfilled? {
        KeepStatesIgnoresOrder(f, g, Map(NormalizeAlarm(regions[i]), listed.items));
      }
    }
  }

  /** The service treats the EC2 filter values as a collection: their order does not matter. */
  ghost predicate FilterOrderBlind(backend: Backend) {
    forall r, f, g :: multiset(f) == multiset(g) ==> backend.reservations(r, f) == backend.reservations(r, g)
  }
}
