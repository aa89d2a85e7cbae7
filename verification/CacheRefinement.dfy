/**
 The cache refines the uncached calls: in every run, with entries lost and reads and writes
 failing at any moment, a list call returns what it would return without a cache.
 */
module CacheRefinement {
  import opened Wrappers
  import opened JsText
  import opened JsonText
  import opened Sorting
  import opened Collations
  import opened CacheKeys
  import opened KeyInjectivity
  import opened Regions
  import opened FanOut
  import opened AwsLists
  import opened CachedLists

  // ----- equal key texts

  lemma ToolNamesDiffer(c: Call, d: Call)
    ensures ToolName(c) == ToolName(d) <==>
            || (c.GetAlarms? && d.GetAlarms?) || (c.ListInstances? && d.ListInstances?)
            || (c.ListFunctions? && d.ListFunctions?)
    ensures COLON !in ToolName(c)
  {
    var a, i, f := Units("get_cloudwatch_alarms"), Units("list_ec2_instances"), Units("list_lambda_functions");
    assert |a| == 21 && |i| == 18 && |f| == 21;
    assert a[0] == Unit('g') && f[0] == Unit('l');
  }

  lemma ParamNames()
    ensures Units("regions") != Units("limit") && Units("regions") != Units("stateFilter")
    ensures EQUALS !in Units("regions") && EQUALS !in Units("limit") && EQUALS !in Units("stateFilter")
  {
    assert |Units("regions")| == 7 && |Units("limit")| == 5 && |Units("stateFilter")| == 11;
  }

  lemma KeyParamsAreGuarded(c: Call, regions: seq<Text>)
    ensures WellFormed(Obj(KeyParams(c, regions))) && NoEquals(Names(KeyParams(c, regions)))
  {
    ParamNames();
    var ps := KeyParams(c, regions);
    assert Names(ps) == [ps[0].name, ps[1].name];
  }

  lemma TwoParams(a: Text, v: Value, b: Text, w: Value)
    requires a != b
    ensures var ps := [Entry(a, v), Entry(b, w)];
            a in Names(ps) && b in Names(ps) && Get(ps, a) == v && Get(ps, b) == w
  {
    var ps := [Entry(a, v), Entry(b, w)];
    assert Names(ps) == [a, b];
  }

  lemma SameTexts(s: seq<Text>, t: seq<Text>)
    requires SameValue(Texts(s), Texts(t))
    ensures s == t
  {
  }

  lemma SameSorted(s: seq<Text>, t: seq<Text>)
    requires SameValue(Texts(Sort(LexLe, s)), Texts(Sort(LexLe, t)))
    ensures multiset(s) == multiset(t)
  {
    SameTexts(Sort(LexLe, s), Sort(LexLe, t));
    SortPermutes(LexLe, s);
    SortPermutes(LexLe, t);
  }

  /** Equal key texts: the same tool, the same regions and filters up to order, the same limit. */
  lemma SameKeyMeans(c: Call, rs: seq<Text>, d: Call, ss: seq<Text>)
    requires KeyTextOf(c, rs) == KeyTextOf(d, ss)
    ensures ToolName(c) == ToolName(d)
    ensures multiset(rs) == multiset(ss) && multiset(StateFilter(c)) == multiset(StateFilter(d))
    ensures c.ListFunctions? ==> d.ListFunctions? && LimitOf(c.limit) == LimitOf(d.limit)
  {
    ToolNamesDiffer(c, d);
    ToolNamesDiffer(d, c);
    KeyParamsAreGuarded(c, rs);
    KeyParamsAreGuarded(d, ss);
    var ps, qs := KeyParams(c, rs), KeyParams(d, ss);
    KeyTextInjective(ToolName(c), ps, ToolName(d), qs);
    ParamNames();
    TwoParams(ps[0].name, ps[0].value, ps[1].name, ps[1].value);
    TwoParams(qs[0].name, qs[0].value, qs[1].name, qs[1].value);
    assert SameValue(Get(ps, Units("regions")), Get(qs, Units("regions")));
    SameSorted(rs, ss);
    if c.ListFunctions? {
      assert SameValue(Get(ps, Units("limit")), Get(qs, Units("limit")));
      DecimalInjective(LimitOf(c.limit), LimitOf(d.limit));
    } else {
      assert SameValue(Get(ps, Units("stateFilter")), Get(qs, Units("stateFilter")));
      SameSorted(c.stateFilter, d.stateFilter);
    }
  }

  /** Calls that share a key text succeed together, with the same answer. */
  lemma SameKeySameAnswer(c: Call, rs: seq<Text>, d: Call, ss: seq<Text>, world: World)
    requires StrictCollation(world.loc) && FilterOrderBlind(world.backend)
    requires KeyTextOf(c, rs) == KeyTextOf(d, ss)
    ensures Answer(c, world, rs).Success? <==> Answer(d, world, ss).Success?
    ensures Answer(c, world, rs).Success? ==> Answer(c, world, rs) == Answer(d, world, ss)
  {
    SameKeyMeans(c, rs, d, ss);
    ToolNamesDiffer(c, d);
    var loc, backend := world.loc, world.backend;
    match c
    case GetAlarms(_, f) =>
      AlarmsSeparate(loc, backend, f);
      FanOutIgnoresRegionOrder(AlarmOrder(loc), AlarmRegion, QueryAlarms(backend, f), rs, ss);
      AlarmQueryIgnoresFilterOrder(backend, f, d.stateFilter, ss);
    case ListInstances(_, f) =>
      InstancesSeparate(loc, backend, f);
      FanOutIgnoresRegionOrder(InstanceOrder(loc), InstanceRegion, QueryInstances(backend, f), rs, ss);
      assert Ask(QueryInstances(backend, f), ss) == Ask(QueryInstances(backend, d.stateFilter), ss);
    case ListFunctions(_, _) =>
      FunctionsSeparate(loc, backend);
      FanOutIgnoresRegionOrder(FunctionOrder(loc), FunctionRegion, QueryFunctions(backend), rs, ss);
  }

  // ----- runs

  /**
   What can happen to the cache: some call that missed writes its answer back, or entries are
   lost. Looking up changes nothing, so every interleaving of concurrent calls is such a sequence.
   */
  datatype CacheEvent = Stored(call: Call, writeFails: bool) | Lost(keys: set<Text>)

  function RunEntries(world: World, events: seq<CacheEvent>): Entries {
    if events == [] then map[] else
      var before := RunEntries(world, events[..|events| - 1]);
      match events[|events| - 1]
      case Stored(call, writeFails) => Store(call, world, before, writeFails)
      case Lost(keys) => before - keys
  }

  /** The digest tells these two calls apart whenever their key texts differ. */
  ghost predicate DigestSeparates(world: World, c: Call, d: Call) {
    var rs, ss := Check(c, world), Check(d, world);
    rs.Success? && ss.Success? && CacheKey(c, world, rs.value) == CacheKey(d, world, ss.value) ==>
      KeyTextOf(c, rs.value) == KeyTextOf(d, ss.value)
  }

  ghost predicate WrittenBy(world: World, key: Text, payload: Payload, c: Call) {
    && Check(c, world).Success? && CacheKey(c, world, Check(c, world).value) == key
    && Uncached(c, world) == Success(payload)
  }

  lemma {:induction false} EntriesWereAnswers(world: World, events: seq<CacheEvent>, key: Text)
    requires key in RunEntries(world, events)
    ensures exists i :: 0 <= i < |events| && events[i].Stored? &&
                        WrittenBy(world, key, RunEntries(world, events)[key], events[i].call)
  {
    var n := |events| - 1;
    var init, last := events[..n], events[n];
    if last.Stored? && WrittenBy(world, key, RunEntries(world, events)[key], last.call) {
    } else {
      assert key in RunEntries(world, init) && RunEntries(world, init)[key] == RunEntries(world, events)[key];
      EntriesWereAnswers(world, init, key);
      var i :| 0 <= i < |init| && init[i].Stored? && WrittenBy(world, key, RunEntries(world, init)[key], init[i].call);
      assert events[i] == init[i];
    }
  }

  /** Cache refinement. */
  lemma CachedCallReturnsUncached(world: World, events: seq<CacheEvent>, call: Call, readFails: bool)
    requires StrictCollation(world.loc) && FilterOrderBlind(world.backend)
    requires forall i :: 0 <= i < |events| && events[i].Stored? ==> DigestSeparates(world, events[i].call, call)
    ensures CallResult(call, world, RunEntries(world, events), readFails) == Uncached(call, world)
  {
    var entries := RunEntries(world, events);
    if LookUp(call, world, entries, readFails).Some? {
      var regions := Check(call, world).value;
      var key := CacheKey(call, world, regions);
      EntriesWereAnswers(world, events, key);
      var i :| 0 <= i < |events| && events[i].Stored? && WrittenBy(world, key, entries[key], events[i].call);
      var writer := events[i].call;
      SameKeySameAnswer(writer, Check(writer, world).value, call, regions, world);
    }
  }

  /** Whole calls, one after the other, are such runs. */
  lemma CallStepIsEvent(world: World, events: seq<CacheEvent>, call: Call, readFails: bool, writeFails: bool)
    ensures CallEntries(call, world, RunEntries(world, events), readFails, writeFails) ==
            if LookUp(call, world, RunEntries(world, events), readFails).Some? then RunEntries(world, events)
            else RunEntries(world, events + [Stored(call, writeFails)])
  {
    var more := events + [Stored(call, writeFails)];
    assert more[..|more| - 1] == events;
  }

  /** Every call over every run returns what it returns without a cache. */
  ghost predicate CacheIsRight(world: World) {
    forall events: seq<CacheEvent>, call: Call, readFails: bool ::
      CallResult(call, world, RunEntries(world, events), readFails) == Uncached(call, world)
  }

  ghost predicate ShareKey(world: World, c: Call, d: Call) {
    && Check(c, world).Success? && Check(d, world).Success?
    && CacheKey(c, world, Check(c, world).value) == CacheKey(d, world, Check(d, world).value)
  }

  /** Calls that share a cache key never have different answers, one of them successful. */
  ghost predicate KeysDecideAnswers(world: World) {
    forall c: Call, d: Call ::
      ShareKey(world, c, d) && Uncached(c, world).Success? ==> Uncached(c, world) == Uncached(d, world)
  }

  lemma FirstStore(world: World, c: Call)
    ensures RunEntries(world, [Stored(c, false)]) == Store(c, world, map[], false)
  {
    assert [Stored(c, false)][..0] == [] && RunEntries(world, []) == map[];
  }

  lemma RightCacheDecides(world: World, c: Call, d: Call)
    requires CacheIsRight(world)
    requires ShareKey(world, c, d) && Uncached(c, world).Success?
    ensures Uncached(c, world) == Uncached(d, world)
  {
    var events := [Stored(c, false)];
    FirstStore(world, c);
    assert CallResult(d, world, RunEntries(world, events), false) == Uncached(d, world);
  }

  lemma DecidedKeysAreRight(world: World, events: seq<CacheEvent>, call: Call, readFails: bool)
    requires KeysDecideAnswers(world)
    ensures CallResult(call, world, RunEntries(world, events), readFails) == Uncached(call, world)
  {
    var entries := RunEntries(world, events);
    if LookUp(call, world, entries, readFails).Some? {
      var key := CacheKey(call, world, Check(call, world).value);
      EntriesWereAnswers(world, events, key);
      var i :| 0 <= i < |events| && events[i].Stored? && WrittenBy(world, key, entries[key], events[i].call);
      assert ShareKey(world, events[i].call, call);
    }
  }

  /** What the cache needs is exact: it is right in every run if and only if keys decide answers. */
  lemma CacheIsRightIff(world: World)
    ensures CacheIsRight(world) <==> KeysDecideAnswers(world)
  {
    if CacheIsRight(world) {
      forall c: Call, d: Call | ShareKey(world, c, d) && Uncached(c, world).Success?
        ensures Uncached(c, world) == Uncached(d, world)
      {
        RightCacheDecides(world, c, d);
      }
    }
    if KeysDecideAnswers(world) {
      forall events: seq<CacheEvent>, call: Call, readFails: bool
        ensures CallResult(call, world, RunEntries(world, events), readFails) == Uncached(call, world)
      {
        DecidedKeysAreRight(world, events, call, readFails);
      }
    }
  }
}
