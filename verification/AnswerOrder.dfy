/** What a list call answers: everything the fulfilled regions returned, in the promised order. */
module AnswerOrder {
  import opened Wrappers
  import opened JsText
  import opened Sorting
  import opened Collations
  import opened FanOut
  import opened AwsLists
  import opened CachedLists

  lemma CombineSortsTheMerge<T(!new)>(le: (T, T) -> bool, outcomes: seq<Outcome<T>>)
    requires TotalPreorder(le)
    ensures var r := Combine(le, outcomes);
            r.Success? ==> Sorted(le, r.value) && multiset(r.value) == multiset(Gather(outcomes))
  {
    SortSorted(le, Gather(outcomes));
    SortPermutes(le, Gather(outcomes));
  }

  /** By region, then by a second text. */
  ghost predicate ByRegion(loc: Collation, region: Text, otherRegion: Text, id: Text, otherId: Text) {
    loc(region, otherRegion) < 0 || (region == otherRegion && loc(id, otherId) <= 0)
  }

  lemma CompareTwoIsByRegion(loc: Collation, a: Text, b: Text, x: Text, y: Text)
    requires StrictCollation(loc) && CompareTwo(loc, a, b, x, y) <= 0
    ensures ByRegion(loc, a, b, x, y)
  {
    assert loc(a, b) == 0 <==> a == b;
  }

  /** Alarms come before insufficient data, that before OK, and that before any other state. */
  ghost predicate BySeverity(state: Text, later: Text) {
    && (later == Units("ALARM") ==> state == Units("ALARM"))
    && (later == Units("INSUFFICIENT_DATA") ==> state == Units("ALARM") || state == Units("INSUFFICIENT_DATA"))
    && (later == Units("OK") ==> ValidAlarmState(state))
  }

  lemma AlarmOrderMeans(loc: Collation, a: Alarm, b: Alarm)
    requires StrictCollation(loc) && AlarmOrder(loc)(a, b)
    ensures BySeverity(a.state, b.state)
    ensures a.state == b.state ==> ByRegion(loc, a.region, b.region, a.name, b.name)
  {
    if a.state == b.state {
      CompareTwoIsByRegion(loc, a.region, b.region, a.name, b.name);
    }
  }

  lemma AlarmsComeBySeverity(world: World, call: Call, regions: seq<Text>, i: nat, j: nat)
    requires StrictCollation(world.loc) && call.GetAlarms?
    requires var r := Answer(call, world, regions); r.Success? && i < j < |r.value.alarms|
    ensures var alarms := Answer(call, world, regions).value.alarms;
            && multiset(alarms) == multiset(Gather(Ask(QueryAlarms(world.backend, call.stateFilter), regions)))
            && BySeverity(alarms[i].state, alarms[j].state)
            && (alarms[i].state == alarms[j].state ==>
                  ByRegion(world.loc, alarms[i].region, alarms[j].region, alarms[i].name, alarms[j].name))
  {
    AlarmsSeparate(world.loc, world.backend, call.stateFilter);
    CombineSortsTheMerge(AlarmOrder(world.loc), Ask(QueryAlarms(world.backend, call.stateFilter), regions));
    var alarms := Answer(call, world, regions).value.alarms;
    AlarmOrderMeans(world.loc, alarms[i], alarms[j]);
  }

  lemma InstancesComeByRegion(world: World, call: Call, regions: seq<Text>, i: nat, j: nat)
    requires StrictCollation(world.loc) && call.ListInstances?
    requires var r := Answer(call, world, regions); r.Success? && i < j < |r.value.instances|
    ensures var instances := Answer(call, world, regions).value.instances;
            && multiset(instances) == multiset(Gather(Ask(QueryInstances(world.backend, call.stateFilter), regions)))
            && ByRegion(world.loc, instances[i].region, instances[j].region, instances[i].instanceId,
                        instances[j].instanceId)
  {
    InstancesSeparate(world.loc, world.backend, call.stateFilter);
    CombineSortsTheMerge(InstanceOrder(world.loc), Ask(QueryInstances(world.backend, call.stateFilter), regions));
    var instances := Answer(call, world, regions).value.instances;
    CompareTwoIsByRegion(world.loc, instances[i].region, instances[j].region, instances[i].instanceId,
                         instances[j].instanceId);
  }

  /** The functions that are returned come before all that are cut off. */
  lemma FunctionsComeByRegion(world: World, call: Call, regions: seq<Text>, i: nat, j: nat)
    requires StrictCollation(world.loc) && call.ListFunctions?
    requires var r := Combine(FunctionOrder(world.loc), Ask(QueryFunctions(world.backend), regions));
             r.Success? && i < j < |r.value|
    ensures var all := Combine(FunctionOrder(world.loc), Ask(QueryFunctions(world.backend), regions)).value;
            && multiset(all) == multiset(Gather(Ask(QueryFunctions(world.backend), regions)))
            && ByRegion(world.loc, all[i].region, all[j].region, all[i].functionName, all[j].functionName)
            && Answer(call, world, regions).Success? && Answer(call, world, regions).value.functions <= all
    ensures var all := Combine(FunctionOrder(world.loc), Ask(QueryFunctions(world.backend), regions)).value;
            LimitOf(call.limit) >= 0 ==>
              |Answer(call, world, regions).value.functions| ==
              if LimitOf(call.limit) < |all| then LimitOf(call.limit) else |all|
  {
    FunctionsSeparate(world.loc, world.backend);
    CombineSortsTheMerge(FunctionOrder(world.loc), Ask(QueryFunctions(world.backend), regions));
    var all := Combine(FunctionOrder(world.loc), Ask(QueryFunctions(world.backend), regions)).value;
    CompareTwoIsByRegion(world.loc, all[i].region, all[j].region, all[i].functionName, all[j].functionName);
  }
}
