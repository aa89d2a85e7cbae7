/** The exact request count and cost of a run, from the events that were recorded. */
module RunTotals {
  import opened Wrappers
  import opened JsText
  import opened Sequences
  import opened Telemetry
  import opened RuntimeFacts
  import opened Billing

  // ----- the exact request count of a run

  /** How many rows a recorded pair is given: one per manifest capability of the pair, and one if there is none. */
  function RowsFor(registry: Registry, capabilities: seq<Text>, pair: Pair): nat
    requires Registered(registry, capabilities)
  {
    var manifest := Mult(EmptyRows(registry, capabilities), pair);
    if manifest == 0 then 1 else manifest
  }

  /** How much one recorded event adds to the reported count. */
  function ReportedTimes(registry: Registry, capabilities: seq<Text>): Event -> nat
    requires Registered(registry, capabilities)
  {
    (e: Event) =>
      if e.Request? && e.capability in registry then RowsFor(registry, capabilities, PairOf(registry, e.capability))
      else 0
  }

  function WeightedTotal(registry: Registry, capabilities: seq<Text>, rs: seq<Recorded>): nat
    requires Registered(registry, capabilities) && AllKnown(registry, rs)
  {
    if rs == [] then 0
    else rs[0].requestCount * RowsFor(registry, capabilities, PairOf(registry, rs[0].capability))
         + WeightedTotal(registry, capabilities, rs[1..])
  }

  lemma {:induction false} ReportedIsWeighted(registry: Registry, capabilities: seq<Text>, rows: seq<Row>,
                                              rs: seq<Recorded>)
    requires Registered(registry, capabilities) && AllKnown(registry, rs)
    requires forall k :: 0 <= k < |rs| ==>
               Mult(rows, PairOf(registry, rs[k].capability)) ==
                 RowsFor(registry, capabilities, PairOf(registry, rs[k].capability))
    ensures Reported(registry, rows, rs) == WeightedTotal(registry, capabilities, rs)
  {
    if rs != [] {
      assert forall k :: 0 <= k < |rs[1..]| ==> rs[1..][k] == rs[k + 1];
      ReportedIsWeighted(registry, capabilities, rows, rs[1..]);
    }
  }

  lemma WeightedOfCons(registry: Registry, capabilities: seq<Text>, c: Counted, counts: seq<Counted>)
    requires Registered(registry, capabilities)
    requires RecordedOf(c).capability in registry && AllKnown(registry, RecordedList(counts))
    ensures AllKnown(registry, RecordedList([c] + counts))
    ensures WeightedTotal(registry, capabilities, RecordedList([c] + counts)) ==
            c.count * RowsFor(registry, capabilities, PairOf(registry, RecordedOf(c).capability))
            + WeightedTotal(registry, capabilities, RecordedList(counts))
  {
    var rs := RecordedList([c] + counts);
    assert rs[0] == RecordedOf(c) && rs[1..] == RecordedList(counts);
  }

  lemma OnceMore(n: nat, w: nat)
    ensures (n + 1) * w == n * w + w
  {
  }

  lemma OneMoreOfFirst(registry: Registry, capabilities: seq<Text>, c: Counted, rest: seq<Counted>)
    requires Registered(registry, capabilities)
    requires RecordedOf(c).capability in registry && AllKnown(registry, RecordedList(rest))
    ensures var more := [Counted(c.key, c.count + 1)] + rest;
            && AllKnown(registry, RecordedList([c] + rest)) && AllKnown(registry, RecordedList(more))
            && WeightedTotal(registry, capabilities, RecordedList(more)) ==
               WeightedTotal(registry, capabilities, RecordedList([c] + rest))
               + RowsFor(registry, capabilities, PairOf(registry, RecordedOf(c).capability))
  {
    WeightedOfCons(registry, capabilities, c, rest);
    WeightedOfCons(registry, capabilities, Counted(c.key, c.count + 1), rest);
    OnceMore(c.count, RowsFor(registry, capabilities, PairOf(registry, RecordedOf(c).capability)));
  }

  /** One more request of a key adds the rows of its pair. */
  lemma {:induction false} BumpAddsRows(registry: Registry, capabilities: seq<Text>, counts: seq<Counted>, key: Text)
    requires Registered(registry, capabilities)
    requires AllKnown(registry, RecordedList(counts)) && ParseAwsRequestKey(key).0 in registry
    requires AllKnown(registry, RecordedList(Bump(counts, key)))
    ensures WeightedTotal(registry, capabilities, RecordedList(Bump(counts, key))) ==
            WeightedTotal(registry, capabilities, RecordedList(counts))
            + RowsFor(registry, capabilities, PairOf(registry, ParseAwsRequestKey(key).0))
  {
    if counts == [] {
      assert Bump(counts, key) == [Counted(key, 1)] + [];
      WeightedOfCons(registry, capabilities, Counted(key, 1), []);
    } else {
      var c, rest := counts[0], counts[1..];
      KnownTail(registry, counts);
      assert counts == [c] + rest;
      WeightedOfCons(registry, capabilities, c, rest);
      if c.key == key {
        OneMoreOfFirst(registry, capabilities, c, rest);
      } else {
        BumpKnown(registry, rest, key);
        assert Bump(counts, key) == [c] + Bump(rest, key);
        BumpAddsRows(registry, capabilities, rest, key);
        WeightedOfCons(registry, capabilities, c, Bump(rest, key));
      }
    }
  }

  lemma {:induction false} WeightedCountsEvents(registry: Registry, capabilities: seq<Text>, events: seq<Event>)
    requires Registered(registry, capabilities) && WellRecorded(registry, events)
    ensures AllKnown(registry, RecordedList(CountsOf(events)))
    ensures WeightedTotal(registry, capabilities, RecordedList(CountsOf(events))) ==
            SumOver(ReportedTimes(registry, capabilities), events)
  {
    if events != [] {
      var before, e := events[..|events| - 1], events[|events| - 1];
      assert WellRecorded(registry, before);
      WeightedCountsEvents(registry, capabilities, before);
      if e.Request? {
        var key := AwsRequestKey(e.capability, e.region);
        RequestKeyRoundTrip(e.capability, e.region);
        BumpKnown(registry, CountsOf(before), key);
        BumpAddsRows(registry, capabilities, CountsOf(before), key);
      }
    }
  }

  /** The reported count of a run, exactly: every recorded request once per row of its pair. */
  lemma RunCountIs(registry: Registry, capabilities: seq<Text>, events: seq<Event>)
    requires Registered(registry, capabilities) && WellRecorded(registry, events)
    ensures AllKnown(registry, RecordedList(CountsOf(events)))
    ensures RunMetadata(registry, capabilities, events).awsRequestCount ==
            SumOver(ReportedTimes(registry, capabilities), events)
  {
    WeightedCountsEvents(registry, capabilities, events);
    var rs := RecordedList(CountsOf(events));
    var rows := FactsRows(registry, capabilities, rs);
    forall k | 0 <= k < |rs|
      ensures Mult(rows, PairOf(registry, rs[k].capability)) ==
              RowsFor(registry, capabilities, PairOf(registry, rs[k].capability))
    {
      RowsOfPair(registry, capabilities, rs, k);
    }
    ReportedIsWeighted(registry, capabilities, rows, rs);
    ReportedCount(registry, capabilities, rs, Resolve(StatusesOf(events)));
  }

  /** With distinct manifest pairs, the reported count is the number of recorded requests. */
  lemma RunConservesCount(registry: Registry, capabilities: seq<Text>, events: seq<Event>)
    requires Registered(registry, capabilities) && DistinctPairs(registry, capabilities)
    requires WellRecorded(registry, events)
    ensures AllKnown(registry, RecordedList(CountsOf(events)))
    ensures RunMetadata(registry, capabilities, events).awsRequestCount == CountIf(IsRequest, events)
  {
    RunCountIs(registry, capabilities, events);
    forall e | e in events
      ensures ReportedTimes(registry, capabilities)(e) == Indicator(IsRequest)(e)
    {
      assert IsRequest(e) <==> e.Request?;
      if e.Request? {
        DistinctPairsAreUnshared(registry, capabilities, PairOf(registry, e.capability));
      }
    }
    SumPointwise(ReportedTimes(registry, capabilities), Indicator(IsRequest), events);
  }

  // ----- the exact cost of a run

  /** The unit cost of a recorded request, where one is published. */
  function UnitPrice(registry: Registry): Event -> real {
    (e: Event) =>
      if e.Request? && e.capability in registry && registry[e.capability].unitCost.Some?
      then registry[e.capability].unitCost.value else 0.0
  }

  /** What one recorded event adds to the cost: its unit cost once per row of its pair. */
  function EventCost(registry: Registry, capabilities: seq<Text>): Event -> real
    requires Registered(registry, capabilities)
  {
    (e: Event) =>
      if e.Request? && e.capability in registry
      then UnitPrice(registry)(e) * RowsFor(registry, capabilities, PairOf(registry, e.capability)) as real
      else 0.0
  }

  /** `n` times the price, as a sum. */
  function Times(n: nat, price: real): real {
    if n == 0 then 0.0 else Times(n - 1, price) + price
  }

  lemma {:induction false} TimesIsProduct(n: nat, price: real)
    ensures Times(n, price) == n as real * price == price * n as real
  {
    if n > 0 {
      TimesIsProduct(n - 1, price);
      assert n as real * price == (n - 1) as real * price + price;
    }
  }

  lemma {:induction false} TimesAdds(n: nat, m: nat, price: real)
    ensures Times(n + m, price) == Times(n, price) + Times(m, price)
  {
    if m > 0 {
      TimesAdds(n, m - 1, price);
      assert n + m - 1 == n + (m - 1);
    }
  }

  /** What an event costs in these rows. */
  function CostIn(registry: Registry, rows: seq<Row>): Event -> real {
    (e: Event) =>
      if e.Request? && e.capability in registry
      then Times(Mult(rows, PairOf(registry, e.capability)), UnitPrice(registry)(e)) else 0.0
  }

  function PriceOf(row: Row): real {
    if row.unitCost.Some? then row.unitCost.value else 0.0
  }

  /** The cost of rows that count the events of their pairs. */
  function CountedCost(registry: Registry, rows: seq<Row>, events: seq<Event>): real {
    if rows == [] then 0.0
    else Times(CountIf(RequestsOfPair(registry, rows[0].Pair()), events), PriceOf(rows[0]))
         + CountedCost(registry, rows[1..], events)
  }

  lemma RowCostIs(row: Row)
    ensures RowCost(row) == Times(row.requestCount, PriceOf(row))
  {
    TimesIsProduct(row.requestCount, PriceOf(row));
  }

  lemma {:induction false} EstimateIsCounted(registry: Registry, rows: seq<Row>, events: seq<Event>)
    requires forall i :: 0 <= i < |rows| ==>
               rows[i].requestCount == CountIf(RequestsOfPair(registry, rows[i].Pair()), events)
    ensures EstimateCostUsd(rows) == CountedCost(registry, rows, events)
  {
    if rows != [] {
      RowCostIs(rows[0]);
      EstimateIsCounted(registry, rows[1..], events);
    }
  }

  lemma EventInRow(registry: Registry, row: Row, rest: seq<Row>, e: Event)
    requires PricedByPair(registry) && RowPriced(registry, row)
    ensures CostIn(registry, [row] + rest)(e) ==
            Times(Indicator(RequestsOfPair(registry, row.Pair()))(e), PriceOf(row)) + CostIn(registry, rest)(e)
  {
    assert ([row] + rest)[1..] == rest;
    if e.Request? && e.capability in registry {
      var pair := PairOf(registry, e.capability);
      var c :| PricedAs(registry, row, c);
      var own := if row.Pair() == pair then 1 else 0;
      TimesAdds(own, Mult(rest, pair), UnitPrice(registry)(e));
    }
  }

  /** One more row adds the price of its pair for every event of the pair. */
  lemma {:induction false} RowAdds(registry: Registry, row: Row, rest: seq<Row>, events: seq<Event>)
    requires PricedByPair(registry) && RowPriced(registry, row)
    ensures RealSum(CostIn(registry, [row] + rest), events) ==
            Times(CountIf(RequestsOfPair(registry, row.Pair()), events), PriceOf(row))
            + RealSum(CostIn(registry, rest), events)
  {
    if events != [] {
      var init, e := events[..|events| - 1], events[|events| - 1];
      var p := RequestsOfPair(registry, row.Pair());
      RowAdds(registry, row, rest, init);
      TimesAdds(CountIf(p, init), Indicator(p)(e), PriceOf(row));
      EventInRow(registry, row, rest, e);
    }
  }

  lemma {:induction false} NothingCosts(registry: Registry, events: seq<Event>)
    ensures RealSum(CostIn(registry, []), events) == 0.0
  {
    if events != [] {
      var e := events[|events| - 1];
      NothingCosts(registry, events[..|events| - 1]);
      if e.Request? && e.capability in registry {
        var none: seq<Row> := [];
        assert Mult(none, PairOf(registry, e.capability)) == 0;
        assert Times(0, UnitPrice(registry)(e)) == 0.0;
      }
    }
  }

  lemma {:induction false} CountedByEvents(registry: Registry, rows: seq<Row>, events: seq<Event>)
    requires PricedByPair(registry) && AllPriced(registry, rows)
    ensures CountedCost(registry, rows, events) == RealSum(CostIn(registry, rows), events)
  {
    if rows == [] {
      NothingCosts(registry, events);
    } else {
      var row, rest := rows[0], rows[1..];
      assert rows == [row] + rest;
      AllPricedTail(registry, rows);
      CountedByEvents(registry, rest, events);
      RowAdds(registry, row, rest, events);
    }
  }

  lemma AllPricedTail(registry: Registry, rows: seq<Row>)
    requires rows != [] && AllPriced(registry, rows)
    ensures RowPriced(registry, rows[0]) && AllPriced(registry, rows[1..])
  {
  }

  lemma {:induction false} RealSumPointwise(f: Event -> real, g: Event -> real, events: seq<Event>)
    requires forall e :: e in events ==> f(e) == g(e)
    ensures RealSum(f, events) == RealSum(g, events)
  {
    if events != [] {
      RealSumPointwise(f, g, events[..|events| - 1]);
    }
  }

  lemma RowsOfEvent(registry: Registry, capabilities: seq<Text>, events: seq<Event>, e: Event)
    requires Registered(registry, capabilities) && WellRecorded(registry, events)
    requires AllKnown(registry, RecordedList(CountsOf(events)))
    requires e in events && e.Request?
    ensures var rows := FactsRows(registry, capabilities, RecordedList(CountsOf(events)));
            var pair := PairOf(registry, e.capability);
            Mult(rows, pair) == RowsFor(registry, capabilities, pair)
  {
    var rs, pair := RecordedList(CountsOf(events)), PairOf(registry, e.capability);
    SnapshotCountsEvents(registry, events, pair);
    assert RequestsOfPair(registry, pair)(e);
    CountIfPositive(RequestsOfPair(registry, pair), events);
    PairWithTotal(registry, rs, pair);
    var k :| 0 <= k < |rs| && PairOf(registry, rs[k].capability) == pair;
    RowsOfPair(registry, capabilities, rs, k);
  }

  lemma EventCostIs(registry: Registry, capabilities: seq<Text>, rows: seq<Row>, e: Event)
    requires Registered(registry, capabilities)
    requires e.Request? && e.capability in registry ==>
               Mult(rows, PairOf(registry, e.capability)) ==
                 RowsFor(registry, capabilities, PairOf(registry, e.capability))
    ensures CostIn(registry, rows)(e) == EventCost(registry, capabilities)(e)
  {
    if e.Request? && e.capability in registry {
      TimesIsProduct(Mult(rows, PairOf(registry, e.capability)), UnitPrice(registry)(e));
    }
  }

  lemma EventsCost(registry: Registry, capabilities: seq<Text>, events: seq<Event>)
    requires Registered(registry, capabilities) && WellRecorded(registry, events)
    requires AllKnown(registry, RecordedList(CountsOf(events)))
    ensures RealSum(CostIn(registry, FactsRows(registry, capabilities, RecordedList(CountsOf(events)))), events) ==
            RealSum(EventCost(registry, capabilities), events)
  {
    var rows := FactsRows(registry, capabilities, RecordedList(CountsOf(events)));
    forall e | e in events
      ensures CostIn(registry, rows)(e) == EventCost(registry, capabilities)(e)
    {
      if e.Request? {
        RowsOfEvent(registry, capabilities, events, e);
      }
      EventCostIs(registry, capabilities, rows, e);
    }
    RealSumPointwise(CostIn(registry, rows), EventCost(registry, capabilities), events);
  }

  /** The rows of a run cost what the events cost, each once per row of its pair. */
  lemma RowsCost(registry: Registry, capabilities: seq<Text>, events: seq<Event>)
    requires Registered(registry, capabilities) && PricedByPair(registry) && WellRecorded(registry, events)
    requires AllKnown(registry, RecordedList(CountsOf(events)))
    ensures EstimateCostUsd(FactsRows(registry, capabilities, RecordedList(CountsOf(events)))) ==
            RealSum(EventCost(registry, capabilities), events)
  {
    var rs := RecordedList(CountsOf(events));
    var rows := FactsRows(registry, capabilities, rs);
    FactsRowsArePriced(registry, capabilities, rs);
    RowsReportTotals(registry, capabilities, rs);
    forall i | 0 <= i < |rows|
      ensures rows[i].requestCount == CountIf(RequestsOfPair(registry, rows[i].Pair()), events)
    {
      SnapshotCountsEvents(registry, events, rows[i].Pair());
    }
    EstimateIsCounted(registry, rows, events);
    CountedByEvents(registry, rows, events);
    EventsCost(registry, capabilities, events);
  }

  /**
   The reported cost of a run, exactly: nothing unless a miss or bypass and a paid request were recorded, and then
   every recorded request at its unit cost, once per row of its pair.
   */
  lemma RunCostIs(registry: Registry, capabilities: seq<Text>, events: seq<Event>)
    requires Registered(registry, capabilities) && PricedByPair(registry) && WellRecorded(registry, events)
    ensures AllKnown(registry, RecordedList(CountsOf(events)))
    ensures RunMetadata(registry, capabilities, events).estimatedCostUsd ==
            if (Status(Miss) in events || Status(Bypass) in events) && PaidRequestRecorded(registry, events)
            then RealSum(EventCost(registry, capabilities), events) else 0.0
  {
    ChargedIff(registry, capabilities, events);
    RowsCost(registry, capabilities, events);
  }
}
