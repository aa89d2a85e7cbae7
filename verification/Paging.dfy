/**
 The bounded paging loops of ECS and CloudWatch (src/aws/ecs/client.ts, src/aws/cloudwatch/describe.ts and
 parse.ts).
 */
module Paging {
  import opened Wrappers
  import opened JsText
  import opened Sequences

  const DESCRIBE_TASKS_BATCH_SIZE := 100
  const MAX_RECORDS := 100

  datatype Page<T> = Page(items: seq<T>, nextToken: Option<Text>)

  /** A paging request, as far as the loops decide it. */
  datatype Request = Request(maxResults: int, nextToken: Option<Text>)

  /** A missing or empty token ends the listing. */
  function Token(t: Option<Text>): Option<Text> {
    if t == Some([]) then None else t
  }

  /**
   The reply to the `i`-th request of a run. Any server, whatever it does with the requests, shows
   one such sequence in each run.
   */
  type Replies<!T> = nat -> Page<T>

  function Concat<T>(reply: Replies<T>, n: nat): seq<T> {
    if n == 0 then [] else Concat(reply, n - 1) + reply(n - 1).items
  }

  function Prefix<T>(s: seq<T>, limit: int): (r: seq<T>)
    ensures r <= s && |r| == if |s| <= limit then |s| else if limit > 0 then limit else 0
  {
    if limit <= 0 then [] else if limit < |s| then s[..limit] else s
  }

  function Min(a: int, b: int): int { if a <= b then a else b }

  /** A reply without a token, or with an empty one, is the last. */
  predicate NoToken(t: Option<Text>) {
    match t
    case None => true
    case Some(token) => |token| == 0
  }

  /** The page after which collectTaskArns stops by itself. */
  predicate IsFinal<T>(p: Page<T>) {
    NoToken(p.nextToken) || |p.items| == 0
  }

  /** Each request continues from the reply before it. */
  ghost predicate Chained<T>(reply: Replies<T>, requests: seq<Request>) {
    forall i :: 0 <= i < |requests| ==> requests[i].nextToken == if i == 0 then None else reply(i - 1).nextToken
  }

  ghost predicate SizesWithin(requests: seq<Request>, max: int) {
    forall i :: 0 <= i < |requests| ==> 1 <= requests[i].maxResults <= max
  }

  lemma RequestAdded<T>(reply: Replies<T>, requests: seq<Request>, r: Request, max: int)
    requires Chained(reply, requests) && SizesWithin(requests, max) && 1 <= r.maxResults <= max
    requires r.nextToken == if |requests| == 0 then None else reply(|requests| - 1).nextToken
    ensures Chained(reply, requests + [r]) && SizesWithin(requests + [r], max)
  {
  }

  method CollectTaskArns(reply: Replies<Text>, limit: int) returns (taskArns: seq<Text>, requests: seq<Request>)
    ensures |requests| <= if limit > 0 then limit else 0
    ensures Chained(reply, requests) && SizesWithin(requests, 100)
    ensures taskArns == Prefix(Concat(reply, |requests|), limit)
    ensures forall i :: 0 <= i < |requests| - 1 ==> !IsFinal(reply(i))
    ensures |Concat(reply, |requests|)| >= limit || (|requests| > 0 && IsFinal(reply(|requests| - 1)))
  {
    taskArns, requests := [], [];
    var nextToken: Option<Text> := None;
    while |taskArns| < limit
      invariant taskArns == Concat(reply, |requests|)
      invariant |requests| <= |taskArns| && (|requests| > 0 ==> |requests| <= limit)
      invariant nextToken == if |requests| == 0 then None else reply(|requests| - 1).nextToken
      invariant Chained(reply, requests) && SizesWithin(requests, DESCRIBE_TASKS_BATCH_SIZE)
      invariant forall i :: 0 <= i < |requests| ==> !IsFinal(reply(i))
      decreases limit - |taskArns|
    {
      var remaining := limit - |taskArns|;
      var response := reply(|requests|);
      var request := Request(Min(remaining, DESCRIBE_TASKS_BATCH_SIZE), nextToken);
      RequestAdded(reply, requests, request, DESCRIBE_TASKS_BATCH_SIZE);
      requests := requests + [request];
      taskArns := taskArns + response.items;
      nextToken := response.nextToken;
      if Token(nextToken).None? || |response.items| == 0 {
        break;
      }
    }
    taskArns := Prefix(taskArns, limit);
  }

  lemma {:induction false} ConcatGrows<T>(reply: Replies<T>, m: nat, n: nat)
    requires m <= n
    ensures |Concat(reply, m)| <= |Concat(reply, n)| && Concat(reply, m) == Concat(reply, n)[..|Concat(reply, m)|]
  {
    if m < n {
      ConcatGrows(reply, m, n - 1);
      var s := Concat(reply, n - 1);
      assert Concat(reply, n)[..|s|] == s;
      assert Concat(reply, n)[..|Concat(reply, m)|] == s[..|Concat(reply, m)|];
    }
  }

  /** The pages follow one another: page `i` stands behind the pages before it, in order. */
  lemma {:induction false} PagesInOrder<T>(reply: Replies<T>, n: nat, i: nat)
    requires i < n
    ensures var before, items := |Concat(reply, i)|, reply(i).items;
            before + |items| <= |Concat(reply, n)| && Concat(reply, n)[before..before + |items|] == items
    ensures |Concat(reply, 0)| == 0 && |Concat(reply, i + 1)| == |Concat(reply, i)| + |reply(i).items|
  {
    ConcatGrows(reply, i + 1, n);
    var all, part, before := Concat(reply, n), Concat(reply, i + 1), |Concat(reply, i)|;
    assert part[before..] == reply(i).items;
    assert all[before..|part|] == all[..|part|][before..];
  }

  lemma PrefixOfMore<T>(reply: Replies<T>, m: nat, n: nat, limit: int)
    requires m <= n && |Concat(reply, m)| >= limit
    ensures Prefix(Concat(reply, m), limit) == Prefix(Concat(reply, n), limit)
  {
  }

  /**
   The result does not depend on when the loop noticed the limit: it is the limit-prefix of all
   pages up to the first empty or last one, wherever that is.
   */
  lemma CollectedIsPrefixOfAllPages(reply: Replies<Text>, limit: int, calls: nat, final: nat)
    requires IsFinal(reply(final)) && forall i :: 0 <= i < final ==> !IsFinal(reply(i))
    requires forall i :: 0 <= i < calls - 1 ==> !IsFinal(reply(i))
    requires |Concat(reply, calls)| >= limit || (calls > 0 && IsFinal(reply(calls - 1)))
    ensures Prefix(Concat(reply, calls), limit) == Prefix(Concat(reply, final + 1), limit)
  {
    assert final < calls - 1 ==> !IsFinal(reply(final));
    ConcatGrows(reply, calls, final + 1);
  }

  // ----- batches

  /** The batches partition the list in order; all but the last are full. */
  method DescribeTasksInBatches<T>(describe: seq<Text> -> seq<T>, taskArns: seq<Text>)
    returns (tasks: seq<T>, batches: seq<seq<Text>>)
    ensures Flatten(batches) == taskArns
    ensures forall k :: 0 <= k < |batches| ==> 1 <= |batches[k]| <= 100
    ensures forall k :: 0 <= k < |batches| - 1 ==> |batches[k]| == 100
    ensures tasks == Flatten(Map(describe, batches))
  {
    tasks, batches := [], [];
    var i := 0;
    while i < |taskArns|
      invariant 0 <= i
      invariant Flatten(batches) == taskArns[..Min(i, |taskArns|)]
      invariant forall k :: 0 <= k < |batches| ==> 1 <= |batches[k]| <= DESCRIBE_TASKS_BATCH_SIZE
      invariant forall k :: 0 <= k < |batches| - 1 ==> |batches[k]| == DESCRIBE_TASKS_BATCH_SIZE
      invariant i < |taskArns| && |batches| > 0 ==> |batches[|batches| - 1]| == DESCRIBE_TASKS_BATCH_SIZE
      invariant tasks == Flatten(Map(describe, batches))
    {
      var end := Min(i + DESCRIBE_TASKS_BATCH_SIZE, |taskArns|);
      var batch := taskArns[i..end];
      tasks := tasks + describe(batch);
      assert (batches + [batch])[..|batches|] == batches;
      assert Map(describe, batches + [batch])[..|batches|] == Map(describe, batches);
      assert taskArns[..end] == taskArns[..i] + batch;
      batches := batches + [batch];
      i := i + DESCRIBE_TASKS_BATCH_SIZE;
    }
    assert taskArns[..|taskArns|] == taskArns;
  }

  /** When every batch is described task by task, the result describes the whole list, task by task and in order. */
  lemma {:induction false} TasksComeInOrder<T>(describe: seq<Text> -> seq<T>, one: Text -> T, batches: seq<seq<Text>>)
    requires forall batch :: batch in batches ==> describe(batch) == Map(one, batch)
    ensures Flatten(Map(describe, batches)) == Map(one, Flatten(batches))
  {
    if batches != [] {
      var n := |batches| - 1;
      TasksComeInOrder(describe, one, batches[..n]);
      assert Map(describe, batches)[..n] == Map(describe, batches[..n]);
      assert Map(one, Flatten(batches)) == Map(one, Flatten(batches[..n])) + Map(one, batches[n]);
    }
  }

  // ----- the alarm summary

  /** Takes over one page's alarms; `full` says that the limit was reached. */
  method TakePage<T>(before: seq<T>, items: seq<T>, limit: int) returns (alarms: seq<T>, full: bool)
    requires |before| < limit
    ensures alarms == Prefix(before + items, limit)
    ensures full <==> |before + items| >= limit
  {
    alarms, full := before, false;
    for i := 0 to |items|
      invariant alarms == before + items[..i] && |alarms| < limit
    {
      alarms := alarms + [items[i]];
      if |alarms| >= limit {
        assert (before + items)[..limit] == alarms;
        return alarms, true;
      }
    }
    assert items[..|items|] == items;
  }

  /** After `n` pages the listing has ended or the limit is reached. */
  predicate Enough<T>(reply: Replies<T>, n: nat, limit: int)
    requires n > 0
  {
    NoToken(reply(n - 1).nextToken) || |Concat(reply, n)| >= limit
  }

  /**
   summarizeAlarmsInRegion. It stops after the first page with which it has enough; on a server with no such page
   it never stops. The limit has been validated to lie between 1 and 100.
   */
  method SummarizeAlarmsInRegion<T>(reply: Replies<T>, limit: int, ghost n: nat)
    returns (alarms: seq<T>, requests: seq<Request>)
    requires 1 <= limit <= MAX_RECORDS
    requires n > 0 && Enough(reply, n, limit)
    ensures 1 <= |requests| <= n && Enough(reply, |requests|, limit)
    ensures forall k :: 1 <= k < |requests| ==> !Enough(reply, k, limit)
    ensures Chained(reply, requests) && SizesWithin(requests, 100)
    ensures alarms == Prefix(Concat(reply, |requests|), limit)
  {
    alarms, requests := [], [];
    var nextToken: Option<Text> := None;
    while true
      invariant |requests| < n
      invariant alarms == Concat(reply, |requests|) && |alarms| < limit
      invariant nextToken == if |requests| == 0 then None else reply(|requests| - 1).nextToken
      invariant forall k :: 1 <= k <= |requests| ==> !Enough(reply, k, limit)
      invariant Chained(reply, requests) && SizesWithin(requests, MAX_RECORDS)
      decreases n - |requests|
    {
      var response := reply(|requests|);
      var request := Request(Min(MAX_RECORDS, limit - |alarms|), nextToken);
      RequestAdded(reply, requests, request, MAX_RECORDS);
      requests := requests + [request];
      var full: bool;
      alarms, full := TakePage(alarms, response.items, limit);
      assert Concat(reply, |requests|) == Concat(reply, |requests| - 1) + response.items;
      if full {
        return;
      }
      nextToken := response.nextToken;
      if Token(nextToken).None? {
        return;
      }
    }
  }

  /** Wherever the loop stops, the result is the limit-prefix of all pages up to the first one without a token. */
  lemma SummaryIsPrefixOfAllPages<T>(reply: Replies<T>, limit: int, calls: nat, last: nat)
    requires NoToken(reply(last).nextToken) && forall i :: 0 <= i < last ==> !NoToken(reply(i).nextToken)
    requires calls > 0 && Enough(reply, calls, limit) && forall k :: 1 <= k < calls ==> !Enough(reply, k, limit)
    ensures calls <= last + 1 && Prefix(Concat(reply, calls), limit) == Prefix(Concat(reply, last + 1), limit)
  {
    assert last + 1 < calls ==> !Enough(reply, last + 1, limit);
    if |Concat(reply, calls)| >= limit {
      PrefixOfMore(reply, calls, last + 1, limit);
    }
  }

  datatype StateCounts = StateCounts(alarm: nat, ok: nat, insufficientData: nat)

  /** One increment of buildStateCounts; a state without a counter leaves the three counters alone. */
  function CountState(c: StateCounts, state: Text): StateCounts {
    if state == Units("ALARM") then c.(alarm := c.alarm + 1)
    else if state == Units("OK") then c.(ok := c.ok + 1)
    else if state == Units("INSUFFICIENT_DATA") then c.(insufficientData := c.insufficientData + 1)
    else c
  }

  predicate KnownState(state: Text) {
    state == Units("ALARM") || state == Units("OK") || state == Units("INSUFFICIENT_DATA")
  }

  /** The counters sum to the number of alarms exactly when every state has a counter. */
  method BuildStateCounts(states: seq<Text>) returns (c: StateCounts)
    ensures c.alarm == multiset(states)[Units("ALARM")]
    ensures c.ok == multiset(states)[Units("OK")]
    ensures c.insufficientData == multiset(states)[Units("INSUFFICIENT_DATA")]
    ensures c.alarm + c.ok + c.insufficientData <= |states|
    ensures c.alarm + c.ok + c.insufficientData == |states| <==> forall i :: 0 <= i < |states| ==> KnownState(states[i])
  {
    StateNamesDiffer();
    c := StateCounts(0, 0, 0);
    for i := 0 to |states|
      invariant c.alarm == multiset(states[..i])[Units("ALARM")]
      invariant c.ok == multiset(states[..i])[Units("OK")]
      invariant c.insufficientData == multiset(states[..i])[Units("INSUFFICIENT_DATA")]
      invariant c.alarm + c.ok + c.insufficientData <= i
      invariant c.alarm + c.ok + c.insufficientData == i <==> forall j :: 0 <= j < i ==> KnownState(states[j])
    {
      assert states[..i + 1] == states[..i] + [states[i]];
      c := CountState(c, states[i]);
    }
    assert states[..|states|] == states;
  }

  lemma StateNamesDiffer()
    ensures Units("ALARM") != Units("OK") && Units("OK") != Units("INSUFFICIENT_DATA")
            && Units("ALARM") != Units("INSUFFICIENT_DATA")
  {
    assert |Units("ALARM")| == 5 && |Units("OK")| == 2 && |Units("INSUFFICIENT_DATA")| == 17;
  }
}
