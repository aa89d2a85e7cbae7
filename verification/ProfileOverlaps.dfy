/** Exactly what overlapping profile operations can lose, over all schedules. */
module ProfileOverlaps {
  import opened Wrappers
  import opened JsText
  import opened Collations
  import opened ProfileDocs
  import opened ProfileValidation
  import opened ProfileRoundTrip
  import opened ProfileIndex
  import opened ProfileStore
  import opened ProfileRuns

  // ----- one operation

  /** `a` begins an operation that becomes `p`. */
  ghost predicate Begins(s: System, a: Step, p: Pending, cfg: Config) {
    && (a.BeginPut? ==> PlanPut(s.data, a.file, cfg) == Some(p.plan))
    && (a.BeginDelete? ==> PlanDelete(s.data, a.id, cfg) == Some(p.plan))
    && (a.BeginPut? || a.BeginDelete?)
    && a.op !in s.pending && p == Planned(s.data, p.plan, cfg)
  }

  lemma BeginsPending(s: System, a: Step, p: Pending, cfg: Config)
    requires Begins(s, a, p, cfg)
    ensures Next(s, a, cfg) == s.(pending := s.pending[a.op := p])
  {
  }

  lemma StepsCarry(begun: System, op: nat, p: Pending, cfg: Config)
    requires op in begun.pending && begun.pending[op] == p && !p.documentDone
    ensures var written := Next(begun, DoDocument(op), cfg);
            && begun.data == CarryWrites(begun.data, p.writes, AtDocument, cfg.indexKey)
            && written.data == CarryWrites(begun.data, p.writes, AtIndex, cfg.indexKey)
            && Next(written, DoIndex(op), cfg).data == CarryWrites(begun.data, p.writes, NoCrash, cfg.indexKey)
  {
    DocumentStep(begun, op, cfg);
    IndexStep(Next(begun, DoDocument(op), cfg), op, cfg);
  }

  /** An operation that nothing overlaps is a run of three steps, and a crash cuts the run short. */
  lemma OperationIsARun(s: System, a: Step, p: Pending, crash: Crash, cfg: Config)
    requires Begins(s, a, p, cfg)
    ensures var begun := Next(s, a, cfg);
            var written := Next(begun, DoDocument(a.op), cfg);
            CarryWrites(s.data, p.writes, crash, cfg.indexKey) ==
              (if crash.AtDocument? then begun
               else if crash.AtIndex? then written
               else Next(written, DoIndex(a.op), cfg)).data
  {
    BeginsPending(s, a, p, cfg);
    StepsCarry(s.(pending := s.pending[a.op := p]), a.op, p, cfg);
  }

  // ----- what one index write does to the entries

  /** The index as the Worker reads it. */
  ghost function Index(s: System, cfg: Config): seq<Entry> {
    var es := WorkerIndex(s.data, cfg.indexKey, cfg.env);
    if es.Some? then es.value else []
  }

  predicate Writing(s: System, op: nat) {
    op in s.pending && s.pending[op].documentDone
  }

  /** The entry that an operation writes for its own id, over an old entry. */
  function OwnEntry(c: Change, before: Option<Entry>): Option<Entry> {
    if c.Put? then Some(BuildIndexEntry(c.profile, before)) else None
  }

  lemma NextIndexFinds(c: Change, read: seq<Entry>, loc: Collation, x: Text)
    requires StrictCollation(loc)
    ensures Find(NextIndex(c, read, loc), x) == if x == ChangeId(c) then OwnEntry(c, Find(read, x)) else Find(read, x)
  {
    match c
    case Put(p) => FindAfterMerge(loc, read, p, x);
    case Erase(id) => FindWithout(read, id, x);
  }

  lemma IndexAfterStep(s: System, op: nat, cfg: Config)
    requires Sound(cfg) && Consistent(s, cfg) && Writing(s, op)
    ensures Index(Next(s, DoIndex(op), cfg), cfg) == NextIndex(s.pending[op].plan.change, s.pending[op].read, cfg.loc)
  {
    assert PendingGood(s, s.pending[op], cfg);
    IndexStepKeeps(s, op, cfg);
  }

  /** An index write puts every entry back as the operation read it, except its own. */
  lemma IndexWriteIs(s: System, op: nat, cfg: Config, x: Text)
    requires Sound(cfg) && Consistent(s, cfg) && Writing(s, op)
    ensures var p := s.pending[op];
            Find(Index(Next(s, DoIndex(op), cfg), cfg), x) ==
              if x == ChangeId(p.plan.change) then OwnEntry(p.plan.change, Find(p.read, x)) else Find(p.read, x)
  {
    var p := s.pending[op];
    IndexAfterStep(s, op, cfg);
    NextIndexFinds(p.plan.change, p.read, cfg.loc, x);
  }

  /** An index write keeps the entry of another id if and only if the operation has read the entry that is there now. */
  lemma EntryKeptIff(s: System, op: nat, cfg: Config, x: Text)
    requires Sound(cfg) && Consistent(s, cfg) && Writing(s, op) && x != ChangeId(s.pending[op].plan.change)
    ensures Find(Index(Next(s, DoIndex(op), cfg), cfg), x) == Find(Index(s, cfg), x) <==>
            Find(s.pending[op].read, x) == Find(Index(s, cfg), x)
  {
    IndexWriteIs(s, op, cfg, x);
  }

  /** The change makes the same of the entries of `x` in both. */
  predicate AgreeFor(c: Change, a: seq<Entry>, b: seq<Entry>, x: Text) {
    if x == ChangeId(c) then OwnEntry(c, Find(a, x)) == OwnEntry(c, Find(b, x)) else Find(a, x) == Find(b, x)
  }

  predicate SameEntry(a: seq<Entry>, b: seq<Entry>, x: Text) {
    Find(a, x) == Find(b, x)
  }

  lemma NextIndexesAgree(c: Change, a: seq<Entry>, b: seq<Entry>, loc: Collation, x: Text)
    requires StrictCollation(loc)
    ensures SameEntry(NextIndex(c, a, loc), NextIndex(c, b, loc), x) <==> AgreeFor(c, a, b, x)
  {
    NextIndexFinds(c, a, loc, x);
    NextIndexFinds(c, b, loc, x);
  }

  lemma NextIndexesAgreeIff(c: Change, read: seq<Entry>, now: seq<Entry>, loc: Collation, after: seq<Entry>,
                            next: seq<Entry>)
    requires StrictCollation(loc) && after == NextIndex(c, read, loc) && next == NextIndex(c, now, loc)
    ensures (forall x :: SameEntry(after, next, x)) <==> (forall x :: AgreeFor(c, read, now, x))
  {
    forall x
      ensures SameEntry(after, next, x) <==> AgreeFor(c, read, now, x)
    {
      NextIndexesAgree(c, read, now, loc, x);
    }
  }

  /** The write leaves what it would make of the present index if and only if that is as it was read. */
  lemma UndisturbedIff(s: System, op: nat, cfg: Config)
    requires Sound(cfg) && Consistent(s, cfg) && Writing(s, op)
    ensures var p := s.pending[op];
            var c, now, after := p.plan.change, Index(s, cfg), Index(Next(s, DoIndex(op), cfg), cfg);
            (forall x :: SameEntry(after, NextIndex(c, now, cfg.loc), x)) <==> (forall x :: AgreeFor(c, p.read, now, x))
  {
    var p, now, after := s.pending[op], Index(s, cfg), Index(Next(s, DoIndex(op), cfg), cfg);
    IndexAfterStep(s, op, cfg);
    NextIndexesAgreeIff(p.plan.change, p.read, now, cfg.loc, after, NextIndex(p.plan.change, now, cfg.loc));
  }

  /**
   After an index write, an id is listed without a document if and only if the operation has listed it
   and the last document write of the id was a deletion.
   */
  lemma DanglesIff(s: System, op: nat, cfg: Config, x: Text)
    requires Sound(cfg) && Consistent(s, cfg) && Writing(s, op)
    ensures var t, p := Next(s, DoIndex(op), cfg), s.pending[op];
            Find(Index(t, cfg), x).Some? && Loaded(t.data, x, cfg.env).None? <==>
              x in s.erased && (if x == ChangeId(p.plan.change) then p.plan.change.Put? else Find(p.read, x).Some?)
  {
    var t := Next(s, DoIndex(op), cfg);
    IndexWriteIs(s, op, cfg, x);
    IndexStepKeeps(s, op, cfg);
    IndexStep(s, op, cfg);
    if Find(Index(t, cfg), x).Some? {
      assert Backed(t, x, cfg.env);
    }
  }

  // ----- schedules

  lemma {:induction false} AfterSplit(s: System, a: seq<Step>, b: seq<Step>, cfg: Config)
    ensures After(s, a + b, cfg) == After(After(s, a, cfg), b, cfg)
    decreases a
  {
    if a == [] {
      assert a + b == b;
    } else {
      assert (a + b)[1..] == a[1..] + b;
      AfterSplit(Next(s, a[0], cfg), a[1..], b, cfg);
    }
  }

  /** Only index writes change entries. */
  lemma OnlyIndexWritesChange(s: System, step: Step, x: Text, cfg: Config)
    requires Sound(cfg) && Consistent(s, cfg) && Find(Index(Next(s, step, cfg), cfg), x) != Find(Index(s, cfg), x)
    ensures step.DoIndex? && Writing(s, step.op)
  {
    if step.DoDocument? && step.op in s.pending && !s.pending[step.op].documentDone {
      var p := s.pending[step.op];
      assert PendingGood(s, p, cfg);
      DocumentStep(s, step.op, cfg);
      OtherKeyKeepsIndex(s.data, p.writes.key, p.writes.document, cfg);
    }
  }

  /** The entry of `x` after the first `n` steps. */
  ghost function EntryAfter(s: System, steps: seq<Step>, n: nat, x: Text, cfg: Config): Option<Entry>
    requires n <= |steps|
  {
    Find(Index(After(s, steps[..n], cfg), cfg), x)
  }

  lemma EntryAtEnds(s: System, steps: seq<Step>, x: Text, cfg: Config)
    ensures EntryAfter(s, steps, 0, x, cfg) == Find(Index(s, cfg), x)
    ensures EntryAfter(s, steps, |steps|, x, cfg) == Find(Index(After(s, steps, cfg), cfg), x)
  {
    assert steps[..0] == [] && steps[..|steps|] == steps;
  }

  /** Step `n` changes the entry of `x`. */
  ghost predicate Changes(s: System, steps: seq<Step>, n: nat, x: Text, cfg: Config)
    requires n < |steps|
  {
    EntryAfter(s, steps, n + 1, x, cfg) != EntryAfter(s, steps, n, x, cfg)
  }

  lemma LastStep(s: System, steps: seq<Step>, n: nat, cfg: Config)
    requires n < |steps|
    ensures After(s, steps[..n + 1], cfg) == Next(After(s, steps[..n], cfg), steps[n], cfg)
  {
    var t := After(s, steps[..n], cfg);
    assert steps[..n + 1] == steps[..n] + [steps[n]] && [steps[n]][1..] == [];
    AfterSplit(s, steps[..n], [steps[n]], cfg);
    assert After(t, [steps[n]], cfg) == Next(t, steps[n], cfg);
  }

  lemma {:induction false} EqualAlong<T>(values: seq<T>, i: nat, j: nat)
    requires i <= j < |values|
    requires forall k :: i <= k < j ==> values[k] == values[k + 1]
    ensures values[i] == values[j]
    decreases j
  {
    if i < j {
      EqualAlong(values, i, j - 1);
    }
  }

  lemma FirstDifference<T>(values: seq<T>) returns (i: nat)
    requires |values| > 0 && values[0] != values[|values| - 1]
    ensures i + 1 < |values| && values[i] != values[i + 1]
  {
    if forall k :: 0 <= k < |values| - 1 ==> values[k] == values[k + 1] {
      EqualAlong(values, 0, |values| - 1);
    }
    i :| 0 <= i < |values| - 1 && values[i] != values[i + 1];
  }

  /** The entry of `x` before the first step and after every step. */
  ghost function Entries(s: System, steps: seq<Step>, x: Text, cfg: Config): (r: seq<Option<Entry>>)
    ensures |r| == |steps| + 1
    ensures forall n :: 0 <= n <= |steps| ==> r[n] == EntryAfter(s, steps, n, x, cfg)
  {
    seq(|steps| + 1, n requires 0 <= n <= |steps| => EntryAfter(s, steps, n, x, cfg))
  }

  lemma UnchangedPart(s: System, steps: seq<Step>, x: Text, cfg: Config, i: nat, j: nat)
    requires i <= j <= |steps|
    requires forall k :: i <= k < j ==> !Changes(s, steps, k, x, cfg)
    ensures EntryAfter(s, steps, j, x, cfg) == EntryAfter(s, steps, i, x, cfg)
  {
    var values := Entries(s, steps, x, cfg);
    forall k | i <= k < j
      ensures values[k] == values[k + 1]
    {
      assert !Changes(s, steps, k, x, cfg);
    }
    EqualAlong(values, i, j);
  }

  /** What only step `i` changes ends up changed. */
  lemma ChangedOnce(s: System, steps: seq<Step>, x: Text, cfg: Config, i: nat)
    requires i < |steps| && forall j :: 0 <= j < |steps| ==> (Changes(s, steps, j, x, cfg) <==> j == i)
    ensures EntryAfter(s, steps, |steps|, x, cfg) != EntryAfter(s, steps, 0, x, cfg)
  {
    UnchangedPart(s, steps, x, cfg, 0, i);
    assert Changes(s, steps, i, x, cfg);
    UnchangedPart(s, steps, x, cfg, i + 1, |steps|);
  }

  /** What ends up changed was changed by some step. */
  lemma ChangedSomewhere(s: System, steps: seq<Step>, x: Text, cfg: Config) returns (i: nat)
    requires EntryAfter(s, steps, |steps|, x, cfg) != EntryAfter(s, steps, 0, x, cfg)
    ensures i < |steps| && Changes(s, steps, i, x, cfg)
  {
    i := FirstDifference(Entries(s, steps, x, cfg));
  }

  lemma ChangeIsIndexWrite(s: System, steps: seq<Step>, i: nat, x: Text, cfg: Config)
    requires Sound(cfg) && Consistent(s, cfg) && i < |steps| && Changes(s, steps, i, x, cfg)
    ensures steps[i].DoIndex?
  {
    RunsStayConsistent(s, steps[..i], cfg);
    LastStep(s, steps, i, cfg);
    OnlyIndexWritesChange(After(s, steps[..i], cfg), steps[i], x, cfg);
  }

  /** Steps that neither stop operation `op` nor write its index. */
  predicate LeavePending(steps: seq<Step>, op: nat) {
    forall i :: 0 <= i < |steps| ==> steps[i] != DoIndex(op) && steps[i] != Stop(op)
  }

  lemma {:induction false} StaysPending(s: System, steps: seq<Step>, op: nat, cfg: Config)
    requires op in s.pending && LeavePending(steps, op)
    ensures var t := After(s, steps, cfg);
            && op in t.pending && t.pending[op].plan == s.pending[op].plan && t.pending[op].read == s.pending[op].read
    decreases steps
  {
    if steps != [] {
      StepLeavesPending(s, steps[0], op, cfg);
      StaysPending(Next(s, steps[0], cfg), steps[1..], op, cfg);
    }
  }

  lemma StepLeavesPending(s: System, step: Step, op: nat, cfg: Config)
    requires op in s.pending && step != DoIndex(op) && step != Stop(op)
    ensures var t := Next(s, step, cfg);
            && op in t.pending && t.pending[op].plan == s.pending[op].plan && t.pending[op].read == s.pending[op].read
  {
  }

  lemma ReadIsIndex(s: System, a: Step, p: Pending, cfg: Config)
    requires Sound(cfg) && Begins(s, a, p, cfg)
    ensures p.read == Index(s, cfg)
  {
    if a.BeginPut? {
      PutPlanFinds(s.data, a.file, cfg, []);
    } else {
      DeletePlanFinds(s.data, a.id, cfg, []);
    }
  }

  /** An operation that begins in `s` with `a`, and the run up to its index write. */
  ghost predicate Operation(s: System, a: Step, p: Pending, steps: seq<Step>, cfg: Config) {
    && Consistent(s, cfg) && Begins(s, a, p, cfg) && LeavePending(steps, a.op)
    && Writing(After(Next(s, a, cfg), steps, cfg), a.op)
  }

  lemma OperationAtWrite(s: System, a: Step, p: Pending, steps: seq<Step>, cfg: Config)
    requires Sound(cfg) && Operation(s, a, p, steps, cfg)
    ensures var t := After(Next(s, a, cfg), steps, cfg);
            && Consistent(t, cfg) && Writing(t, a.op) && t.pending[a.op].plan == p.plan
            && t.pending[a.op].read == Index(s, cfg)
    ensures Index(Next(s, a, cfg), cfg) == Index(s, cfg)
  {
    BeginsPending(s, a, p, cfg);
    StepKeepsConsistent(s, a, cfg);
    RunsStayConsistent(Next(s, a, cfg), steps, cfg);
    StaysPending(Next(s, a, cfg), steps, a.op, cfg);
    ReadIsIndex(s, a, p, cfg);
  }

  /** The index write of the operation takes back the entry that `x` has by then. */
  ghost predicate Loses(s: System, a: Step, steps: seq<Step>, x: Text, cfg: Config) {
    var t := After(Next(s, a, cfg), steps, cfg);
    Find(Index(Next(t, DoIndex(a.op), cfg), cfg), x) != Find(Index(t, cfg), x)
  }

  /**
   In every schedule, an operation loses the entry of another id if and only if that entry is not the
   same when the operation writes the index as it was when the operation read it.
   */
  lemma LosesIff(s: System, a: Step, p: Pending, steps: seq<Step>, x: Text, cfg: Config)
    requires Sound(cfg) && Operation(s, a, p, steps, cfg) && x != ChangeId(p.plan.change)
    ensures Loses(s, a, steps, x, cfg) <==>
            Find(Index(After(Next(s, a, cfg), steps, cfg), cfg), x) != Find(Index(s, cfg), x)
  {
    OperationAtWrite(s, a, p, steps, cfg);
    EntryKeptIff(After(Next(s, a, cfg), steps, cfg), a.op, cfg, x);
  }

  /** Something is lost only if the index write of another operation changed it in between. */
  lemma LostWasChanged(s: System, a: Step, p: Pending, steps: seq<Step>, x: Text, cfg: Config) returns (i: nat)
    requires Sound(cfg) && Operation(s, a, p, steps, cfg) && x != ChangeId(p.plan.change)
    requires Loses(s, a, steps, x, cfg)
    ensures i < |steps| && steps[i].DoIndex? && steps[i].op != a.op && Changes(Next(s, a, cfg), steps, i, x, cfg)
  {
    var begun := Next(s, a, cfg);
    LosesIff(s, a, p, steps, x, cfg);
    OperationAtWrite(s, a, p, steps, cfg);
    EntryAtEnds(begun, steps, x, cfg);
    i := ChangedSomewhere(begun, steps, x, cfg);
    StepKeepsConsistent(s, a, cfg);
    ChangeIsIndexWrite(begun, steps, i, x, cfg);
    assert steps[i] == DoIndex(steps[i].op);
  }

  /** An entry that is changed at most once in between is lost if and only if it is changed. */
  lemma LostIffChanged(s: System, a: Step, p: Pending, steps: seq<Step>, x: Text, cfg: Config)
    requires Sound(cfg) && Operation(s, a, p, steps, cfg) && x != ChangeId(p.plan.change)
    requires forall i, j :: 0 <= i < j < |steps| ==>
               !(Changes(Next(s, a, cfg), steps, i, x, cfg) && Changes(Next(s, a, cfg), steps, j, x, cfg))
    ensures Loses(s, a, steps, x, cfg) <==>
            exists i :: 0 <= i < |steps| && steps[i].DoIndex? && Changes(Next(s, a, cfg), steps, i, x, cfg)
  {
    var begun := Next(s, a, cfg);
    LosesIff(s, a, p, steps, x, cfg);
    OperationAtWrite(s, a, p, steps, cfg);
    EntryAtEnds(begun, steps, x, cfg);
    if Loses(s, a, steps, x, cfg) {
      var i := LostWasChanged(s, a, p, steps, x, cfg);
    }
    if i :| 0 <= i < |steps| && Changes(begun, steps, i, x, cfg) {
      ChangedOnce(begun, steps, x, cfg, i);
    }
  }

  // ----- one schedule, as a witness

  /** The writes of an operation are good whatever the rest of the store holds. */
  lemma BegunIsGood(s: System, a: Step, p: Pending, cfg: Config)
    requires Sound(cfg) && Begins(s, a, p, cfg)
    ensures GoodPlan(p.plan, cfg.env) && GoodWrites(p.writes, p.plan, cfg.env)
    ensures p.plan.next == NextIndex(p.plan.change, p.read, cfg.loc) && p.read == Index(s, cfg)
  {
    if a.BeginPut? {
      PutPlanFinds(s.data, a.file, cfg, []);
      PutPlanIsGood(s.data, a.file, cfg);
    } else {
      DeletePlanFinds(s.data, a.id, cfg, []);
    }
    WritesAreGood(p.plan, cfg);
  }

  /** Both operations begin, then both write their documents, then both write their indexes, `a` first each time. */
  ghost function Overlap(data: Store, a: Step, b: Step, cfg: Config): System {
    After(System(data, map[], {}), [a, b, DoDocument(a.op), DoDocument(b.op), DoIndex(a.op), DoIndex(b.op)], cfg)
  }

  function TwoWrites(data: Store, p: Writes, q: Writes, indexKey: Text): Store {
    var documents := SetKey(SetKey(data, p.key, p.document), q.key, q.document);
    SetKey(SetKey(documents, indexKey, Some(p.index)), indexKey, Some(q.index))
  }

  lemma AfterSix(s: System, a: Step, b: Step, c: Step, d: Step, e: Step, f: Step, cfg: Config)
    ensures After(s, [a, b, c, d, e, f], cfg) ==
            Next(Next(Next(Next(Next(Next(s, a, cfg), b, cfg), c, cfg), d, cfg), e, cfg), f, cfg)
  {
    assert [a, b, c, d, e, f] == [a] + ([b] + ([c] + ([d] + ([e] + [f]))));
    AfterCons(s, a, [b] + ([c] + ([d] + ([e] + [f]))), cfg);
    var t := Next(s, a, cfg);
    AfterCons(t, b, [c] + ([d] + ([e] + [f])), cfg);
    t := Next(t, b, cfg);
    AfterCons(t, c, [d] + ([e] + [f]), cfg);
    t := Next(t, c, cfg);
    AfterCons(t, d, [e] + [f], cfg);
    t := Next(t, d, cfg);
    AfterCons(t, e, [f], cfg);
    AfterOne(Next(t, e, cfg), f, cfg);
  }

  lemma AfterCons(s: System, step: Step, rest: seq<Step>, cfg: Config)
    ensures After(s, [step] + rest, cfg) == After(Next(s, step, cfg), rest, cfg)
  {
    assert ([step] + rest)[1..] == rest;
  }

  lemma AfterOne(s: System, step: Step, cfg: Config)
    ensures After(s, [step], cfg) == Next(s, step, cfg)
  {
    assert [step][1..] == [];
  }

  lemma RoundsWrite(begun: System, a: nat, b: nat, p: Pending, q: Pending, cfg: Config)
    requires a != b && begun.pending == map[a := p, b := q] && !p.documentDone && !q.documentDone
    ensures var documents := Next(Next(begun, DoDocument(a), cfg), DoDocument(b), cfg);
            var t := Next(Next(documents, DoIndex(a), cfg), DoIndex(b), cfg);
            t.data == TwoWrites(begun.data, p.writes, q.writes, cfg.indexKey) && t.pending == map[]
  {
    var first := Next(begun, DoDocument(a), cfg);
    DocumentStep(begun, a, cfg);
    var second := Next(first, DoDocument(b), cfg);
    DocumentStep(first, b, cfg);
    var third := Next(second, DoIndex(a), cfg);
    IndexStep(second, a, cfg);
    IndexStep(third, b, cfg);
  }

  lemma BothBegin(data: Store, a: Step, b: Step, p: Pending, q: Pending, cfg: Config)
    requires Begins(System(data, map[], {}), a, p, cfg) && Begins(System(data, map[], {}), b, q, cfg) && a.op != b.op
    ensures Next(Next(System(data, map[], {}), a, cfg), b, cfg) == System(data, map[a.op := p, b.op := q], {})
  {
    BeginsPending(System(data, map[], {}), a, p, cfg);
    BeginsPending(System(data, map[a.op := p], {}), b, q, cfg);
  }

  lemma OverlapWrites(data: Store, a: Step, b: Step, p: Pending, q: Pending, cfg: Config)
    requires Begins(System(data, map[], {}), a, p, cfg) && Begins(System(data, map[], {}), b, q, cfg) && a.op != b.op
    ensures Overlap(data, a, b, cfg).data == TwoWrites(data, p.writes, q.writes, cfg.indexKey)
    ensures Overlap(data, a, b, cfg).pending == map[]
  {
    AfterSix(System(data, map[], {}), a, b, DoDocument(a.op), DoDocument(b.op), DoIndex(a.op), DoIndex(b.op), cfg);
    BothBegin(data, a, b, p, q, cfg);
    RoundsWrite(System(data, map[a.op := p, b.op := q], {}), a.op, b.op, p, q, cfg);
  }

  lemma LoadedAfterTwo(data: Store, p: Plan, v: Writes, q: Plan, w: Writes, cfg: Config)
    requires Sound(cfg) && GoodPlan(p, cfg.env) && GoodWrites(v, p, cfg.env) && GoodWrites(w, q, cfg.env)
    requires ChangeId(p.change) != ChangeId(q.change)
    ensures Loaded(TwoWrites(data, v, w, cfg.indexKey), ChangeId(p.change), cfg.env) ==
            if p.change.Put? then Some(p.change.profile) else None
  {
    var id := ChangeId(p.change);
    var one := SetKey(data, v.key, v.document);
    var two := SetKey(one, w.key, w.document);
    var three := SetKey(two, cfg.indexKey, Some(v.index));
    LoadedAfter(data, id, v.document, id, cfg.env);
    LoadedAfter(one, ChangeId(q.change), w.document, id, cfg.env);
    LoadedFromIndexKey(two, cfg.indexKey, v.index, id, cfg.env);
    LoadedFromIndexKey(three, cfg.indexKey, w.index, id, cfg.env);
  }

  /** In this schedule the index keeps no trace of the first operation, whose document write stands. */
  lemma OverlapForgetsTheFirst(data: Store, a: Step, b: Step, p: Pending, q: Pending, cfg: Config)
    requires Sound(cfg) && a.op != b.op && ChangeId(p.plan.change) != ChangeId(q.plan.change)
    requires Begins(System(data, map[], {}), a, p, cfg) && Begins(System(data, map[], {}), b, q, cfg)
    ensures var after, c := Overlap(data, a, b, cfg), p.plan.change;
            && after.pending == map[]
            && Find(Index(after, cfg), ChangeId(c)) == Find(Index(System(data, map[], {}), cfg), ChangeId(c))
            && Loaded(after.data, ChangeId(c), cfg.env) == if c.Put? then Some(c.profile) else None
  {
    var s := System(data, map[], {});
    var v, w := p.writes, q.writes;
    OverlapWrites(data, a, b, p, q, cfg);
    BegunIsGood(s, a, p, cfg);
    BegunIsGood(s, b, q, cfg);
    LoadedAfterTwo(data, p.plan, v, q.plan, w, cfg);
    var three := SetKey(SetKey(SetKey(data, v.key, v.document), w.key, w.document), cfg.indexKey, Some(v.index));
    IndexIsStored(three, w.index, q.plan.next, cfg);
    NextIndexFinds(q.plan.change, q.read, cfg.loc, ChangeId(p.plan.change));
  }

  /** Two puts of new profiles can overlap so that one of them stays unlisted, although its document loads. */
  lemma OverlappingPutsLoseAnEntry(data: Store, f: File, g: File, p: Plan, q: Plan, cfg: Config)
    requires Sound(cfg) && PlanPut(data, f, cfg) == Some(p) && PlanPut(data, g, cfg) == Some(q)
    requires ChangeId(p.change) != ChangeId(q.change)
    ensures var after := Overlap(data, BeginPut(0, f), BeginPut(1, g), cfg);
            && p.change.Put? && Loaded(after.data, p.change.profile.id, cfg.env) == Some(p.change.profile)
            && Find(Index(after, cfg), p.change.profile.id) ==
               Find(Index(System(data, map[], {}), cfg), p.change.profile.id)
  {
    PutPlanFinds(data, f, cfg, []);
    OverlapForgetsTheFirst(data, BeginPut(0, f), BeginPut(1, g), Planned(data, p, cfg), Planned(data, q, cfg), cfg);
  }

  /** A delete and a put can overlap so that the deleted id stays listed without a document. */
  lemma OverlappingDeleteDangles(data: Store, id: Text, g: File, p: Plan, q: Plan, cfg: Config)
    requires Sound(cfg) && PlanDelete(data, id, cfg) == Some(p) && PlanPut(data, g, cfg) == Some(q)
    requires ChangeId(q.change) != id
    ensures var after := Overlap(data, BeginDelete(0, id), BeginPut(1, g), cfg);
            Find(Index(after, cfg), id).Some? && Loaded(after.data, id, cfg.env).None?
  {
    DeletePlanFinds(data, id, cfg, []);
    OverlapForgetsTheFirst(data, BeginDelete(0, id), BeginPut(1, g), Planned(data, p, cfg), Planned(data, q, cfg), cfg);
  }

  /** The same two operations with the index writes the other way round: nothing dangles, and the put is not listed. */
  lemma OverlappingPutIsLost(data: Store, id: Text, g: File, p: Plan, q: Plan, cfg: Config)
    requires Sound(cfg) && PlanDelete(data, id, cfg) == Some(p) && PlanPut(data, g, cfg) == Some(q)
    requires ChangeId(q.change) != id
    ensures var after, x := Overlap(data, BeginPut(1, g), BeginDelete(0, id), cfg), ChangeId(q.change);
            && Find(Index(after, cfg), x) == Find(Index(System(data, map[], {}), cfg), x)
            && Find(Index(after, cfg), id).None?
  {
    var a, b, p', q' := BeginPut(1, g), BeginDelete(0, id), Planned(data, p, cfg), Planned(data, q, cfg);
    DeletePlanFinds(data, id, cfg, id);
    OverlapForgetsTheFirst(data, a, b, q', p', cfg);
    OverlapWrites(data, a, b, q', p', cfg);
    BegunIsGood(System(data, map[], {}), b, p', cfg);
    var v, w := q'.writes, p'.writes;
    var three := SetKey(SetKey(SetKey(data, v.key, v.document), w.key, w.document), cfg.indexKey, Some(v.index));
    IndexIsStored(three, w.index, p.next, cfg);
  }
}
