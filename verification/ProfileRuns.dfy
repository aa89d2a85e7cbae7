/**
 Runs of overlapping profile operations. Each await of the command line is an interleaving point,
 and an operation can stop at any of them.
 */
module ProfileRuns {
  import opened Wrappers
  import opened JsText
  import opened Collations
  import opened ProfileDocs
  import opened ProfileValidation
  import opened ProfileRoundTrip
  import opened ProfileIndex
  import opened ProfileStore

  /** An operation that has read the index `read`. */
  datatype Pending = Pending(plan: Plan, read: seq<Entry>, writes: Writes, documentDone: bool)

  /** `erased` holds the ids whose last document write was a deletion. */
  datatype System = System(data: Store, pending: map<nat, Pending>, erased: set<Text>)

  datatype Step =
    | BeginPut(op: nat, file: File)
    | BeginDelete(op: nat, id: Text)
    | DoDocument(op: nat)
    | DoIndex(op: nat)
    | Stop(op: nat)

  ghost function ReadIndex(data: Store, cfg: Config): seq<Entry> {
    var es := CliIndex(data, cfg);
    if es.Some? then es.value else []
  }

  ghost function Planned(data: Store, plan: Plan, cfg: Config): Pending {
    Pending(plan, ReadIndex(data, cfg), WritesOf(plan, cfg), false)
  }

  ghost function Begin(s: System, op: nat, plan: Option<Plan>, cfg: Config): System {
    if op in s.pending || plan.None? then s else s.(pending := s.pending[op := Planned(s.data, plan.value, cfg)])
  }

  function ErasedAfter(erased: set<Text>, c: Change): set<Text> {
    match c
    case Put(p) => erased - {p.id}
    case Erase(id) => erased + {id}
  }

  ghost function Next(s: System, step: Step, cfg: Config): System {
    match step
    case BeginPut(op, file) => Begin(s, op, PlanPut(s.data, file, cfg), cfg)
    case BeginDelete(op, id) => Begin(s, op, PlanDelete(s.data, id, cfg), cfg)
    case DoDocument(op) =>
      if op !in s.pending || s.pending[op].documentDone then s else
        var p := s.pending[op];
        System(SetKey(s.data, p.writes.key, p.writes.document), s.pending[op := p.(documentDone := true)],
               ErasedAfter(s.erased, p.plan.change))
    case DoIndex(op) =>
      if op !in s.pending || !s.pending[op].documentDone then s
      else System(SetKey(s.data, cfg.indexKey, Some(s.pending[op].writes.index)), s.pending - {op}, s.erased)
    case Stop(op) => s.(pending := s.pending - {op})
  }

  ghost function After(s: System, steps: seq<Step>, cfg: Config): System
    decreases steps
  {
    if steps == [] then s else After(Next(s, steps[0], cfg), steps[1..], cfg)
  }

  // ----- what writes store

  /** The profile that the Worker loads for `id`, if it finds a valid document. */
  ghost function Loaded(data: Store, id: Text, env: Env): Option<Profile> {
    if ProfileKey(id) in data && data[ProfileKey(id)].Json? then ProfileOf(data[ProfileKey(id)].doc, id, None, env)
    else None
  }

  ghost predicate StoresIndex(stored: Stored, es: seq<Entry>, env: Env) {
    stored.Json? && IndexOf(stored.doc, None, env) == Some(es)
  }

  ghost predicate StoresProfile(stored: Stored, p: Profile, env: Env) {
    stored.Json? && ProfileOf(stored.doc, p.id, None, env) == Some(p)
  }

  ghost predicate GoodWrites(w: Writes, plan: Plan, env: Env) {
    && w.key == ProfileKey(ChangeId(plan.change))
    && StoresIndex(w.index, plan.next, env)
    && (plan.change.Put? ==> w.document.Some? && StoresProfile(w.document.value, plan.change.profile, env))
    && (plan.change.Erase? ==> w.document.None?)
  }

  ghost predicate GoodPlan(plan: Plan, env: Env) {
    && GoodIndex(plan.next, env) && IsProfileId(ChangeId(plan.change))
    && (plan.change.Put? ==> GoodProfile(plan.change.profile, env))
  }

  lemma WritesAreGood(plan: Plan, cfg: Config)
    requires GoodPlan(plan, cfg.env)
    ensures GoodWrites(WritesOf(plan, cfg), plan, cfg.env)
  {
    IndexAcceptedIff(plan.next, None, cfg.env);
    if plan.change.Put? {
      GoodProfileAccepted(plan.change.profile, None, cfg.env);
    }
  }

  lemma OtherKeyKeepsIndex(data: Store, key: Text, value: Option<Stored>, cfg: Config)
    requires key != cfg.indexKey
    ensures WorkerIndex(SetKey(data, key, value), cfg.indexKey, cfg.env) == WorkerIndex(data, cfg.indexKey, cfg.env)
    ensures CliIndex(SetKey(data, key, value), cfg) == CliIndex(data, cfg)
  {
  }

  lemma IndexIsStored(data: Store, stored: Stored, es: seq<Entry>, cfg: Config)
    requires StoresIndex(stored, es, cfg.env)
    ensures WorkerIndex(SetKey(data, cfg.indexKey, Some(stored)), cfg.indexKey, cfg.env) == Some(es)
  {
  }

  lemma LoadedAfter(data: Store, id: Text, value: Option<Stored>, other: Text, env: Env)
    ensures other != id ==> Loaded(SetKey(data, ProfileKey(id), value), other, env) == Loaded(data, other, env)
    ensures value.None? ==> Loaded(SetKey(data, ProfileKey(id), value), id, env) == None
    ensures other != id ==> (ProfileKey(other) in SetKey(data, ProfileKey(id), value) <==> ProfileKey(other) in data)
  {
    ProfileKeyInjective(id, other);
  }

  lemma LoadedFromIndexKey(data: Store, indexKey: Text, stored: Stored, id: Text, env: Env)
    requires ProfileKey(id) != indexKey
    ensures Loaded(SetKey(data, indexKey, Some(stored)), id, env) == Loaded(data, id, env)
    ensures ProfileKey(id) in SetKey(data, indexKey, Some(stored)) <==> ProfileKey(id) in data
  {
  }

  // ----- the invariant

  /** The document of a listed id is there, or was erased. */
  ghost predicate Backed(s: System, id: Text, env: Env) {
    Loaded(s.data, id, env).Some? || id in s.erased
  }

  predicate Awaited(p: Pending, id: Text) {
    !p.documentDone && p.plan.change.Put? && p.plan.change.profile.id == id
  }

  /** The index that an operation makes of the one it has read. */
  function NextIndex(c: Change, read: seq<Entry>, loc: Collation): seq<Entry> {
    match c
    case Put(p) => Merge(loc, read, p)
    case Erase(id) => Remove(read, id)
  }

  ghost predicate PendingGood(s: System, p: Pending, cfg: Config) {
    && GoodPlan(p.plan, cfg.env) && GoodWrites(p.writes, p.plan, cfg.env)
    && p.plan.next == NextIndex(p.plan.change, p.read, cfg.loc)
    && (forall id :: Find(p.plan.next, id).Some? ==> Backed(s, id, cfg.env) || Awaited(p, id))
  }

  ghost predicate IndexBacked(s: System, cfg: Config) {
    var es := WorkerIndex(s.data, cfg.indexKey, cfg.env);
    es.Some? && forall id :: Find(es.value, id).Some? ==> Backed(s, id, cfg.env)
  }

  ghost predicate ErasedAreGone(s: System) {
    forall id :: id in s.erased ==> IsProfileId(id) && ProfileKey(id) !in s.data
  }

  /**
   The index is valid, every id in it has its document or was erased, erased ids have no document,
   and the same holds of the indexes still to be written.
   */
  ghost predicate Consistent(s: System, cfg: Config) {
    IndexBacked(s, cfg) && ErasedAreGone(s) && AllPendingGood(s, cfg)
  }

  ghost predicate AllPendingGood(s: System, cfg: Config) {
    forall op :: op in s.pending ==> PendingGood(s, s.pending[op], cfg)
  }

  ghost predicate KeepsBacking(s: System, t: System, env: Env) {
    forall id :: IsProfileId(id) && Backed(s, id, env) ==> Backed(t, id, env)
  }

  ghost predicate Sound(cfg: Config) {
    StrictCollation(cfg.loc) && PlainBlockNames(cfg.env) && Apart(cfg.indexKey)
  }

  // ----- beginning

  lemma PutPlanFinds(data: Store, file: File, cfg: Config, id: Text)
    requires Sound(cfg) && PlanPut(data, file, cfg).Some?
    ensures var plan, es := PlanPut(data, file, cfg).value, WorkerIndex(data, cfg.indexKey, cfg.env);
            && plan.change.Put? && es == Some(ReadIndex(data, cfg))
            && plan.next == NextIndex(plan.change, es.value, cfg.loc)
            && Find(plan.next, id) ==
               if id == plan.change.profile.id then Some(BuildIndexEntry(plan.change.profile, Find(es.value, id)))
               else Find(es.value, id)
  {
    PutIsPlannedIff(data, file, cfg);
    CliIndexIff(data, cfg);
    FindAfterMerge(cfg.loc, CliIndex(data, cfg).value, ProfileFromFile(file, cfg.env).value, id);
  }

  lemma DeletePlanFinds(data: Store, id: Text, cfg: Config, other: Text)
    requires PlanDelete(data, id, cfg).Some?
    ensures var plan, es := PlanDelete(data, id, cfg).value, WorkerIndex(data, cfg.indexKey, cfg.env);
            && plan.change == Erase(id) && IsProfileId(id) && es == Some(ReadIndex(data, cfg))
            && plan.next == NextIndex(plan.change, es.value, cfg.loc) && Find(es.value, id).Some?
            && GoodIndex(plan.next, cfg.env)
            && Find(plan.next, other) == if other == id then None else Find(es.value, other)
  {
    DeleteIsPlannedIff(data, id, cfg);
    CliIndexIff(data, cfg);
    WorkerIndexIsGood(data, cfg.indexKey, cfg.env);
    FindWithout(CliIndex(data, cfg).value, id, other);
    RemoveAccepted(CliIndex(data, cfg).value, id, cfg.env);
  }

  lemma PutPlanGood(s: System, file: File, cfg: Config)
    requires Sound(cfg) && Consistent(s, cfg) && PlanPut(s.data, file, cfg).Some?
    ensures PendingGood(s, Planned(s.data, PlanPut(s.data, file, cfg).value, cfg), cfg)
  {
    PutPlanIsGood(s.data, file, cfg);
    var plan := PlanPut(s.data, file, cfg).value;
    WritesAreGood(plan, cfg);
    PutPlanFinds(s.data, file, cfg, []);
    forall id | Find(plan.next, id).Some?
      ensures Backed(s, id, cfg.env) || Awaited(Planned(s.data, plan, cfg), id)
    {
      PutPlanFinds(s.data, file, cfg, id);
    }
  }

  lemma DeletePlanGood(s: System, id: Text, cfg: Config)
    requires Consistent(s, cfg) && PlanDelete(s.data, id, cfg).Some?
    ensures PendingGood(s, Planned(s.data, PlanDelete(s.data, id, cfg).value, cfg), cfg)
  {
    var plan := PlanDelete(s.data, id, cfg).value;
    DeletePlanFinds(s.data, id, cfg, []);
    WritesAreGood(plan, cfg);
    forall other | Find(plan.next, other).Some?
      ensures Backed(s, other, cfg.env)
    {
      DeletePlanFinds(s.data, id, cfg, other);
    }
  }

  lemma BeginKeeps(s: System, op: nat, plan: Option<Plan>, cfg: Config)
    requires Consistent(s, cfg)
    requires plan.Some? ==> PendingGood(s, Planned(s.data, plan.value, cfg), cfg)
    ensures Consistent(Begin(s, op, plan, cfg), cfg)
  {
    var t := Begin(s, op, plan, cfg);
    SameDataBacked(s, t, cfg);
    forall other | other in t.pending
      ensures PendingGood(t, t.pending[other], cfg)
    {
      PendingStaysGood(s, t, t.pending[other], cfg);
    }
  }

  lemma SameDataBacked(s: System, t: System, cfg: Config)
    requires s.data == t.data && s.erased == t.erased
    ensures forall id :: Backed(s, id, cfg.env) <==> Backed(t, id, cfg.env)
    ensures IndexBacked(s, cfg) ==> IndexBacked(t, cfg)
  {
    assert forall id :: Backed(s, id, cfg.env) <==> Backed(t, id, cfg.env);
  }

  lemma PendingStaysGood(s: System, t: System, p: Pending, cfg: Config)
    requires PendingGood(s, p, cfg)
    requires KeepsBacking(s, t, cfg.env)
    ensures PendingGood(t, p, cfg)
  {
    forall id | Find(p.plan.next, id).Some?
      ensures Backed(t, id, cfg.env) || Awaited(p, id)
    {
      FindFinds(p.plan.next, id);
    }
  }

  // ----- writing a document

  /** A document write backs its own id and takes the backing of no other. */
  lemma DocumentBacks(s: System, p: Pending, cfg: Config, id: Text)
    requires GoodWrites(p.writes, p.plan, cfg.env)
    requires Backed(s, id, cfg.env) || ChangeId(p.plan.change) == id
    ensures Backed(System(SetKey(s.data, p.writes.key, p.writes.document), s.pending,
                          ErasedAfter(s.erased, p.plan.change)), id, cfg.env)
  {
    LoadedAfter(s.data, ChangeId(p.plan.change), p.writes.document, id, cfg.env);
  }

  lemma DocumentErases(s: System, p: Pending, cfg: Config)
    requires ErasedAreGone(s) && GoodWrites(p.writes, p.plan, cfg.env) && GoodPlan(p.plan, cfg.env)
    ensures ErasedAreGone(System(SetKey(s.data, p.writes.key, p.writes.document), s.pending,
                                 ErasedAfter(s.erased, p.plan.change)))
  {
    forall id | id in ErasedAfter(s.erased, p.plan.change)
      ensures IsProfileId(id) && ProfileKey(id) !in SetKey(s.data, p.writes.key, p.writes.document)
    {
      LoadedAfter(s.data, ChangeId(p.plan.change), p.writes.document, id, cfg.env);
    }
  }

  lemma DocumentStep(s: System, op: nat, cfg: Config)
    requires op in s.pending && !s.pending[op].documentDone
    ensures var p := s.pending[op];
            Next(s, DoDocument(op), cfg) ==
            System(SetKey(s.data, p.writes.key, p.writes.document), s.pending[op := p.(documentDone := true)],
                   ErasedAfter(s.erased, p.plan.change))
  {
  }

  lemma DocumentStepKeeps(s: System, op: nat, cfg: Config)
    requires Sound(cfg) && Consistent(s, cfg) && op in s.pending && !s.pending[op].documentDone
    ensures Consistent(Next(s, DoDocument(op), cfg), cfg)
  {
    var p := s.pending[op];
    var t := System(SetKey(s.data, p.writes.key, p.writes.document), s.pending[op := p.(documentDone := true)],
                    ErasedAfter(s.erased, p.plan.change));
    assert PendingGood(s, p, cfg);
    OtherKeyKeepsIndex(s.data, p.writes.key, p.writes.document, cfg);
    DocumentErases(s, p, cfg);
    forall id | Backed(s, id, cfg.env) || ChangeId(p.plan.change) == id
      ensures Backed(t, id, cfg.env)
    {
      DocumentBacks(s, p, cfg, id);
    }
    forall other | other in t.pending
      ensures PendingGood(t, t.pending[other], cfg)
    {
      DocumentKeepsPending(s, t, s.pending[other], t.pending[other], ChangeId(p.plan.change), cfg);
    }
    DocumentStep(s, op, cfg);
  }

  lemma DocumentKeepsPending(s: System, t: System, q: Pending, r: Pending, id: Text, cfg: Config)
    requires PendingGood(s, q, cfg) && (r == q || (r == q.(documentDone := true) && ChangeId(q.plan.change) == id))
    requires forall x :: Backed(s, x, cfg.env) || x == id ==> Backed(t, x, cfg.env)
    ensures PendingGood(t, r, cfg)
  {
  }

  // ----- writing the index

  lemma IndexKeepsBacked(s: System, t: System, stored: Stored, cfg: Config, id: Text)
    requires Apart(cfg.indexKey) && IsProfileId(id) && Backed(s, id, cfg.env)
    requires t.data == SetKey(s.data, cfg.indexKey, Some(stored)) && t.erased == s.erased
    ensures Backed(t, id, cfg.env)
  {
    LoadedFromIndexKey(s.data, cfg.indexKey, stored, id, cfg.env);
  }

  lemma IndexKeepsErased(s: System, t: System, stored: Stored, cfg: Config)
    requires Apart(cfg.indexKey) && ErasedAreGone(s)
    requires t.data == SetKey(s.data, cfg.indexKey, Some(stored)) && t.erased == s.erased
    ensures ErasedAreGone(t)
  {
    forall id | id in t.erased
      ensures IsProfileId(id) && ProfileKey(id) !in t.data
    {
      LoadedFromIndexKey(s.data, cfg.indexKey, stored, id, cfg.env);
    }
  }

  /** What stays pending stays good when no backing is taken. */
  lemma RestStaysGood(s: System, t: System, cfg: Config)
    requires AllPendingGood(s, cfg) && KeepsBacking(s, t, cfg.env)
    requires forall op :: op in t.pending ==> op in s.pending && t.pending[op] == s.pending[op]
    ensures AllPendingGood(t, cfg)
  {
    forall op | op in t.pending
      ensures PendingGood(t, t.pending[op], cfg)
    {
      PendingStaysGood(s, t, s.pending[op], cfg);
    }
  }

  lemma WrittenIndexBacked(t: System, p: Pending, cfg: Config)
    requires PendingGood(t, p, cfg) && p.documentDone
    requires WorkerIndex(t.data, cfg.indexKey, cfg.env) == Some(p.plan.next)
    ensures IndexBacked(t, cfg)
  {
  }

  lemma IndexKeepsAllBacked(s: System, t: System, stored: Stored, cfg: Config)
    requires Apart(cfg.indexKey)
    requires t.data == SetKey(s.data, cfg.indexKey, Some(stored)) && t.erased == s.erased
    ensures KeepsBacking(s, t, cfg.env)
  {
    forall id | IsProfileId(id) && Backed(s, id, cfg.env)
      ensures Backed(t, id, cfg.env)
    {
      IndexKeepsBacked(s, t, stored, cfg, id);
    }
  }

  lemma IndexWrittenKeeps(s: System, t: System, p: Pending, cfg: Config)
    requires Apart(cfg.indexKey) && ErasedAreGone(s) && AllPendingGood(s, cfg) && PendingGood(s, p, cfg)
             && p.documentDone
    requires t.data == SetKey(s.data, cfg.indexKey, Some(p.writes.index)) && t.erased == s.erased
    requires forall op :: op in t.pending ==> op in s.pending && t.pending[op] == s.pending[op]
    ensures Consistent(t, cfg) && WorkerIndex(t.data, cfg.indexKey, cfg.env) == Some(p.plan.next)
  {
    IndexIsStored(s.data, p.writes.index, p.plan.next, cfg);
    IndexKeepsErased(s, t, p.writes.index, cfg);
    IndexKeepsAllBacked(s, t, p.writes.index, cfg);
    PendingStaysGood(s, t, p, cfg);
    WrittenIndexBacked(t, p, cfg);
    RestStaysGood(s, t, cfg);
  }

  lemma IndexStep(s: System, op: nat, cfg: Config)
    requires op in s.pending && s.pending[op].documentDone
    ensures Next(s, DoIndex(op), cfg) ==
            System(SetKey(s.data, cfg.indexKey, Some(s.pending[op].writes.index)), s.pending - {op}, s.erased)
  {
  }

  lemma IndexStepKeeps(s: System, op: nat, cfg: Config)
    requires Sound(cfg) && Consistent(s, cfg) && op in s.pending && s.pending[op].documentDone
    ensures Consistent(Next(s, DoIndex(op), cfg), cfg)
    ensures WorkerIndex(Next(s, DoIndex(op), cfg).data, cfg.indexKey, cfg.env) == Some(s.pending[op].plan.next)
  {
    var p := s.pending[op];
    var t := System(SetKey(s.data, cfg.indexKey, Some(p.writes.index)), s.pending - {op}, s.erased);
    assert PendingGood(s, p, cfg);
    IndexWrittenKeeps(s, t, p, cfg);
    IndexStep(s, op, cfg);
  }

  lemma StopKeeps(s: System, op: nat, cfg: Config)
    requires Consistent(s, cfg)
    ensures Consistent(Next(s, Stop(op), cfg), cfg)
  {
    var t := Next(s, Stop(op), cfg);
    SameDataBacked(s, t, cfg);
    RestStaysGood(s, t, cfg);
  }

  lemma StepKeepsConsistent(s: System, step: Step, cfg: Config)
    requires Sound(cfg) && Consistent(s, cfg)
    ensures Consistent(Next(s, step, cfg), cfg)
  {
    match step
    case BeginPut(op, file) =>
      if PlanPut(s.data, file, cfg).Some? {
        PutPlanGood(s, file, cfg);
      }
      BeginKeeps(s, op, PlanPut(s.data, file, cfg), cfg);
    case BeginDelete(op, id) =>
      if PlanDelete(s.data, id, cfg).Some? {
        DeletePlanGood(s, id, cfg);
      }
      BeginKeeps(s, op, PlanDelete(s.data, id, cfg), cfg);
    case DoDocument(op) =>
      if op in s.pending && !s.pending[op].documentDone {
        DocumentStepKeeps(s, op, cfg);
      }
    case DoIndex(op) =>
      if op in s.pending && s.pending[op].documentDone {
        IndexStepKeeps(s, op, cfg);
      }
    case Stop(op) => StopKeeps(s, op, cfg);
  }

  /** Every run, with any overlap and any crashes, keeps the index valid and every listed id stored or erased. */
  lemma {:induction false} RunsStayConsistent(s: System, steps: seq<Step>, cfg: Config)
    requires Sound(cfg) && Consistent(s, cfg)
    ensures Consistent(After(s, steps, cfg), cfg)
    decreases steps
  {
    if steps != [] {
      StepKeepsConsistent(s, steps[0], cfg);
      RunsStayConsistent(Next(s, steps[0], cfg), steps[1..], cfg);
    }
  }

  // ----- exactly which listed profiles load

  lemma LoadedIsLoad(data: Store, id: Text, cfg: Config)
    requires WorkerIndex(data, cfg.indexKey, cfg.env).Some? && IsProfileId(id) && Loaded(data, id, cfg.env).Some?
    ensures LoadApplicationProfile(Some(data), cfg.indexKey, id, false, false, cfg.env) ==
            Success(Loaded(data, id, cfg.env).value)
  {
    ValidatedId(id);
    var doc := data[ProfileKey(id)].doc;
    assert !doc.DNull?;
    assert ReadKvJson(Some(data), ProfileKey(id), false) == (Some(doc), Available);
    LoadOfReads(data, cfg.indexKey, id, doc, cfg.env);
  }

  lemma MissingIsNotFound(data: Store, id: Text, cfg: Config)
    requires WorkerIndex(data, cfg.indexKey, cfg.env).Some? && IsProfileId(id) && ProfileKey(id) !in data
    ensures LoadApplicationProfile(Some(data), cfg.indexKey, id, false, false, cfg.env) == Failure(NotFound)
  {
    ValidatedId(id);
  }

  /**
   In every run of overlapping puts and deletes, crashes included, the Worker can list the index, and
   loads a listed profile if and only if the last document write of its id was not a deletion.
   */
  lemma ListedLoadsIff(s: System, steps: seq<Step>, cfg: Config, id: Text)
    requires Sound(cfg) && Consistent(s, cfg)
    ensures var after := After(s, steps, cfg);
            var (status, listed) := ListApplicationProfiles(Some(after.data), cfg.indexKey, false, cfg.env);
            var loaded := LoadApplicationProfile(Some(after.data), cfg.indexKey, id, false, false, cfg.env);
            && status == Available
            && (Find(listed, id).Some? ==>
                  && (loaded.Success? <==> id !in after.erased)
                  && (loaded.Success? ==> loaded.value.id == id)
                  && (loaded.Failure? ==> loaded.error == NotFound))
  {
    var t := After(s, steps, cfg);
    RunsStayConsistent(s, steps, cfg);
    WorkerIndexIsGood(t.data, cfg.indexKey, cfg.env);
    ListIsWorkerIndex(t.data, cfg.indexKey, cfg.env);
    var es := WorkerIndex(t.data, cfg.indexKey, cfg.env).value;
    if Find(es, id).Some? {
      FindFinds(es, id);
      assert Backed(t, id, cfg.env);
      if id in t.erased {
        MissingIsNotFound(t.data, id, cfg);
      } else {
        LoadedIsLoad(t.data, id, cfg);
        ProfileIsGood(t.data[ProfileKey(id)].doc, id, None, cfg.env);
        ValidatedId(id);
      }
    }
  }

  // ----- runs of puts

  ghost predicate NoErasePending(s: System) {
    s.erased == {} && forall op :: op in s.pending ==> s.pending[op].plan.change.Put?
  }

  lemma {:induction false} PutsEraseNothing(s: System, steps: seq<Step>, cfg: Config)
    requires NoErasePending(s) && forall i :: 0 <= i < |steps| ==> !steps[i].BeginDelete?
    ensures NoErasePending(After(s, steps, cfg))
    decreases steps
  {
    if steps != [] {
      var t := Next(s, steps[0], cfg);
      assert !steps[0].BeginDelete?;
      assert NoErasePending(t);
      PutsEraseNothing(t, steps[1..], cfg);
    }
  }

  /** In any run of overlapping puts, crashes included, the Worker loads a profile of that id for every id it lists. */
  lemma ListedProfilesLoad(data: Store, steps: seq<Step>, cfg: Config, id: Text)
    requires Sound(cfg) && Consistent(System(data, map[], {}), cfg)
    requires forall i :: 0 <= i < |steps| ==> !steps[i].BeginDelete?
    ensures var after := After(System(data, map[], {}), steps, cfg).data;
            var (status, listed) := ListApplicationProfiles(Some(after), cfg.indexKey, false, cfg.env);
            var loaded := LoadApplicationProfile(Some(after), cfg.indexKey, id, false, false, cfg.env);
            status == Available && (Find(listed, id).Some? ==> loaded.Success? && loaded.value.id == id)
  {
    ListedLoadsIff(System(data, map[], {}), steps, cfg, id);
    PutsEraseNothing(System(data, map[], {}), steps, cfg);
  }

  // ----- crashed operations

  /** A crashed delete leaves the index as it was, and takes the document of no other id. */
  lemma CrashedDelete(data: Store, id: Text, cfg: Config, other: Text)
    requires Sound(cfg) && PlanDelete(data, id, cfg).Some?
    ensures var after := Carry(data, PlanDelete(data, id, cfg), AtIndex, cfg);
            && WorkerIndex(after, cfg.indexKey, cfg.env) == WorkerIndex(data, cfg.indexKey, cfg.env)
            && Loaded(after, other, cfg.env) == if other == id then None else Loaded(data, other, cfg.env)
  {
    DeletePlanFinds(data, id, cfg, other);
    OtherKeyKeepsIndex(data, ProfileKey(id), None, cfg);
    LoadedAfter(data, id, None, other, cfg.env);
  }

  /** What an operation plans depends on the store only through the index. */
  lemma PlanFollowsIndex(data: Store, other: Store, file: File, id: Text, cfg: Config)
    requires CliIndex(data, cfg) == CliIndex(other, cfg)
    ensures PlanPut(data, file, cfg) == PlanPut(other, file, cfg)
    ensures PlanDelete(data, id, cfg) == PlanDelete(other, id, cfg)
  {
  }

  lemma CarryAgain(data: Store, w: Writes, indexKey: Text)
    ensures CarryWrites(SetKey(data, w.key, w.document), w, NoCrash, indexKey) ==
            CarryWrites(data, w, NoCrash, indexKey)
  {
    assert SetKey(SetKey(data, w.key, w.document), w.key, w.document) == SetKey(data, w.key, w.document);
  }

  lemma RerunPlan(data: Store, plan: Plan, cfg: Config)
    requires Apart(cfg.indexKey) && IsProfileId(ChangeId(plan.change))
    ensures var w := WritesOf(plan, cfg);
            && CliIndex(SetKey(data, w.key, w.document), cfg) == CliIndex(data, cfg)
            && CarryWrites(SetKey(data, w.key, w.document), w, NoCrash, cfg.indexKey) ==
               CarryWrites(data, w, NoCrash, cfg.indexKey)
  {
    var w := WritesOf(plan, cfg);
    OtherKeyKeepsIndex(data, w.key, w.document, cfg);
    CarryAgain(data, w, cfg.indexKey);
  }

  lemma RerunCompleteDelete(data: Store, id: Text, cfg: Config)
    requires PlanDelete(data, id, cfg).Some?
    ensures var after := Carry(data, PlanDelete(data, id, cfg), NoCrash, cfg);
            PlanDelete(after, id, cfg).None?
  {
    var plan := PlanDelete(data, id, cfg).value;
    var after := Carry(data, Some(plan), NoCrash, cfg);
    DeletePlanFinds(data, id, cfg, id);
    CliReadsAgainIff(WriteDocument(data, plan.change, cfg), plan.next, cfg);
    DeleteIsPlannedIff(after, id, cfg);
  }

  /** Running a delete again, crashed or not, gives the store that it leaves without a crash. */
  lemma RerunDelete(data: Store, id: Text, cfg: Config, crash: Crash)
    requires Sound(cfg)
    ensures var plan := PlanDelete(data, id, cfg);
            var after := Carry(data, plan, crash, cfg);
            Carry(after, PlanDelete(after, id, cfg), NoCrash, cfg) == Carry(data, plan, NoCrash, cfg)
  {
    if PlanDelete(data, id, cfg).Some? {
      var plan := PlanDelete(data, id, cfg).value;
      if crash.NoCrash? {
        RerunCompleteDelete(data, id, cfg);
      } else {
        DeletePlanFinds(data, id, cfg, id);
        RerunPlan(data, plan, cfg);
        PlanFollowsIndex(data, Carry(data, Some(plan), crash, cfg), None, id, cfg);
      }
    }
  }

  lemma RerunCompletePut(data: Store, file: File, cfg: Config)
    requires Sound(cfg) && PlanPut(data, file, cfg).Some?
    ensures var plan := PlanPut(data, file, cfg);
            var again := PlanPut(Carry(data, plan, NoCrash, cfg), file, cfg);
            again.None? || again == plan
  {
    var plan := PlanPut(data, file, cfg).value;
    var after := Carry(data, Some(plan), NoCrash, cfg);
    PutPlanIsGood(data, file, cfg);
    PutPlanFinds(data, file, cfg, plan.change.profile.id);
    WorkerIndexIsGood(data, cfg.indexKey, cfg.env);
    PutIsPlannedIff(data, file, cfg);
    PutIsIdempotent(cfg.loc, ReadIndex(data, cfg), plan.change.profile);
    CliReadsAgainIff(WriteDocument(data, plan.change, cfg), plan.next, cfg);
    PutIsPlannedIff(after, file, cfg);
  }

  lemma CarryTwice(data: Store, w: Writes, indexKey: Text)
    requires w.key != indexKey
    ensures CarryWrites(CarryWrites(data, w, NoCrash, indexKey), w, NoCrash, indexKey) ==
            CarryWrites(data, w, NoCrash, indexKey)
  {
  }

  /** Running a put again, crashed or not, gives the store that it leaves without a crash. */
  lemma RerunPut(data: Store, file: File, cfg: Config, crash: Crash)
    requires Sound(cfg)
    ensures var plan := PlanPut(data, file, cfg);
            var after := Carry(data, plan, crash, cfg);
            Carry(after, PlanPut(after, file, cfg), NoCrash, cfg) == Carry(data, plan, NoCrash, cfg)
  {
    if PlanPut(data, file, cfg).Some? {
      var plan := PlanPut(data, file, cfg).value;
      PutPlanIsGood(data, file, cfg);
      if crash.NoCrash? {
        RerunCompletePut(data, file, cfg);
        CarryTwice(data, WritesOf(plan, cfg), cfg.indexKey);
      } else {
        RerunPlan(data, plan, cfg);
        PlanFollowsIndex(data, Carry(data, Some(plan), crash, cfg), file, [], cfg);
      }
    }
  }
}
