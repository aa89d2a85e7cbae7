/** Sequences of undisturbed profile operations keep index and documents in agreement. */
module ProfileAgreement {
  import opened Wrappers
  import opened JsText
  import opened Collations
  import opened ProfileDocs
  import opened ProfileValidation
  import opened ProfileRoundTrip
  import opened ProfileIndex
  import opened ProfileStore
  import opened ProfileRuns

  /** The index lists exactly the stored profiles, and repeats what their documents say. */
  ghost predicate Agreed(data: Store, cfg: Config) {
    var es := WorkerIndex(data, cfg.indexKey, cfg.env);
    es.Some? && forall id :: IsProfileId(id) ==> AgreedOn(data, es.value, id, cfg.env)
  }

  ghost predicate AgreedOn(data: Store, es: seq<Entry>, id: Text, env: Env) {
    var e := Find(es, id);
    if e.None? then ProfileKey(id) !in data
    else Loaded(data, id, env).Some? && BuildIndexEntry(Loaded(data, id, env).value, e) == e.value
  }

  lemma AgreedAfter(data: Store, plan: Plan, cfg: Config)
    requires GoodIndex(plan.next, cfg.env)
    requires forall id :: IsProfileId(id) ==> AgreedOn(Carry(data, Some(plan), NoCrash, cfg), plan.next, id, cfg.env)
    ensures Agreed(Carry(data, Some(plan), NoCrash, cfg), cfg)
  {
    var after := Carry(data, Some(plan), NoCrash, cfg);
    IndexAfterWrite(WriteDocument(data, plan.change, cfg), plan.next, cfg);
    assert WorkerIndex(after, cfg.indexKey, cfg.env) == Some(plan.next);
  }

  /** A completed operation replaces or removes the document of its own id, and no other. */
  lemma DocumentAfter(data: Store, plan: Plan, id: Text, cfg: Config)
    requires Apart(cfg.indexKey) && IsProfileId(id)
    ensures var after, key := Carry(data, Some(plan), NoCrash, cfg), ProfileKey(id);
            && (key in after <==> if id == ChangeId(plan.change) then plan.change.Put? else key in data)
            && (key in after ==>
                after[key] ==
                if id == ChangeId(plan.change) then StoredProfile(plan.change.profile, cfg) else data[key])
  {
    ProfileKeyInjective(id, ChangeId(plan.change));
    assert ProfileKey(id) != cfg.indexKey;
  }

  lemma SameDocumentAgrees(data: Store, after: Store, es: seq<Entry>, fs: seq<Entry>, id: Text, env: Env)
    requires ProfileKey(id) in data <==> ProfileKey(id) in after
    requires ProfileKey(id) in data ==> data[ProfileKey(id)] == after[ProfileKey(id)]
    requires Find(es, id) == Find(fs, id) && AgreedOn(data, es, id, env)
    ensures AgreedOn(after, fs, id, env)
  {
  }

  lemma NewDocumentAgrees(after: Store, p: Profile, bytes: nat, existing: Option<Entry>, fs: seq<Entry>, env: Env)
    requires ProfileKey(p.id) in after && after[ProfileKey(p.id)] == Json(ProfileDoc(p), bytes)
    requires GoodProfile(p, env) && Find(fs, p.id) == Some(BuildIndexEntry(p, existing))
    ensures AgreedOn(after, fs, p.id, env)
  {
    GoodProfileAccepted(p, None, env);
  }

  lemma PutAgreesOn(data: Store, es: seq<Entry>, plan: Plan, id: Text, cfg: Config)
    requires Sound(cfg) && IsProfileId(id) && plan.change.Put? && GoodProfile(plan.change.profile, cfg.env)
    requires Find(plan.next, id) ==
             if id == plan.change.profile.id then Some(BuildIndexEntry(plan.change.profile, Find(es, id)))
             else Find(es, id)
    requires AgreedOn(data, es, id, cfg.env)
    ensures AgreedOn(Carry(data, Some(plan), NoCrash, cfg), plan.next, id, cfg.env)
  {
    var after, p := Carry(data, Some(plan), NoCrash, cfg), plan.change.profile;
    DocumentAfter(data, plan, id, cfg);
    if id == p.id {
      NewDocumentAgrees(after, p, cfg.profileBytes(p), Find(es, id), plan.next, cfg.env);
    } else {
      SameDocumentAgrees(data, after, es, plan.next, id, cfg.env);
    }
  }

  lemma PutKeepsAgreed(data: Store, file: File, cfg: Config)
    requires Sound(cfg) && Agreed(data, cfg)
    ensures Agreed(Carry(data, PlanPut(data, file, cfg), NoCrash, cfg), cfg)
  {
    if PlanPut(data, file, cfg).Some? {
      var plan, es := PlanPut(data, file, cfg).value, WorkerIndex(data, cfg.indexKey, cfg.env).value;
      PutPlanIsGood(data, file, cfg);
      forall id | IsProfileId(id)
        ensures AgreedOn(Carry(data, Some(plan), NoCrash, cfg), plan.next, id, cfg.env)
      {
        PutPlanFinds(data, file, cfg, id);
        PutAgreesOn(data, es, plan, id, cfg);
      }
      AgreedAfter(data, plan, cfg);
    }
  }

  lemma DeleteAgreesOn(data: Store, es: seq<Entry>, plan: Plan, id: Text, cfg: Config)
    requires Apart(cfg.indexKey) && IsProfileId(id) && plan.change.Erase?
    requires Find(plan.next, id) == if id == plan.change.id then None else Find(es, id)
    requires AgreedOn(data, es, id, cfg.env)
    ensures AgreedOn(Carry(data, Some(plan), NoCrash, cfg), plan.next, id, cfg.env)
  {
    DocumentAfter(data, plan, id, cfg);
    if id != plan.change.id {
      SameDocumentAgrees(data, Carry(data, Some(plan), NoCrash, cfg), es, plan.next, id, cfg.env);
    }
  }

  lemma DeleteKeepsAgreed(data: Store, target: Text, cfg: Config)
    requires Sound(cfg) && Agreed(data, cfg)
    ensures Agreed(Carry(data, PlanDelete(data, target, cfg), NoCrash, cfg), cfg)
  {
    DeleteIsPlannedIff(data, target, cfg);
    if PlanDelete(data, target, cfg).Some? {
      var plan, es := PlanDelete(data, target, cfg).value, WorkerIndex(data, cfg.indexKey, cfg.env).value;
      CliIndexIff(data, cfg);
      WorkerIndexIsGood(data, cfg.indexKey, cfg.env);
      RemoveAccepted(es, target, cfg.env);
      forall id | IsProfileId(id)
        ensures AgreedOn(Carry(data, Some(plan), NoCrash, cfg), plan.next, id, cfg.env)
      {
        FindWithout(es, target, id);
        DeleteAgreesOn(data, es, plan, id, cfg);
      }
      AgreedAfter(data, plan, cfg);
    }
  }

  datatype Operation = PutFile(file: File) | DeleteId(id: Text)

  ghost function Apply(data: Store, o: Operation, cfg: Config): Store {
    match o
    case PutFile(file) => Carry(data, PlanPut(data, file, cfg), NoCrash, cfg)
    case DeleteId(id) => Carry(data, PlanDelete(data, id, cfg), NoCrash, cfg)
  }

  ghost function ApplyAll(data: Store, os: seq<Operation>, cfg: Config): Store
    decreases os
  {
    if os == [] then data else ApplyAll(Apply(data, os[0], cfg), os[1..], cfg)
  }

  lemma OperationKeepsAgreed(data: Store, o: Operation, cfg: Config)
    requires Sound(cfg) && Agreed(data, cfg)
    ensures Agreed(Apply(data, o, cfg), cfg)
  {
    match o
    case PutFile(file) => PutKeepsAgreed(data, file, cfg);
    case DeleteId(id) => DeleteKeepsAgreed(data, id, cfg);
  }

  /** Any sequence of undisturbed operations keeps the index and the documents in agreement. */
  lemma {:induction false} SequentialRunsAgree(data: Store, os: seq<Operation>, cfg: Config)
    requires Sound(cfg) && (data == map[] || Agreed(data, cfg))
    ensures Agreed(ApplyAll(data, os, cfg), cfg)
    decreases os
  {
    EmptyAgrees(cfg);
    if os != [] {
      OperationKeepsAgreed(data, os[0], cfg);
      SequentialRunsAgree(Apply(data, os[0], cfg), os[1..], cfg);
    }
  }

  lemma EmptyAgrees(cfg: Config)
    ensures Agreed(map[], cfg)
  {
    assert forall id :: Find([], id).None?;
  }
}
