/**
 The key-value store of profiles, the two-write operations of the command line and the readers of
 the Worker (scripts/app-profiles/profile-service.ts, scripts/app-profiles/lib/kv-store.ts,
 src/profiles/loader.ts and src/profiles/keys.ts).
 */
module ProfileStore {
  import opened Wrappers
  import opened JsText
  import opened Collations
  import opened Trimming
  import opened ProfileDocs
  import opened ProfileValidation
  import opened ProfileRoundTrip
  import opened ProfileIndex
  import opened IndexText

  // ----- the store

  /** A stored text: the document it parses to with its size in bytes, or no JSON. */
  datatype Stored = Json(doc: Doc, bytes: nat) | Corrupt

  type Store = map<Text, Stored>

  /** `profileBytes` is the size of a written profile, which nothing reads. */
  datatype Config = Config(indexKey: Text, env: Env, loc: Collation, profileBytes: Profile -> nat)

  const KEY_PREFIX := "app-profiles/profiles/"
  const KEY_SUFFIX := ".json"
  const DEFAULT_INDEX_KEY := "app-profiles/index.json"

  function ProfileKey(id: Text): Text {
    Units(KEY_PREFIX) + id + Units(KEY_SUFFIX)
  }

  /** `resolveIndexKey`. */
  function ResolveIndexKey(indexKey: Option<Text>): Text {
    if indexKey.Some? && Trim(indexKey.value) != [] then Trim(indexKey.value) else Units(DEFAULT_INDEX_KEY)
  }

  lemma ProfileKeyInjective(a: Text, b: Text)
    ensures ProfileKey(a) == ProfileKey(b) <==> a == b
  {
    var n := |Units(KEY_PREFIX)|;
    assert ProfileKey(a)[n..n + |a|] == a && ProfileKey(b)[n..n + |b|] == b;
    assert |ProfileKey(a)| == n + |a| + |Units(KEY_SUFFIX)| && |ProfileKey(b)| == n + |b| + |Units(KEY_SUFFIX)|;
  }

  /** No profile is stored under the index key. */
  ghost predicate Apart(indexKey: Text) {
    forall id :: IsProfileId(id) ==> ProfileKey(id) != indexKey
  }

  lemma DefaultIndexKeyIsApart()
    ensures Apart(ResolveIndexKey(None))
  {
  }

  /** The index key is the given one, trimmed, unless that is missing or blank. */
  lemma IndexKeyIs(indexKey: Option<Text>)
    ensures match indexKey
            case None => ResolveIndexKey(indexKey) == Units("app-profiles/index.json")
            case Some(key) =>
              if exists u :: u in key && !IsSpace(u) then ResolveIndexKey(indexKey) == Trim(key)
              else ResolveIndexKey(indexKey) == Units("app-profiles/index.json")
  {
    if indexKey.Some? {
      var key := indexKey.value;
      if u :| u in key && !IsSpace(u) {
        TrimKeeps(key, u);
      } else {
        BlankTrims(key);
      }
    }
  }

  lemma {:induction false} BlankTrims(t: Text)
    requires forall u :: u in t ==> IsSpace(u)
    ensures Trim(t) == []
  {
    if t != [] {
      BlankTrims(t[1..]);
    }
  }

  function StoredProfile(p: Profile, cfg: Config): Stored {
    Json(ProfileDoc(p), cfg.profileBytes(p))
  }

  function StoredIndex(es: seq<Entry>): Stored {
    Json(IndexDoc(es), IndexBytes(es))
  }

  // ----- reading the index

  /** `readValidatedIndex`; None when it throws. */
  ghost function CliIndex(data: Store, cfg: Config): Option<seq<Entry>> {
    if cfg.indexKey !in data then Some([])
    else if data[cfg.indexKey].Corrupt? then None
    else
      var read := ParseIndexRead(Some((data[cfg.indexKey].doc, data[cfg.indexKey].bytes)), cfg.env);
      match read
      case Missing => Some([])
      case Valid(es) => Some(es)
      case Invalid => None
  }

  /** The index as the Worker reads it, without a size limit. */
  ghost function WorkerIndex(data: Store, indexKey: Text, env: Env): Option<seq<Entry>> {
    if indexKey !in data then Some([])
    else if data[indexKey].Corrupt? then None
    else if data[indexKey].doc.DNull? then Some([])
    else IndexOf(data[indexKey].doc, None, env)
  }

  /** The command line reads what the Worker reads, unless the index is too large. */
  lemma CliIndexIff(data: Store, cfg: Config)
    ensures var large := cfg.indexKey in data && data[cfg.indexKey].Json? && !data[cfg.indexKey].doc.DNull?
                         && data[cfg.indexKey].bytes > 16_384;
            CliIndex(data, cfg) == if large then None else WorkerIndex(data, cfg.indexKey, cfg.env)
  {
  }

  lemma WorkerIndexIsGood(data: Store, indexKey: Text, env: Env)
    ensures var es := WorkerIndex(data, indexKey, env); es.Some? ==> GoodIndex(es.value, env)
  {
    if indexKey in data && data[indexKey].Json? {
      IndexIsGood(data[indexKey].doc, None, env);
    }
  }

  // ----- put and delete

  /** A parsed profile file with its size; None when it cannot be read or is not JSON. */
  type File = Option<(Doc, nat)>

  /** `validateProfileFromFile` without an expected id. */
  ghost function ProfileFromFile(file: File, env: Env): Option<Profile> {
    if file.None? || !file.value.0.DObject? then None else
      var id := Field(file.value.0.fields, Id);
      if id.None? || !id.value.DString? || id.value.s == [] then None
      else ProfileOf(file.value.0, id.value.s, Some(file.value.1), env)
  }

  /** The document write of an operation. */
  datatype Change = Put(profile: Profile) | Erase(id: Text)

  /** What an operation that got as far as its first write is going to do. */
  datatype Plan = Plan(change: Change, next: seq<Entry>)

  function ChangeId(c: Change): Text {
    match c
    case Put(p) => p.id
    case Erase(id) => id
  }

  /** What `putProfileToKv` does before its first write; None when it throws. */
  ghost function PlanPut(data: Store, file: File, cfg: Config): Option<Plan> {
    var p, es := ProfileFromFile(file, cfg.env), CliIndex(data, cfg);
    if p.None? || es.None? then None else
      var next := IndexOf(IndexDoc(Merge(cfg.loc, es.value, p.value)), None, cfg.env);
      if next.None? then None else Some(Plan(Put(p.value), next.value))
  }

  /** What a confirmed `deleteProfileFromKv` does before its first write; None when it throws. */
  ghost function PlanDelete(data: Store, id: Text, cfg: Config): Option<Plan> {
    var safeId, es := ValidateProfileId(id), CliIndex(data, cfg);
    if safeId.None? || es.None? || Find(es.value, id).None? then None else
      var next := IndexOf(IndexDoc(Remove(es.value, id)), None, cfg.env);
      if next.None? then None else Some(Plan(Erase(safeId.value), next.value))
  }

  /** `put`, or `delete` when there is no value. */
  function SetKey(data: Store, key: Text, value: Option<Stored>): Store {
    if value.Some? then data[key := value.value] else data - {key}
  }

  function DocumentOf(c: Change, cfg: Config): Option<Stored> {
    if c.Put? then Some(StoredProfile(c.profile, cfg)) else None
  }

  function WriteDocument(data: Store, c: Change, cfg: Config): Store {
    SetKey(data, ProfileKey(ChangeId(c)), DocumentOf(c, cfg))
  }

  function WriteIndex(data: Store, next: seq<Entry>, cfg: Config): Store {
    SetKey(data, cfg.indexKey, Some(StoredIndex(next)))
  }

  /** The two writes of an operation: the document under its key, then the index. */
  datatype Writes = Writes(key: Text, document: Option<Stored>, index: Stored)

  function WritesOf(plan: Plan, cfg: Config): Writes {
    Writes(ProfileKey(ChangeId(plan.change)), DocumentOf(plan.change, cfg), StoredIndex(plan.next))
  }

  /** Where an operation stops: a write that fails throws, and nothing is rolled back. */
  datatype Crash = NoCrash | AtDocument | AtIndex

  function CarryWrites(data: Store, w: Writes, crash: Crash, indexKey: Text): Store {
    match crash
    case AtDocument => data
    case AtIndex => SetKey(data, w.key, w.document)
    case NoCrash => SetKey(SetKey(data, w.key, w.document), indexKey, Some(w.index))
  }

  function Carry(data: Store, plan: Option<Plan>, crash: Crash, cfg: Config): Store {
    if plan.None? then data else CarryWrites(data, WritesOf(plan.value, cfg), crash, cfg.indexKey)
  }

  datatype Outcome = Thrown | Preview(key: Text) | Done(profileId: Text, profileKey: Text, indexEntryCount: nat)

  function Reported(plan: Option<Plan>, crash: Crash): Outcome {
    if plan.None? || !crash.NoCrash? then Thrown
    else
      var id := ChangeId(plan.value.change);
      Done(id, ProfileKey(id), |plan.value.next|)
  }

  class KvStore {
    var data: Store

    constructor ()
      ensures data == map[]
    {
      data := map[];
    }

    method Get(key: Text) returns (r: Option<Stored>)
      ensures r == if key in data then Some(data[key]) else None
    {
      r := if key in data then Some(data[key]) else None;
    }

    method Put(key: Text, value: Stored)
      modifies this
      ensures data == old(data)[key := value]
    {
      data := data[key := value];
    }

    method Delete(key: Text)
      modifies this
      ensures data == old(data) - {key}
    {
      data := data - {key};
    }
  }

  method ReadValidatedIndex(kv: KvStore, cfg: Config) returns (r: Option<seq<Entry>>)
    ensures r == CliIndex(kv.data, cfg)
  {
    var stored := kv.Get(cfg.indexKey);
    if stored.None? {
      return Some([]);
    }
    if stored.value.Corrupt? {
      return None;
    }
    if stored.value.doc.DNull? {
      return Some([]);
    }
    r := ValidateProfileIndexDocument(stored.value.doc, Some(stored.value.bytes), cfg.env);
  }

  method ValidateProfileFromFile(file: File, env: Env) returns (r: Option<Profile>)
    ensures r == ProfileFromFile(file, env)
  {
    if file.None? || !file.value.0.DObject? {
      return None;
    }
    var id := Field(file.value.0.fields, Id);
    if id.None? || !id.value.DString? || id.value.s == [] {
      return None;
    }
    r := ValidateProfileDocument(file.value.0, id.value.s, Some(file.value.1), env);
  }

  /** The reads and checks of `putProfileToKv`, up to its first write. */
  method PreparePut(kv: KvStore, cfg: Config, file: File) returns (plan: Option<Plan>)
    ensures plan == PlanPut(kv.data, file, cfg)
    ensures plan.Some? ==> plan.value.change.Put?
  {
    var profile := ValidateProfileFromFile(file, cfg.env);
    if profile.None? {
      return None;
    }
    var index := ReadValidatedIndex(kv, cfg);
    if index.None? {
      return None;
    }
    var validated := ValidateProfileIndexDocument(IndexDoc(Merge(cfg.loc, index.value, profile.value)), None, cfg.env);
    if validated.None? {
      return None;
    }
    return Some(Plan(Put(profile.value), validated.value));
  }

  method PutProfileToKv(kv: KvStore, cfg: Config, file: File, crash: Crash) returns (r: Outcome)
    modifies kv
    ensures kv.data == Carry(old(kv.data), PlanPut(old(kv.data), file, cfg), crash, cfg)
    ensures r == Reported(PlanPut(old(kv.data), file, cfg), crash)
  {
    var plan := PreparePut(kv, cfg, file);
    if plan.None? || crash.AtDocument? {
      return Thrown;
    }
    var profile, next := plan.value.change.profile, plan.value.next;
    kv.Put(ProfileKey(profile.id), StoredProfile(profile, cfg));
    if crash.AtIndex? {
      return Thrown;
    }
    kv.Put(cfg.indexKey, StoredIndex(next));
    return Done(profile.id, ProfileKey(profile.id), |next|);
  }

  method DeleteProfileFromKv(kv: KvStore, cfg: Config, profileId: Text, confirmed: bool, crash: Crash)
    returns (r: Outcome)
    modifies kv
    ensures confirmed ==>
              && kv.data == Carry(old(kv.data), PlanDelete(old(kv.data), profileId, cfg), crash, cfg)
              && r == Reported(PlanDelete(old(kv.data), profileId, cfg), crash)
    ensures !confirmed ==>
              && kv.data == old(kv.data)
              && r == if ValidateProfileId(profileId).None? || CliIndex(kv.data, cfg).None? then Thrown
                      else Preview(ProfileKey(ValidateProfileId(profileId).value))
  {
    var safeId := ValidateProfileId(profileId);
    if safeId.None? {
      return Thrown;
    }
    var key := ProfileKey(safeId.value);
    var index := ReadValidatedIndex(kv, cfg);
    if index.None? {
      return Thrown;
    }
    if !confirmed {
      return Preview(key);
    }
    if Find(index.value, profileId).None? {
      return Thrown;
    }
    var validated := ValidateProfileIndexDocument(IndexDoc(Remove(index.value, profileId)), None, cfg.env);
    DeleteIsPlannedIff(kv.data, profileId, cfg);
    if validated.None? || crash.AtDocument? {
      return Thrown;
    }
    kv.Delete(key);
    if crash.AtIndex? {
      return Thrown;
    }
    kv.Put(cfg.indexKey, StoredIndex(validated.value));
    return Done(profileId, key, |validated.value|);
  }

  // ----- when the operations reach their first write

  /**
   A put is stopped before its first write by a bad file, an unreadable index or a full index, and by nothing
   else.
   */
  lemma PutIsPlannedIff(data: Store, file: File, cfg: Config)
    requires StrictCollation(cfg.loc) && PlainBlockNames(cfg.env)
    ensures var p, es := ProfileFromFile(file, cfg.env), CliIndex(data, cfg);
            PlanPut(data, file, cfg) ==
              if p.None? || es.None? || (|es.value| == 50 && Find(es.value, p.value.id).None?) then None
              else Some(Plan(Put(p.value), Merge(cfg.loc, es.value, p.value)))
    ensures ProfileFromFile(file, cfg.env).Some? ==> GoodProfile(ProfileFromFile(file, cfg.env).value, cfg.env)
  {
    var p, es := ProfileFromFile(file, cfg.env), CliIndex(data, cfg);
    CliIndexIff(data, cfg);
    WorkerIndexIsGood(data, cfg.indexKey, cfg.env);
    if p.Some? {
      ProfileIsGood(file.value.0, Field(file.value.0.fields, Id).value.s, Some(file.value.1), cfg.env);
      if es.Some? {
        MergeRejectedIff(cfg.loc, es.value, p.value, cfg.env);
      }
    }
  }

  /** A confirmed delete reaches its first write exactly when the readable index lists the id. */
  lemma DeleteIsPlannedIff(data: Store, id: Text, cfg: Config)
    ensures var es := CliIndex(data, cfg);
            PlanDelete(data, id, cfg) ==
              if es.None? || Find(es.value, id).None? then None else Some(Plan(Erase(id), Remove(es.value, id)))
    ensures PlanDelete(data, id, cfg).Some? ==> IsProfileId(id)
  {
    var es := CliIndex(data, cfg);
    CliIndexIff(data, cfg);
    WorkerIndexIsGood(data, cfg.indexKey, cfg.env);
    if es.Some? && Find(es.value, id).Some? {
      FindFinds(es.value, id);
      ValidatedId(id);
      RemoveAccepted(es.value, id, cfg.env);
    }
  }

  // ----- the Worker's readers

  datatype Status = Disabled | Available | Unavailable | InvalidIndex

  /** `readKvIndex`; no value stands for null. `fails` says that the read throws. */
  function ReadKvIndex(kv: Option<Store>, key: Text, fails: bool): (Option<Doc>, Status) {
    if kv.None? then (None, Disabled)
    else if fails then (None, Unavailable)
    else if key !in kv.value then (None, Available)
    else if kv.value[key].Corrupt? then (None, InvalidIndex)
    else if kv.value[key].doc.DNull? then (None, Available)
    else (Some(kv.value[key].doc), Available)
  }

  /** `readKvJson`: a text that is not JSON reads as a failure. */
  function ReadKvJson(kv: Option<Store>, key: Text, fails: bool): (Option<Doc>, Status) {
    var (value, status) := ReadKvIndex(kv, key, fails);
    (value, if status.InvalidIndex? then Unavailable else status)
  }

  datatype LoadError = BadProfileId | NotConfigured | TemporarilyUnavailable | BadIndex | NotFound | BadProfile

  function StatusError(s: Status): Option<LoadError> {
    match s
    case Disabled => Some(NotConfigured)
    case Unavailable => Some(TemporarilyUnavailable)
    case InvalidIndex => Some(BadIndex)
    case Available => None
  }

  ghost function LoadApplicationProfile(kv: Option<Store>, indexKey: Text, profileId: Text, indexFails: bool,
                                        profileFails: bool, env: Env): Result<Profile, LoadError> {
    var safeId := ValidateProfileId(profileId);
    if safeId.None? then Failure(BadProfileId) else
      var (index, indexStatus) := ReadKvIndex(kv, indexKey, indexFails);
      var (doc, docStatus) := ReadKvJson(kv, ProfileKey(safeId.value), profileFails);
      if StatusError(indexStatus).Some? then Failure(StatusError(indexStatus).value)
      else if index.Some? && IndexOf(index.value, None, env).None? then Failure(BadIndex)
      else if StatusError(docStatus).Some? then Failure(StatusError(docStatus).value)
      else if doc.None? then Failure(NotFound)
      else
        var p := ProfileOf(doc.value, safeId.value, None, env);
        if p.None? then Failure(BadProfile) else Success(p.value)
  }

  ghost function ListApplicationProfiles(kv: Option<Store>, indexKey: Text, fails: bool, env: Env)
    : (Status, seq<Entry>)
  {
    var (index, status) := ReadKvIndex(kv, indexKey, fails);
    if !status.Available? || index.None? then (status, []) else
      var es := IndexOf(index.value, None, env);
      if es.None? then (InvalidIndex, []) else (Available, es.value)
  }

  /** What a listing answers, in every case of its read. */
  lemma ListIs(kv: Option<Store>, indexKey: Text, fails: bool, env: Env)
    ensures ListApplicationProfiles(kv, indexKey, fails, env) ==
            match kv
            case None => (Disabled, [])
            case Some(data) =>
              if fails then (Unavailable, []) else
                match WorkerIndex(data, indexKey, env)
                case None => (InvalidIndex, [])
                case Some(es) => (Available, es)
  {
  }

  /** What a load answers, in every case of its two reads. */
  lemma LoadIs(kv: Option<Store>, indexKey: Text, id: Text, indexFails: bool, profileFails: bool, env: Env)
    ensures var r := LoadApplicationProfile(kv, indexKey, id, indexFails, profileFails, env);
            if !IsProfileId(Trim(id)) then r == Failure(BadProfileId)
            else if kv.None? then r == Failure(NotConfigured)
            else if indexFails then r == Failure(TemporarilyUnavailable)
            else if WorkerIndex(kv.value, indexKey, env).None? then r == Failure(BadIndex)
            else if profileFails then r == Failure(TemporarilyUnavailable)
            else
              var key := ProfileKey(Trim(id));
              if key !in kv.value then r == Failure(NotFound) else
                match kv.value[key]
                case Corrupt => r == Failure(TemporarilyUnavailable)
                case Json(doc, _) =>
                  if doc == DNull then r == Failure(NotFound) else
                    match ProfileOf(doc, Trim(id), None, env)
                    case None => r == Failure(BadProfile)
                    case Some(p) => r == Success(p)
  {
  }

  // ----- the two sides agree

  lemma IndexDocIsNoProfile(es: seq<Entry>, id: Text, env: Env)
    ensures ProfileOf(IndexDoc(es), id, None, env).None?
  {
    assert Field(IndexDoc(es).fields, Id).None?;
    assert ValidateProfileId([]).None?;
  }

  lemma IndexAfterWrite(data: Store, es: seq<Entry>, cfg: Config)
    requires GoodIndex(es, cfg.env)
    ensures WorkerIndex(WriteIndex(data, es, cfg), cfg.indexKey, cfg.env) == Some(es)
  {
    IndexAcceptedIff(es, None, cfg.env);
  }

  /** The Worker lists the index that it reads. */
  lemma ListIsWorkerIndex(data: Store, indexKey: Text, env: Env)
    ensures var es := WorkerIndex(data, indexKey, env);
            ListApplicationProfiles(Some(data), indexKey, false, env) ==
              if es.Some? then (Available, es.value) else (InvalidIndex, [])
  {
  }

  /** What the Worker lists after a completed operation is the index that it wrote. */
  lemma ListAfterWrite(data: Store, es: seq<Entry>, cfg: Config)
    requires GoodIndex(es, cfg.env)
    ensures ListApplicationProfiles(Some(WriteIndex(data, es, cfg)), cfg.indexKey, false, cfg.env) == (Available, es)
  {
    IndexAfterWrite(data, es, cfg);
    ListIsWorkerIndex(WriteIndex(data, es, cfg), cfg.indexKey, cfg.env);
  }

  lemma PutPlanIsGood(data: Store, file: File, cfg: Config)
    requires StrictCollation(cfg.loc) && PlainBlockNames(cfg.env)
    requires PlanPut(data, file, cfg).Some?
    ensures var plan := PlanPut(data, file, cfg).value;
            plan.change.Put? && GoodProfile(plan.change.profile, cfg.env) && GoodIndex(plan.next, cfg.env)
  {
    PutIsPlannedIff(data, file, cfg);
    IndexIsGood(IndexDoc(Merge(cfg.loc, CliIndex(data, cfg).value, ProfileFromFile(file, cfg.env).value)), None,
                cfg.env);
  }

  /** With a valid index, loading comes down to validating the stored document. */
  lemma LoadOfReads(data: Store, indexKey: Text, id: Text, doc: Doc, env: Env)
    requires ValidateProfileId(id) == Some(id)
    requires WorkerIndex(data, indexKey, env).Some?
    requires ReadKvJson(Some(data), ProfileKey(id), false) == (Some(doc), Available)
    ensures var p := ProfileOf(doc, id, None, env);
            LoadApplicationProfile(Some(data), indexKey, id, false, false, env) ==
              if p.Some? then Success(p.value) else Failure(BadProfile)
  {
  }

  lemma LoadAfterWrites(data: Store, p: Profile, next: seq<Entry>, cfg: Config)
    requires GoodProfile(p, cfg.env) && GoodIndex(next, cfg.env)
    ensures var after := WriteIndex(WriteDocument(data, Put(p), cfg), next, cfg);
            LoadApplicationProfile(Some(after), cfg.indexKey, p.id, false, false, cfg.env) ==
              if ProfileKey(p.id) != cfg.indexKey then Success(p) else Failure(BadProfile)
  {
    var between := WriteDocument(data, Put(p), cfg);
    var after := WriteIndex(between, next, cfg);
    var doc := if ProfileKey(p.id) != cfg.indexKey then ProfileDoc(p) else IndexDoc(next);
    IndexAfterWrite(between, next, cfg);
    ValidatedId(p.id);
    assert ReadKvJson(Some(after), ProfileKey(p.id), false) == (Some(doc), Available);
    LoadOfReads(after, cfg.indexKey, p.id, doc, cfg.env);
    GoodProfileAccepted(p, None, cfg.env);
    IndexDocIsNoProfile(next, p.id, cfg.env);
  }

  /** After a completed put the Worker loads exactly that profile, unless its key is the index key. */
  lemma LoadAfterPutIff(data: Store, file: File, cfg: Config)
    requires StrictCollation(cfg.loc) && PlainBlockNames(cfg.env)
    requires PlanPut(data, file, cfg).Some?
    ensures var plan := PlanPut(data, file, cfg);
            plan.value.change.Put? &&
            var p := plan.value.change.profile;
            LoadApplicationProfile(Some(Carry(data, plan, NoCrash, cfg)), cfg.indexKey, p.id, false, false, cfg.env) ==
              if ProfileKey(p.id) != cfg.indexKey then Success(p) else Failure(BadProfile)
  {
    PutPlanIsGood(data, file, cfg);
    var plan := PlanPut(data, file, cfg).value;
    LoadAfterWrites(data, plan.change.profile, plan.next, cfg);
  }

  /** After a completed operation the command line can read the index again exactly when it is small enough. */
  lemma CliReadsAgainIff(data: Store, es: seq<Entry>, cfg: Config)
    requires GoodIndex(es, cfg.env)
    ensures CliIndex(WriteIndex(data, es, cfg), cfg) == if IndexBytes(es) <= 16_384 then Some(es) else None
  {
    CliIndexIff(WriteIndex(data, es, cfg), cfg);
    IndexAfterWrite(data, es, cfg);
  }

  /**
   What an operation reports when it completes: its id, the key of its document and how many entries are listed
   then.
   */
  lemma ReportIs(data: Store, plan: Plan, crash: Crash, cfg: Config)
    requires GoodIndex(plan.next, cfg.env)
    ensures var listed := WorkerIndex(Carry(data, Some(plan), crash, cfg), cfg.indexKey, cfg.env);
            match crash
            case NoCrash =>
              && listed.Some?
              && (match plan.change
                  case Put(p) => Reported(Some(plan), crash) == Done(p.id, ProfileKey(p.id), |listed.value|)
                  case Erase(id) => Reported(Some(plan), crash) == Done(id, ProfileKey(id), |listed.value|))
            case _ => Reported(Some(plan), crash) == Thrown
  {
    IndexAfterWrite(WriteDocument(data, plan.change, cfg), plan.next, cfg);
  }
}
