/**
 The size limit of the index: the command line writes an index of any size, and reads back only
 16384 bytes (scripts/app-profiles/profile-service.ts, src/profiles/validation.ts).
 */
module ProfileLimits {
  import opened Wrappers
  import opened JsText
  import opened Collations
  import opened Trimming
  import opened ProfileDocs
  import opened ProfileValidation
  import opened ProfileRoundTrip
  import opened ProfileIndex
  import opened IndexText
  import opened ProfileStore
  import opened ProfileRuns
  import opened ProfileAgreement

  // ----- a store that the command line cannot read

  /** The command line cannot read an index again if and only if it can delete no listed profile. */
  lemma UnreadableIff(data: Store, cfg: Config)
    requires var es := WorkerIndex(data, cfg.indexKey, cfg.env); es.Some? && es.value != []
    ensures CliIndex(data, cfg).None? <==> forall id :: PlanDelete(data, id, cfg).None?
  {
    CliIndexIff(data, cfg);
    var id := WorkerIndex(data, cfg.indexKey, cfg.env).value[0].id;
    DeleteIsPlannedIff(data, id, cfg);
  }

  lemma UnreadablePlansNothing(data: Store, file: File, id: Text, cfg: Config)
    requires CliIndex(data, cfg).None?
    ensures PlanPut(data, file, cfg).None? && PlanDelete(data, id, cfg).None?
  {
  }

  /** No sequence of operations changes a store whose index the command line cannot read. */
  lemma {:induction false} UnreadableStays(data: Store, os: seq<Operation>, cfg: Config)
    requires CliIndex(data, cfg).None?
    ensures ApplyAll(data, os, cfg) == data
    decreases os
  {
    if os != [] {
      assert Apply(data, os[0], cfg) == data;
      UnreadableStays(data, os[1..], cfg);
    }
  }

  lemma {:induction false} UnreadableRunStays(data: Store, erased: set<Text>, steps: seq<Step>, cfg: Config)
    requires CliIndex(data, cfg).None?
    ensures After(System(data, map[], erased), steps, cfg) == System(data, map[], erased)
    decreases steps
  {
    if steps != [] {
      var s := System(data, map[], erased);
      UnreadableStep(s, steps[0], cfg);
      UnreadableRunStays(data, erased, steps[1..], cfg);
    }
  }

  lemma UnreadableStep(s: System, step: Step, cfg: Config)
    requires s.pending == map[] && CliIndex(s.data, cfg).None?
    ensures Next(s, step, cfg) == s
  {
    match step
    case BeginPut(op, file) => UnreadablePlansNothing(s.data, file, [], cfg);
    case BeginDelete(op, id) => UnreadablePlansNothing(s.data, None, id, cfg);
    case _ =>
  }

  // ----- puts that lead there

  const TENS: nat := 10

  /** Ids of the greatest length, one for each `i`. */
  function LongId(i: nat): Text
    requires i < 100
  {
    seq(61, _ => 0x61) + [0x30 + i / TENS, 0x30 + i % TENS]
  }

  lemma LongIds(i: nat, j: nat)
    requires i < 100 && j < 100
    ensures IsProfileId(LongId(i)) && Utf8Bytes(LongId(i)) >= 63
    ensures LongId(i) == LongId(j) ==> i == j
  {
    AtLeastItsLength(LongId(i));
    assert LongId(i)[61] == 0x30 + i / TENS && LongId(i)[62] == 0x30 + i % TENS;
    assert LongId(j)[61] == 0x30 + j / TENS && LongId(j)[62] == 0x30 + j % TENS;
  }

  function Renamed(p: Profile, i: nat): Profile
    requires i < 100
  {
    p.(id := LongId(i))
  }

  /** A file of the profile under the `i`-th id. */
  function RenamedFile(p: Profile, bytes: nat, i: nat): File
    requires i < 100
  {
    Some((ProfileDoc(Renamed(p, i)), bytes))
  }

  function PutOf(p: Profile, bytes: nat, i: nat): Operation
    requires i < 100
  {
    PutFile(RenamedFile(p, bytes, i))
  }

  /** What the first `k` puts leave of an empty store. */
  ghost function StoreAt(p: Profile, bytes: nat, k: nat, cfg: Config): Store
    requires k <= 100
  {
    if k == 0 then map[] else Apply(StoreAt(p, bytes, k - 1, cfg), PutOf(p, bytes, k - 1), cfg)
  }

  /** A good profile with a file of allowed size and long names. */
  ghost predicate Wide(p: Profile, bytes: nat, cfg: Config) {
    GoodProfile(p, cfg.env) && bytes <= MAX_JSON_BYTES && Utf8Bytes(p.displayName) + Utf8Bytes(p.environment) >= 265
  }

  lemma RenamedIsAccepted(p: Profile, bytes: nat, i: nat, cfg: Config)
    requires Wide(p, bytes, cfg) && i < 100
    ensures GoodProfile(Renamed(p, i), cfg.env)
    ensures ProfileFromFile(RenamedFile(p, bytes, i), cfg.env) == Some(Renamed(p, i))
  {
    LongIds(i, i);
    ProfileDocFields(Renamed(p, i));
    GoodProfileAccepted(Renamed(p, i), Some(bytes), cfg.env);
  }

  /** Entries wide enough that fifty of them pass the limit. */
  predicate AllWide(es: seq<Entry>) {
    forall i :: 0 <= i < |es| ==> HeadBytes(es[i]) >= 328
  }

  predicate NoneFrom(es: seq<Entry>, k: nat) {
    forall i :: k <= i < 100 ==> Find(es, LongId(i)).None?
  }

  /** `k` wide profiles under the first `k` ids. */
  ghost predicate Filled(es: seq<Entry>, k: nat) {
    |es| == k && UniqueIds(es) && AllWide(es) && NoneFrom(es, k)
  }

  lemma UniqueFinds(es: seq<Entry>, i: nat)
    requires UniqueIds(es) && i < |es|
    ensures Find(es, es[i].id) == Some(es[i])
  {
    FindFinds(es, es[i].id);
  }

  lemma MergeFills(loc: Collation, es: seq<Entry>, p: Profile, k: nat)
    requires StrictCollation(loc) && Filled(es, k) && k < 100 && p.id == LongId(k)
    requires Utf8Bytes(p.displayName) + Utf8Bytes(p.environment) >= 265
    ensures Filled(Merge(loc, es, p), k + 1)
  {
    var fs := Merge(loc, es, p);
    MergeSortsAndKeepsUnique(loc, es, p);
    forall i | 0 <= i < |fs|
      ensures HeadBytes(fs[i]) >= 328
    {
      UniqueFinds(fs, i);
      FindAfterMerge(loc, es, p, fs[i].id);
      FindFinds(es, fs[i].id);
      LongIds(k, k);
    }
    forall i | k + 1 <= i < 100
      ensures Find(fs, LongId(i)).None?
    {
      LongIds(k, i);
      FindAfterMerge(loc, es, p, LongId(i));
    }
  }

  lemma FilledBytes(es: seq<Entry>, k: nat)
    requires Filled(es, k) && IndexBytes(es) <= MAX_JSON_BYTES
    ensures k < MAX_PROFILES
  {
    IndexBytesAtLeast(es, 328);
  }

  /** One more put succeeds, and only the size decides whether its index can be read again. */
  lemma PutFills(data: Store, es: seq<Entry>, p: Profile, bytes: nat, k: nat, cfg: Config)
    requires Sound(cfg) && Wide(p, bytes, cfg) && k < MAX_PROFILES && Filled(es, k)
    requires CliIndex(data, cfg) == Some(es)
    ensures var o, fs := PutOf(p, bytes, k), Merge(cfg.loc, es, Renamed(p, k));
            && PlanPut(data, o.file, cfg).Some? && Filled(fs, k + 1)
            && WorkerIndex(Apply(data, o, cfg), cfg.indexKey, cfg.env) == Some(fs)
            && CliIndex(Apply(data, o, cfg), cfg) == if IndexBytes(fs) <= MAX_JSON_BYTES then Some(fs) else None
  {
    var file, fs := RenamedFile(p, bytes, k), Merge(cfg.loc, es, Renamed(p, k));
    RenamedIsAccepted(p, bytes, k, cfg);
    MergeFills(cfg.loc, es, Renamed(p, k), k);
    PutIsPlannedIff(data, file, cfg);
    PutPlanIsGood(data, file, cfg);
    var between := WriteDocument(data, Put(Renamed(p, k)), cfg);
    CliReadsAgainIff(between, fs, cfg);
    IndexAfterWrite(between, fs, cfg);
  }

  /** The first `k` puts leave a store whose index the command line reads. */
  ghost predicate Readable(p: Profile, bytes: nat, k: nat, cfg: Config) {
    k < MAX_PROFILES &&
    var es := CliIndex(StoreAt(p, bytes, k, cfg), cfg);
    es.Some? && Filled(es.value, k)
  }

  lemma NextPut(p: Profile, bytes: nat, k: nat, cfg: Config)
    requires Sound(cfg) && Wide(p, bytes, cfg) && Readable(p, bytes, k, cfg)
    ensures PlanPut(StoreAt(p, bytes, k, cfg), RenamedFile(p, bytes, k), cfg).Some?
    ensures var next := StoreAt(p, bytes, k + 1, cfg);
            var fs := WorkerIndex(next, cfg.indexKey, cfg.env);
            fs.Some? && |fs.value| == k + 1 && (Readable(p, bytes, k + 1, cfg) || CliIndex(next, cfg).None?)
  {
    var data := StoreAt(p, bytes, k, cfg);
    var es := CliIndex(data, cfg).value;
    var fs := Merge(cfg.loc, es, Renamed(p, k));
    PutFills(data, es, p, bytes, k, cfg);
    if IndexBytes(fs) <= MAX_JSON_BYTES {
      FilledBytes(fs, k + 1);
    }
  }

  lemma {:induction false} FirstFailure(holds: nat -> bool, k: nat, limit: nat) returns (n: nat)
    requires k < limit && holds(k) && !holds(limit)
    ensures k < n <= limit && !holds(n) && forall j :: k <= j < n ==> holds(j)
    decreases limit - k
  {
    n := k + 1;
    if holds(k + 1) {
      n := FirstFailure(holds, k + 1, limit);
    }
  }

  lemma EmptyIsReadable(p: Profile, bytes: nat, cfg: Config)
    ensures Readable(p, bytes, 0, cfg)
  {
    assert Filled([], 0);
    assert CliIndex(map[], cfg) == Some([]);
  }

  lemma FirstUnreadable(p: Profile, bytes: nat, cfg: Config) returns (n: nat)
    ensures 0 < n <= MAX_PROFILES && !Readable(p, bytes, n, cfg)
    ensures forall k :: 0 <= k < n ==> Readable(p, bytes, k, cfg)
  {
    var holds := (k: nat) => Readable(p, bytes, k, cfg);
    EmptyIsReadable(p, bytes, cfg);
    n := FirstFailure(holds, 0, MAX_PROFILES);
    forall k | 0 <= k < n
      ensures Readable(p, bytes, k, cfg)
    {
      assert holds(k);
    }
  }

  lemma UnreadableIsStuck(data: Store, cfg: Config)
    requires CliIndex(data, cfg).None?
    ensures (forall file :: PlanPut(data, file, cfg).None?) && (forall id :: PlanDelete(data, id, cfg).None?)
    ensures forall os :: ApplyAll(data, os, cfg) == data
  {
    forall os
      ensures ApplyAll(data, os, cfg) == data
    {
      UnreadableStays(data, os, cfg);
    }
  }

  /**
   At most fifty valid puts of profiles with long names, none of them rejected, leave an index that the
   Worker lists and that the command line can neither read nor change again.
   */
  lemma ValidPutsGetStuck(p: Profile, bytes: nat, cfg: Config) returns (n: nat)
    requires Sound(cfg) && Wide(p, bytes, cfg)
    ensures 0 < n <= 50
    ensures forall k :: 0 <= k < n ==> PlanPut(StoreAt(p, bytes, k, cfg), RenamedFile(p, bytes, k), cfg).Some?
    ensures var data := StoreAt(p, bytes, n, cfg);
            var (status, listed) := ListApplicationProfiles(Some(data), cfg.indexKey, false, cfg.env);
            && CliIndex(data, cfg).None? && status == Available && |listed| == n
            && (forall file :: PlanPut(data, file, cfg).None?) && (forall id :: PlanDelete(data, id, cfg).None?)
            && (forall os :: ApplyAll(data, os, cfg) == data)
  {
    n := FirstUnreadable(p, bytes, cfg);
    forall k | 0 <= k < n
      ensures PlanPut(StoreAt(p, bytes, k, cfg), RenamedFile(p, bytes, k), cfg).Some?
    {
      NextPut(p, bytes, k, cfg);
    }
    NextPut(p, bytes, n - 1, cfg);
    ListIsWorkerIndex(StoreAt(p, bytes, n, cfg), cfg.indexKey, cfg.env);
    UnreadableIsStuck(StoreAt(p, bytes, n, cfg), cfg);
  }

  // ----- such a profile exists

  function CodeUnitOrder(a: Text, b: Text): int {
    if a == b then 0 else if LexLe(a, b) then -1 else 1
  }

  lemma CodeUnitOrderIsStrict()
    ensures StrictCollation(CodeUnitOrder)
  {
    LexIsTotalOrder();
  }

  const REGION: Text := Units("eu-west-1")

  /** One hundred and twenty-eight units of three bytes each. */
  const LONG_NAME: Text := seq(128, _ => 0x4E2D)

  const SAMPLE_CONFIG := Config(Units(DEFAULT_INDEX_KEY), Env(_ => false, [REGION]), CodeUnitOrder, _ => 0)

  const SAMPLE_PROFILE :=
    Profile(LongId(0), LONG_NAME, Units("prod"), REGION, None,
            map[S3 := ResourceBlock(NamedResource(Units("bucket")), None)])

  /** The limit is passed under an ordinary configuration, by a profile within the limits of every field. */
  lemma LimitIsReached() returns (n: nat)
    ensures Sound(SAMPLE_CONFIG) && Wide(SAMPLE_PROFILE, 0, SAMPLE_CONFIG)
    ensures 0 < n <= 50 && CliIndex(StoreAt(SAMPLE_PROFILE, 0, n, SAMPLE_CONFIG), SAMPLE_CONFIG).None?
  {
    CodeUnitOrderIsStrict();
    DefaultIndexKeyIsApart();
    SampleIsWide();
    n := ValidPutsGetStuck(SAMPLE_PROFILE, 0, SAMPLE_CONFIG);
  }

  lemma {:induction false} WideUnits(t: Text)
    requires forall i :: 0 <= i < |t| ==> UnitBytes(t[i]) == 3
    ensures Utf8Bytes(t) == 3 * |t|
  {
    if t != [] {
      WideUnits(t[1..]);
    }
  }

  /** A text of visible units is good when it is short enough. */
  lemma VisibleIsGood(t: Text, max: nat)
    requires 0 < |t| <= max && !IsSpace(t[0]) && !IsSpace(t[|t| - 1])
    ensures GoodText(t, max, SAMPLE_CONFIG.env)
  {
  }

  lemma SampleResourcesAreGood()
    ensures GoodResources(SAMPLE_PROFILE.resources, SAMPLE_CONFIG.env)
  {
    VisibleIsGood(Units("bucket"), RESOURCE_NAME_MAX);
    var rs := SAMPLE_PROFILE.resources;
    assert S3 in rs;
    forall b | b in rs
      ensures GoodBlock(b, rs[b], SAMPLE_CONFIG.env)
    {
      assert b == S3;
    }
  }

  lemma SampleHeadIsGood()
    ensures GoodHead(LongId(0), LONG_NAME, Units("prod"), REGION, SAMPLE_CONFIG.env)
  {
    LongIds(0, 0);
    VisibleIsGood(LONG_NAME, 128);
    VisibleIsGood(Units("prod"), 32);
    VisibleIsGood(REGION, RESOURCE_NAME_MAX);
  }

  lemma LongNameIsWide(p: Profile, cfg: Config)
    requires GoodProfile(p, cfg.env) && p.displayName == LONG_NAME
    ensures Wide(p, 0, cfg)
  {
    WideUnits(LONG_NAME);
  }

  lemma SampleIsWide()
    ensures Wide(SAMPLE_PROFILE, 0, SAMPLE_CONFIG)
  {
    SampleHeadIsGood();
    SampleResourcesAreGood();
    LongNameIsWide(SAMPLE_PROFILE, SAMPLE_CONFIG);
  }
}
