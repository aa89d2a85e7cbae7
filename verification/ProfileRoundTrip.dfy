/** The validators accept exactly the documents of good values, and accept their own output unchanged. */
module ProfileRoundTrip {
  import opened Wrappers
  import opened JsText
  import opened RoleArns
  import opened Credentials
  import opened Regions
  import opened ProfileDocs
  import opened ProfileValidation

  // ----- resource blocks

  predicate GoodResource(b: BlockName, r: Resource, env: Env) {
    match b
    case Ecs => r.EcsResource? && GoodText(r.clusterName, 256, env) && GoodText(r.serviceName, 256, env)
                && GoodOption(r.logGroupName, 256, env) && GoodTexts(r.containers, 20, 256, env)
    case Ssm => r.SsmResource? && GoodText(r.parameterPrefix, 512, env) && r.parameterPrefix[0] == 0x2F
                && GoodTexts(r.requiredParameterNames, 50, 256, env)
    case Sns => r.SnsResource? && GoodOption(r.topicName, 256, env) && GoodOption(r.topicArn, 1600, env)
                && (r.topicName.Some? <==> r.topicArn.None?)
    case EventBridge => r.EventBridgeResource? && GoodOption(r.ruleNamePrefix, 256, env)
                        && GoodOption(r.scheduleNamePrefix, 256, env)
                        && (r.ruleNamePrefix.Some? || r.scheduleNamePrefix.Some?)
    case Budget => r.BudgetResource? && GoodText(r.budgetName, 100, env) && GoodOption(r.accountId, 12, env)
                   && (r.accountId.Some? ==> IsAccountId(r.accountId.value))
    case Rds => r.NamedResource? && GoodText(r.name, 63, env)
    case Ses => r.NamedResource? && GoodText(r.name, 64, env)
    case S3 => r.NamedResource? && GoodText(r.name, 256, env)
    case Ecr => r.NamedResource? && GoodText(r.name, 256, env)
  }

  function ResourceFields(b: BlockName, r: Resource): map<Name, Doc> {
    match r
    case EcsResource(clusterName, serviceName, logGroupName, containers) =>
      WithTexts(WithText(map[ClusterName := DString(clusterName), ServiceName := DString(serviceName)],
                         LogGroupName, logGroupName),
                Containers, containers)
    case SsmResource(prefix, names) => WithTexts(map[ParameterPrefix := DString(prefix)], RequiredParameterNames, names)
    case SnsResource(topicName, topicArn) => WithText(WithText(map[], TopicName, topicName), TopicArn, topicArn)
    case EventBridgeResource(rule, schedule) =>
      WithText(WithText(map[], RuleNamePrefix, rule), ScheduleNamePrefix, schedule)
    case BudgetResource(name, accountId) => WithText(map[BudgetName := DString(name)], AccountId, accountId)
    case NamedResource(name) => if IsNamed(b) then map[NameField(b) := DString(name)] else map[]
  }

  predicate GoodBlock(b: BlockName, v: ResourceBlock, env: Env) {
    GoodResource(b, v.resource, env) && GoodAuth(v.auth, env)
  }

  function BlockDoc(b: BlockName, v: ResourceBlock): Doc {
    DObject(WithAuth(ResourceFields(b, v.resource), v.auth))
  }

  lemma EcsIsGood(f: map<Name, Doc>, env: Env)
    ensures ValidateEcs(f, env).Some? ==> GoodResource(Ecs, ValidateEcs(f, env).value, env)
  {
    RequiredField(Field(f, ClusterName), RESOURCE_NAME_MAX, env);
    RequiredField(Field(f, ServiceName), RESOURCE_NAME_MAX, env);
    OptionalFieldIsGood(Field(f, LogGroupName), RESOURCE_NAME_MAX, env);
    StringArrayIsGood(Field(f, Containers), 20, RESOURCE_NAME_MAX, env);
  }

  lemma SsmIsGood(f: map<Name, Doc>, env: Env)
    ensures ValidateSsm(f, env).Some? ==> GoodResource(Ssm, ValidateSsm(f, env).value, env)
  {
    RequiredField(Field(f, ParameterPrefix), 512, env);
    StringArrayIsGood(Field(f, RequiredParameterNames), 50, 256, env);
  }

  lemma ResourceIsGood(b: BlockName, f: map<Name, Doc>, env: Env)
    ensures ValidateResource(b, f, env).Some? ==> GoodResource(b, ValidateResource(b, f, env).value, env)
  {
    match b
    case Ecs => EcsIsGood(f, env);
    case Ssm => SsmIsGood(f, env);
    case Sns =>
      OptionalFieldIsGood(Field(f, TopicName), 256, env);
      OptionalFieldIsGood(Field(f, TopicArn), 1600, env);
    case EventBridge =>
      OptionalFieldIsGood(Field(f, RuleNamePrefix), 256, env);
      OptionalFieldIsGood(Field(f, ScheduleNamePrefix), 256, env);
    case Budget =>
      RequiredField(Field(f, BudgetName), 100, env);
      OptionalFieldIsGood(Field(f, AccountId), 12, env);
    case _ => RequiredField(Field(f, NameField(b)), NameMax(b), env);
  }

  lemma BlockIsGood(b: BlockName, v: Doc, env: Env)
    ensures ValidateBlock(b, v, env).Some? ==> GoodBlock(b, ValidateBlock(b, v, env).value, env)
  {
    if v.DObject? {
      ResourceIsGood(b, v.fields, env);
      AuthIsGood(Field(v.fields, Auth), env);
    }
  }

  // reading back a field that was written with WithText or WithTexts

  lemma TextFieldAccepted(f: map<Name, Doc>, n: Name, o: Option<Text>, max: nat, env: Env)
    requires GoodOption(o, max, env)
    requires Field(f, n) == if o.Some? then Some(DString(o.value)) else None
    ensures OptionalField(Field(f, n), max, env) == Some(o)
  {
    OptionalFieldIsGood(Field(f, n), max, env);
  }

  lemma TextsFieldAccepted(f: map<Name, Doc>, n: Name, ts: seq<Text>, maxItems: nat, max: nat, env: Env)
    requires GoodTexts(ts, maxItems, max, env)
    requires Field(f, n) == if ts == [] then None else Some(DArray(TextDocs(ts)))
    ensures StringArray(Field(f, n), maxItems, max, env) == Some(ts)
  {
    GoodArrayAccepted(ts, maxItems, max, env);
  }

  lemma GoodEcsAccepted(r: Resource, a: Option<Request>, env: Env)
    requires GoodResource(Ecs, r, env)
    ensures ValidateEcs(WithAuth(ResourceFields(Ecs, r), a), env) == Some(r)
  {
    var f := WithAuth(ResourceFields(Ecs, r), a);
    RequiredField(Field(f, ClusterName), RESOURCE_NAME_MAX, env);
    RequiredField(Field(f, ServiceName), RESOURCE_NAME_MAX, env);
    TextFieldAccepted(f, LogGroupName, r.logGroupName, RESOURCE_NAME_MAX, env);
    TextsFieldAccepted(f, Containers, r.containers, 20, RESOURCE_NAME_MAX, env);
  }

  lemma GoodSsmAccepted(r: Resource, a: Option<Request>, env: Env)
    requires GoodResource(Ssm, r, env)
    ensures ValidateSsm(WithAuth(ResourceFields(Ssm, r), a), env) == Some(r)
  {
    var f := WithAuth(ResourceFields(Ssm, r), a);
    RequiredField(Field(f, ParameterPrefix), 512, env);
    TextsFieldAccepted(f, RequiredParameterNames, r.requiredParameterNames, 50, 256, env);
  }

  lemma GoodSnsAccepted(r: Resource, a: Option<Request>, env: Env)
    requires GoodResource(Sns, r, env)
    ensures ValidateSns(WithAuth(ResourceFields(Sns, r), a), env) == Some(r)
  {
    var f := WithAuth(ResourceFields(Sns, r), a);
    TextFieldAccepted(f, TopicName, r.topicName, 256, env);
    TextFieldAccepted(f, TopicArn, r.topicArn, 1600, env);
  }

  lemma GoodEventBridgeAccepted(r: Resource, a: Option<Request>, env: Env)
    requires GoodResource(EventBridge, r, env)
    ensures ValidateEventBridge(WithAuth(ResourceFields(EventBridge, r), a), env) == Some(r)
  {
    var f := WithAuth(ResourceFields(EventBridge, r), a);
    TextFieldAccepted(f, RuleNamePrefix, r.ruleNamePrefix, 256, env);
    TextFieldAccepted(f, ScheduleNamePrefix, r.scheduleNamePrefix, 256, env);
  }

  lemma GoodBudgetAccepted(r: Resource, a: Option<Request>, env: Env)
    requires GoodResource(Budget, r, env)
    ensures ValidateBudget(WithAuth(ResourceFields(Budget, r), a), env) == Some(r)
  {
    var f := WithAuth(ResourceFields(Budget, r), a);
    RequiredField(Field(f, BudgetName), 100, env);
    TextFieldAccepted(f, AccountId, r.accountId, 12, env);
  }

  lemma GoodResourceAccepted(b: BlockName, r: Resource, a: Option<Request>, env: Env)
    requires GoodResource(b, r, env)
    ensures ValidateResource(b, WithAuth(ResourceFields(b, r), a), env) == Some(r)
  {
    match b
    case Ecs => GoodEcsAccepted(r, a, env);
    case Ssm => GoodSsmAccepted(r, a, env);
    case Sns => GoodSnsAccepted(r, a, env);
    case EventBridge => GoodEventBridgeAccepted(r, a, env);
    case Budget => GoodBudgetAccepted(r, a, env);
    case _ => RequiredField(Field(WithAuth(ResourceFields(b, r), a), NameField(b)), NameMax(b), env);
  }

  lemma GoodAuthFieldAccepted(f: map<Name, Doc>, a: Option<Request>, env: Env)
    requires GoodAuth(a, env) && Auth !in f
    ensures ValidateAuth(Field(WithAuth(f, a), Auth), env) == Some(a)
  {
    if a.Some? {
      GoodAuthAccepted(a.value, env);
    }
  }

  lemma GoodBlockAccepted(b: BlockName, v: ResourceBlock, env: Env)
    requires GoodBlock(b, v, env)
    ensures ValidateBlock(b, BlockDoc(b, v), env) == Some(v)
  {
    GoodResourceAccepted(b, v.resource, v.auth, env);
    GoodAuthFieldAccepted(ResourceFields(b, v.resource), v.auth, env);
  }

  ghost predicate GoodResources(rs: Resources, env: Env) {
    rs != map[] && forall b :: b in rs ==> GoodBlock(b, rs[b], env)
  }

  function ResourcesFields(rs: Resources): map<Name, Doc> {
    map b | b in rs.Keys :: Block(b) := BlockDoc(b, rs[b])
  }

  lemma ResourcesAreGood(v: Option<Doc>, env: Env)
    ensures ResourcesOf(v, env).Some? ==> GoodResources(ResourcesOf(v, env).value, env)
  {
    if ResourcesOf(v, env).Some? {
      var fields := v.value.fields;
      forall b | b in ValidBlocks(fields, env)
        ensures GoodBlock(b, ValidBlocks(fields, env)[b], env)
      {
        BlockIsGood(b, fields[Block(b)], env);
      }
    }
  }

  lemma GoodResourcesAccepted(rs: Resources, env: Env)
    requires GoodResources(rs, env)
    ensures ResourcesOf(Some(DObject(ResourcesFields(rs))), env) == Some(rs)
  {
    var fields := ResourcesFields(rs);
    forall b: BlockName
      ensures Present(fields, b) <==> b in rs
      ensures b in rs ==> ValidateBlock(b, fields[Block(b)], env) == Some(rs[b])
    {
      if b in rs {
        assert Block(b) in fields;
        GoodBlockAccepted(b, rs[b], env);
      }
    }
    assert ValidBlocks(fields, env) == rs;
  }

  // ----- profiles

  predicate GoodHead(id: Text, displayName: Text, environment: Text, region: Text, env: Env) {
    && IsProfileId(id)
    && GoodText(displayName, 128, env)
    && GoodText(environment, 32, env)
    && GoodText(region, 256, env) && region in env.allowed
  }

  ghost predicate GoodProfile(p: Profile, env: Env) {
    && GoodHead(p.id, p.displayName, p.environment, p.region, env)
    && GoodAuth(p.auth, env) && GoodResources(p.resources, env)
  }

  function HeadFields(id: Text, displayName: Text, environment: Text, region: Text): map<Name, Doc> {
    map[Id := DString(id), DisplayName := DString(displayName), Environment := DString(environment),
        Region := DString(region)]
  }

  function ProfileFields(p: Profile): map<Name, Doc> {
    HeadFields(p.id, p.displayName, p.environment, p.region)
    [Version := DNumber(Units("1"))][ProfileDocs.Resources := DObject(ResourcesFields(p.resources))]
  }

  function ProfileDoc(p: Profile): Doc {
    DObject(WithAuth(ProfileFields(p), p.auth))
  }

  lemma ProfileDocFields(p: Profile)
    ensures var f := ProfileDoc(p).fields;
            && HasVersionOne(f) && Field(f, Id) == Some(DString(p.id))
            && Field(f, DisplayName) == Some(DString(p.displayName))
            && Field(f, Environment) == Some(DString(p.environment)) && Field(f, Region) == Some(DString(p.region))
            && Field(f, ProfileDocs.Resources) == Some(DObject(ResourcesFields(p.resources)))
    ensures Auth !in ProfileFields(p)
  {
  }

  lemma HeadIsGood(f: map<Name, Doc>, env: Env)
    ensures var d, e, r := StringField(Field(f, DisplayName), 128, true, env),
                           StringField(Field(f, Environment), 32, true, env),
                           StringField(Field(f, Region), RESOURCE_NAME_MAX, true, env);
            var id := ValidateProfileId(OptionalString(Field(f, Id)));
            id.Some? && d.Some? && e.Some? && r.Some? && ValidateRegion(r.value, env.allowed).None? ==>
              GoodHead(id.value, d.value, e.value, r.value, env)
  {
    ValidatedId(OptionalString(Field(f, Id)));
    RequiredField(Field(f, DisplayName), 128, env);
    RequiredField(Field(f, Environment), 32, env);
    RequiredField(Field(f, Region), RESOURCE_NAME_MAX, env);
  }

  lemma GoodHeadAccepted(id: Text, displayName: Text, environment: Text, region: Text, f: map<Name, Doc>, env: Env)
    requires GoodHead(id, displayName, environment, region, env)
    requires Field(f, Id) == Some(DString(id)) && Field(f, DisplayName) == Some(DString(displayName))
    requires Field(f, Environment) == Some(DString(environment)) && Field(f, Region) == Some(DString(region))
    ensures ValidateProfileId(OptionalString(Field(f, Id))) == Some(id)
    ensures StringField(Field(f, DisplayName), 128, true, env) == Some(displayName)
    ensures StringField(Field(f, Environment), 32, true, env) == Some(environment)
    ensures StringField(Field(f, Region), RESOURCE_NAME_MAX, true, env) == Some(region)
    ensures ValidateRegion(region, env.allowed).None?
  {
  }

  /** A validated profile is good, and has the requested id. */
  lemma ProfileIsGood(raw: Doc, profileId: Text, bytes: Option<nat>, env: Env)
    ensures var p := ProfileOf(raw, profileId, bytes, env);
            p.Some? ==> GoodProfile(p.value, env) && Some(p.value.id) == ValidateProfileId(profileId)
  {
    if raw.DObject? {
      HeadIsGood(raw.fields, env);
      AuthIsGood(Field(raw.fields, Auth), env);
      ResourcesAreGood(Field(raw.fields, ProfileDocs.Resources), env);
    }
  }

  lemma GoodProfileAccepted(p: Profile, bytes: Option<nat>, env: Env)
    requires GoodProfile(p, env)
    ensures ProfileOf(ProfileDoc(p), p.id, bytes, env) == if TooLarge(bytes) then None else Some(p)
  {
    ProfileDocFields(p);
    GoodHeadAccepted(p.id, p.displayName, p.environment, p.region, ProfileDoc(p).fields, env);
    GoodAuthFieldAccepted(ProfileFields(p), p.auth, env);
    GoodResourcesAccepted(p.resources, env);
    ValidatedId(p.id);
  }

  /** Validating the output of a successful validation gives the same profile again. */
  lemma ProfileValidationIsIdempotent(raw: Doc, profileId: Text, bytes: Option<nat>, env: Env)
    requires ProfileOf(raw, profileId, bytes, env).Some?
    ensures var p := ProfileOf(raw, profileId, bytes, env).value;
            ProfileOf(ProfileDoc(p), p.id, None, env) == Some(p)
  {
    ProfileIsGood(raw, profileId, bytes, env);
    GoodProfileAccepted(ProfileOf(raw, profileId, bytes, env).value, None, env);
  }

  /** Documents of good profiles determine them. */
  lemma ProfileDocInjective(p: Profile, q: Profile, env: Env)
    requires GoodProfile(p, env) && GoodProfile(q, env) && ProfileDoc(p) == ProfileDoc(q)
    ensures p == q
  {
    assert ProfileDoc(p).fields[Id] == ProfileDoc(q).fields[Id];
    GoodProfileAccepted(p, None, env);
    GoodProfileAccepted(q, None, env);
  }

  // ----- the index

  predicate GoodEntry(e: Entry, env: Env) {
    GoodHead(e.id, e.displayName, e.environment, e.region, env) && GoodTexts(e.aliases, 10, 32, env)
    && GoodTexts(e.capabilities, 20, 32, env)
  }

  predicate GoodEntries(es: seq<Entry>, env: Env) {
    forall i :: 0 <= i < |es| ==> GoodEntry(es[i], env)
  }

  ghost predicate GoodIndex(es: seq<Entry>, env: Env) {
    |es| <= 50 && UniqueIds(es) && GoodEntries(es, env)
  }

  function EntryDoc(e: Entry): Doc {
    DObject(HeadFields(e.id, e.displayName, e.environment, e.region)[Enabled := DBool(e.enabled)]
            [Aliases := DArray(TextDocs(e.aliases))][Capabilities := DArray(TextDocs(e.capabilities))])
  }

  function EntryDocs(es: seq<Entry>): (r: seq<Doc>)
    ensures |r| == |es|
  {
    if es == [] then [] else [EntryDoc(es[0])] + EntryDocs(es[1..])
  }

  function IndexDoc(es: seq<Entry>): Doc {
    DObject(map[Version := DNumber(Units("1")), Profiles := DArray(EntryDocs(es))])
  }

  lemma EntryDocFields(e: Entry)
    ensures var f := EntryDoc(e).fields;
            && Field(f, Id) == Some(DString(e.id)) && Field(f, DisplayName) == Some(DString(e.displayName))
            && Field(f, Environment) == Some(DString(e.environment)) && Field(f, Region) == Some(DString(e.region))
            && Field(f, Enabled) == Some(DBool(e.enabled)) && Field(f, Aliases) == Some(DArray(TextDocs(e.aliases)))
            && Field(f, Capabilities) == Some(DArray(TextDocs(e.capabilities)))
  {
  }

  lemma EntryIsGood(raw: Doc, env: Env)
    ensures EntryOf(raw, env).Some? ==> GoodEntry(EntryOf(raw, env).value, env)
  {
    if raw.DObject? {
      HeadIsGood(raw.fields, env);
      StringArrayIsGood(Field(raw.fields, Aliases), 10, 32, env);
      StringArrayIsGood(Field(raw.fields, Capabilities), 20, 32, env);
    }
  }

  lemma GoodEntryAccepted(e: Entry, env: Env)
    requires GoodEntry(e, env)
    ensures EntryOf(EntryDoc(e), env) == Some(e)
  {
    EntryDocFields(e);
    GoodHeadAccepted(e.id, e.displayName, e.environment, e.region, EntryDoc(e).fields, env);
    GoodArrayAccepted(e.aliases, 10, 32, env);
    GoodArrayAccepted(e.capabilities, 20, 32, env);
  }

  lemma {:induction false} EntriesAreGood(items: seq<Doc>, env: Env)
    requires EntriesOf(items, env).Some?
    ensures GoodEntries(EntriesOf(items, env).value, env)
  {
    if items != [] {
      EntryIsGood(items[0], env);
      EntriesAreGood(items[1..], env);
    }
  }

  lemma EntriesOfCons(first: Doc, more: seq<Doc>, env: Env)
    requires EntryOf(first, env).Some? && EntriesOf(more, env).Some?
    ensures EntriesOf([first] + more, env) == Some([EntryOf(first, env).value] + EntriesOf(more, env).value)
  {
    assert ([first] + more)[0] == first && ([first] + more)[1..] == more;
  }

  lemma GoodEntriesSplit(es: seq<Entry>, env: Env)
    requires es != [] && GoodEntries(es, env)
    ensures GoodEntry(es[0], env) && GoodEntries(es[1..], env)
  {
  }

  lemma {:induction false} GoodEntriesAccepted(es: seq<Entry>, env: Env)
    requires GoodEntries(es, env)
    ensures EntriesOf(EntryDocs(es), env) == Some(es)
  {
    if es != [] {
      GoodEntriesSplit(es, env);
      GoodEntryAccepted(es[0], env);
      GoodEntriesAccepted(es[1..], env);
      EntriesOfCons(EntryDoc(es[0]), EntryDocs(es[1..]), env);
      assert es == [es[0]] + es[1..];
    }
  }

  lemma IndexIsGood(raw: Doc, bytes: Option<nat>, env: Env)
    ensures IndexOf(raw, bytes, env).Some? ==> GoodIndex(IndexOf(raw, bytes, env).value, env)
  {
    if IndexOf(raw, bytes, env).Some? {
      EntriesAreGood(raw.fields[Profiles].items, env);
    }
  }

  /** Of well-formed entries, the validator accepts exactly those that make a good index of an allowed size. */
  lemma IndexAcceptedIff(es: seq<Entry>, bytes: Option<nat>, env: Env)
    requires GoodEntries(es, env)
    ensures IndexOf(IndexDoc(es), bytes, env) ==
            if (bytes.Some? ==> bytes.value <= 16_384) && |es| <= 50 && UniqueIds(es) then Some(es) else None
  {
    GoodEntriesAccepted(es, env);
  }

  /** Validating the output of a successful index validation gives the same index again. */
  lemma IndexValidationIsIdempotent(raw: Doc, bytes: Option<nat>, env: Env)
    requires IndexOf(raw, bytes, env).Some?
    ensures var es := IndexOf(raw, bytes, env).value; IndexOf(IndexDoc(es), None, env) == Some(es)
  {
    IndexIsGood(raw, bytes, env);
    IndexAcceptedIff(IndexOf(raw, bytes, env).value, None, env);
  }
}
