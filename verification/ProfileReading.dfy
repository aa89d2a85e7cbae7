/** Exactly which documents the validators accept, and as what: a relation between documents and validated values. */
module ProfileReading {
  import opened Wrappers
  import opened JsText
  import opened Trimming
  import opened RoleArns
  import opened Credentials
  import opened Regions
  import opened ProfileDocs
  import opened ProfileValidation

  // ----- fields

  /** A text whose trimmed form is `t`, not empty, short enough and not secret-like. */
  predicate Reads(v: Option<Doc>, max: nat, env: Env, t: Text) {
    match v
    case Some(DString(s)) => t == Trim(s) && 0 < |t| <= max && !env.secretLike(t)
    case _ => false
  }

  /** An absent, null or blank field reads as none. */
  predicate ReadsOptional(v: Option<Doc>, max: nat, env: Env, o: Option<Text>) {
    match o
    case Some(t) => Reads(v, max, env, t)
    case None =>
      match v
      case None => true
      case Some(DNull) => true
      case Some(DString(s)) => |Trim(s)| == 0
      case _ => false
  }

  /** An absent or null list reads as empty; any other has to be a list of texts. */
  predicate ReadsList(v: Option<Doc>, maxItems: nat, max: nat, env: Env, ts: seq<Text>) {
    match v
    case None => |ts| == 0
    case Some(DNull) => |ts| == 0
    case Some(DArray(items)) =>
      |ts| == |items| <= maxItems && forall i :: 0 <= i < |ts| ==> Reads(Some(items[i]), max, env, ts[i])
    case _ => false
  }

  lemma ReadsIff(v: Option<Doc>, max: nat, env: Env, t: Text)
    ensures StringField(v, max, true, env) == Some(t) <==> Reads(v, max, env, t)
  {
  }

  lemma ReadsOptionalIff(v: Option<Doc>, max: nat, env: Env, o: Option<Text>)
    ensures OptionalField(v, max, env) == Some(o) <==> ReadsOptional(v, max, env, o)
  {
  }

  lemma {:induction false} ReadsItemsIff(items: seq<Doc>, max: nat, env: Env, ts: seq<Text>)
    ensures StringItems(items, max, env) == Some(ts) <==>
            |ts| == |items| && forall i :: 0 <= i < |ts| ==> Reads(Some(items[i]), max, env, ts[i])
  {
    if items != [] && |ts| == |items| {
      ReadsIff(Some(items[0]), max, env, ts[0]);
      ReadsItemsIff(items[1..], max, env, ts[1..]);
      assert ts == [ts[0]] + ts[1..];
      assert forall i :: 0 < i < |ts| ==> items[i] == items[1..][i - 1] && ts[i] == ts[1..][i - 1];
    } else if items != [] {
      ItemsLength(items, max, env);
    }
  }

  lemma {:induction false} ItemsLength(items: seq<Doc>, max: nat, env: Env)
    ensures var r := StringItems(items, max, env); r.Some? ==> |r.value| == |items|
  {
    if items != [] {
      ItemsLength(items[1..], max, env);
    }
  }

  lemma ReadsListIff(v: Option<Doc>, maxItems: nat, max: nat, env: Env, ts: seq<Text>)
    ensures StringArray(v, maxItems, max, env) == Some(ts) <==> ReadsList(v, maxItems, max, env, ts)
  {
    if v.Some? && v.value.DArray? {
      ReadsItemsIff(v.value.items, max, env, ts);
    }
  }

  // ----- authentication

  predicate ReadsAuth(v: Option<Doc>, env: Env, a: Option<Request>) {
    match a
    case None => v == None || v == Some(DNull)
    case Some(Default) =>
      v.Some? && v.value.DObject? && Field(v.value.fields, Strategy) == Some(DString(Units("default")))
    case Some(AssumeRole(roleArn, externalId, sessionName)) =>
      && v.Some? && v.value.DObject? && Field(v.value.fields, Strategy) == Some(DString(Units("assume-role")))
      && Reads(Field(v.value.fields, RoleArn), 256, env, roleArn) && IsValidRoleArn(roleArn)
      && ReadsOptional(Field(v.value.fields, ExternalId), 256, env, externalId)
      && ReadsOptional(Field(v.value.fields, SessionName), 64, env, sessionName)
  }

  lemma ReadsAuthIff(v: Option<Doc>, env: Env, a: Option<Request>)
    ensures ValidateAuth(v, env) == Some(a) <==> ReadsAuth(v, env, a)
  {
    assert |Units("default")| == 7 && |Units("assume-role")| == 11;
    if v.Some? && v.value.DObject? && a.Some? && a.value.AssumeRole? {
      var f := v.value.fields;
      ReadsIff(Field(f, RoleArn), 256, env, a.value.roleArn);
      ReadsOptionalIff(Field(f, ExternalId), 256, env, a.value.externalId);
      ReadsOptionalIff(Field(f, SessionName), 64, env, a.value.sessionName);
    }
  }

  // ----- resource blocks

  predicate ReadsResource(b: BlockName, f: map<Name, Doc>, env: Env, r: Resource) {
    match r
    case EcsResource(clusterName, serviceName, logGroupName, containers) =>
      && b == Ecs && Reads(Field(f, ClusterName), 256, env, clusterName)
      && Reads(Field(f, ServiceName), 256, env, serviceName)
      && ReadsOptional(Field(f, LogGroupName), 256, env, logGroupName)
      && ReadsList(Field(f, Containers), 20, 256, env, containers)
    case NamedResource(name) =>
      || (b == Rds && Reads(Field(f, DbInstanceIdentifier), 63, env, name))
      || (b == Ses && Reads(Field(f, ConfigurationSetName), 64, env, name))
      || (b == S3 && Reads(Field(f, BucketName), 256, env, name))
      || (b == Ecr && Reads(Field(f, RepositoryName), 256, env, name))
    case SsmResource(prefix, names) =>
      && b == Ssm && Reads(Field(f, ParameterPrefix), 512, env, prefix) && prefix[0] == Unit('/')
      && ReadsList(Field(f, RequiredParameterNames), 50, 256, env, names)
    case SnsResource(topicName, topicArn) =>
      && b == Sns && ReadsOptional(Field(f, TopicName), 256, env, topicName)
      && ReadsOptional(Field(f, TopicArn), 1600, env, topicArn) && topicName.None? != topicArn.None?
    case EventBridgeResource(rule, schedule) =>
      && b == EventBridge && ReadsOptional(Field(f, RuleNamePrefix), 256, env, rule)
      && ReadsOptional(Field(f, ScheduleNamePrefix), 256, env, schedule) && (rule.Some? || schedule.Some?)
    case BudgetResource(budgetName, accountId) =>
      && b == Budget && Reads(Field(f, BudgetName), 100, env, budgetName)
      && ReadsOptional(Field(f, AccountId), 12, env, accountId)
      && (accountId.Some? ==>
            |accountId.value| == 12 && forall u :: u in accountId.value ==> Unit('0') <= u <= Unit('9'))
  }

  lemma ReadsEcsIff(f: map<Name, Doc>, env: Env, r: Resource)
    ensures ValidateEcs(f, env) == Some(r) <==> ReadsResource(Ecs, f, env, r)
  {
    if r.EcsResource? {
      ReadsIff(Field(f, ClusterName), 256, env, r.clusterName);
      ReadsIff(Field(f, ServiceName), 256, env, r.serviceName);
      ReadsOptionalIff(Field(f, LogGroupName), 256, env, r.logGroupName);
      ReadsListIff(Field(f, Containers), 20, 256, env, r.containers);
    }
  }

  lemma ReadsSsmIff(f: map<Name, Doc>, env: Env, r: Resource)
    ensures ValidateSsm(f, env) == Some(r) <==> ReadsResource(Ssm, f, env, r)
  {
    if r.SsmResource? {
      ReadsIff(Field(f, ParameterPrefix), 512, env, r.parameterPrefix);
      ReadsListIff(Field(f, RequiredParameterNames), 50, 256, env, r.requiredParameterNames);
    }
  }

  lemma ReadsSnsIff(f: map<Name, Doc>, env: Env, r: Resource)
    ensures ValidateSns(f, env) == Some(r) <==> ReadsResource(Sns, f, env, r)
  {
    if r.SnsResource? {
      ReadsOptionalIff(Field(f, TopicName), 256, env, r.topicName);
      ReadsOptionalIff(Field(f, TopicArn), 1600, env, r.topicArn);
    }
  }

  lemma ReadsEventBridgeIff(f: map<Name, Doc>, env: Env, r: Resource)
    ensures ValidateEventBridge(f, env) == Some(r) <==> ReadsResource(EventBridge, f, env, r)
  {
    if r.EventBridgeResource? {
      ReadsOptionalIff(Field(f, RuleNamePrefix), 256, env, r.ruleNamePrefix);
      ReadsOptionalIff(Field(f, ScheduleNamePrefix), 256, env, r.scheduleNamePrefix);
    }
  }

  lemma AccountIdIff(t: Text)
    ensures IsAccountId(t) <==> |t| == 12 && forall u :: u in t ==> Unit('0') <= u <= Unit('9')
  {
    assert forall i :: 0 <= i < |t| ==> t[i] in t;
  }

  lemma ReadsBudgetIff(f: map<Name, Doc>, env: Env, r: Resource)
    ensures ValidateBudget(f, env) == Some(r) <==> ReadsResource(Budget, f, env, r)
  {
    if r.BudgetResource? {
      ReadsIff(Field(f, BudgetName), 100, env, r.budgetName);
      ReadsOptionalIff(Field(f, AccountId), 12, env, r.accountId);
      if r.accountId.Some? {
        AccountIdIff(r.accountId.value);
      }
    }
  }

  lemma ReadsNamedIff(b: BlockName, f: map<Name, Doc>, env: Env, r: Resource)
    requires IsNamed(b)
    ensures ValidateNamed(b, f, env) == Some(r) <==> ReadsResource(b, f, env, r)
  {
    if r.NamedResource? {
      ReadsIff(Field(f, NameField(b)), NameMax(b), env, r.name);
    }
  }

  lemma ReadsResourceIff(b: BlockName, f: map<Name, Doc>, env: Env, r: Resource)
    ensures ValidateResource(b, f, env) == Some(r) <==> ReadsResource(b, f, env, r)
  {
    match b
    case Ecs => ReadsEcsIff(f, env, r);
    case Ssm => ReadsSsmIff(f, env, r);
    case Sns => ReadsSnsIff(f, env, r);
    case EventBridge => ReadsEventBridgeIff(f, env, r);
    case Budget => ReadsBudgetIff(f, env, r);
    case _ => ReadsNamedIff(b, f, env, r);
  }

  predicate ReadsBlock(b: BlockName, v: Doc, env: Env, x: ResourceBlock) {
    match v
    case DObject(f) => ReadsResource(b, f, env, x.resource) && ReadsAuth(Field(f, Auth), env, x.auth)
    case _ => false
  }

  lemma ReadsBlockIff(b: BlockName, v: Doc, env: Env, x: ResourceBlock)
    ensures ValidateBlock(b, v, env) == Some(x) <==> ReadsBlock(b, v, env, x)
  {
    if v.DObject? {
      ReadsResourceIff(b, v.fields, env, x.resource);
      ReadsAuthIff(Field(v.fields, Auth), env, x.auth);
    }
  }

  /** Every block that is there and not null reads, and there is at least one; no other property is allowed. */
  ghost predicate ReadsResources(v: Option<Doc>, env: Env, rs: Resources) {
    match v
    case Some(DObject(f)) =>
      && (forall n :: n in f ==> n.Block?)
      && (exists b :: b in rs)
      && forall b: BlockName ::
           if Block(b) in f && f[Block(b)] != DNull then b in rs && ReadsBlock(b, f[Block(b)], env, rs[b]) else b !in rs
    case _ => false
  }

  lemma ReadsResourcesIff(v: Option<Doc>, env: Env, rs: Resources)
    ensures ResourcesOf(v, env) == Some(rs) <==> ReadsResources(v, env, rs)
  {
    if v.Some? && v.value.DObject? {
      var f := v.value.fields;
      if ReadsResources(v, env, rs) {
        forall b | Present(f, b)
          ensures ValidateBlock(b, f[Block(b)], env) == Some(rs[b])
        {
          ReadsBlockIff(b, f[Block(b)], env, rs[b]);
        }
        assert ValidBlocks(f, env) == rs;
      }
      if ResourcesOf(v, env) == Some(rs) {
        forall b: BlockName
          ensures if Block(b) in f && f[Block(b)] != DNull then b in rs && ReadsBlock(b, f[Block(b)], env, rs[b])
                  else b !in rs
        {
          if Present(f, b) {
            ReadsBlockIff(b, f[Block(b)], env, rs[b]);
          }
        }
        SomeKey(rs);
      }
    }
  }

  lemma SomeKey(rs: Resources)
    requires rs != map[]
    ensures exists b :: b in rs
  {
  }

  // ----- profiles and indexes

  /** The properties that a profile shares with its index entry. */
  predicate ReadsHead(f: map<Name, Doc>, env: Env, id: Text, displayName: Text, environment: Text, region: Text) {
    && IsProfileId(id) && id == Trim(OptionalString(Field(f, Id)))
    && Reads(Field(f, DisplayName), 128, env, displayName) && Reads(Field(f, Environment), 32, env, environment)
    && Reads(Field(f, Region), 256, env, region) && region in env.allowed
  }

  predicate IsVersionOne(f: map<Name, Doc>) {
    Version in f && f[Version] == DNumber(Units("1"))
  }

  ghost predicate ReadsProfile(raw: Doc, profileId: Text, env: Env, p: Profile) {
    match raw
    case DObject(f) =>
      && IsVersionOne(f) && p.id == Trim(profileId)
      && ReadsHead(f, env, p.id, p.displayName, p.environment, p.region)
      && ReadsAuth(Field(f, Auth), env, p.auth) && ReadsResources(Field(f, ProfileDocs.Resources), env, p.resources)
    case _ => false
  }

  /** The validator accepts a document of allowed size exactly if it reads as a profile, and returns that profile. */
  lemma ReadsProfileIff(raw: Doc, profileId: Text, bytes: Option<nat>, env: Env, p: Profile)
    ensures ProfileOf(raw, profileId, bytes, env) == Some(p) <==>
            (bytes.Some? ==> bytes.value <= 16_384) && ReadsProfile(raw, profileId, env, p)
  {
    if raw.DObject? {
      var f := raw.fields;
      ReadsIff(Field(f, DisplayName), 128, env, p.displayName);
      ReadsIff(Field(f, Environment), 32, env, p.environment);
      ReadsIff(Field(f, Region), 256, env, p.region);
      ReadsAuthIff(Field(f, Auth), env, p.auth);
      ReadsResourcesIff(Field(f, ProfileDocs.Resources), env, p.resources);
    }
  }

  predicate ReadsEntry(raw: Doc, env: Env, e: Entry) {
    match raw
    case DObject(f) =>
      && ReadsHead(f, env, e.id, e.displayName, e.environment, e.region)
      && Field(f, Enabled) == Some(DBool(e.enabled))
      && ReadsList(Field(f, Aliases), 10, 32, env, e.aliases)
      && ReadsList(Field(f, Capabilities), 20, 32, env, e.capabilities)
    case _ => false
  }

  lemma ReadsEntryIff(raw: Doc, env: Env, e: Entry)
    ensures EntryOf(raw, env) == Some(e) <==> ReadsEntry(raw, env, e)
  {
    if raw.DObject? {
      var f := raw.fields;
      ReadsIff(Field(f, DisplayName), 128, env, e.displayName);
      ReadsIff(Field(f, Environment), 32, env, e.environment);
      ReadsIff(Field(f, Region), 256, env, e.region);
      ReadsListIff(Field(f, Aliases), 10, 32, env, e.aliases);
      ReadsListIff(Field(f, Capabilities), 20, 32, env, e.capabilities);
    }
  }

  predicate ReadsEntries(items: seq<Doc>, env: Env, es: seq<Entry>) {
    |es| == |items| && forall i :: 0 <= i < |es| ==> ReadsEntry(items[i], env, es[i])
  }

  lemma ReadsEntriesCons(items: seq<Doc>, env: Env, es: seq<Entry>)
    requires items != [] && es != []
    ensures ReadsEntries(items, env, es) <==> ReadsEntry(items[0], env, es[0]) && ReadsEntries(items[1..], env, es[1..])
  {
    if ReadsEntry(items[0], env, es[0]) && ReadsEntries(items[1..], env, es[1..]) {
      forall i | 0 <= i < |es|
        ensures ReadsEntry(items[i], env, es[i])
      {
        assert i > 0 ==> ReadsEntry(items[1..][i - 1], env, es[1..][i - 1]);
      }
    }
  }

  lemma {:induction false} ReadsEntriesIff(items: seq<Doc>, env: Env, es: seq<Entry>)
    ensures EntriesOf(items, env) == Some(es) <==> ReadsEntries(items, env, es)
  {
    if items != [] && es != [] {
      ReadsEntryIff(items[0], env, es[0]);
      ReadsEntriesIff(items[1..], env, es[1..]);
      ReadsEntriesCons(items, env, es);
      EntriesOfCons(items, env, es);
    }
  }

  lemma EntriesOfCons(items: seq<Doc>, env: Env, es: seq<Entry>)
    requires items != [] && es != []
    ensures EntriesOf(items, env) == Some(es) <==>
            EntryOf(items[0], env) == Some(es[0]) && EntriesOf(items[1..], env) == Some(es[1..])
  {
    assert es == [es[0]] + es[1..];
  }

  ghost predicate ReadsIndex(raw: Doc, env: Env, es: seq<Entry>) {
    match raw
    case DObject(f) =>
      && IsVersionOne(f)
      && (match Field(f, Profiles)
          case Some(DArray(items)) => |items| <= 50 && ReadsEntries(items, env, es)
          case _ => false)
      && forall i, j :: 0 <= i < j < |es| ==> es[i].id != es[j].id
    case _ => false
  }

  /** The same for an index. */
  lemma ReadsIndexIff(raw: Doc, bytes: Option<nat>, env: Env, es: seq<Entry>)
    ensures IndexOf(raw, bytes, env) == Some(es) <==>
            (bytes.Some? ==> bytes.value <= 16_384) && ReadsIndex(raw, env, es)
  {
    if raw.DObject? && Field(raw.fields, Profiles).Some? && Field(raw.fields, Profiles).value.DArray? {
      ReadsEntriesIff(Field(raw.fields, Profiles).value.items, env, es);
    }
  }
}
