/** Validation of profile and index documents (src/profiles/validation.ts). */
module ProfileValidation {
  import opened Wrappers
  import opened JsText
  import opened RoleArns
  import opened Credentials
  import opened Regions
  import opened ProfileDocs

  const MAX_JSON_BYTES := 16_384
  const MAX_PROFILES := 50

  // ----- resource blocks

  datatype Resource =
    | EcsResource(clusterName: Text, serviceName: Text, logGroupName: Option<Text>, containers: seq<Text>)
    | NamedResource(name: Text)
    | SsmResource(parameterPrefix: Text, requiredParameterNames: seq<Text>)
    | SnsResource(topicName: Option<Text>, topicArn: Option<Text>)
    | EventBridgeResource(ruleNamePrefix: Option<Text>, scheduleNamePrefix: Option<Text>)
    | BudgetResource(budgetName: Text, accountId: Option<Text>)

  datatype ResourceBlock = ResourceBlock(resource: Resource, auth: Option<Request>)

  type Resources = map<BlockName, ResourceBlock>

  const KNOWN_RESOURCE_BLOCKS: seq<BlockName> := [Ecs, Rds, Ses, S3, Ssm, Ecr, Sns, EventBridge, Budget]

  /** The blocks that hold one required name. */
  predicate IsNamed(b: BlockName) { b.Rds? || b.Ses? || b.S3? || b.Ecr? }

  function NameField(b: BlockName): Name
    requires IsNamed(b)
  {
    match b
    case Rds => DbInstanceIdentifier
    case Ses => ConfigurationSetName
    case S3 => BucketName
    case Ecr => RepositoryName
  }

  function NameMax(b: BlockName): nat
    requires IsNamed(b)
  {
    match b
    case Rds => 63
    case Ses => 64
    case S3 => RESOURCE_NAME_MAX
    case Ecr => RESOURCE_NAME_MAX
  }

  function ValidateEcs(f: map<Name, Doc>, env: Env): Option<Resource> {
    var clusterName := StringField(Field(f, ClusterName), RESOURCE_NAME_MAX, true, env);
    var serviceName := StringField(Field(f, ServiceName), RESOURCE_NAME_MAX, true, env);
    var logGroupName := OptionalField(Field(f, LogGroupName), RESOURCE_NAME_MAX, env);
    var containers := StringArray(Field(f, Containers), 20, RESOURCE_NAME_MAX, env);
    if clusterName.None? || serviceName.None? || logGroupName.None? || containers.None? then None
    else Some(EcsResource(clusterName.value, serviceName.value, logGroupName.value, containers.value))
  }

  function ValidateNamed(b: BlockName, f: map<Name, Doc>, env: Env): Option<Resource>
    requires IsNamed(b)
  {
    var name := StringField(Field(f, NameField(b)), NameMax(b), true, env);
    if name.None? then None else Some(NamedResource(name.value))
  }

  function ValidateSsm(f: map<Name, Doc>, env: Env): Option<Resource> {
    var prefix := StringField(Field(f, ParameterPrefix), 512, true, env);
    var names := StringArray(Field(f, RequiredParameterNames), 50, 256, env);
    if prefix.None? || prefix.value == [] || prefix.value[0] != 0x2F || names.None? then None
    else Some(SsmResource(prefix.value, names.value))
  }

  function ValidateSns(f: map<Name, Doc>, env: Env): Option<Resource> {
    var topicName := OptionalField(Field(f, TopicName), 256, env);
    var topicArn := OptionalField(Field(f, TopicArn), 1600, env);
    if topicName.None? || topicArn.None? || topicName.value.None? == topicArn.value.None? then None
    else Some(SnsResource(topicName.value, topicArn.value))
  }

  function ValidateEventBridge(f: map<Name, Doc>, env: Env): Option<Resource> {
    var rule := OptionalField(Field(f, RuleNamePrefix), 256, env);
    var schedule := OptionalField(Field(f, ScheduleNamePrefix), 256, env);
    if rule.None? || schedule.None? || (rule.value.None? && schedule.value.None?) then None
    else Some(EventBridgeResource(rule.value, schedule.value))
  }

  /** `/^\d{12}$/`. */
  predicate IsAccountId(t: Text) { |t| == 12 && All(IsDigit, t) }

  function ValidateBudget(f: map<Name, Doc>, env: Env): Option<Resource> {
    var budgetName := StringField(Field(f, BudgetName), 100, true, env);
    var accountId := OptionalField(Field(f, AccountId), 12, env);
    if budgetName.None? || accountId.None? || (accountId.value.Some? && !IsAccountId(accountId.value.value)) then None
    else Some(BudgetResource(budgetName.value, accountId.value))
  }

  function ValidateResource(b: BlockName, f: map<Name, Doc>, env: Env): Option<Resource> {
    match b
    case Ecs => ValidateEcs(f, env)
    case Ssm => ValidateSsm(f, env)
    case Sns => ValidateSns(f, env)
    case EventBridge => ValidateEventBridge(f, env)
    case Budget => ValidateBudget(f, env)
    case _ => ValidateNamed(b, f, env)
  }

  function ValidateBlock(b: BlockName, v: Doc, env: Env): Option<ResourceBlock> {
    if !v.DObject? then None else
      var resource, auth := ValidateResource(b, v.fields, env), ValidateAuth(Field(v.fields, Auth), env);
      if resource.None? || auth.None? then None else Some(ResourceBlock(resource.value, auth.value))
  }

  predicate Present(fields: map<Name, Doc>, b: BlockName) {
    Block(b) in fields && !fields[Block(b)].DNull?
  }

  ghost predicate AllValid(fields: map<Name, Doc>, env: Env) {
    forall b :: Present(fields, b) ==> ValidateBlock(b, fields[Block(b)], env).Some?
  }

  ghost function ValidBlocks(fields: map<Name, Doc>, env: Env): Resources
    requires AllValid(fields, env)
  {
    map b: BlockName | Present(fields, b) :: ValidateBlock(b, fields[Block(b)], env).value
  }

  predicate OnlyKnownBlocks(fields: map<Name, Doc>) {
    forall n :: n in fields.Keys ==> n.Block?
  }

  /**
   What `validateResources` returns: the present blocks, if there are any, all are valid and no other key is
   there.
   */
  ghost function ResourcesOf(v: Option<Doc>, env: Env): Option<Resources> {
    if v.None? || !v.value.DObject? then None
    else if !OnlyKnownBlocks(v.value.fields) || !AllValid(v.value.fields, env) then None
    else if ValidBlocks(v.value.fields, env) == map[] then None
    else Some(ValidBlocks(v.value.fields, env))
  }

  method FillResources(fields: map<Name, Doc>, env: Env) returns (r: Option<Resources>)
    ensures r == if AllValid(fields, env) then Some(ValidBlocks(fields, env)) else None
  {
    var resources: Resources := map[];
    for i := 0 to |KNOWN_RESOURCE_BLOCKS|
      invariant forall b :: b in resources <==> b in KNOWN_RESOURCE_BLOCKS[..i] && Present(fields, b)
      invariant forall b :: b in resources ==> ValidateBlock(b, fields[Block(b)], env) == Some(resources[b])
    {
      var b := KNOWN_RESOURCE_BLOCKS[i];
      if Present(fields, b) {
        var validated := ValidateBlock(b, fields[Block(b)], env);
        if validated.None? {
          return None;
        }
        resources := resources[b := validated.value];
      }
    }
    forall b: BlockName
      ensures b in resources <==> Present(fields, b)
    {
      EveryBlockIsKnown(b);
    }
    assert AllValid(fields, env);
    assert resources == ValidBlocks(fields, env);
    return Some(resources);
  }

  method ValidateResources(v: Option<Doc>, env: Env) returns (r: Option<Resources>)
    ensures r == ResourcesOf(v, env)
  {
    if v.None? || !v.value.DObject? || !OnlyKnownBlocks(v.value.fields) {
      return None;
    }
    r := FillResources(v.value.fields, env);
    if r == Some(map[]) {
      r := None;
    }
  }

  lemma EveryBlockIsKnown(b: BlockName)
    ensures b in KNOWN_RESOURCE_BLOCKS[..|KNOWN_RESOURCE_BLOCKS|]
  {
    var k := KNOWN_RESOURCE_BLOCKS;
    assert k[..|k|] == k;
    assert k[0].Ecs? && k[1].Rds? && k[2].Ses? && k[3].S3? && k[4].Ssm?;
    assert k[5].Ecr? && k[6].Sns? && k[7].EventBridge? && k[8].Budget?;
  }

  // ----- profiles

  datatype Profile = Profile(id: Text, displayName: Text, environment: Text, region: Text, auth: Option<Request>,
                             resources: Resources)

  predicate HasVersionOne(fields: map<Name, Doc>) {
    Field(fields, Version) == Some(DNumber(Units("1")))
  }

  predicate TooLarge(bytes: Option<nat>) { bytes.Some? && bytes.value > MAX_JSON_BYTES }

  /** `validateProfileDocument`. */
  ghost function ProfileOf(raw: Doc, profileId: Text, bytes: Option<nat>, env: Env): Option<Profile> {
    var safeId := ValidateProfileId(profileId);
    if safeId.None? || TooLarge(bytes) || !raw.DObject? || !HasVersionOne(raw.fields) then None else
      var f := raw.fields;
      var displayName := StringField(Field(f, DisplayName), 128, true, env);
      var environment := StringField(Field(f, Environment), 32, true, env);
      var region := StringField(Field(f, Region), RESOURCE_NAME_MAX, true, env);
      var auth := ValidateAuth(Field(f, Auth), env);
      var resources := ResourcesOf(Field(f, ProfileDocs.Resources), env);
      if ValidateProfileId(OptionalString(Field(f, Id))) != safeId || displayName.None? || environment.None?
         || region.None?
         || ValidateRegion(region.value, env.allowed).Some? || auth.None? || resources.None?
      then None
      else Some(Profile(safeId.value, displayName.value, environment.value, region.value, auth.value, resources.value))
  }

  method ValidateProfileDocument(raw: Doc, profileId: Text, bytes: Option<nat>, env: Env) returns (r: Option<Profile>)
    ensures r == ProfileOf(raw, profileId, bytes, env)
  {
    var safeId := ValidateProfileId(profileId);
    if safeId.None? || TooLarge(bytes) || !raw.DObject? || !HasVersionOne(raw.fields) {
      return None;
    }
    var f := raw.fields;
    if ValidateProfileId(OptionalString(Field(f, Id))) != safeId {
      return None;
    }
    var displayName := StringField(Field(f, DisplayName), 128, true, env);
    var environment := StringField(Field(f, Environment), 32, true, env);
    var region := StringField(Field(f, Region), RESOURCE_NAME_MAX, true, env);
    if displayName.None? || environment.None? || region.None? || ValidateRegion(region.value, env.allowed).Some? {
      return None;
    }
    var auth := ValidateAuth(Field(f, Auth), env);
    var resources := ValidateResources(Field(f, ProfileDocs.Resources), env);
    if auth.None? || resources.None? {
      return None;
    }
    return Some(Profile(safeId.value, displayName.value, environment.value, region.value, auth.value, resources.value));
  }

  // ----- the index

  datatype Entry = Entry(id: Text, displayName: Text, environment: Text, region: Text, enabled: bool,
                         aliases: seq<Text>, capabilities: seq<Text>)

  function EntryOf(raw: Doc, env: Env): Option<Entry> {
    if !raw.DObject? then None else
      var f := raw.fields;
      var id := ValidateProfileId(OptionalString(Field(f, Id)));
      var displayName := StringField(Field(f, DisplayName), 128, true, env);
      var environment := StringField(Field(f, Environment), 32, true, env);
      var region := StringField(Field(f, Region), RESOURCE_NAME_MAX, true, env);
      var enabled := Field(f, Enabled);
      var aliases := StringArray(Field(f, Aliases), 10, 32, env);
      var capabilities := StringArray(Field(f, Capabilities), 20, 32, env);
      if id.None? || displayName.None? || environment.None? || region.None?
         || ValidateRegion(region.value, env.allowed).Some?
         || enabled.None? || !enabled.value.DBool? || aliases.None? || capabilities.None?
      then None
      else Some(Entry(id.value, displayName.value, environment.value, region.value, enabled.value.b, aliases.value,
                      capabilities.value))
  }

  function EntriesOf(items: seq<Doc>, env: Env): (r: Option<seq<Entry>>)
    ensures r.Some? ==> |r.value| == |items|
  {
    if items == [] then Some([]) else
      var first, more := EntryOf(items[0], env), EntriesOf(items[1..], env);
      if first.None? || more.None? then None else Some([first.value] + more.value)
  }

  ghost predicate UniqueIds(es: seq<Entry>) {
    forall i, j :: 0 <= i < j < |es| ==> es[i].id != es[j].id
  }

  /** What `validateProfileIndexDocument` returns. */
  ghost function IndexOf(raw: Doc, bytes: Option<nat>, env: Env): Option<seq<Entry>> {
    if TooLarge(bytes) || !raw.DObject? || !HasVersionOne(raw.fields) then None else
      var items := Field(raw.fields, Profiles);
      if items.None? || !items.value.DArray? || |items.value.items| > MAX_PROFILES then None else
        var es := EntriesOf(items.value.items, env);
        if es.None? || !UniqueIds(es.value) then None else es
  }

  method FindDuplicate(es: seq<Entry>) returns (found: bool)
    ensures found <==> !UniqueIds(es)
  {
    var ids: set<Text> := {};
    for i := 0 to |es|
      invariant forall j :: 0 <= j < i ==> es[j].id in ids
      invariant forall t :: t in ids ==> exists j :: 0 <= j < i && es[j].id == t
      invariant UniqueIds(es[..i])
    {
      if es[i].id in ids {
        return true;
      }
      ids := ids + {es[i].id};
    }
    assert es[..|es|] == es;
    return false;
  }

  method ValidateProfileIndexDocument(raw: Doc, bytes: Option<nat>, env: Env) returns (r: Option<seq<Entry>>)
    ensures r == IndexOf(raw, bytes, env)
  {
    if TooLarge(bytes) || !raw.DObject? || !HasVersionOne(raw.fields) {
      return None;
    }
    var items := Field(raw.fields, Profiles);
    if items.None? || !items.value.DArray? || |items.value.items| > MAX_PROFILES {
      return None;
    }
    r := EntriesOf(items.value.items, env);
    if r.Some? {
      var found := FindDuplicate(r.value);
      if found {
        r := None;
      }
    }
  }
}
