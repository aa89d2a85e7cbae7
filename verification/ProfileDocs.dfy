/** Parsed JSON documents as the profile validators read them, and the field validators. */
module ProfileDocs {
  import opened Wrappers
  import opened JsText
  import opened Trimming
  import opened RoleArns
  import opened Credentials

  /** The property names the validators know, and any other. */
  datatype Name =
    | Version | Id | DisplayName | Environment | Region | Auth | Resources
    | Profiles | Enabled | Aliases | Capabilities
    | Strategy | RoleArn | ExternalId | SessionName
    | Block(block: BlockName)
    | ClusterName | ServiceName | LogGroupName | Containers
    | DbInstanceIdentifier | ConfigurationSetName | BucketName | RepositoryName
    | ParameterPrefix | RequiredParameterNames
    | TopicName | TopicArn | RuleNamePrefix | ScheduleNamePrefix
    | BudgetName | AccountId
    | Unknown(text: Text)

  datatype BlockName = Ecs | Rds | Ses | S3 | Ssm | Ecr | Sns | EventBridge | Budget

  /** What JSON.parse returns. A number is known by its printed form. */
  datatype Doc =
    | DNull
    | DBool(b: bool)
    | DNumber(text: Text)
    | DString(s: Text)
    | DArray(items: seq<Doc>)
    | DObject(fields: map<Name, Doc>)

  /** The opaque secret test on trimmed texts, and the allowed regions. */
  datatype Env = Env(secretLike: Text -> bool, allowed: seq<Text>)

  const RESOURCE_NAME_MAX := 256

  function Field(fields: map<Name, Doc>, name: Name): Option<Doc> {
    if name in fields then Some(fields[name]) else None
  }

  function JoinComma(ts: seq<Text>): Text {
    if ts == [] then [] else if |ts| == 1 then ts[0] else ts[0] + [0x2C] + JoinComma(ts[1..])
  }

  /** `String(value)`, except that null becomes the empty text, as inside a joined array. */
  function JsString(d: Doc): Text
    decreases d, 1
  {
    match d
    case DNull => []
    case DBool(b) => if b then Units("true") else Units("false")
    case DNumber(text) => text
    case DString(s) => s
    case DArray(items) => JoinComma(JsStrings(items))
    case DObject(_) => Units("[object Object]")
  }

  function JsStrings(items: seq<Doc>): seq<Text>
    decreases items, 0
  {
    if items == [] then [] else [JsString(items[0])] + JsStrings(items[1..])
  }

  /** `String(value ?? "")`. */
  function OptionalString(d: Option<Doc>): Text {
    if d.None? then [] else JsString(d.value)
  }

  // ----- validators; None stands for a thrown ValidationError

  predicate IsIdStart(u: CodeUnit) { 0x61 <= u <= 0x7A || IsDigit(u) }

  predicate IsIdUnit(u: CodeUnit) { IsIdStart(u) || u == 0x2D || u == 0x5F }

  /** `/^[a-z0-9][a-z0-9-_]{1,62}$/`. */
  predicate IsProfileId(t: Text) {
    2 <= |t| <= 63 && IsIdStart(t[0]) && All(IsIdUnit, t[1..])
  }

  function ValidateProfileId(t: Text): Option<Text> {
    if IsProfileId(Trim(t)) then Some(Trim(t)) else None
  }

  function StringField(v: Option<Doc>, max: nat, required: bool, env: Env): Option<Text> {
    if v.None? || !v.value.DString? then
      if !required && (v.None? || v.value.DNull?) then Some([]) else None
    else
      var trimmed := Trim(v.value.s);
      if required && trimmed == [] then None
      else if |trimmed| > max then None
      else if trimmed != [] && env.secretLike(trimmed) then None
      else Some(trimmed)
  }

  /** A field that is left out of the result when it is absent or blank. */
  function OptionalField(v: Option<Doc>, max: nat, env: Env): Option<Option<Text>> {
    if v.None? then Some(None) else
      var t := StringField(v, max, false, env);
      if t.None? then None else if t.value == [] then Some(None) else Some(Some(t.value))
  }

  function StringItems(items: seq<Doc>, max: nat, env: Env): Option<seq<Text>> {
    if items == [] then Some([]) else
      var first, more := StringField(Some(items[0]), max, true, env), StringItems(items[1..], max, env);
      if first.None? || more.None? then None else Some([first.value] + more.value)
  }

  function StringArray(v: Option<Doc>, maxItems: nat, max: nat, env: Env): Option<seq<Text>> {
    if v.None? || v.value.DNull? then Some([])
    else if !v.value.DArray? || |v.value.items| > maxItems then None
    else StringItems(v.value.items, max, env)
  }

  function ValidateAuth(v: Option<Doc>, env: Env): Option<Option<Request>> {
    if v.None? || v.value.DNull? then Some(None)
    else if !v.value.DObject? then None
    else
      var fields := v.value.fields;
      var strategy := Field(fields, Strategy);
      if strategy == Some(DString(Units("default"))) then Some(Some(Default))
      else if strategy != Some(DString(Units("assume-role"))) then None
      else
        var roleArn := StringField(Field(fields, RoleArn), RESOURCE_NAME_MAX, true, env);
        var externalId := OptionalField(Field(fields, ExternalId), 256, env);
        var sessionName := OptionalField(Field(fields, SessionName), 64, env);
        if roleArn.None? || !IsValidRoleArn(roleArn.value) || externalId.None? || sessionName.None? then None
        else Some(Some(AssumeRole(roleArn.value, externalId.value, sessionName.value)))
  }

  // ----- what validated values look like

  /** Trimmed, not empty, short enough and not secret-like. */
  predicate GoodText(t: Text, max: nat, env: Env) {
    t != [] && Trimmed(t) && |t| <= max && !env.secretLike(t)
  }

  predicate GoodOption(o: Option<Text>, max: nat, env: Env) {
    o.Some? ==> GoodText(o.value, max, env)
  }

  predicate GoodTexts(ts: seq<Text>, maxItems: nat, max: nat, env: Env) {
    |ts| <= maxItems && forall i :: 0 <= i < |ts| ==> GoodText(ts[i], max, env)
  }

  predicate GoodAuth(a: Option<Request>, env: Env) {
    a.Some? && a.value.AssumeRole? ==>
      && GoodText(a.value.roleArn, 256, env) && IsValidRoleArn(a.value.roleArn)
      && GoodOption(a.value.externalId, 256, env) && GoodOption(a.value.sessionName, 64, env)
  }

  // ----- validated values as documents

  function WithText(fields: map<Name, Doc>, name: Name, o: Option<Text>): map<Name, Doc> {
    if o.Some? then fields[name := DString(o.value)] else fields
  }

  function TextDocs(ts: seq<Text>): (r: seq<Doc>)
    ensures |r| == |ts|
  {
    if ts == [] then [] else [DString(ts[0])] + TextDocs(ts[1..])
  }

  /** An empty list is left out. */
  function WithTexts(fields: map<Name, Doc>, name: Name, ts: seq<Text>): map<Name, Doc> {
    if ts == [] then fields else fields[name := DArray(TextDocs(ts))]
  }

  function AuthDoc(a: Request): Doc {
    match a
    case Default => DObject(map[Strategy := DString(Units("default"))])
    case AssumeRole(roleArn, externalId, sessionName) =>
      DObject(WithText(WithText(map[Strategy := DString(Units("assume-role")), RoleArn := DString(roleArn)],
                                ExternalId, externalId), SessionName, sessionName))
  }

  function WithAuth(fields: map<Name, Doc>, a: Option<Request>): map<Name, Doc> {
    if a.Some? then fields[Auth := AuthDoc(a.value)] else fields
  }

  // ----- validators produce good values and accept them unchanged

  lemma RequiredField(v: Option<Doc>, max: nat, env: Env)
    ensures var r := StringField(v, max, true, env); r.Some? ==> GoodText(r.value, max, env)
    ensures v.Some? && v.value.DString? && GoodText(v.value.s, max, env) ==>
              StringField(v, max, true, env) == Some(v.value.s)
  {
    if v.Some? && v.value.DString? {
      TrimTrims(v.value.s);
      TrimIsIdentityIff(v.value.s);
    }
  }

  lemma OptionalFieldIsGood(v: Option<Doc>, max: nat, env: Env)
    ensures var r := OptionalField(v, max, env); r.Some? ==> GoodOption(r.value, max, env)
    ensures v.Some? && v.value.DString? && GoodText(v.value.s, max, env) ==>
              OptionalField(v, max, env) == Some(Some(v.value.s))
  {
    if v.Some? && v.value.DString? {
      TrimTrims(v.value.s);
      TrimIsIdentityIff(v.value.s);
    }
  }

  lemma {:induction false} StringItemsAreGood(items: seq<Doc>, max: nat, env: Env)
    ensures var r := StringItems(items, max, env);
            r.Some? ==> |r.value| == |items| && forall i :: 0 <= i < |r.value| ==> GoodText(r.value[i], max, env)
  {
    if items != [] {
      RequiredField(Some(items[0]), max, env);
      StringItemsAreGood(items[1..], max, env);
    }
  }

  lemma StringItemsCons(first: Doc, more: seq<Doc>, max: nat, env: Env)
    ensures var t, ts := StringField(Some(first), max, true, env), StringItems(more, max, env);
            t.Some? && ts.Some? ==> StringItems([first] + more, max, env) == Some([t.value] + ts.value)
  {
    assert ([first] + more)[0] == first && ([first] + more)[1..] == more;
  }

  lemma {:induction false} GoodItemsAccepted(ts: seq<Text>, max: nat, env: Env)
    requires forall i :: 0 <= i < |ts| ==> GoodText(ts[i], max, env)
    ensures StringItems(TextDocs(ts), max, env) == Some(ts)
  {
    if ts != [] {
      RequiredField(Some(DString(ts[0])), max, env);
      GoodItemsAccepted(ts[1..], max, env);
      StringItemsCons(DString(ts[0]), TextDocs(ts[1..]), max, env);
      assert ts == [ts[0]] + ts[1..];
    }
  }

  lemma StringArrayIsGood(v: Option<Doc>, maxItems: nat, max: nat, env: Env)
    ensures var r := StringArray(v, maxItems, max, env); r.Some? ==> GoodTexts(r.value, maxItems, max, env)
  {
    if v.Some? && v.value.DArray? {
      StringItemsAreGood(v.value.items, max, env);
    }
  }

  lemma GoodArrayAccepted(ts: seq<Text>, maxItems: nat, max: nat, env: Env)
    requires GoodTexts(ts, maxItems, max, env)
    ensures StringArray(Some(DArray(TextDocs(ts))), maxItems, max, env) == Some(ts)
    ensures ts == [] ==> StringArray(None, maxItems, max, env) == Some(ts)
  {
    GoodItemsAccepted(ts, max, env);
  }

  lemma AuthIsGood(v: Option<Doc>, env: Env)
    ensures var r := ValidateAuth(v, env); r.Some? ==> GoodAuth(r.value, env)
  {
    if v.Some? && v.value.DObject? {
      var fields := v.value.fields;
      RequiredField(Field(fields, RoleArn), RESOURCE_NAME_MAX, env);
      OptionalFieldIsGood(Field(fields, ExternalId), 256, env);
      OptionalFieldIsGood(Field(fields, SessionName), 64, env);
    }
  }

  lemma GoodAuthAccepted(a: Request, env: Env)
    requires GoodAuth(Some(a), env)
    ensures ValidateAuth(Some(AuthDoc(a)), env) == Some(Some(a))
  {
    assert |Units("default")| == 7 && |Units("assume-role")| == 11;
    if a.AssumeRole? {
      RequiredField(Some(DString(a.roleArn)), RESOURCE_NAME_MAX, env);
      if a.externalId.Some? {
        OptionalFieldIsGood(Some(DString(a.externalId.value)), 256, env);
      }
      if a.sessionName.Some? {
        OptionalFieldIsGood(Some(DString(a.sessionName.value)), 64, env);
      }
    }
  }

  lemma IdIsTrimmed(t: Text)
    requires IsProfileId(t)
    ensures Trim(t) == t
  {
    assert t[|t| - 1] == t[1..][|t| - 2];
    TrimIsIdentityIff(t);
  }

  lemma ValidatedId(t: Text)
    ensures ValidateProfileId(t).Some? ==> IsProfileId(ValidateProfileId(t).value)
    ensures IsProfileId(t) ==> ValidateProfileId(t) == Some(t)
  {
    if IsProfileId(t) {
      IdIsTrimmed(t);
    }
  }

  lemma {:induction false} JoinedHasComma(ts: seq<Text>)
    requires |ts| >= 2
    ensures 0x2C in JoinComma(ts)
  {
    assert JoinComma(ts)[|ts[0]|] == 0x2C;
  }

  lemma {:induction false} TrimKeeps(t: Text, u: CodeUnit)
    requires u in t && !IsSpace(u)
    ensures u in Trim(t)
  {
    StartKeeps(t, u);
    EndKeeps(TrimStart(t), u);
  }

  lemma {:induction false} StartKeeps(t: Text, u: CodeUnit)
    requires u in t && !IsSpace(u)
    ensures u in TrimStart(t)
  {
    if IsSpace(t[0]) {
      StartKeeps(t[1..], u);
    }
  }

  lemma {:induction false} EndKeeps(t: Text, u: CodeUnit)
    requires u in t && !IsSpace(u)
    ensures u in TrimEnd(t)
  {
    if IsSpace(t[|t| - 1]) {
      EndKeeps(t[..|t| - 1], u);
    }
  }

  /** An id that is given as a list is accepted exactly when the list has one element and that is accepted. */
  lemma IdOfList(items: seq<Doc>)
    ensures ValidateProfileId(JsString(DArray(items))) ==
            if |items| == 1 then ValidateProfileId(JsString(items[0])) else None
  {
    var ts := JsStrings(items);
    StringsOfItems(items);
    if |items| >= 2 {
      JoinedHasComma(ts);
      TrimKeeps(JoinComma(ts), 0x2C);
      assert !IsProfileId(Trim(JoinComma(ts)));
    } else if |items| == 0 {
      assert Trim([]) == [];
    }
  }

  lemma {:induction false} StringsOfItems(items: seq<Doc>)
    ensures |JsStrings(items)| == |items| && (items != [] ==> JsStrings(items)[0] == JsString(items[0]))
  {
    if items != [] {
      StringsOfItems(items[1..]);
    }
  }
}
