/**
 Tool exposure and the policy gate (src/mcp/tools/packs.ts, policy.ts and cost-control-policy.ts).
 */
module ToolPolicy {
  import opened Wrappers
  import opened JsText
  import opened Regions
  import opened Dates

  datatype DescriptorKind = AwsReadonly | LocalStatus | ChatgptDiscovery

  datatype RegionMode = NoRegion | GlobalRegion | SingleRegion | BoundedMultiRegion

  datatype CostClass = Free | Low | Paid | VolumeSensitive | FanoutSensitive

  datatype CostControl = CostControl(class_: CostClass, requiresCache: bool, timeoutMs: int, maxRegions: Option<int>,
                                     maxDateRangeDays: Option<int>, maxResultCount: Option<int>,
                                     maxLookbackHours: Option<int>, minCacheTtlSeconds: Option<int>)

  /** The arguments of a call, as far as the gate looks at them. A region that is not a string is None. */
  datatype Args = Args(region: Option<Text>, regions: Option<seq<Option<Text>>>, startDate: Option<Text>,
                       endDate: Option<Text>, limit: Option<int>, serviceLimit: Option<int>, hours: Option<int>)

  datatype Manifest = Manifest(name: Text, pack: Text, riskLevel: Text, descriptorKind: DescriptorKind, readonly: bool,
                               services: seq<Text>, actions: seq<Text>, regionMode: RegionMode,
                               requiredScopes: Option<seq<Text>>, auditRegion: Args -> Option<Text>,
                               safetyTimeoutMs: int, cacheTtlSeconds: int, costControl: Option<CostControl>)

  datatype Exposure = Exposure(enabledToolPacks: set<Text>, enabledTools: seq<Text>, disabledTools: set<Text>,
                               maxRiskLevel: Text)

  datatype Gateway = Gateway(exposure: Exposure, knownPacks: set<Text>, allowedRegions: seq<Text>,
                             grantedScopes: seq<Text>, nowMs: int, strictDates: bool)

  // ----- exposure

  /** This manifest passes every exposure filter. */
  predicate Passes(m: Manifest, e: Exposure) {
    && m.pack in e.enabledToolPacks
    && m.name !in e.disabledTools
    && (e.enabledTools == [] || m.name in e.enabledTools)
    && m.riskLevel == e.maxRiskLevel
  }

  function ExposedNames(manifests: seq<Manifest>, e: Exposure): set<Text> {
    set i | 0 <= i < |manifests| && Passes(manifests[i], e) :: manifests[i].name
  }

  method ResolveExposedToolNames(manifests: seq<Manifest>, e: Exposure) returns (exposed: set<Text>)
    ensures exposed == ExposedNames(manifests, e)
  {
    exposed := {};
    for i := 0 to |manifests|
      invariant exposed == ExposedNames(manifests[..i], e)
    {
      var m := manifests[i];
      assert forall j :: 0 <= j <= i ==> manifests[..i + 1][j] == manifests[j];
      assert forall j :: 0 <= j < i ==> manifests[..i][j] == manifests[j];
      assert ExposedNames(manifests[..i + 1], e) ==
             ExposedNames(manifests[..i], e) + if Passes(m, e) then {m.name} else {};
      if m.pack !in e.enabledToolPacks {
        continue;
      }
      if m.name in e.disabledTools {
        continue;
      }
      if |e.enabledTools| > 0 && m.name !in e.enabledTools {
        continue;
      }
      if m.riskLevel != e.maxRiskLevel {
        continue;
      }
      exposed := exposed + {m.name};
    }
    assert manifests[..|manifests|] == manifests;
  }

  // ----- the policy context, without overrides

  datatype Policy = Policy(enabledToolNames: set<Text>, enabledPacks: set<Text>, maxRiskLevel: Text,
                           allowedAwsServices: set<Text>, allowedAwsActions: set<Text>, gateway: Gateway)

  function BuildPolicy(g: Gateway, manifests: seq<Manifest>): Policy {
    var names := ExposedNames(manifests, g.exposure);
    Policy(names, g.exposure.enabledToolPacks, g.exposure.maxRiskLevel,
           set i, s | 0 <= i < |manifests| && manifests[i].name in names && s in manifests[i].services :: s,
           set i, a | 0 <= i < |manifests| && manifests[i].name in names && a in manifests[i].actions :: a,
           g)
  }

  // ----- the gate

  datatype Denial =
    | Malformed | NotEnabled | PackNotEnabled | RiskNotAllowed | ScopeNotGranted
    | MissingAwsMetadata | ServiceNotAllowed | ActionNotAllowed | BadCostControl
    | RegionDenied | DateRangeDenied | ResultCountDenied | LookbackDenied | FanoutDenied

  function ValidateStructure(m: Manifest, g: Gateway): Option<Denial> {
    if m.name == [] || m.pack == [] || m.pack !in g.knownPacks || m.riskLevel == [] || !m.readonly then Some(Malformed)
    else None
  }

  function ValidateGrantedScopes(m: Manifest, g: Gateway): Option<Denial> {
    if m.requiredScopes.None? || m.requiredScopes.value == [] then Some(Malformed)
    else if exists s :: s in m.requiredScopes.value && s !in g.grantedScopes then Some(ScopeNotGranted)
    else None
  }

  function ValidateAwsMetadata(m: Manifest, p: Policy): Option<Denial> {
    if !m.descriptorKind.AwsReadonly? then None
    else if m.services == [] || m.actions == [] then Some(MissingAwsMetadata)
    else if exists s :: s in m.services && s !in p.allowedAwsServices then Some(ServiceNotAllowed)
    else if exists a :: a in m.actions && a !in p.allowedAwsActions then Some(ActionNotAllowed)
    else None
  }

  predicate BadLimit(limit: Option<int>) {
    limit.Some? && limit.value <= 0
  }

  predicate NeedsCache(c: CostClass) {
    c.Paid? || c.VolumeSensitive? || c.FanoutSensitive?
  }

  function ValidateCostControlManifest(m: Manifest): Option<Denial> {
    if m.costControl.None? then Some(BadCostControl) else
      var c := m.costControl.value;
      if c.timeoutMs <= 0 || m.safetyTimeoutMs != c.timeoutMs then Some(BadCostControl)
      else if BadLimit(c.maxRegions) || BadLimit(c.maxDateRangeDays) || BadLimit(c.maxResultCount)
              || BadLimit(c.maxLookbackHours) || BadLimit(c.minCacheTtlSeconds) then Some(BadCostControl)
      else if (if m.descriptorKind.AwsReadonly? then c.class_.Free? else !c.class_.Free? || c.requiresCache)
      then Some(BadCostControl)
      else if NeedsCache(c.class_) && (!c.requiresCache || c.minCacheTtlSeconds.None?
                                       || m.cacheTtlSeconds < c.minCacheTtlSeconds.value)
      then Some(BadCostControl)
      else None
  }

  /** The string elements of the `regions` argument. */
  function StringsOf(regions: seq<Option<Text>>): seq<Text> {
    if regions == [] then []
    else (if regions[0].Some? then [regions[0].value] else []) + StringsOf(regions[1..])
  }

  function RequestedRegions(args: Args): Option<seq<Text>> {
    if args.regions.Some? then Some(StringsOf(args.regions.value)) else None
  }

  function RequestedRegion(m: Manifest, args: Args): Option<Text> {
    var audited := m.auditRegion(args);
    if audited.Some? then audited else args.region
  }

  function ValidateRequestedRegions(m: Manifest, g: Gateway, args: Args): Option<Denial> {
    if m.regionMode.NoRegion? || m.regionMode.GlobalRegion? then None
    else if g.allowedRegions == [] then Some(RegionDenied)
    else if m.regionMode.SingleRegion? then
      var region := RequestedRegion(m, args);
      if region.Some? && region.value != [] && ValidateRegion(region.value, g.allowedRegions).Some?
      then Some(RegionDenied) else None
    else
      var requested := RequestedRegions(args);
      if requested.Some? && requested.value != [] && ResolveRegions(requested, g.allowedRegions).Failure?
      then Some(RegionDenied)
      else None
  }

  predicate Exceeds(value: Option<int>, max: Option<int>) {
    max.Some? && value.Some? && value.value > max.value
  }

  /** The most regions one call of this tool may resolve to. */
  function EffectiveMax(c: CostControl, allowedRegions: seq<Text>): int {
    var configured := if c.maxRegions.Some? then c.maxRegions.value else |allowedRegions|;
    if configured <= |allowedRegions| then configured else |allowedRegions|
  }

  ghost function ValidateCostControlRequest(m: Manifest, g: Gateway, args: Args): Option<Denial> {
    if m.costControl.None? then Some(BadCostControl) else
      var c := m.costControl.value;
      if c.maxDateRangeDays.Some? && args.startDate.Some? && args.endDate.Some?
         && ValidateCostDates(args.startDate.value, args.endDate.value, c.maxDateRangeDays.value, g.nowMs,
                              g.strictDates) != RangeOk
      then Some(DateRangeDenied)
      else if Exceeds(args.limit, c.maxResultCount) || Exceeds(args.serviceLimit, c.maxResultCount)
      then Some(ResultCountDenied)
      else if Exceeds(args.hours, c.maxLookbackHours) then Some(LookbackDenied)
      else if m.regionMode.BoundedMultiRegion? then
        var resolved := ResolveRegions(RequestedRegions(args), g.allowedRegions);
        if resolved.Failure? then Some(RegionDenied)
        else if |resolved.value| > EffectiveMax(c, g.allowedRegions) then Some(FanoutDenied)
        else None
      else None
  }

  /** evaluateToolPolicy: the stages in order; None allows the call. */
  ghost function EvaluateToolPolicy(m: Manifest, p: Policy, args: Args): Option<Denial> {
    var g := p.gateway;
    if ValidateStructure(m, g).Some? then ValidateStructure(m, g)
    else if m.name !in p.enabledToolNames then Some(NotEnabled)
    else if m.pack !in p.enabledPacks then Some(PackNotEnabled)
    else if m.riskLevel != p.maxRiskLevel then Some(RiskNotAllowed)
    else if ValidateGrantedScopes(m, g).Some? then ValidateGrantedScopes(m, g)
    else if ValidateAwsMetadata(m, p).Some? then ValidateAwsMetadata(m, p)
    else if ValidateCostControlManifest(m).Some? then ValidateCostControlManifest(m)
    else if ValidateRequestedRegions(m, g, args).Some? then ValidateRequestedRegions(m, g, args)
    else ValidateCostControlRequest(m, g, args)
  }

  // ----- exactly which calls are allowed

  /** A limit that is set is positive. */
  predicate Positive(limit: Option<int>) {
    match limit
    case Some(n) => n >= 1
    case None => true
  }

  /** A value that is given stays within a limit that is set. */
  predicate Within(value: Option<int>, limit: Option<int>) {
    value.Some? && limit.Some? ==> value.value <= limit.value
  }

  /** Only AWS tools may cost anything, and what costs more than little is cached for long enough. */
  predicate SoundCostControl(m: Manifest) {
    m.costControl.Some? &&
    var c := m.costControl.value;
    && c.timeoutMs >= 1 && m.safetyTimeoutMs == c.timeoutMs
    && Positive(c.maxRegions) && Positive(c.maxDateRangeDays) && Positive(c.maxResultCount)
    && Positive(c.maxLookbackHours) && Positive(c.minCacheTtlSeconds)
    && (m.descriptorKind.AwsReadonly? <==> c.class_ != Free)
    && (!m.descriptorKind.AwsReadonly? ==> !c.requiresCache)
    && (c.class_ in {Paid, VolumeSensitive, FanoutSensitive} ==>
          c.requiresCache && c.minCacheTtlSeconds.Some? && m.cacheTtlSeconds >= c.minCacheTtlSeconds.value)
  }

  /** Dates that are both given are valid, in order, at most `maxDays` days apart and not in the future. */
  ghost predicate DatesWithin(args: Args, maxDays: Option<int>, g: Gateway) {
    args.startDate.Some? && args.endDate.Some? && maxDays.Some? ==>
      var start, end := ParseIsoDate(args.startDate.value, g.strictDates),
                        ParseIsoDate(args.endDate.value, g.strictDates);
      && start.Some? && end.Some? && args.startDate.value != args.endDate.value
      && LexLe(args.startDate.value, args.endDate.value)
      && end.value - start.value <= maxDays.value && end.value * 86_400_000 <= g.nowMs
  }

  /** The texts among the requested regions; a call without a list names none. */
  function Named(args: Args): seq<Text> {
    if args.regions.Some? then StringsOf(args.regions.value) else []
  }

  /** The region that a single-region call asks for: the audited one, or else its argument. */
  function AskedRegion(m: Manifest, args: Args): Option<Text> {
    match m.auditRegion(args)
    case Some(audited) => Some(audited)
    case None => args.region
  }

  predicate RegionsWithin(m: Manifest, g: Gateway, args: Args) {
    match m.regionMode
    case NoRegion => true
    case GlobalRegion => true
    case SingleRegion =>
      var asked := AskedRegion(m, args);
      |g.allowedRegions| > 0 && (asked.Some? && |asked.value| > 0 ==> asked.value in g.allowedRegions)
    case BoundedMultiRegion =>
      var named := Named(args);
      var wide := if |named| == 0 then |g.allowedRegions| else |named|;
      && 0 < wide <= |g.allowedRegions| && (forall r :: r in named ==> r in g.allowedRegions)
      && (m.costControl.Some? ==> Within(Some(wide), m.costControl.value.maxRegions))
  }

  /** Everything that a call needs, apart from its tool being enabled and its AWS actions being allowed. */
  ghost predicate SoundCall(m: Manifest, g: Gateway, args: Args) {
    && |m.name| > 0 && |m.pack| > 0 && |m.riskLevel| > 0 && m.readonly && m.pack in g.knownPacks
    && (match m.requiredScopes
        case Some(scopes) => |scopes| > 0 && forall s :: s in scopes ==> s in g.grantedScopes
        case None => false)
    && (m.descriptorKind.AwsReadonly? ==> |m.services| > 0 && |m.actions| > 0)
    && SoundCostControl(m)
    && DatesWithin(args, m.costControl.value.maxDateRangeDays, g)
    && Within(args.limit, m.costControl.value.maxResultCount)
    && Within(args.serviceLimit, m.costControl.value.maxResultCount)
    && Within(args.hours, m.costControl.value.maxLookbackHours)
    && RegionsWithin(m, g, args)
  }

  predicate EnabledTool(m: Manifest, p: Policy) {
    m.name in p.enabledToolNames && m.pack in p.enabledPacks && m.riskLevel == p.maxRiskLevel
  }

  predicate AllowedActions(m: Manifest, p: Policy) {
    m.descriptorKind.AwsReadonly? ==>
      && (forall s :: s in m.services ==> s in p.allowedAwsServices)
      && (forall a :: a in m.actions ==> a in p.allowedAwsActions)
  }

  lemma CostManifestIff(m: Manifest)
    ensures ValidateCostControlManifest(m).None? <==> SoundCostControl(m)
  {
  }

  lemma ScopesAndActionsIff(m: Manifest, p: Policy)
    ensures ValidateGrantedScopes(m, p.gateway).None? && ValidateAwsMetadata(m, p).None? <==>
            && m.requiredScopes.Some? && |m.requiredScopes.value| > 0
            && (forall s :: s in m.requiredScopes.value ==> s in p.gateway.grantedScopes)
            && (m.descriptorKind.AwsReadonly? ==> |m.services| > 0 && |m.actions| > 0) && AllowedActions(m, p)
  {
  }

  lemma DatesIff(args: Args, maxDays: Option<int>, g: Gateway)
    ensures DatesWithin(args, maxDays, g) <==>
            (maxDays.Some? && args.startDate.Some? && args.endDate.Some? ==>
               ValidateCostDates(args.startDate.value, args.endDate.value, maxDays.value, g.nowMs, g.strictDates) ==
                 RangeOk)
  {
    if maxDays.Some? && args.startDate.Some? && args.endDate.Some? {
      var s, t := args.startDate.value, args.endDate.value;
      CostRangeAcceptedIff(s, t, maxDays.value, g.nowMs, g.strictDates);
      if ParseIsoDate(s, g.strictDates).Some? && ParseIsoDate(t, g.strictDates).Some? {
        StringOrderIsDayOrder(s, t, g.strictDates);
      }
    }
  }

  lemma FanOutIff(m: Manifest, g: Gateway, args: Args)
    requires m.regionMode.BoundedMultiRegion? && m.costControl.Some?
    ensures var resolved := ResolveRegions(RequestedRegions(args), g.allowedRegions);
            RegionsWithin(m, g, args) <==>
            resolved.Success? && |resolved.value| <= EffectiveMax(m.costControl.value, g.allowedRegions)
  {
  }

  lemma RegionsIff(m: Manifest, g: Gateway, args: Args)
    requires m.costControl.Some?
    ensures var resolved := ResolveRegions(RequestedRegions(args), g.allowedRegions);
            RegionsWithin(m, g, args) <==>
            && ValidateRequestedRegions(m, g, args).None?
            && (m.regionMode.BoundedMultiRegion? ==>
                  resolved.Success? && |resolved.value| <= EffectiveMax(m.costControl.value, g.allowedRegions))
  {
    if m.regionMode.BoundedMultiRegion? {
      FanOutIff(m, g, args);
    }
  }

  /** Past the cost-control metadata, the request passes exactly when it stays within its limits and regions. */
  lemma RequestIff(m: Manifest, g: Gateway, args: Args)
    requires m.costControl.Some?
    ensures ValidateRequestedRegions(m, g, args).None? && ValidateCostControlRequest(m, g, args).None? <==>
            && DatesWithin(args, m.costControl.value.maxDateRangeDays, g)
            && Within(args.limit, m.costControl.value.maxResultCount)
            && Within(args.serviceLimit, m.costControl.value.maxResultCount)
            && Within(args.hours, m.costControl.value.maxLookbackHours)
            && RegionsWithin(m, g, args)
  {
    DatesIff(args, m.costControl.value.maxDateRangeDays, g);
    RegionsIff(m, g, args);
  }

  /** A tool with regions has none to use, or names one that is not allowed. */
  predicate NamesOutside(m: Manifest, g: Gateway, args: Args) {
    match m.regionMode
    case NoRegion => false
    case GlobalRegion => false
    case SingleRegion =>
      var asked := AskedRegion(m, args);
      |g.allowedRegions| == 0 || (asked.Some? && |asked.value| > 0 && asked.value !in g.allowedRegions)
    case BoundedMultiRegion => |g.allowedRegions| == 0 || exists r :: r in Named(args) && r !in g.allowedRegions
  }

  lemma NamesOutsideIff(m: Manifest, g: Gateway, args: Args)
    ensures ValidateRequestedRegions(m, g, args) == if NamesOutside(m, g, args) then Some(RegionDenied) else None
  {
  }

  /** The stage that denies a call: the first that it does not pass. */
  lemma DenialIs(m: Manifest, p: Policy, args: Args)
    ensures var g, d := p.gateway, EvaluateToolPolicy(m, p, args);
            if !(|m.name| > 0 && |m.pack| > 0 && |m.riskLevel| > 0 && m.readonly && m.pack in g.knownPacks)
            then d == Some(Malformed)
            else if m.name !in p.enabledToolNames then d == Some(NotEnabled)
            else if m.pack !in p.enabledPacks then d == Some(PackNotEnabled)
            else if m.riskLevel != p.maxRiskLevel then d == Some(RiskNotAllowed)
            else if m.requiredScopes.None? || |m.requiredScopes.value| == 0 then d == Some(Malformed)
            else if exists s :: s in m.requiredScopes.value && s !in g.grantedScopes then d == Some(ScopeNotGranted)
            else if m.descriptorKind.AwsReadonly? && (|m.services| == 0 || |m.actions| == 0)
            then d == Some(MissingAwsMetadata)
            else if m.descriptorKind.AwsReadonly? && exists s :: s in m.services && s !in p.allowedAwsServices
            then d == Some(ServiceNotAllowed)
            else if !AllowedActions(m, p) then d == Some(ActionNotAllowed)
            else if !SoundCostControl(m) then d == Some(BadCostControl)
            else if NamesOutside(m, g, args) then d == Some(RegionDenied)
            else
              var c := m.costControl.value;
              if !DatesWithin(args, c.maxDateRangeDays, g) then d == Some(DateRangeDenied)
              else if !Within(args.limit, c.maxResultCount) || !Within(args.serviceLimit, c.maxResultCount)
              then d == Some(ResultCountDenied)
              else if !Within(args.hours, c.maxLookbackHours) then d == Some(LookbackDenied)
              else if !RegionsWithin(m, g, args) then d == Some(FanoutDenied)
              else d == None
  {
    CostManifestIff(m);
    NamesOutsideIff(m, p.gateway, args);
    if SoundCostControl(m) {
      DatesIff(args, m.costControl.value.maxDateRangeDays, p.gateway);
      RegionsIff(m, p.gateway, args);
    }
  }

  /** The gate allows a call if and only if it is sound, of an enabled tool, and only takes allowed AWS actions. */
  lemma CallAllowedIff(m: Manifest, p: Policy, args: Args)
    ensures EvaluateToolPolicy(m, p, args).None? <==>
            SoundCall(m, p.gateway, args) && EnabledTool(m, p) && AllowedActions(m, p)
  {
    CostManifestIff(m);
    ScopesAndActionsIff(m, p);
    if SoundCostControl(m) {
      RequestIff(m, p.gateway, args);
    }
  }

  ghost predicate DistinctNames(manifests: seq<Manifest>) {
    forall i, j :: 0 <= i < j < |manifests| ==> manifests[i].name != manifests[j].name
  }

  /**
   Under the policy of a registry with distinct names, a call of one of its tools is allowed if and only if it is sound
   and the tool passes the exposure filters: its own AWS actions are then allowed.
   */
  lemma RegistryCallAllowedIff(g: Gateway, manifests: seq<Manifest>, k: nat, args: Args)
    requires k < |manifests| && DistinctNames(manifests)
    ensures var m, e := manifests[k], g.exposure;
            EvaluateToolPolicy(m, BuildPolicy(g, manifests), args).None? <==>
            && SoundCall(m, g, args)
            && m.pack in e.enabledToolPacks && m.riskLevel == e.maxRiskLevel && m.name !in e.disabledTools
            && (|e.enabledTools| > 0 ==> m.name in e.enabledTools)
  {
    var m, p := manifests[k], BuildPolicy(g, manifests);
    CallAllowedIff(m, p, args);
    if Passes(m, g.exposure) {
      assert m.name in ExposedNames(manifests, g.exposure);
      assert AllowedActions(m, p);
    }
  }

  // ----- the gate refines the exposure set

  /** The stages that only repeat what exposure has decided. */
  predicate ExposureStage(d: Denial) {
    d.NotEnabled? || d.PackNotEnabled? || d.RiskNotAllowed? || d.ServiceNotAllowed? || d.ActionNotAllowed?
  }

  /**
   For a well-formed manifest of the registry: the exposure stages let it through exactly when its
   name is exposed and it has an enabled pack and the allowed risk level itself.
   */
  lemma ExposureStagesPassIff(g: Gateway, manifests: seq<Manifest>, k: nat, args: Args)
    requires k < |manifests| && ValidateStructure(manifests[k], g).None?
    ensures var m, p := manifests[k], BuildPolicy(g, manifests);
            var denial := EvaluateToolPolicy(m, p, args);
            !(denial.Some? && ExposureStage(denial.value)) <==>
              && m.name in ExposedNames(manifests, g.exposure) && m.pack in g.exposure.enabledToolPacks
              && m.riskLevel == g.exposure.maxRiskLevel
  {
  }

  /**
   With distinct names the exposure stages pass exactly the exposed tools, so an allowed call is of an exposed
   tool.
   */
  lemma GateRefinesExposure(g: Gateway, manifests: seq<Manifest>, k: nat, args: Args)
    requires k < |manifests| && ValidateStructure(manifests[k], g).None? && DistinctNames(manifests)
    ensures var m := manifests[k];
            var denial := EvaluateToolPolicy(m, BuildPolicy(g, manifests), args);
            && (m.name in ExposedNames(manifests, g.exposure) <==> Passes(m, g.exposure))
            && (!(denial.Some? && ExposureStage(denial.value)) <==> Passes(m, g.exposure))
            && (denial.None? ==> Passes(m, g.exposure))
  {
  }

  /**
   Every allowed multi-region call resolves to allowed regions, at most the effective maximum; fewer never deny
   it.
   */
  lemma AllowedFanOutIsBounded(m: Manifest, p: Policy, args: Args)
    requires m.regionMode.BoundedMultiRegion? && EvaluateToolPolicy(m, p, args).None?
    ensures m.costControl.Some?
    ensures var g := p.gateway;
            var resolved := ResolveRegions(RequestedRegions(args), g.allowedRegions);
            && resolved.Success? && resolved.value != []
            && (forall r :: r in resolved.value ==> r in g.allowedRegions)
            && |resolved.value| <= EffectiveMax(m.costControl.value, g.allowedRegions) <= |g.allowedRegions|
            && (m.costControl.value.maxRegions.Some? ==> |resolved.value| <= m.costControl.value.maxRegions.value)
  {
  }

  // ----- what the regions of a request decide

  /** The same call for one allowed region only. */
  function ForOneRegion(args: Args, g: Gateway): Args
    requires g.allowedRegions != []
  {
    args.(regions := Some([Some(g.allowedRegions[0])]))
  }

  predicate Distinct(ts: seq<Text>) {
    forall i, j :: 0 <= i < j < |ts| ==> ts[i] != ts[j]
  }

  lemma {:induction false} DistinctFit(xs: seq<Text>, ys: seq<Text>)
    requires Distinct(xs) && forall x :: x in xs ==> x in ys
    ensures |xs| <= |ys|
    decreases xs
  {
    if xs != [] {
      assert xs[0] in xs;
      var i :| 0 <= i < |ys| && ys[i] == xs[0];
      forall x | x in xs[1..]
        ensures x in ys[..i] + ys[i + 1..]
      {
        assert x in xs;
        var j :| 0 <= j < |ys| && ys[j] == x;
        assert if j < i then ys[..i][j] == x else ys[i + 1..][j - i - 1] == x;
      }
      DistinctFit(xs[1..], ys[..i] + ys[i + 1..]);
    }
  }

  lemma CostControlIsThere(m: Manifest, p: Policy, args: Args)
    requires EvaluateToolPolicy(m, p, args).None?
    ensures m.costControl.Some? && (m.costControl.value.maxRegions.Some? ==> m.costControl.value.maxRegions.value >= 1)
  {
  }

  /** Only the region checks tell a call from the same call for one allowed region. */
  lemma RegionsDecide(m: Manifest, p: Policy, args: Args)
    requires m.regionMode.BoundedMultiRegion? && p.gateway.allowedRegions != []
    requires EvaluateToolPolicy(m, p, ForOneRegion(args, p.gateway)).None?
    ensures m.costControl.Some?
    ensures var g := p.gateway;
            var resolved := ResolveRegions(RequestedRegions(args), g.allowedRegions);
            EvaluateToolPolicy(m, p, args) ==
              if resolved.Failure? then Some(RegionDenied)
              else if |resolved.value| > EffectiveMax(m.costControl.value, g.allowedRegions) then Some(FanoutDenied)
              else None
  {
    CostControlIsThere(m, p, ForOneRegion(args, p.gateway));
  }

  /** The number of regions passes the configured maximum, if there is one. */
  predicate PassesMaximum(n: int, m: Manifest) {
    m.costControl.Some? && m.costControl.value.maxRegions.Some? && n > m.costControl.value.maxRegions.value
  }

  /**
   For a call that would be allowed for one region: without named regions it is denied if and only if the maximum
   is below the number of allowed regions. With named regions it is denied as out of region if and only if one
   of them is not allowed, and otherwise as too wide if and only if they, counted with their repetitions, are more
   than the maximum or more than the allowed regions. Without repetitions only the maximum matters.
   */
  lemma FanoutDeniedIff(m: Manifest, p: Policy, args: Args)
    requires m.regionMode.BoundedMultiRegion? && p.gateway.allowedRegions != []
    requires EvaluateToolPolicy(m, p, ForOneRegion(args, p.gateway)).None?
    ensures var allowed, named, denial := p.gateway.allowedRegions, Named(args), EvaluateToolPolicy(m, p, args);
            && denial in {None, Some(RegionDenied), Some(FanoutDenied)}
            && (denial == Some(RegionDenied) <==> exists r :: r in named && r !in allowed)
            && (named == [] ==> (denial == Some(FanoutDenied) <==> PassesMaximum(|allowed|, m)))
            && (named != [] && (forall r :: r in named ==> r in allowed) ==>
                  && (denial == Some(FanoutDenied) <==> PassesMaximum(|named|, m) || |named| > |allowed|)
                  && (Distinct(named) ==> (denial == Some(FanoutDenied) <==> PassesMaximum(|named|, m))))
  {
    var allowed, named := p.gateway.allowedRegions, Named(args);
    RegionsDecide(m, p, args);
    if Distinct(named) && forall r :: r in named ==> r in allowed {
      DistinctFit(named, allowed);
    }
  }

  /** Repetitions count: the only allowed region, named twice, is denied although no maximum is configured. */
  lemma RepeatedRegionIsDenied(m: Manifest, p: Policy, args: Args, r: Text)
    requires m.regionMode.BoundedMultiRegion? && p.gateway.allowedRegions == [r]
    requires args.regions == Some([Some(r), Some(r)])
    requires EvaluateToolPolicy(m, p, ForOneRegion(args, p.gateway)).None?
    ensures EvaluateToolPolicy(m, p, args) == Some(FanoutDenied)
  {
    assert [Some(r), Some(r)][1..] == [Some(r)];
    assert Named(args) == [r, r];
    FanoutDeniedIff(m, p, args);
  }

  /**
   A single-region call that is allowed without a region is allowed with one if and only if the gate finds it
   blank or listed.
   */
  lemma RegionDeniedIff(m: Manifest, p: Policy, args: Args, region: Option<Text>)
    requires m.regionMode.SingleRegion? && EvaluateToolPolicy(m, p, args.(region := None)).None?
    ensures var call := args.(region := region);
            var asked := RequestedRegion(m, call);
            EvaluateToolPolicy(m, p, call) ==
              if asked.None? || asked.value == [] || asked.value in p.gateway.allowedRegions then None
              else Some(RegionDenied)
  {
  }

  /** An allowed single-region call names no region, or an allowed one. */
  lemma AllowedRegionIsListed(m: Manifest, p: Policy, args: Args)
    requires m.regionMode.SingleRegion? && EvaluateToolPolicy(m, p, args).None?
    ensures var region := RequestedRegion(m, args);
            region.None? || region.value == [] || region.value in p.gateway.allowedRegions
  {
  }
}
