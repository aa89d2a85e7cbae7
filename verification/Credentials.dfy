/** The STS credential cache (src/aws/credentials/resolver.ts and helpers.ts). */
module Credentials {
  import opened Wrappers
  import opened JsText
  import opened RoleArns

  const CREDENTIAL_REFRESH_MARGIN_MS := 300_000

  datatype Source = FromDefault | FromAssumeRole

  /** `expiresAt` is None when it is absent or not a number. */
  datatype AwsCredentials = AwsCredentials(accessKeyId: Text, secretAccessKey: Text, sessionToken: Option<Text>,
                                           expiresAt: Option<int>, source: Option<Source>)

  datatype Request =
    | Default
    | AssumeRole(roleArn: Text, externalId: Option<Text>, sessionName: Option<Text>)

  datatype ResolveError = InvalidRoleArn | StsFailed

  function WithDefaultSource(c: AwsCredentials): AwsCredentials {
    c.(source := Some(FromDefault))
  }

  /** An empty external id counts as none. */
  function NormalExternalId(externalId: Option<Text>): Option<Text> {
    if externalId == Some([]) then None else externalId
  }

  predicate Blank(externalId: Option<Text>) {
    match externalId
    case None => true
    case Some(id) => |id| == 0
  }

  predicate SameExternalId(x: Option<Text>, y: Option<Text>) {
    x == y || (Blank(x) && Blank(y))
  }

  function Material(roleArn: Text, externalId: Option<Text>): Text {
    var e := NormalExternalId(externalId);
    if e.Some? then roleArn + [0] + e.value else roleArn
  }

  /** For valid role ARNs the key material determines the ARN and the external id. */
  lemma MaterialInjective(a: Text, x: Option<Text>, b: Text, y: Option<Text>)
    requires IsValidRoleArn(a) && IsValidRoleArn(b)
    ensures Material(a, x) == Material(b, y) <==> a == b && SameExternalId(x, y)
  {
    ValidArnHasNoNul(a);
    ValidArnHasNoNul(b);
    var s, t := Material(a, x), Material(b, y);
    assert s[..|a|] == a && t[..|b|] == b;
    assert forall i :: 0 <= i < |a| ==> s[i] == a[i];
    assert forall i :: 0 <= i < |b| ==> t[i] == b[i];
    assert |s| > |a| ==> s[|a|] == 0 && s[|a| + 1..] == NormalExternalId(x).value;
    assert |t| > |b| ==> t[|b|] == 0 && t[|b| + 1..] == NormalExternalId(y).value;
    if s == t {
      assert |a| == |b|;
    }
  }

  predicate IsNearExpiry(c: AwsCredentials, now: int) {
    c.expiresAt.None? || c.expiresAt.value == 0 || c.expiresAt.value - now <= CREDENTIAL_REFRESH_MARGIN_MS
  }

  type Cache = map<Text, AwsCredentials>

  function KeyOf(sha256Hex: Text -> Text, request: Request): Text
    requires request.AssumeRole?
  {
    sha256Hex(Material(request.roleArn, request.externalId))
  }

  /** A usable cached credential, if there is one. */
  function LookUp(sha256Hex: Text -> Text, cache: Cache, request: Request, now: int): Option<AwsCredentials>
    requires request.AssumeRole?
  {
    var key := KeyOf(sha256Hex, request);
    if key in cache && !IsNearExpiry(cache[key], now) then Some(cache[key]) else None
  }

  /** What one undisturbed `resolve` returns; `sts` is what STS answers if it is asked. */
  function Resolved(sha256Hex: Text -> Text, defaults: AwsCredentials, cache: Cache, request: Request, now: int,
                    sts: Option<AwsCredentials>): Result<AwsCredentials, ResolveError> {
    match request
    case Default => Success(WithDefaultSource(defaults))
    case AssumeRole(roleArn, _, _) =>
      if !IsValidRoleArn(roleArn) then Failure(InvalidRoleArn) else
        var cached := LookUp(sha256Hex, cache, request, now);
        if cached.Some? then Success(cached.value)
        else if sts.Some? then Success(sts.value)
        else Failure(StsFailed)
  }

  class CredentialResolver {
    const sha256Hex: Text -> Text
    const defaults: AwsCredentials
    var cache: Cache

    constructor (sha256Hex: Text -> Text, defaults: AwsCredentials)
      ensures cache == map[] && this.sha256Hex == sha256Hex && this.defaults == defaults
    {
      this.sha256Hex := sha256Hex;
      this.defaults := defaults;
      cache := map[];
    }

    /** The part of `resolve` before the STS request is awaited. */
    method Begin(request: Request, now: int) returns (cached: Option<AwsCredentials>)
      requires request.AssumeRole? && IsValidRoleArn(request.roleArn)
      ensures cached == LookUp(sha256Hex, cache, request, now)
    {
      var key := KeyOf(sha256Hex, request);
      cached := if key in cache && !IsNearExpiry(cache[key], now) then Some(cache[key]) else None;
    }

    /** The part after it: STS has answered this request. */
    method Finish(request: Request, issued: AwsCredentials) returns (r: AwsCredentials)
      requires request.AssumeRole? && IsValidRoleArn(request.roleArn)
      modifies this
      ensures r == issued && cache == old(cache)[KeyOf(sha256Hex, request) := issued]
    {
      cache := cache[KeyOf(sha256Hex, request) := issued];
      r := issued;
    }

    method Resolve(request: Request, now: int, sts: Option<AwsCredentials>)
      returns (r: Result<AwsCredentials, ResolveError>, askedSts: bool)
      modifies this
      ensures r == Resolved(sha256Hex, defaults, old(cache), request, now, sts)
      ensures askedSts <==> request.AssumeRole? && IsValidRoleArn(request.roleArn) &&
                            LookUp(sha256Hex, old(cache), request, now).None?
      ensures cache == if askedSts && sts.Some? then old(cache)[KeyOf(sha256Hex, request) := sts.value] else old(cache)
    {
      askedSts := false;
      if request.Default? {
        return Success(WithDefaultSource(defaults)), false;
      }
      if !IsValidRoleArn(request.roleArn) {
        return Failure(InvalidRoleArn), false;
      }
      var cached := Begin(request, now);
      if cached.Some? {
        return Success(cached.value), false;
      }
      if sts.None? {
        return Failure(StsFailed), true;
      }
      var c := Finish(request, sts.value);
      return Success(c), true;
    }
  }

  // ----- interleaved runs

  /** STS answered `request` with `issued`, and the resolver stored it. Lookups change nothing. */
  datatype Issue = Issue(request: Request, issued: AwsCredentials)

  /** Every issue of a run belongs to a checked assume-role request. */
  ghost predicate WellIssued(run: seq<Issue>) {
    forall i :: 0 <= i < |run| ==> run[i].request.AssumeRole? && IsValidRoleArn(run[i].request.roleArn)
  }

  /** The cache after the stores of a run, whatever lookups and pending requests lie between them. */
  function CacheAfter(sha256Hex: Text -> Text, run: seq<Issue>): Cache
    requires forall i :: 0 <= i < |run| ==> run[i].request.AssumeRole?
  {
    if run == [] then map[] else
      var last := run[|run| - 1];
      CacheAfter(sha256Hex, run[..|run| - 1])[KeyOf(sha256Hex, last.request) := last.issued]
  }

  /** Same role and same external id. */
  predicate SameRole(r: Request, s: Request)
    requires r.AssumeRole? && s.AssumeRole?
  {
    r.roleArn == s.roleArn && SameExternalId(r.externalId, s.externalId)
  }

  /** The digest tells the key material of this request apart from that of every request of the run. */
  ghost predicate DigestSeparates(sha256Hex: Text -> Text, run: seq<Issue>, request: Request)
    requires request.AssumeRole? && WellIssued(run)
  {
    forall i :: 0 <= i < |run| && KeyOf(sha256Hex, run[i].request) == KeyOf(sha256Hex, request) ==>
      Material(run[i].request.roleArn, run[i].request.externalId) == Material(request.roleArn, request.externalId)
  }

  /** The last credential issued for the role and external id of `request`. */
  function LastIssued(run: seq<Issue>, request: Request): Option<AwsCredentials>
    requires request.AssumeRole? && forall i :: 0 <= i < |run| ==> run[i].request.AssumeRole?
  {
    if run == [] then None
    else if SameRole(run[|run| - 1].request, request) then Some(run[|run| - 1].issued)
    else LastIssued(run[..|run| - 1], request)
  }

  /** The cache holds, for every role and external id, exactly the last credential issued for it. */
  lemma {:induction false} CacheHoldsLastIssued(sha256Hex: Text -> Text, run: seq<Issue>, request: Request)
    requires request.AssumeRole? && IsValidRoleArn(request.roleArn) && WellIssued(run)
    requires DigestSeparates(sha256Hex, run, request)
    ensures var cache, key := CacheAfter(sha256Hex, run), KeyOf(sha256Hex, request);
            LastIssued(run, request) == if key in cache then Some(cache[key]) else None
  {
    if run != [] {
      var n := |run| - 1;
      var last := run[n];
      MaterialInjective(last.request.roleArn, last.request.externalId, request.roleArn, request.externalId);
      CacheHoldsLastIssued(sha256Hex, run[..n], request);
    }
  }

  lemma {:induction false} LastIssuedWasIssued(run: seq<Issue>, request: Request)
    requires request.AssumeRole? && WellIssued(run) && LastIssued(run, request).Some?
    ensures exists i :: 0 <= i < |run| && SameRole(run[i].request, request) &&
                        run[i].issued == LastIssued(run, request).value
  {
    var n := |run| - 1;
    if !SameRole(run[n].request, request) {
      LastIssuedWasIssued(run[..n], request);
      var i :| 0 <= i < n && SameRole(run[..n][i].request, request)
               && run[..n][i].issued == LastIssued(run[..n], request).value;
      assert run[i] == run[..n][i];
    }
  }

  /**
   In every interleaving, a credential taken from the cache was issued for the same role and
   external id, and has more than the refresh margin left at lookup.
   */
  lemma CachedCredentialIsRight(sha256Hex: Text -> Text, run: seq<Issue>, request: Request, now: int)
    requires request.AssumeRole? && IsValidRoleArn(request.roleArn) && WellIssued(run)
    requires DigestSeparates(sha256Hex, run, request)
    ensures var hit := LookUp(sha256Hex, CacheAfter(sha256Hex, run), request, now);
            hit.Some? ==>
              && (exists i :: 0 <= i < |run| && SameRole(run[i].request, request) && run[i].issued == hit.value)
              && hit.value.expiresAt.Some? && hit.value.expiresAt.value > now + 5 * 60 * 1000
  {
    CacheHoldsLastIssued(sha256Hex, run, request);
    if LookUp(sha256Hex, CacheAfter(sha256Hex, run), request, now).Some? {
      LastIssuedWasIssued(run, request);
    }
  }

  /**
   STS is asked exactly when nothing was issued for the pair before, or what was issued last expires within
   five minutes.
   */
  lemma StsAskedIff(sha256Hex: Text -> Text, run: seq<Issue>, request: Request, now: int)
    requires request.AssumeRole? && IsValidRoleArn(request.roleArn) && WellIssued(run)
    requires DigestSeparates(sha256Hex, run, request)
    ensures var last := LastIssued(run, request);
            LookUp(sha256Hex, CacheAfter(sha256Hex, run), request, now).None? <==>
            !(last.Some? && last.value.expiresAt.Some? && last.value.expiresAt.value != 0
              && last.value.expiresAt.value > now + 5 * 60 * 1000)
  {
    CacheHoldsLastIssued(sha256Hex, run, request);
  }

  /** The session name is not part of the key: a credential issued under one name is returned under any other. */
  lemma SessionNameIsIgnored(sha256Hex: Text -> Text, run: seq<Issue>, issue: Issue, other: Option<Text>, now: int)
    requires WellIssued(run + [issue])
    requires issue.issued.expiresAt.Some? && issue.issued.expiresAt.value != 0
    requires issue.issued.expiresAt.value > now + 5 * 60 * 1000
    ensures issue.request.AssumeRole? &&
            LookUp(sha256Hex, CacheAfter(sha256Hex, run + [issue]), issue.request.(sessionName := other), now) ==
            Some(issue.issued)
  {
    var more := run + [issue];
    assert more[|run|] == issue && more[..|more| - 1] == run;
  }

  /**
   What `resolve` returns after any run of issues: by the last issue of its pair, and by STS only without a
   usable one.
   */
  lemma ResolvedIs(sha256Hex: Text -> Text, defaults: AwsCredentials, run: seq<Issue>, request: Request, now: int,
                   sts: Option<AwsCredentials>)
    requires WellIssued(run)
    requires request.AssumeRole? && IsValidRoleArn(request.roleArn) ==> DigestSeparates(sha256Hex, run, request)
    ensures var r := Resolved(sha256Hex, defaults, CacheAfter(sha256Hex, run), request, now, sts);
            match request
            case Default => r == Success(defaults.(source := Some(FromDefault)))
            case AssumeRole(roleArn, _, _) =>
              if !IsValidRoleArn(roleArn) then r == Failure(InvalidRoleArn)
              else
                var last := LastIssued(run, request);
                if && last.Some? && last.value.expiresAt.Some? && last.value.expiresAt.value != 0
                   && last.value.expiresAt.value > now + 5 * 60 * 1000
                then r == Success(last.value)
                else
                  match sts
                  case Some(issued) => r == Success(issued)
                  case None => r == Failure(StsFailed)
  {
    if request.AssumeRole? && IsValidRoleArn(request.roleArn) {
      CacheHoldsLastIssued(sha256Hex, run, request);
    }
  }
}
