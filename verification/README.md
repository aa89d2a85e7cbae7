# Verified model of the AWS MCP gateway

A Dafny 4.11 model of the parts of the gateway whose guarantees span functions, operations and
whole runs, with proofs. `dafny verify dfyconfig.toml` checks the whole project.

What is modelled, by component:

- **Cache keys** (`JsText`, `JsonText`, `CacheKeys`, `KeyInjectivity`, `KeyCollisions`, `NameMarks`,
  `NameSafety`). A nested value becomes tagged JSON with sorted object keys, parameters become sorted
  `name=value` parts. The encoding is self-delimiting and injective up to key order; the whole pre-hash text
  is injective for tool names without `:` and parameter names without `=`. Names are not escaped, so without
  that restriction calls collide. A parameter name is safe unless it reads `y=value&k` with `y` sorted
  before `k`: over safe names the text is injective, and every other name makes some call of that one
  parameter collide.
- **Cached list calls** (`Sequences`, `Collations`, `Sorting`, `FanOut`, `AwsLists`, `CachedLists`,
  `AnswerContents`, `AnswerOrder`, `CacheStore`, `CacheRefinement`). `listAlarms`, `listInstances` and
  `listFunctions` sort regions and filters into the key, query the regions in request order, merge and sort.
  The sorted merge does not depend on the order of the regions, so a cache that loses entries and fails at
  will still refines the uncached calls. Success, error and every element of an answer are stated from what
  the service returned.
- **Rate limiter** (`RateLimit`). Claims about whole runs, for any clock and for a non-decreasing one.
- **Profile store** (`Trimming`, `ProfileDocs`, `ProfileValidation`, `ProfileReading`, `ProfileRoundTrip`,
  `ProfileIndex`, `IndexText`, `ProfileStore`, `ProfileRuns`, `ProfileOverlaps`, `ProfileAgreement`,
  `ProfileLimits`). What the validators accept, exactly, and that they accept their own output, the algebra
  of the index, the two-write operations of the command line over a key-value store, their interleavings and
  crashes, the readers of the Worker, exactly what an overlap can lose, and the runs after which the command
  line is stuck.
- **Telemetry and billing** (`Telemetry`, `RuntimeFacts`, `Billing`, `RunTotals`, `Interleavings`). The
  exact request count and cost through the collector, the merge loop and the back-fill loop, its
  independence from the interleaving of concurrent recorders, and when a call is charged.
- **STS credential cache** (`RoleArns`, `Credentials`), **JSONC comments** (`Jsonc`, `JsoncProperties`,
  `JsoncTokens`), **dates** (`Dates`), **paging loops** (`Paging`), **tool policy** (`ToolPolicy`,
  `Regions`).

Conventions. A JavaScript string is a sequence of UTF-16 code units. `undefined` and thrown errors are
`Option` and `Result` values; in the profile validators `None` stands for a thrown validation error.
Code that updates state step by step is a method or a class, proved against a specification function
that the lemmas are about; expressions and recursion are functions. Each `await` is an interleaving
point. Failures of reads and writes, clocks, server replies, and crash points are parameters.

Where the code differs from what one would expect, the model follows the code:

- Parameter names and tool names are not escaped in the key text (`NameSafety.CutNameCollidesIff`,
  `KeyCollisions.ToolsCollideIff`).
- Manifest rows that share a (service, action) pair, as the three budgets capabilities do
  (`src/aws/capabilities.ts:342-362`), each report the whole total (`Billing.RowsOfPair`,
  `RunTotals.RunCountIs`).
- The command line writes an index of any size and refuses to read one of more than 16384 bytes. Valid puts
  alone can take it there, and no operation leads back (`ProfileLimits.ValidPutsGetStuck`).
- An index write puts back what its operation had read. Overlapping operations lose an entry exactly when it
  changed in between (`ProfileOverlaps.LosesIff`), and leave an id listed without a document exactly when
  they write back an entry whose document was deleted last (`ProfileOverlaps.DanglesIff`).
- Regions that a call repeats count each time against the fan-out limit
  (`ToolPolicy.RepeatedRegionIsDenied`).
- The first request of a window is allowed even under a limit of zero
  (`RateLimit.FirstRequestsOfWindowAllowed`).
- The credential cache ignores the session name (`Credentials.SessionNameIsIgnored`).

## Model

| member | source | states |
|---|---|---|
| CacheKeys.SameValueIffCanonical | src/cache/keys.ts:12-33 | the tagged tree of a value, as printed, is the same for two well-formed values exactly when they are the same value up to the order of object keys at any depth |
| CacheKeys.PairsAgree | src/cache/keys.ts:24-31 | the sorted key/value pairs of two objects coincide exactly when their sorted names coincide and every shared name has the same canonical value |
| JsonText.PrintReadsBack | src/cache/keys.ts:35-37 | printed JSON is self-delimiting: whatever may follow it, a parser recovers exactly the printed tree (numbers as printed) and leaves exactly the rest, for every depth and every string |
| JsonText.StringReadsBack | src/cache/keys.ts:35-37 | a quoted string, with quotes, backslashes, control characters, surrogate pairs and lone surrogates, reads back to the same code units |
| KeyInjectivity.SerializedReadsBack | src/cache/keys.ts:35-37 | parsing an encoded value followed by any rest that cannot extend a number gives the canonical tree and the rest |
| KeyInjectivity.ValueEncodingInjective | src/cache/keys.ts:12-37 | if enc(v)+s equals enc(w)+t then s = t and v, w are the same value up to key order |
| KeyInjectivity.DecodeEncoded | src/cache/keys.ts:12-37 | a decoder recovers from an encoded value the value with sorted keys and canonical numbers, and leaves the rest of the text |
| KeyInjectivity.RestoredIsSame | src/cache/keys.ts:12-33 | the decoded value is well-formed, the same value as the encoded one, and lists object keys in sorted order |
| KeyInjectivity.KeyTextIgnoresOrder | src/cache/keys.ts:39-61 | reordering parameters, or object keys at any depth, does not change the text that is hashed |
| KeyInjectivity.KeyTextInjective | src/cache/keys.ts:39-61 | for tool names without ':' and parameter names without '=', equal pre-hash texts mean the same tool and the same parameters up to order |
| KeyCollisions.UnrestrictedNamesCollide | src/cache/keys.ts:39-43 | without the restriction on names, every call with two or more parameters shares its pre-hash text with a different call of one parameter |
| KeyCollisions.ToolsCollideIff | src/cache/keys.ts:53-61 | two different tool names without '=' can share a pre-hash text exactly when one is the other followed by ':' and more |
| NameMarks.PrintHasNoMark | src/cache/keys.ts:12-37 | the opening `={"t` of an encoded parameter value never starts inside the text of an encoded value |
| NameSafety.LastMark | src/cache/keys.ts:39-43 | a text that ends in `=value` determines where its last value begins and, up to key order, which value it is, whatever `=` and values stand before it |
| NameSafety.SingleParamSharesIff | src/cache/keys.ts:39-43 | a given call of two or more parameters shares its pre-hash text with exactly the one-parameter calls of one name and one value: the text of all but its last value, and that value |
| NameSafety.SafeNamesInjective | src/cache/keys.ts:39-61 | for tool names without ':' and parameter names that do not read `y=value&k` with y sorted before k, equal pre-hash texts mean the same tool and the same parameters up to order |
| NameSafety.PlainNamesAreSafe | src/cache/keys.ts:39-43 | a name without '=' never reads that way, so that the injectivity over safe names covers the plain ones |
| NameSafety.CutNameCollidesIff | src/cache/keys.ts:39-43 | for every name: some call of that one parameter shares its pre-hash text with a different call, of whatever names, if and only if the name reads `y=value&k` with y sorted before k |
| NameSafety.VocabularyIsUnambiguousIff | src/cache/keys.ts:39-43 | a set of allowed names without such names is unambiguous for all calls over it, and a set that is closed under cutting names up is unambiguous only then |
| FanOut.MergeOutcomes | src/aws/cloudwatch/client.ts:64-74 | the loop over settled outcomes returns the items of the fulfilled regions in request order and the reasons of the rejected ones |
| FanOut.Settle | src/aws/cloudwatch/client.ts:76-90 | the step from settled outcomes to the call's answer computes the specification that the next rows and AnswerContents characterise |
| FanOut.CombineIs | src/aws/ec2/client.ts:70-100 | a call succeeds if and only if some region came back with something or no region failed; a failure is that of the first rejected region, passed on when it is an AWS request error and `all regions failed` otherwise; a success holds every item as often as the fulfilled regions together do |
| FanOut.ClassOfMerge | src/aws/ec2/client.ts:70-100 | what ties with an item in the merge is its own region's tied items, once per request of that region |
| FanOut.FanOutIgnoresRegionOrder | src/aws/cloudwatch/client.ts:58-90 | for every permutation of the requested regions, repeated ones included, the call succeeds or fails alike and a success is the same sequence, provided ties stay inside one region |
| AwsLists.AlarmsSeparate | src/aws/cloudwatch/parse.ts:52-59 | the alarm comparator ties only alarms of one region, and every alarm of a query carries its region |
| AwsLists.InstancesSeparate | src/aws/ec2/client.ts:96-100 | the instance comparator is a total preorder that ties only instances of one region, and every instance of a query carries its region |
| AwsLists.FunctionsSeparate | src/aws/lambda/client.ts:95-105 | the function comparator ties only functions of one region, and every function of a query carries its region |
| AwsLists.AlarmQueryIgnoresFilterOrder | src/aws/cloudwatch/describe.ts:14-69 | permuting the state filter does not change what any region answers to an alarm query |
| Sorting.SortStable | src/aws/cloudwatch/client.ts:90-90 | sorting keeps the order of tied elements |
| Sorting.SortFixedByClasses | src/aws/cloudwatch/client.ts:90-90 | two inputs whose tie classes agree sort to the same sequence |
| Sorting.SortOfPermutation | src/cache/keys.ts:24-28 | under a total order, permutations of one another sort to the same sequence |
| CachedLists.CollectAlarms | src/aws/cloudwatch/describe.ts:20-62 | the token loop ends at the first reply without a token, an empty one included, with the normalised alarms of all replies in order, and fails with the reason of the first rejected request, on whatever page |
| CachedLists.DescribeAlarmsInRegion | src/aws/cloudwatch/describe.ts:14-69 | one region answers the alarms of its whole listing, filtered by state when several states are asked for, or rejects when some request of the listing does |
| CachedLists.DescribeInstancesInRegion | src/aws/ec2/client.ts:41-66 | the nested reservation and instance loops return every parsed instance in order |
| CachedLists.ListAlarms | src/aws/cloudwatch/client.ts:35-101 | returns the cached answer or else the uncached one, writes back exactly a successful answer after a miss, and records exactly one cache status once the checks pass |
| CachedLists.ListInstances | src/aws/ec2/client.ts:19-111 | returns the cached answer or else the uncached one, writes back exactly a successful answer after a miss, and records exactly one cache status once the checks pass |
| CachedLists.ListFunctions | src/aws/lambda/client.ts:29-114 | returns the cached answer or else the uncached one, cut to the limit; writes back exactly a successful answer after a miss, and records exactly one cache status once the checks pass |
| CachedLists.CallIs | src/aws/lambda/client.ts:29-114 | the result, the cache afterwards and the recorded status of a call: a failed check touches nothing; a hit returns what the key holds; anything else returns the uncached answer, stores it unless it is an error or the write fails, and records whether the cache was absent, unreadable or without the key |
| AnswerContents.ListedIs | src/aws/cloudwatch/describe.ts:20-62 | a paged listing runs up to its first reply without a token; it is rejected with the reason of that request if it is, and otherwise holds the items of all replies so far in order |
| AnswerContents.AlarmAnswerIs | src/aws/cloudwatch/describe.ts:14-69 | from the records that the service lists: a single non-empty state is sent to it and no other; the answer holds an alarm exactly as often as records of the requested regions show it, and with several states only if it has one of them; it succeeds if and only if some region has such an alarm or none fails, and fails as the first region that does |
| AnswerContents.InstanceAnswerIs | src/aws/ec2/client.ts:19-111 | every region is asked for exactly the states of the filter; the answer holds an instance exactly as often as the reservations of the requested regions show it, with the same conditions of success and failure |
| AnswerContents.FunctionAnswerIs | src/aws/lambda/client.ts:29-114 | the answer is the cut, to 100 functions or the given limit, of the sorted list that holds a function exactly as often as the records of the requested regions show it, with the same conditions of success and failure |
| AnswerContents.CheckIs | src/aws/cloudwatch/client.ts:23-46 | before the cache is read, a call is rejected for the first state of its filter that is none of the known ones, then for an empty list of allowed regions or a requested region outside it; otherwise it is of the requested regions, or of all allowed ones when none is requested |
| AnswerOrder.AlarmsComeBySeverity | src/aws/cloudwatch/parse.ts:52-59 | a successful alarm answer holds exactly what the fulfilled regions returned, with alarms before insufficient data before OK before any other state, and within a state by region, then by name |
| AnswerOrder.InstancesComeByRegion | src/aws/ec2/client.ts:96-100 | a successful instance answer holds exactly what the fulfilled regions returned, by region, then by instance id |
| AnswerOrder.FunctionsComeByRegion | src/aws/lambda/client.ts:97-103 | all functions returned by the fulfilled regions are ordered by region, then by name, and the answer is the prefix of that list of at most `limit` functions |
| CacheStore.CacheReadWithStatus | src/cache/read.ts:11-37 | the status says disabled, unavailable, hit or miss; a value is returned exactly on a hit; the status is recorded |
| CacheStore.CacheSet | src/cache/kv.ts:19-30 | a failing write changes nothing and is swallowed; any other write sets exactly its key |
| CacheRefinement.SameKeyMeans | src/aws/cloudwatch/client.ts:46-56 | calls with equal key texts are of one tool, with the same regions and state filter up to order, and the same limit |
| CacheRefinement.SameKeySameAnswer | src/aws/lambda/client.ts:36-113 | calls that share a key text succeed together, with the same answer, when the backend ignores the order of a state filter |
| CacheRefinement.CachedCallReturnsUncached | src/aws/cloudwatch/client.ts:46-100 | cache refinement: after any sequence of stores by alarm, instance and function calls and of lost entries, with reads failing at will, a call returns exactly what it returns without a cache |
| CacheRefinement.CallStepIsEvent | src/aws/ec2/client.ts:30-110 | a whole call is such a step of the cache, and a hit leaves the cache alone |
| CacheRefinement.CacheIsRightIff | src/aws/ec2/client.ts:30-110 | for any backend and digest, the cache is right in every run if and only if calls that share a cache key never have different answers, one of them successful |
| RateLimit.AuthRateLimiter.Fetch | src/security/rate-limit.ts:153-166 | one request stores exactly the evaluated window and returns exactly the evaluated decision |
| RateLimit.WindowCountsSinceOpener | src/security/rate-limit.ts:34-74 | for any clock, the stored window is that of the last opening request and counts the requests since |
| RateLimit.FirstRequestsOfWindowAllowed | src/security/rate-limit.ts:56-63 | for any clock, a request is allowed exactly when it is among the first max(1, maxRequests) of its window |
| RateLimit.OpenersAreApart | src/security/rate-limit.ts:41-54 | for any clock, window starts are at least windowSeconds apart |
| RateLimit.AllowedInAnyInterval | src/security/rate-limit.ts:34-74 | with a non-decreasing clock, any half-open interval of k windows holds at most (k+1)*maxRequests - 1 allowed requests, in any run |
| RateLimit.IntervalBoundIsTight | src/security/rate-limit.ts:34-74 | for every limit, window length and k >= 1 a run attains that bound |
| RateLimit.DecisionIsExact | src/security/rate-limit.ts:34-74 | of the requests before the reset that a decision announces exactly the first `remaining` are allowed, and a request at or after that reset is allowed again |
| RateLimit.DeniedUntilReset | src/security/rate-limit.ts:56-73 | every request before the reset of a full window is denied and leaves the reset alone |
| RateLimit.RetryAfterIsSoundAndTight | src/security/rate-limit.ts:30-32 | after a denial with Retry-After r (section 10.2.3 of RFC 9110), whatever is denied meanwhile, a request r seconds later is allowed, and when r > 1 a request up to r-1 seconds later is denied |
| ProfileDocs.RequiredField | src/profiles/validation.ts:141-167 | an accepted required field is trimmed, not empty, short enough and not secret-like, and such a text is accepted unchanged |
| ProfileDocs.OptionalFieldIsGood | src/profiles/validation.ts:198-217 | an accepted optional field is left out or good, and a good text is accepted unchanged |
| ProfileDocs.AuthIsGood | src/profiles/validation.ts:169-226 | an accepted assume-role block has a valid role ARN and good optional fields |
| ProfileDocs.GoodAuthAccepted | src/profiles/validation.ts:169-226 | a good auth block, printed, is accepted unchanged |
| ProfileDocs.ValidatedId | src/profiles/validation.ts:67-76 | an accepted id matches the pattern, and an id that matches is accepted unchanged |
| ProfileDocs.IdOfList | src/profiles/validation.ts:711-711 | an id given as a list is accepted exactly when the list has one element and that is accepted as an id |
| ProfileValidation.FillResources | src/profiles/validation.ts:543-581 | the loop over the nine block names returns exactly the present blocks, validated, or throws when one is invalid |
| ProfileValidation.ValidateResources | src/profiles/validation.ts:528-598 | throws exactly for a value that is no object, an unknown block, an invalid block or no block at all |
| ProfileValidation.ValidateProfileDocument | src/profiles/validation.ts:690-744 | the imperative validator computes the specification that the lemmas below are about |
| ProfileValidation.FindDuplicate | src/profiles/validation.ts:676-685 | the growing set of ids finds a duplicate exactly when ids are not unique |
| ProfileValidation.ValidateProfileIndexDocument | src/profiles/validation.ts:647-688 | the imperative index validator computes its specification: size, version, count, entries and unique ids |
| ProfileReading.ReadsResourceIff | src/profiles/validation.ts:262-511 | exactly which properties make which resource block: required texts are trimmed, not empty, within their limit and not secret-like; optional ones may be absent, null or blank; lists hold such texts; with the conditions of each kind |
| ProfileReading.ReadsProfileIff | src/profiles/validation.ts:690-744 | a document is accepted as a given profile if and only if its size is allowed, its version is 1, its id is the requested one, its texts, auth block and resource blocks read as those of the profile, its region is allowed, and it has a block and no unknown one |
| ProfileReading.ReadsIndexIff | src/profiles/validation.ts:601-688 | a document is accepted as a given index if and only if its size is allowed, its version is 1, and its at most 50 profiles read, one by one, as the entries, whose ids differ |
| ProfileRoundTrip.ResourceIsGood | src/profiles/validation.ts:262-511 | every accepted resource block meets the limits of its kind: exactly one SNS topic, at least one EventBridge prefix, a prefix that starts with '/', a 12-digit account |
| ProfileRoundTrip.GoodResourceAccepted | src/profiles/validation.ts:262-511 | every resource block within these limits, printed, is accepted unchanged |
| ProfileRoundTrip.ProfileIsGood | src/profiles/validation.ts:690-744 | an accepted profile has the requested id, an allowed region and good fields, auth and blocks |
| ProfileRoundTrip.GoodProfileAccepted | src/profiles/validation.ts:690-744 | every good profile, printed, is accepted unchanged |
| ProfileRoundTrip.ProfileValidationIsIdempotent | src/profiles/validation.ts:690-744 | validating the output of a successful profile validation gives the same profile |
| ProfileRoundTrip.ProfileDocInjective | src/profiles/validation.ts:735-744 | good profiles with the same document are equal |
| ProfileRoundTrip.IndexAcceptedIff | src/profiles/validation.ts:647-688 | of well-formed entries, the validator accepts exactly at most 50 with unique ids and an allowed size, and returns them unchanged |
| ProfileRoundTrip.IndexValidationIsIdempotent | src/profiles/validation.ts:647-688 | validating the output of a successful index validation gives the same index |
| ProfileIndex.CapabilitiesAreTheBlocks | scripts/app-profiles/lib/index-operations.ts:9-13 | a new profile's capabilities are exactly its block names, in code-unit order |
| ProfileIndex.FindAfterMerge | scripts/app-profiles/lib/index-operations.ts:66-78 | a put sets the entry of its own id to the built entry and leaves every other entry as it was |
| ProfileIndex.MergeSortsAndKeepsUnique | scripts/app-profiles/lib/index-operations.ts:66-78 | from any index with unique ids, a put gives a sorted one with unique ids, longer by one exactly for a new id |
| ProfileIndex.SortedIndexIsItsFind | scripts/app-profiles/lib/index-operations.ts:74-77 | a sorted index with unique ids is determined by what is found in it |
| ProfileIndex.PutsCommute | scripts/app-profiles/lib/index-operations.ts:66-78 | puts of different ids commute, to the same sequence |
| ProfileIndex.PutIsIdempotent | scripts/app-profiles/lib/index-operations.ts:66-78 | putting a profile twice gives the index of putting it once |
| ProfileIndex.PutCreates | scripts/app-profiles/lib/index-operations.ts:31-39 | the put of a new profile lists it as enabled, without aliases, with the capabilities of its blocks and the display name, environment and region of its document |
| ProfileIndex.PutPreserves | scripts/app-profiles/lib/index-operations.ts:15-30 | an update changes display name, environment and region of its entry and keeps enabled, aliases and capabilities |
| ProfileIndex.RemoveUndoesPut | scripts/app-profiles/lib/index-operations.ts:80-85 | removing a newly put id gives the sorted index back |
| ProfileIndex.MergeRejectedIff | scripts/app-profiles/lib/index-operations.ts:87-89 | the re-validation after a merge of a valid profile into a valid index fails exactly when a new id meets 50 entries |
| ProfileIndex.RemoveAccepted | scripts/app-profiles/lib/index-operations.ts:80-89 | the re-validation after a removal never fails |
| ProfileStore.ReadValidatedIndex | scripts/app-profiles/profile-service.ts:65-78 | a missing index or JSON null reads as empty; a text that is no JSON, or an invalid or too large index, throws |
| ProfileStore.CliIndexIff | scripts/app-profiles/lib/index-operations.ts:47-64 | the command line reads the same index as the Worker, except that it refuses one of more than 16384 bytes |
| ProfileStore.KvStore.Put | scripts/app-profiles/lib/kv-store.ts:112-128 | sets exactly its key |
| ProfileStore.PutProfileToKv | scripts/app-profiles/profile-service.ts:80-100 | does what the plan says in its order: the document, then the index; a throw before the first write leaves the store unchanged, one before the second leaves exactly the first write |
| ProfileStore.DeleteProfileFromKv | scripts/app-profiles/profile-service.ts:118-152 | unconfirmed it only previews; confirmed it deletes the document, then writes the index, with the same crash behaviour |
| ProfileStore.ReportIs | scripts/app-profiles/profile-service.ts:96-99 | a completed operation reports its id, the key of its document and the number of entries that the Worker then lists; one that stops at a write throws |
| ProfileStore.PutIsPlannedIff | scripts/app-profiles/profile-service.ts:85-92 | a put reaches its first write exactly when the file is a valid profile, the index is readable and a new id does not meet a full index; it then writes that profile and the merged index |
| ProfileStore.DeleteIsPlannedIff | scripts/app-profiles/profile-service.ts:124-141 | a confirmed delete reaches its first write exactly when the index is readable and lists the id; it then writes the index without it |
| ProfileStore.ProfileKeyInjective | src/profiles/keys.ts:6-9 | different ids have different keys |
| ProfileStore.DefaultIndexKeyIsApart | src/profiles/keys.ts:11-14 | the default index key is the key of no profile |
| ProfileStore.IndexKeyIs | src/profiles/keys.ts:11-14 | the index key is the configured one, trimmed, unless that is missing or holds nothing but white space; then it is the default |
| ProfileStore.ListIs | src/profiles/loader.ts:109-135 | a listing is disabled without a store, unavailable when the read fails, invalid when the text is no JSON or no valid index, and otherwise lists the index |
| ProfileStore.LoadIs | src/profiles/loader.ts:137-170 | a load fails, in this order, on a bad id, a missing store, a failed index read, an invalid index, a failed or unparsable profile read, a missing profile and an invalid document, and otherwise returns the validated profile |
| ProfileStore.ListAfterWrite | src/profiles/loader.ts:109-135 | after a completed operation the Worker lists exactly the index that was written |
| ProfileStore.LoadAfterPutIff | src/profiles/loader.ts:137-170 | after a completed put the Worker loads exactly that profile if and only if its key is not the index key |
| ProfileStore.CliReadsAgainIff | scripts/app-profiles/lib/index-operations.ts:52-56 | after a completed operation the command line can read the index again if and only if its written text, printed with two-space indentation and encoded in UTF-8, has at most 16384 bytes |
| IndexText.IndexBytesAtLeast | scripts/app-profiles/profile-service.ts:94-95 | the written text of an index of n entries has at least n times the bytes that every entry has in its id, display name and environment, escapes included |
| ProfileLimits.PutFills | scripts/app-profiles/profile-service.ts:80-100 | every next put of such a run into a readable index of fewer than 50 entries is accepted and its index is listed by the Worker, and the size of that index alone decides whether the command line can read it again |
| ProfileLimits.ValidPutsGetStuck | scripts/app-profiles/profile-service.ts:65-100 | for every good profile with at least 265 bytes in its display name and environment, at most 50 puts of it under different ids, each valid and none rejected, reach a store whose index the command line cannot read: every further put and delete is rejected, every sequence of operations leaves the store as it is, and the Worker goes on listing all entries |
| ProfileLimits.LimitIsReached | src/profiles/validation.ts:647-688 | such a run exists for a concrete profile within the limits of every field, under the default index key |
| ProfileLimits.UnreadableIff | scripts/app-profiles/profile-service.ts:118-152 | with a non-empty valid index, the command line cannot read it if and only if every delete is rejected |
| ProfileLimits.UnreadableRunStays | scripts/app-profiles/profile-service.ts:65-152 | no run, overlapping and crashing operations included, changes a store whose index the command line cannot read |
| ProfileRuns.RunsStayConsistent | scripts/app-profiles/profile-service.ts:80-152 | every run of overlapping puts and deletes, crashes included, keeps the index valid and every listed id either loadable or erased by a delete |
| ProfileRuns.ListedLoadsIff | scripts/app-profiles/profile-service.ts:80-152 | after every run of overlapping puts and deletes, crashes included, the Worker can list the index, and loads a listed profile if and only if the last document write of its id was not a deletion; otherwise it reports the profile as not found |
| ProfileRuns.ListedProfilesLoad | scripts/app-profiles/profile-service.ts:80-100 | in every run of overlapping puts with crashes, the Worker can list the index and loads a profile of that id for every id listed |
| ProfileOverlaps.OperationIsARun | scripts/app-profiles/profile-service.ts:94-95 | an operation that nothing overlaps is a run of three steps, cut short by a crash |
| ProfileRuns.CrashedDelete | scripts/app-profiles/profile-service.ts:142-143 | a crashed delete leaves the index as it was, takes its own document and changes what no other id loads |
| ProfileRuns.RerunDelete | scripts/app-profiles/profile-service.ts:118-152 | running a delete again, wherever it crashed or not, gives exactly the store that it leaves without a crash |
| ProfileRuns.RerunPut | scripts/app-profiles/profile-service.ts:80-100 | running a put again, wherever it crashed or not, gives exactly the store that it leaves without a crash |
| ProfileOverlaps.IndexWriteIs | scripts/app-profiles/profile-service.ts:87-95 | in every reachable state, an index write sets every entry back to what the operation had read, except that of its own id, which it builds or removes |
| ProfileOverlaps.EntryKeptIff | scripts/app-profiles/profile-service.ts:87-95 | in every reachable state, the index write of a put or delete keeps the entry of another id if and only if what the operation had read of it is what the index holds now |
| ProfileOverlaps.UndisturbedIff | scripts/app-profiles/profile-service.ts:87-95 | an index write leaves what the operation would make of the present index if and only if the entries it had read are those of the present index, up to what it overwrites in its own |
| ProfileOverlaps.DanglesIff | scripts/app-profiles/profile-service.ts:124-143 | after an index write an id is listed without a document if and only if the last document write of it was a deletion and the writing operation had read it, or is a put of it |
| ProfileOverlaps.LosesIff | scripts/app-profiles/profile-service.ts:80-152 | for every schedule between the index read and the index write of a put or delete: the write loses the entry of another id if and only if that entry then differs from the one at the read |
| ProfileOverlaps.LostWasChanged | scripts/app-profiles/profile-service.ts:80-152 | for every schedule, an entry that is lost was changed by the index write of another operation between the read and the write |
| ProfileOverlaps.LostIffChanged | scripts/app-profiles/profile-service.ts:80-152 | for every schedule in which at most one step changes an entry, the entry is lost if and only if such a change, an index write, falls between the read and the write |
| ProfileOverlaps.OverlappingPutsLoseAnEntry | scripts/app-profiles/profile-service.ts:87-95 | in the schedule where two puts read, then write their documents, then their indexes, the first profile loads but is listed only as it was before |
| ProfileOverlaps.OverlappingDeleteDangles | scripts/app-profiles/profile-service.ts:124-143 | in the schedule where a delete and a put of another profile read, then write their documents, then the delete its index before the put, the deleted id stays listed without a document |
| ProfileOverlaps.OverlappingPutIsLost | scripts/app-profiles/profile-service.ts:124-143 | when the put writes its index before the delete instead, the deleted id is not listed and the put is listed only as before |
| ProfileAgreement.SequentialRunsAgree | scripts/app-profiles/profile-service.ts:80-152 | from an empty store, or any store in agreement, every sequence of undisturbed puts and deletes keeps the index listing exactly the stored profiles, with the display name, environment and region of their documents |
| Telemetry.RequestKeyRoundTrip | src/telemetry/collector.ts:13-27 | the key of a capability without a bar, and a region, parses back to both |
| Telemetry.Collector.Reset | src/telemetry/collector.ts:50-53 | forgets every status and count, so that a run counts from its last reset |
| Telemetry.Collector.RecordAwsRequest | src/telemetry/collector.ts:59-62 | keeps the insertion-ordered counts equal to those of all events since the last reset |
| Telemetry.Collector.ResolveCacheStatus | src/telemetry/collector.ts:64-76 | the priority search returns the recorded status of highest priority, and never falls through |
| Telemetry.Collector.TakeSnapshot | src/telemetry/collector.ts:78-91 | returns every status and every counted request in order, or fails when a capability is unknown |
| Billing.SnapshotIs | src/telemetry/collector.ts:59-91 | the snapshot of a run has one entry for every capability and region with which a request was recorded, counting those requests, in the order of their first requests; an empty region counts as none |
| RuntimeFacts.MergeRecorded | src/mcp/execution/runtime-facts.ts:33-64 | the merge loop computes the merge of the recorded requests into the manifest rows |
| RuntimeFacts.BackFillRows | src/mcp/execution/runtime-facts.ts:66-82 | the back-fill loops compute the back-fill of every row without a count |
| RuntimeFacts.FindStatus | src/mcp/execution/runtime-facts.ts:84-94 | the second priority search agrees with the collector's |
| RuntimeFacts.BuildRuntimeFacts | src/mcp/execution/runtime-facts.ts:27-100 | fails exactly when a capability is unknown; otherwise the resolved status and the merged, back-filled rows |
| RuntimeFacts.RowsReportTotals | src/mcp/execution/runtime-facts.ts:27-82 | after both loops every row reports exactly the recorded total of its (service, action) pair, manifest rows come first, every further row is the first of its pair, and every recorded pair has a row |
| RuntimeFacts.RowsReportRegions | src/mcp/execution/runtime-facts.ts:27-64 | the first row of a pair reports the first region that was recorded with the pair, and a repeated manifest row none |
| Billing.RowsOfPair | src/mcp/execution/runtime-facts.ts:27-82 | a recorded pair gets one row per manifest capability that maps to it, and one row if none does; so k rows report its total k times |
| Billing.CountConservation | src/mcp/execution/build.ts:39-56 | the reported count is never below the recorded one, and equals it exactly when no recorded pair is shared by two manifest capabilities |
| Billing.BackFillIdleIff | src/mcp/execution/runtime-facts.ts:66-82 | the back-fill loop changes nothing exactly when no later duplicate row has a recorded total |
| RunTotals.RunCountIs | src/mcp/execution/build.ts:39-56 | the reported count of a run is exactly the sum, over its recorded requests, of the number of rows of the request's pair: one per manifest capability of the pair, and one if there is none |
| RunTotals.RunConservesCount | src/mcp/execution/build.ts:39-56 | with pairwise distinct pairs the reported count is therefore the number of requests recorded since the last reset |
| Billing.SnapshotCountsEvents | src/telemetry/collector.ts:59-91 | the snapshot's totals per pair count the recorded events |
| Interleavings.PermutationsAgree | src/telemetry/collector.ts:55-76 | events recorded in any two orders give the same counts per pair, cache status and reported request count, shared pairs included, and under one price per pair the same charge and cost |
| Interleavings.InterleavingIsPermutation | src/telemetry/collector.ts:55-62 | any merge of the events of any number of concurrent recorders is a permutation of all of them |
| Interleavings.InterleavingsAgree | src/telemetry/collector.ts:55-76 | any two merges of the same concurrent recorders, however many, give the same counts per pair, cache status and request count, and under one price per pair the same charge and cost |
| Billing.ChargedIff | src/mcp/execution/build.ts:54-61 | a run is charged if and only if a miss or bypass was recorded and a request with a positive unit cost was |
| RunTotals.RunCostIs | src/mcp/execution/build.ts:54-70 | the reported cost of a run is zero unless a miss or bypass and a paid request were recorded, and otherwise the sum, over its recorded requests, of the request's unit cost times the number of rows of its pair |
| Billing.StatusIs | src/telemetry/collector.ts:64-76 | the reported cache status is a miss if one was recorded, else a bypass, else unavailable, else a hit, else disabled, and none if no status was recorded |
| Billing.CostPositiveIff | src/mcp/execution/pricing.ts:125-137 | the estimated cost is never negative and is positive exactly when some counted row has a positive price |
| RoleArns.ValidArnHasNoNul | src/aws/credentials/helpers.ts:3-7 | a valid role ARN contains no NUL, so the separator of the key material is unambiguous |
| RoleArns.RoleArnIff | src/aws/credentials/helpers.ts:3-7 | a valid role ARN is the IAM prefix, twelve digits, the role marker and a non-empty path of allowed characters, and nothing else is one |
| Credentials.MaterialInjective | src/aws/credentials/helpers.ts:9-18 | for valid ARNs, key materials are equal exactly for the same ARN and the same external id, an empty one counting as none |
| Credentials.CredentialResolver.Resolve | src/aws/credentials/resolver.ts:22-60 | returns the default credentials, an error for a bad ARN, the cached credential outside the margin or the issued one; asks STS exactly in the last case and stores exactly what was issued |
| Credentials.CacheHoldsLastIssued | src/aws/credentials/resolver.ts:28-58 | under any interleaving, the cache holds for every role and external id exactly the last credential issued for it |
| Credentials.CachedCredentialIsRight | src/aws/credentials/resolver.ts:28-68 | under any interleaving, a credential taken from the cache was issued for the same role and external id and has more than five minutes left |
| Credentials.StsAskedIff | src/aws/credentials/resolver.ts:28-68 | STS is asked exactly unless what was issued last for the pair has an expiry more than five minutes away |
| Credentials.ResolvedIs | src/aws/credentials/resolver.ts:22-60 | after any run of issues, the default request returns the default credentials with their source, an invalid ARN is an error, and any other request returns what was issued last for its pair if that expires more than five minutes from now, and otherwise what STS issues or its failure |
| Credentials.SessionNameIsIgnored | src/aws/credentials/helpers.ts:9-18 | a credential issued under one session name is returned under any other |
| RoleArns.ShortHash | src/aws/sts/session-name.ts:5-17 | every step of the hash stays below 2^53, and the printed hash has seven characters without cutting |
| RoleArns.SuffixSpellsHash | src/aws/sts/session-name.ts:5-25 | the default suffix spells, in base 36 and padded with zeros, the ARN taken as a polynomial in 31 modulo 2^32 |
| RoleArns.BuildRoleSessionName | src/aws/sts/session-name.ts:19-25 | a given name is returned trimmed or rejected; the default name is the prefix and the hash, 23 characters |
| Jsonc.StripJsoncComments | scripts/app-profiles/lib/wrangler-config.ts:17-67 | the index loop terminates and computes the token-wise specification |
| JsoncTokens.LexIff | scripts/app-profiles/lib/wrangler-config.ts:17-67 | by positions of the text, the tokens are the only sequence in which each token begins what is left: a string literal runs to the first quote behind an even number of backslashes, a line comment to before the first newline, a block comment to the first closer behind its opener, each to the end of the text when there is none, and anything else is a single character |
| JsoncTokens.StripIff | scripts/app-profiles/lib/wrangler-config.ts:17-67 | stripping returns the text of those tokens without the comments |
| JsoncProperties.UnlexLex | scripts/app-profiles/lib/wrangler-config.ts:17-67 | splitting a text into string literals, comments and single characters loses nothing |
| JsoncProperties.StripRemovesComments | scripts/app-profiles/lib/wrangler-config.ts:17-67 | the output is the input without its comment tokens: string literals, unterminated ones included, are kept verbatim |
| JsoncProperties.LexOfStripped | scripts/app-profiles/lib/wrangler-config.ts:17-67 | the tokens of the output are exactly the remaining tokens: removing a comment joins nothing into a new string or comment |
| JsoncProperties.StripIsIdempotent | scripts/app-profiles/lib/wrangler-config.ts:17-67 | stripping twice is stripping once |
| JsoncProperties.StripIsIdentityIff | scripts/app-profiles/lib/wrangler-config.ts:17-67 | the text is unchanged exactly when it has no comment |
| JsoncProperties.StrippedHasNoOpener | scripts/app-profiles/lib/wrangler-config.ts:17-67 | the output has no comment opener outside its string literals |
| Dates.CivilUnique | src/security/dates.ts:6-24 | a day number of section 21.4.1 of ECMA-262 has at most one calendar date |
| Dates.CivilExists | src/security/dates.ts:6-24 | every day number has a calendar date |
| Dates.ParseAcceptsValidDates | src/security/dates.ts:6-24 | a text is accepted exactly when it is a valid proleptic Gregorian date of the years 0000-9999, whether or not the engine rolls bad days over, and yields its day number |
| Dates.StringOrderIsDayOrder | src/security/dates.ts:6-24 | for accepted dates string order is day order, and equality is equality |
| Dates.CostRangeAcceptedIff | src/security/dates.ts:26-63 | a cost range is accepted exactly when both dates parse, they are in order, span 1 to maxDays whole days and end no later than now |
| Dates.CostRangeErrorIs | src/security/dates.ts:26-63 | the error of a rejected range is that of the first unmet condition: valid dates, text order, start not in the future, end not in the future, at most maxDays days |
| Paging.CollectTaskArns | src/aws/ecs/client.ts:54-90 | for every server behaviour it stops within `limit` requests of 1 to 100 records, each continuing from the last token, and returns the limit-prefix of the pages read, ending at the limit or at the first final page |
| Paging.CollectedIsPrefixOfAllPages | src/aws/ecs/client.ts:54-90 | that is the limit-prefix of all pages up to the first empty or last one |
| Paging.PagesInOrder | src/aws/ecs/client.ts:54-90 | the pages of a listing follow one another in the collected list, each whole and in its place |
| Paging.DescribeTasksInBatches | src/aws/ecs/client.ts:92-110 | the batches partition the list in order, all but the last full, and the described tasks come in that order |
| Paging.TasksComeInOrder | src/aws/ecs/client.ts:92-110 | when every batch is described task by task, the described tasks are those of the whole list, one for each, in its order |
| Paging.SummarizeAlarmsInRegion | src/aws/cloudwatch/describe.ts:71-131 | on every server with some page at which the listing has ended or the limit is reached, the loop stops at the first such page; every request continues from the last token and asks for 1 to 100 records, and the result is the limit-prefix of the pages read |
| Paging.SummaryIsPrefixOfAllPages | src/aws/cloudwatch/describe.ts:71-131 | on a listing that ends, that is the limit-prefix of all its pages |
| Paging.BuildStateCounts | src/aws/cloudwatch/parse.ts:71-81 | each counter counts its state, and the counters sum to the length exactly when every state has a counter |
| ToolPolicy.ResolveExposedToolNames | src/mcp/tools/packs.ts:10-35 | the loop with `continue` returns exactly the names of the tools that pass the exposure rules |
| ToolPolicy.CallAllowedIff | src/mcp/tools/policy.ts:100-234 | the gate allows a call if and only if all of this holds: the manifest is complete, read-only and of a known pack; the tool is enabled, its pack enabled and its risk level the maximum; every required scope is granted; AWS tools name services and actions and all are allowed; the cost-control metadata are sound; the dates are valid, ordered, not too far apart and not in the future; limit, service limit and hours stay within their maxima; and the regions are allowed and not too many |
| ToolPolicy.RegistryCallAllowedIff | src/mcp/tools/policy.ts:100-234 | under the policy built from a registry with distinct names, a call of one of its tools is allowed if and only if it is sound in that sense and the tool passes the exposure filters; its own services and actions are then allowed |
| ToolPolicy.DenialIs | src/mcp/tools/policy.ts:191-234 | a denial is that of the first stage whose condition the call does not meet, in this order: manifest structure, exposure, scopes, AWS metadata, cost control, named regions, dates, result count, lookback, fan-out |
| ToolPolicy.ExposureStagesPassIff | src/mcp/tools/policy.ts:191-234 | the exposure stages of the gate pass a well-formed tool exactly when its name is exposed, its pack enabled and its risk level the maximum |
| ToolPolicy.GateRefinesExposure | src/mcp/tools/policy.ts:191-234 | with distinct tool names the exposure stages pass exactly the exposed tools, so an allowed call is of an exposed tool |
| ToolPolicy.AllowedFanOutIsBounded | src/mcp/tools/cost-control-policy.ts:96-158 | every allowed multi-region call resolves to a non-empty list of allowed regions, at most the effective maximum |
| ToolPolicy.FanoutDeniedIff | src/mcp/tools/cost-control-policy.ts:136-155 | for a multi-region call that is allowed for one region: without named regions it is denied if and only if the maximum is below the number of allowed regions; naming a region outside the list is a region denial and nothing else is; allowed regions, repetitions counted, are denied if and only if they are more than the maximum or than the allowed regions, and without repetitions if and only if they are more than the maximum |
| ToolPolicy.RepeatedRegionIsDenied | src/mcp/tools/cost-control-policy.ts:136-155 | the only allowed region, named twice, is denied although no maximum is configured |
| ToolPolicy.RegionDeniedIff | src/mcp/tools/policy.ts:191-234 | a single-region call that is allowed without a region is, with one, allowed if and only if the region that the gate sees is blank or listed, and otherwise a region denial |
| ToolPolicy.AllowedRegionIsListed | src/mcp/tools/policy.ts:191-234 | an allowed single-region call names no region or an allowed one |
| Regions.ResolveRegions | src/security/regions.ts:28-48 | resolved regions are never empty and all allowed |

## Left out

- CacheRefinement.CachedCallReturnsUncached: assumes that the digest separates the key texts of the calls in the run, that `localeCompare` returns 0 only on equal texts, and that the EC2 backend ignores the order of its state filter; CacheRefinement.CacheIsRightIff needs none of these.
- KeyInjectivity.KeyTextInjective: -0 counts as 0 and numbers that are not finite as null, because that is what their printed form says; a number is otherwise known by its printed form.
- Credentials.CachedCredentialIsRight: assumes that SHA-256 separates the key materials of the run.
- ProfileStore.LoadAfterPutIff: assumes that parsing the written JSON gives the written document back; documents are trees.
- ProfileStore.CliReadsAgainIff: counts the bytes of the text as written; the Wrangler store trims what it reads and so sees one byte less, the final newline. The size of a written profile, which nothing reads, is a parameter.
- ProfileLimits.ValidPutsGetStuck: bounds the index from below by three texts of each entry, so that profiles with shorter names may reach the limit as well; the bound leaves 15 bytes over the trimmed newline.
- ProfileOverlaps.LostIffChanged: an entry that is changed and changed back in between is not lost; ProfileOverlaps.LosesIff covers that case too.
- NameSafety.VocabularyIsUnambiguousIff: says nothing of a set of names that has a cut but not the names it is cut into; NameSafety.SafeNamesInjective is about calls without cuts.
- ProfileIndex.MergeRejectedIff: assumes that none of the nine block names looks like a secret; the secret patterns are one opaque predicate on trimmed texts.
- Paging.SummarizeAlarmsInRegion: assumes a page at which the listing has ended or the limit is reached; on a server without one the source never stops.
- CachedLists.DescribeAlarmsInRegion: a listing is finite, so that a server whose tokens never end, on which the source never stops, is not modelled; the tokens sent are not recorded.
- RateLimit.AllowedInAnyInterval: times are integral milliseconds and one configuration serves the whole run; the durable object handles one request at a time.
- Interleavings.InterleavingsAgree: the charge and the cost agree under one unit cost per (service, action) pair, as in the price table; the counts, totals and status need no such assumption.
- RunTotals.RunCostIs: assumes the same; amounts are reals, so the rounding of sums of doubles is not modelled.
- Billing.ChargedIff: assumes that capabilities of one (service, action) pair have one unit cost and that no cost is negative, as in the price table; costs are reals.
- RuntimeFacts.MergeRecorded: rows are values in a sequence, so that the source's aliasing of row objects is not captured.
- FanOut.FanOutIgnoresRegionOrder: when no region succeeds, which error is reported still depends on the order of the regions.
- Request telemetry inside the list calls, cache lifetimes and `summarizeAlarms` caching: single calls beside the modelled ones.
- Dates: time zones and formatting; `Date` is the day arithmetic of ECMA-262.
- `removeTrailingCommas`, `parseJsonc` and the config loader: the former ignores strings, so nothing general holds of it.
- The SSM cache key, which sorts names (`src/aws/ssm/client.ts:94-98`) while the result keeps request order: the fan-out theorem does not apply to it.
- Rate-limit headers and the identity of a caller: string building over a digest.
- AWS request signing, fetch, timeouts, XML parsing and error mapping: a backend is a function from a region to pages or a failure.
- JWT verification, introspection, MCP transport, sessions, schemas, tool definitions and text formatting.
- Error messages, log output and redaction.
- Wrangler process calls, temporary files and command-line parsing; a store is a map from keys to parsed texts.
- The notes and the cache block of the billing metadata, and metadata built without runtime facts: copied fields and constants.
