/** The index of profiles and the operations on it (scripts/app-profiles/lib/index-operations.ts). */
module ProfileIndex {
  import opened Wrappers
  import opened JsText
  import opened Sorting
  import opened Collations
  import opened Trimming
  import opened ProfileDocs
  import opened ProfileValidation
  import opened ProfileRoundTrip

  function BlockText(b: BlockName): Text {
    match b
    case Ecs => Units("ecs")
    case Rds => Units("rds")
    case Ses => Units("ses")
    case S3 => Units("s3")
    case Ssm => Units("ssm")
    case Ecr => Units("ecr")
    case Sns => Units("sns")
    case EventBridge => Units("eventbridge")
    case Budget => Units("budget")
  }

  /** `Object.keys(resources)`: the blocks in the order `validateResources` adds them. */
  function BlockNames(rs: Resources, blocks: seq<BlockName>): seq<Text> {
    if blocks == [] then []
    else (if blocks[0] in rs then [BlockText(blocks[0])] else []) + BlockNames(rs, blocks[1..])
  }

  function DeriveCapabilities(rs: Resources): seq<Text> {
    Sort(LexLe, BlockNames(rs, KNOWN_RESOURCE_BLOCKS))
  }

  function BuildIndexEntry(p: Profile, existing: Option<Entry>): Entry {
    if existing.Some? then
      Entry(p.id, p.displayName, p.environment, p.region, existing.value.enabled, existing.value.aliases,
            existing.value.capabilities)
    else
      Entry(p.id, p.displayName, p.environment, p.region, true, [], DeriveCapabilities(p.resources))
  }

  function Find(es: seq<Entry>, id: Text): Option<Entry> {
    if es == [] then None else if es[0].id == id then Some(es[0]) else Find(es[1..], id)
  }

  function Without(es: seq<Entry>, id: Text): seq<Entry> {
    if es == [] then [] else (if es[0].id == id then [] else [es[0]]) + Without(es[1..], id)
  }

  function IdOrder(loc: Collation): (Entry, Entry) -> bool {
    (a: Entry, b: Entry) => loc(a.id, b.id) <= 0
  }

  function Merge(loc: Collation, es: seq<Entry>, p: Profile): seq<Entry> {
    Sort(IdOrder(loc), Without(es, p.id) + [BuildIndexEntry(p, Find(es, p.id))])
  }

  /** `removeProfileFromIndex`. */
  function Remove(es: seq<Entry>, id: Text): seq<Entry> {
    Without(es, id)
  }

  datatype IndexRead = Missing | Valid(es: seq<Entry>) | Invalid

  /** `parseIndexReadResult`; `stored` is what the key holds, with its size in bytes. */
  ghost function ParseIndexRead(stored: Option<(Doc, nat)>, env: Env): IndexRead {
    if stored.None? || stored.value.0.DNull? then Missing else
      var es := IndexOf(stored.value.0, Some(stored.value.1), env);
      if es.Some? then Valid(es.value) else Invalid
  }

  // ----- an index as a finite function from ids to entries

  lemma IdOrderIsTotal(loc: Collation)
    requires StrictCollation(loc)
    ensures TotalPreorder(IdOrder(loc))
    ensures forall a, b :: Tied(IdOrder(loc), a, b) <==> a.id == b.id
  {
    var le := IdOrder(loc);
    forall a, b
      ensures le(a, b) || le(b, a)
      ensures Tied(le, a, b) <==> a.id == b.id
    {
      CollationIsTotal(loc, a.id, b.id);
    }
    forall a, b, c | le(a, b) && le(b, c)
      ensures le(a, c)
    {
      assert loc(a.id, b.id) <= 0 && loc(b.id, c.id) <= 0;
    }
  }

  /** The tie class of an entry begins with the entry of its id. */
  lemma {:induction false} FindIsClassHead(loc: Collation, es: seq<Entry>, x: Entry)
    requires StrictCollation(loc)
    ensures var c := Class(IdOrder(loc), x, es); Find(es, x.id) == if c == [] then None else Some(c[0])
  {
    IdOrderIsTotal(loc);
    if es != [] {
      FindIsClassHead(loc, es[1..], x);
    }
  }

  lemma {:induction false} FindFinds(es: seq<Entry>, id: Text)
    ensures var r := Find(es, id);
            && (r.Some? ==> r.value in es && r.value.id == id)
            && (r.None? ==> forall i :: 0 <= i < |es| ==> es[i].id != id)
  {
    if es != [] {
      FindFinds(es[1..], id);
      assert forall i :: 0 < i < |es| ==> es[i] == es[1..][i - 1];
    }
  }

  /** With unique ids every tie class has at most one entry. */
  lemma {:induction false} UniqueIdsSmallClass(loc: Collation, es: seq<Entry>, x: Entry)
    requires StrictCollation(loc) && UniqueIds(es)
    ensures |Class(IdOrder(loc), x, es)| <= 1
  {
    var le := IdOrder(loc);
    IdOrderIsTotal(loc);
    if es != [] {
      assert UniqueIds(es[1..]);
      UniqueIdsSmallClass(loc, es[1..], x);
      var rest := Class(le, x, es[1..]);
      ClassMembers(le, x, es[1..]);
      assert rest != [] ==> rest[0] in es[1..] && rest[0].id == x.id;
    }
  }

  lemma {:induction false} SmallClassesUniqueIds(loc: Collation, es: seq<Entry>)
    requires StrictCollation(loc) && forall x :: |Class(IdOrder(loc), x, es)| <= 1
    ensures UniqueIds(es)
  {
    var le := IdOrder(loc);
    IdOrderIsTotal(loc);
    if es != [] {
      forall x
        ensures |Class(le, x, es[1..])| <= 1
      {
        assert |Class(le, x, es)| <= 1;
      }
      SmallClassesUniqueIds(loc, es[1..]);
      assert |Class(le, es[0], es)| <= 1 && Tied(le, es[0], es[0]);
      ClassMembers(le, es[0], es[1..]);
      assert forall j :: 0 < j < |es| ==> es[j] == es[1..][j - 1];
    }
  }

  /** Sorting changes neither uniqueness nor what is found. */
  lemma SortKeepsFind(loc: Collation, es: seq<Entry>, id: Text)
    requires StrictCollation(loc)
    ensures Find(Sort(IdOrder(loc), es), id) == Find(es, id)
  {
    var x := Entry(id, [], [], [], true, [], []);
    IdOrderIsTotal(loc);
    SortStable(IdOrder(loc), x, es);
    FindIsClassHead(loc, es, x);
    FindIsClassHead(loc, Sort(IdOrder(loc), es), x);
  }

  lemma SortKeepsUnique(loc: Collation, es: seq<Entry>)
    requires StrictCollation(loc) && UniqueIds(es)
    ensures UniqueIds(Sort(IdOrder(loc), es))
  {
    var le := IdOrder(loc);
    IdOrderIsTotal(loc);
    forall x
      ensures |Class(le, x, Sort(le, es))| <= 1
    {
      SortStable(le, x, es);
      UniqueIdsSmallClass(loc, es, x);
    }
    SmallClassesUniqueIds(loc, Sort(le, es));
  }

  lemma SameFindSameClass(loc: Collation, es: seq<Entry>, fs: seq<Entry>, x: Entry)
    requires StrictCollation(loc) && UniqueIds(es) && UniqueIds(fs)
    requires Find(es, x.id) == Find(fs, x.id)
    ensures Class(IdOrder(loc), x, es) == Class(IdOrder(loc), x, fs)
  {
    FindIsClassHead(loc, es, x);
    FindIsClassHead(loc, fs, x);
    UniqueIdsSmallClass(loc, es, x);
    UniqueIdsSmallClass(loc, fs, x);
  }

  /** A sorted index with unique ids is determined by what is found in it. */
  lemma SortedIndexIsItsFind(loc: Collation, es: seq<Entry>, fs: seq<Entry>)
    requires StrictCollation(loc) && UniqueIds(es) && UniqueIds(fs)
    requires Sorted(IdOrder(loc), es) && Sorted(IdOrder(loc), fs)
    requires forall id :: Find(es, id) == Find(fs, id)
    ensures es == fs
  {
    IdOrderIsTotal(loc);
    forall x
      ensures Class(IdOrder(loc), x, es) == Class(IdOrder(loc), x, fs)
    {
      SameFindSameClass(loc, es, fs, x);
    }
    SortedFixedByClasses(IdOrder(loc), es, fs);
  }

  // ----- the operations on that function

  lemma {:induction false} WithoutKeeps(es: seq<Entry>, id: Text)
    ensures forall e :: e in Without(es, id) <==> e in es && e.id != id
    ensures UniqueIds(es) ==> UniqueIds(Without(es, id))
    ensures UniqueIds(es) ==> |Without(es, id)| == |es| - (if Find(es, id).Some? then 1 else 0)
  {
    if es != [] {
      WithoutKeeps(es[1..], id);
      assert forall e :: e in es <==> e == es[0] || e in es[1..];
      if UniqueIds(es) {
        assert UniqueIds(es[1..]);
        FindFinds(es[1..], id);
        var rest := Without(es[1..], id);
        assert forall i :: 0 <= i < |rest| ==> rest[i] in es[1..];
      }
    }
  }

  lemma {:induction false} FindWithout(es: seq<Entry>, id: Text, other: Text)
    ensures Find(Without(es, id), other) == if other == id then None else Find(es, other)
  {
    if es != [] {
      FindWithout(es[1..], id, other);
      var rest := Without(es[1..], id);
      if es[0].id == id {
        assert Without(es, id) == rest;
      } else {
        assert Without(es, id) == [es[0]] + rest;
        assert Without(es, id)[1..] == rest;
      }
    }
  }

  lemma {:induction false} FindAppended(es: seq<Entry>, e: Entry, id: Text)
    ensures Find(es + [e], id) == if Find(es, id).Some? then Find(es, id) else if e.id == id then Some(e) else None
  {
    if es == [] {
      assert es + [e] == [e];
    } else {
      FindAppended(es[1..], e, id);
      assert (es + [e])[1..] == es[1..] + [e];
    }
  }

  /** A put changes the entry of its own id and no other. */
  lemma FindAfterMerge(loc: Collation, es: seq<Entry>, p: Profile, id: Text)
    requires StrictCollation(loc)
    ensures Find(Merge(loc, es, p), id) == if id == p.id then Some(BuildIndexEntry(p, Find(es, id))) else Find(es, id)
  {
    var next := BuildIndexEntry(p, Find(es, p.id));
    SortKeepsFind(loc, Without(es, p.id) + [next], id);
    FindAppended(Without(es, p.id), next, id);
    FindWithout(es, p.id, id);
  }

  /** Whatever the index was before, a put leaves it sorted, with unique ids if it had them. */
  lemma MergeSortsAndKeepsUnique(loc: Collation, es: seq<Entry>, p: Profile)
    requires StrictCollation(loc) && UniqueIds(es)
    ensures Sorted(IdOrder(loc), Merge(loc, es, p)) && UniqueIds(Merge(loc, es, p))
    ensures |Merge(loc, es, p)| == |es| + (if Find(es, p.id).None? then 1 else 0)
  {
    var rest := Without(es, p.id);
    var next := rest + [BuildIndexEntry(p, Find(es, p.id))];
    WithoutKeeps(es, p.id);
    assert UniqueIds(next) by {
      assert forall i :: 0 <= i < |rest| ==> rest[i] in rest;
    }
    IdOrderIsTotal(loc);
    SortSorted(IdOrder(loc), next);
    SortKeepsUnique(loc, next);
    SortPermutes(IdOrder(loc), next);
  }

  /** Puts of different ids commute, to the same sequence. */
  lemma PutsCommute(loc: Collation, es: seq<Entry>, p: Profile, q: Profile)
    requires StrictCollation(loc) && UniqueIds(es) && p.id != q.id
    ensures Merge(loc, Merge(loc, es, p), q) == Merge(loc, Merge(loc, es, q), p)
  {
    var ep, eq := Merge(loc, es, p), Merge(loc, es, q);
    MergeSortsAndKeepsUnique(loc, es, p);
    MergeSortsAndKeepsUnique(loc, es, q);
    MergeSortsAndKeepsUnique(loc, ep, q);
    MergeSortsAndKeepsUnique(loc, eq, p);
    forall id
      ensures Find(Merge(loc, ep, q), id) == Find(Merge(loc, eq, p), id)
    {
      FindAfterMerge(loc, ep, q, id);
      FindAfterMerge(loc, eq, p, id);
      FindAfterMerge(loc, es, p, id);
      FindAfterMerge(loc, es, q, id);
    }
    SortedIndexIsItsFind(loc, Merge(loc, ep, q), Merge(loc, eq, p));
  }

  lemma PutIsIdempotent(loc: Collation, es: seq<Entry>, p: Profile)
    requires StrictCollation(loc) && UniqueIds(es)
    ensures Merge(loc, Merge(loc, es, p), p) == Merge(loc, es, p)
  {
    var ep := Merge(loc, es, p);
    MergeSortsAndKeepsUnique(loc, es, p);
    MergeSortsAndKeepsUnique(loc, ep, p);
    forall id
      ensures Find(Merge(loc, ep, p), id) == Find(ep, id)
    {
      FindAfterMerge(loc, ep, p, id);
      FindAfterMerge(loc, es, p, id);
      FindAfterMerge(loc, es, p, p.id);
    }
    SortedIndexIsItsFind(loc, Merge(loc, ep, p), ep);
  }

  /**
   A new profile is enabled, has no aliases, and the capabilities of its blocks; it is found, with what its
   document says.
   */
  lemma PutCreates(loc: Collation, es: seq<Entry>, p: Profile)
    requires StrictCollation(loc) && Find(es, p.id).None?
    ensures var r := Find(Merge(loc, es, p), p.id);
            && r.Some? && r.value.enabled && r.value.aliases == []
            && r.value.displayName == p.displayName && r.value.environment == p.environment
            && r.value.region == p.region
            && (forall t :: t in r.value.capabilities <==> exists b :: b in p.resources && BlockText(b) == t)
  {
    FindAfterMerge(loc, es, p, p.id);
    CapabilitiesAreTheBlocks(p.resources);
  }

  /** An update keeps what operators set by hand: enabled, aliases and capabilities. */
  lemma PutPreserves(loc: Collation, es: seq<Entry>, p: Profile)
    requires StrictCollation(loc) && Find(es, p.id).Some?
    ensures var e, r := Find(es, p.id).value, Find(Merge(loc, es, p), p.id);
            r.Some? && r.value == e.(displayName := p.displayName, environment := p.environment, region := p.region)
  {
    FindAfterMerge(loc, es, p, p.id);
    FindFinds(es, p.id);
  }

  lemma {:induction false} WithoutKeepsSorted(loc: Collation, es: seq<Entry>, id: Text)
    requires Sorted(IdOrder(loc), es)
    ensures Sorted(IdOrder(loc), Without(es, id))
  {
    if es != [] {
      WithoutKeepsSorted(loc, es[1..], id);
      WithoutKeeps(es[1..], id);
      var rest := Without(es[1..], id);
      forall i | 0 <= i < |rest|
        ensures IdOrder(loc)(es[0], rest[i])
      {
        assert rest[i] in es[1..];
      }
    }
  }

  /** Deleting undoes the put of a new profile into a sorted index. */
  lemma RemoveUndoesPut(loc: Collation, es: seq<Entry>, p: Profile)
    requires StrictCollation(loc) && UniqueIds(es) && Sorted(IdOrder(loc), es) && Find(es, p.id).None?
    ensures Remove(Merge(loc, es, p), p.id) == es
  {
    var ep := Merge(loc, es, p);
    MergeSortsAndKeepsUnique(loc, es, p);
    WithoutKeeps(ep, p.id);
    WithoutKeepsSorted(loc, ep, p.id);
    forall id
      ensures Find(Remove(ep, p.id), id) == Find(es, id)
    {
      FindWithout(ep, p.id, id);
      FindAfterMerge(loc, es, p, id);
    }
    SortedIndexIsItsFind(loc, Remove(ep, p.id), es);
  }

  // ----- validity of what the operations write

  /** None of the nine block names looks like a secret. */
  ghost predicate PlainBlockNames(env: Env) {
    forall b :: !env.secretLike(BlockText(b))
  }

  lemma BlockTextIsGood(b: BlockName, env: Env)
    requires PlainBlockNames(env)
    ensures GoodText(BlockText(b), 32, env)
  {
    var t := BlockText(b);
    assert 2 <= |t| <= 11;
    assert Trimmed(t);
  }

  lemma {:induction false} BlockNamesAreGood(rs: Resources, blocks: seq<BlockName>, env: Env)
    requires PlainBlockNames(env)
    ensures GoodTexts(BlockNames(rs, blocks), |blocks|, 32, env)
  {
    if blocks != [] {
      BlockNamesAreGood(rs, blocks[1..], env);
      BlockTextIsGood(blocks[0], env);
    }
  }

  lemma DerivedCapabilitiesAreGood(rs: Resources, env: Env)
    requires PlainBlockNames(env)
    ensures GoodTexts(DeriveCapabilities(rs), 20, 32, env)
  {
    var names := BlockNames(rs, KNOWN_RESOURCE_BLOCKS);
    BlockNamesAreGood(rs, KNOWN_RESOURCE_BLOCKS, env);
    SortPermutes(LexLe, names);
    forall i | 0 <= i < |DeriveCapabilities(rs)|
      ensures GoodText(DeriveCapabilities(rs)[i], 32, env)
    {
      assert DeriveCapabilities(rs)[i] in multiset(DeriveCapabilities(rs));
      assert DeriveCapabilities(rs)[i] in names;
    }
  }

  lemma BuiltEntryIsGood(p: Profile, existing: Option<Entry>, env: Env)
    requires GoodProfile(p, env) && PlainBlockNames(env)
    requires existing.Some? ==> GoodEntry(existing.value, env)
    ensures GoodEntry(BuildIndexEntry(p, existing), env)
  {
    DerivedCapabilitiesAreGood(p.resources, env);
  }

  lemma {:induction false} BlockNamesMembers(rs: Resources, blocks: seq<BlockName>, t: Text)
    ensures t in BlockNames(rs, blocks) <==> exists b :: b in blocks && b in rs && BlockText(b) == t
  {
    if blocks != [] {
      BlockNamesMembers(rs, blocks[1..], t);
      assert forall b :: b in blocks <==> b == blocks[0] || b in blocks[1..];
    }
  }

  /** A new profile's capabilities are the names of its resource blocks, in code-unit order. */
  lemma CapabilitiesAreTheBlocks(rs: Resources)
    ensures Sorted(LexLe, DeriveCapabilities(rs))
    ensures forall t :: t in DeriveCapabilities(rs) <==> exists b :: b in rs && BlockText(b) == t
  {
    var names := BlockNames(rs, KNOWN_RESOURCE_BLOCKS);
    LexIsTotalOrder();
    SortSorted(LexLe, names);
    SortPermutes(LexLe, names);
    forall t
      ensures t in DeriveCapabilities(rs) <==> exists b :: b in rs && BlockText(b) == t
    {
      assert t in DeriveCapabilities(rs) <==> t in multiset(DeriveCapabilities(rs));
      assert t in names <==> t in multiset(names);
      BlockNamesMembers(rs, KNOWN_RESOURCE_BLOCKS, t);
      forall b | b in rs
        ensures b in KNOWN_RESOURCE_BLOCKS
      {
        EveryBlockIsKnown(b);
      }
    }
  }

  lemma MergedEntriesAreGood(loc: Collation, es: seq<Entry>, p: Profile, env: Env)
    requires GoodEntries(es, env) && GoodProfile(p, env) && PlainBlockNames(env)
    ensures GoodEntries(Merge(loc, es, p), env)
  {
    var next := BuildIndexEntry(p, Find(es, p.id));
    var all := Without(es, p.id) + [next];
    FindFinds(es, p.id);
    BuiltEntryIsGood(p, Find(es, p.id), env);
    WithoutKeeps(es, p.id);
    SortPermutes(IdOrder(loc), all);
    var merged := Merge(loc, es, p);
    forall i | 0 <= i < |merged|
      ensures GoodEntry(merged[i], env)
    {
      assert merged[i] in multiset(merged);
      assert merged[i] in all;
      assert merged[i] == next || merged[i] in Without(es, p.id);
    }
  }

  /** `assertValidIndex` after a merge fails exactly when a new profile meets a full index. */
  lemma MergeRejectedIff(loc: Collation, es: seq<Entry>, p: Profile, env: Env)
    requires StrictCollation(loc) && GoodIndex(es, env) && GoodProfile(p, env) && PlainBlockNames(env)
    ensures IndexOf(IndexDoc(Merge(loc, es, p)), None, env) ==
            if |es| == 50 && Find(es, p.id).None? then None else Some(Merge(loc, es, p))
  {
    MergeSortsAndKeepsUnique(loc, es, p);
    MergedEntriesAreGood(loc, es, p, env);
    IndexAcceptedIff(Merge(loc, es, p), None, env);
  }

  /** `assertValidIndex` after a removal never fails. */
  lemma RemoveAccepted(es: seq<Entry>, id: Text, env: Env)
    requires GoodIndex(es, env)
    ensures GoodIndex(Remove(es, id), env)
    ensures IndexOf(IndexDoc(Remove(es, id)), None, env) == Some(Remove(es, id))
  {
    var rest := Remove(es, id);
    WithoutKeeps(es, id);
    forall i | 0 <= i < |rest|
      ensures GoodEntry(rest[i], env)
    {
      assert rest[i] in es;
    }
    IndexAcceptedIff(rest, None, env);
  }
}
