/** The blog content store of blog-data.js.

    The store keeps three collections (posts, categories, tags) in an
    in-memory cache (`dataCache`) mirrored into three local-storage slots.
    Reads go to the cache, then to storage, then yield `[]`. The first call of
    `ensureDataLoaded` loads the JSON snapshot (or, failing that, the stored
    lists) and seeds default categories and tags; every write replaces one
    collection in both the cache and storage.

    Timestamps are abstract points in time (`nat`), compared as the source
    compares `new Date(...)` values. The clock (`now`) and `generateId()`
    are parameters. */
module BlogData {
  import opened Common
  import opened Text
  import opened Slug
  import opened Seqs
  import Sorting

  type Timestamp = nat

  /** A stored post. `legacyWpId` and `publishedAt` and `categoryId` are nullable. */
  datatype Post = Post(
    id: string,
    legacyWpId: Option<string>,
    title: string,
    slug: string,
    excerpt: string,
    content: string,
    status: string,
    publishedAt: Option<Timestamp>,
    createdAt: Timestamp,
    updatedAt: Timestamp,
    categoryId: Option<string>,
    tags: seq<string>,
    readingTimeMinutes: nat)

  /** The object passed to `savePost`: each key may be missing. */
  datatype PostInput = PostInput(
    id: Field<string>,
    legacyWpId: Field<string>,
    title: Field<string>,
    slug: Field<string>,
    excerpt: Field<string>,
    content: Field<string>,
    status: Field<string>,
    publishedAt: Field<Option<Timestamp>>,
    createdAt: Field<Timestamp>,
    categoryId: Field<Option<string>>,
    tags: Field<seq<string>>,
    readingTimeMinutes: Field<nat>)

  /** A category or a tag. */
  datatype Term = Term(id: string, name: string, slug: string)

  /** The object passed to `saveCategory` / `saveTag`. */
  datatype TermInput = TermInput(id: Field<string>, name: Field<string>, slug: Field<string>)

  /** The JSON document `{ posts, categories, tags }` (`|| []` already applied). */
  datatype Snapshot = Snapshot(posts: seq<Post>, categories: seq<Term>, tags: seq<Term>)

  /** Three nullable slots: the fields of `dataCache`, or the three
      local-storage keys (`None` is `null` / a missing key). */
  datatype Slots = Slots(posts: Option<seq<Post>>, categories: Option<seq<Term>>, tags: Option<seq<Term>>)

  const EmptySlots := Slots(None, None, None)

  /** `getAllPostsSyncInternal` and its siblings: the cached list, else the
      stored list, else `[]`. */
  function Current<T>(cached: Option<seq<T>>, stored: Option<seq<T>>): (r: seq<T>)
    ensures cached.Some? ==> r == cached.value
    ensures cached.None? && stored.Some? ==> r == stored.value
    ensures cached.None? && stored.None? ==> r == []
  {
    if cached.Some? then cached.value else if stored.Some? then stored.value else []
  }

  /** The state the store's functions read: cache, storage and the
      "loaded from JSON" flag. */
  datatype Store = Store(cache: Slots, storage: Slots, loadedFromJson: bool) {
    function Posts(): seq<Post> { Current(cache.posts, storage.posts) }
    function Categories(): seq<Term> { Current(cache.categories, storage.categories) }
    function Tags(): seq<Term> { Current(cache.tags, storage.tags) }
  }

  /** `savePost` writes its list to the cache and to storage. */
  function WithPosts(s: Store, posts: seq<Post>): (r: Store)
    ensures r.Posts() == posts && r.Categories() == s.Categories() && r.Tags() == s.Tags()
  {
    s.(cache := s.cache.(posts := Some(posts)), storage := s.storage.(posts := Some(posts)))
  }

  function WithCategories(s: Store, categories: seq<Term>): (r: Store)
    ensures r.Categories() == categories && r.Posts() == s.Posts() && r.Tags() == s.Tags()
  {
    s.(cache := s.cache.(categories := Some(categories)), storage := s.storage.(categories := Some(categories)))
  }

  function WithTags(s: Store, tags: seq<Term>): (r: Store)
    ensures r.Tags() == tags && r.Posts() == s.Posts() && r.Categories() == s.Categories()
  {
    s.(cache := s.cache.(tags := Some(tags)), storage := s.storage.(tags := Some(tags)))
  }

  // ---------------------------------------------------------------------
  // Load sequence (blog-data.js:19-124)

  const DefaultCategories: seq<Term> := [
    Term("tax", "Tax", "tax"),
    Term("accounts", "Accounts", "accounts"),
    Term("advisory", "Advisory", "advisory"),
    Term("business", "Business", "business"),
    Term("news", "News", "news")
  ]

  const DefaultTags: seq<Term> := [
    Term("self-assessment", "Self Assessment", "self-assessment"),
    Term("vat", "VAT", "vat"),
    Term("corporation-tax", "Corporation Tax", "corporation-tax"),
    Term("planning", "Planning", "planning"),
    Term("compliance", "Compliance", "compliance")
  ]

  /** A list is written to storage by the JSON load only when it is non-empty. */
  function PersistIfAny<T>(slot: Option<seq<T>>, xs: seq<T>): (r: Option<seq<T>>)
    ensures xs != [] ==> r == Some(xs)
    ensures xs == [] ==> r == slot
  {
    if |xs| > 0 then Some(xs) else slot
  }

  /** The fallback takes a stored list when there is one. */
  function PreferStored<T>(stored: Option<seq<T>>, cached: Option<seq<T>>): (r: Option<seq<T>>)
    ensures stored.Some? ==> r == stored
    ensures stored.None? ==> r == cached
  {
    if stored.Some? then stored else cached
  }

  /** The first half of the load: `loadDataFromJSON` when the snapshot is
      available (`json` is `Some`), the local-storage fallback otherwise. */
  function Fetch(s: Store, json: Option<Snapshot>): Store {
    match json
    case Some(j) =>
      Store(
        Slots(Some(j.posts), Some(j.categories), Some(j.tags)),
        Slots(PersistIfAny(s.storage.posts, j.posts),
              PersistIfAny(s.storage.categories, j.categories),
              PersistIfAny(s.storage.tags, j.tags)),
        true)
    case None =>
      s.(cache := Slots(PreferStored(s.storage.posts, s.cache.posts),
                        PreferStored(s.storage.categories, s.cache.categories),
                        PreferStored(s.storage.tags, s.cache.tags)))
  }

  predicate EmptySlot<T>(slot: Option<seq<T>>) { slot.None? || slot.value == [] }

  /** `if (!dataCache.categories || dataCache.categories.length === 0) initDefaultCategories()`. */
  function SeedCategories(s: Store): Store {
    if EmptySlot(s.cache.categories) && s.Categories() == [] then WithCategories(s, DefaultCategories) else s
  }

  function SeedTags(s: Store): Store {
    if EmptySlot(s.cache.tags) && s.Tags() == [] then WithTags(s, DefaultTags) else s
  }

  /** The whole effect of the first `ensureDataLoaded` call. */
  function AfterLoad(s: Store, json: Option<Snapshot>): Store {
    SeedTags(SeedCategories(Fetch(s, json)))
  }

  /** A successful JSON load replaces all three lists; empty taxonomy lists are
      replaced by the defaults; only non-empty lists reach storage. */
  lemma LoadFromSnapshot(s: Store, j: Snapshot)
    ensures AfterLoad(s, Some(j)).Posts() == j.posts
    ensures AfterLoad(s, Some(j)).Categories() == (if j.categories != [] then j.categories else DefaultCategories)
    ensures AfterLoad(s, Some(j)).Tags() == (if j.tags != [] then j.tags else DefaultTags)
    ensures AfterLoad(s, Some(j)).storage.posts == (if j.posts != [] then Some(j.posts) else s.storage.posts)
    ensures AfterLoad(s, Some(j)).loadedFromJson
  {
  }

  /** Without the snapshot the stored lists win over the cache; storage and
      the flag are left alone apart from seeding. */
  lemma LoadFallback(s: Store)
    ensures AfterLoad(s, None).Posts() == (if s.storage.posts.Some? then s.storage.posts.value else s.Posts())
    ensures AfterLoad(s, None).storage.posts == s.storage.posts
    ensures AfterLoad(s, None).loadedFromJson == s.loadedFromJson
    ensures s.storage.categories.Some? && s.storage.categories.value != [] ==>
              AfterLoad(s, None).Categories() == s.storage.categories.value
  {
  }

  /** After the load there is always at least one category and one tag, while
      the post list is never seeded. */
  lemma LoadSeedsTaxonomy(s: Store, json: Option<Snapshot>)
    ensures AfterLoad(s, json).Categories() != []
    ensures AfterLoad(s, json).Tags() != []
    ensures AfterLoad(s, json).Posts() == Fetch(s, json).Posts()
  {
    var f := Fetch(s, json);
    var c := SeedCategories(f);
    assert c.Categories() != [] by {
      if !(EmptySlot(f.cache.categories) && f.Categories() == []) {
        assert f.cache.categories.Some? ==> f.cache.categories.value != [];
      }
    }
  }

  /** With nothing cached, nothing stored and no snapshot, the store holds
      exactly the five default categories, the five default tags and no posts. */
  lemma LoadFromNothing()
    ensures AfterLoad(Store(EmptySlots, EmptySlots, false), None).Categories() == DefaultCategories
    ensures AfterLoad(Store(EmptySlots, EmptySlots, false), None).Tags() == DefaultTags
    ensures AfterLoad(Store(EmptySlots, EmptySlots, false), None).Posts() == []
    ensures |DefaultCategories| == 5 && |DefaultTags| == 5
  {
  }

  /** `exportToJSON` (blog-data.js:416-423): the three lists as the getters see them. */
  function Export(s: Store): (r: Snapshot)
    ensures r.posts == s.Posts() && r.categories == s.Categories() && r.tags == s.Tags()
  {
    Snapshot(s.Posts(), s.Categories(), s.Tags())
  }

  /** Loading an exported snapshot into any store reproduces what the
      exporting store showed, once that store has its taxonomy. */
  lemma ExportLoadRoundTrip(s: Store, other: Store)
    requires s.Categories() != [] && s.Tags() != []
    ensures AfterLoad(other, Some(Export(s))).Posts() == s.Posts()
    ensures AfterLoad(other, Some(Export(s))).Categories() == s.Categories()
    ensures AfterLoad(other, Some(Export(s))).Tags() == s.Tags()
  {
    LoadFromSnapshot(other, Export(s));
  }

  // ---------------------------------------------------------------------
  // Slugs and reading time

  /** JavaScript truthiness of an optional string key. */
  predicate Truthy(f: Field<string>) { f.Given? && f.value != "" }

  /** `ensureUniqueSlug` appends `-${counter}` to its base. */
  function Suffixed(base: string, k: nat): (r: string)
    ensures |r| > |base| + 1 && r[..|base|] == base && r[|base|] == '-'
    ensures r[|base| + 1..] == NatToString(k)
  {
    base + "-" + NatToString(k)
  }

  lemma {:induction false} SuffixedInjective(base: string, a: nat, b: nat)
    requires Suffixed(base, a) == Suffixed(base, b)
    ensures a == b
  {
    NatToStringInjective(a, b);
  }

  /** `posts.some(p => p.slug === slug && p.id !== excludeId)`. */
  predicate SlugTaken(posts: seq<Post>, slug: string, excludeId: Option<string>) {
    exists i :: 0 <= i < |posts| && posts[i].slug == slug && Some(posts[i].id) != excludeId
  }

  /** What `ensureUniqueSlug(base, excludeId)` returns: `base` when no other
      post uses it, otherwise `base-k` for the least `k >= 1` that is free. */
  ghost predicate IsUniqueSlugFor(posts: seq<Post>, base: string, excludeId: Option<string>, r: string) {
    !SlugTaken(posts, r, excludeId)
    && (r == base
        || (SlugTaken(posts, base, excludeId)
            && exists k: nat :: k >= 1 && r == Suffixed(base, k)
                 && forall j: nat :: 1 <= j < k ==> SlugTaken(posts, Suffixed(base, j), excludeId)))
  }

  /** The value `uniqueSlug` holds while `counter == c`. */
  function Candidate(base: string, c: nat): (r: string)
    requires c >= 1
    ensures c == 1 ==> r == base
    ensures c > 1 ==> r == Suffixed(base, c - 1)
  {
    if c == 1 then base else Suffixed(base, c - 1)
  }

  lemma {:induction false} CandidateInjective(base: string, a: nat, b: nat)
    requires a >= 1 && b >= 1 && Candidate(base, a) == Candidate(base, b)
    ensures a == b
  {
    if a > 1 && b > 1 {
      SuffixedInjective(base, a - 1, b - 1);
    }
  }

  /** The slugs that count as taken for a given `excludeId`. */
  ghost function TakenSlugs(posts: seq<Post>, excludeId: Option<string>): set<string> {
    set i | 0 <= i < |posts| && Some(posts[i].id) != excludeId :: posts[i].slug
  }

  lemma {:induction false} TakenSlugsHas(posts: seq<Post>, slug: string, excludeId: Option<string>)
    requires SlugTaken(posts, slug, excludeId)
    ensures slug in TakenSlugs(posts, excludeId)
  {
    var i :| 0 <= i < |posts| && posts[i].slug == slug && Some(posts[i].id) != excludeId;
  }

  /** The slugs the loop has found taken before `counter` reached its value. */
  ghost function TriedBefore(base: string, counter: nat): set<string>
    requires counter >= 1
  {
    if counter == 1 then {} else TriedBefore(base, counter - 1) + {Candidate(base, counter - 1)}
  }

  /** One turn of the loop of `ensureUniqueSlug`: the taken candidate joins
      the tried ones, which stay among the taken slugs, and fewer taken
      slugs are left untried. */
  lemma UniqueSlugStep(posts: seq<Post>, base: string, excludeId: Option<string>, counter: nat,
                       tried: set<string>, taken: set<string>)
    requires counter >= 1 && taken == TakenSlugs(posts, excludeId)
    requires forall c: nat :: 1 <= c < counter ==> SlugTaken(posts, Candidate(base, c), excludeId)
    requires tried == TriedBefore(base, counter) && tried <= taken
    requires SlugTaken(posts, Candidate(base, counter), excludeId)
    ensures forall c: nat :: 1 <= c < counter + 1 ==> SlugTaken(posts, Candidate(base, c), excludeId)
    ensures TriedBefore(base, counter + 1) == tried + {Candidate(base, counter)} <= taken
    ensures |taken - TriedBefore(base, counter + 1)| < |taken - tried|
    ensures Candidate(base, counter + 1) == base + "-" + NatToString(counter)
  {
    var u := Candidate(base, counter);
    TakenSlugsHas(posts, u, excludeId);
    NextCandidateUntried(base, counter, counter);
    FewerUntried(taken, tried, u);
  }

  lemma FewerUntried(taken: set<string>, tried: set<string>, u: string)
    requires u in taken && u !in tried
    ensures |taken - (tried + {u})| < |taken - tried|
  {
    assert taken - (tried + {u}) == (taken - tried) - {u};
  }

  /** The loop never tries a slug twice. */
  lemma {:induction false} NextCandidateUntried(base: string, counter: nat, later: nat)
    requires 1 <= counter <= later
    ensures Candidate(base, later) !in TriedBefore(base, counter)
  {
    if counter > 1 {
      NextCandidateUntried(base, counter - 1, later);
      if Candidate(base, later) == Candidate(base, counter - 1) {
        CandidateInjective(base, later, counter - 1);
      }
    }
  }

  /** When the loop stops at `counter`, every earlier candidate was taken and
      this one is free: that is the unique slug. */
  lemma {:induction false} FirstFreeCandidate(posts: seq<Post>, base: string, excludeId: Option<string>, counter: nat)
    requires counter >= 1
    requires forall c: nat :: 1 <= c < counter ==> SlugTaken(posts, Candidate(base, c), excludeId)
    requires !SlugTaken(posts, Candidate(base, counter), excludeId)
    ensures IsUniqueSlugFor(posts, base, excludeId, Candidate(base, counter))
  {
    if counter > 1 {
      var k: nat := counter - 1;
      assert SlugTaken(posts, Candidate(base, 1), excludeId);
      forall j: nat | 1 <= j < k ensures SlugTaken(posts, Suffixed(base, j), excludeId) {
        assert Candidate(base, j + 1) == Suffixed(base, j);
      }
      assert Candidate(base, counter) == Suffixed(base, k);
    }
  }

  /** The slug `ensureUniqueSlug` picks is determined by its inputs. */
  lemma {:induction false} UniqueSlugDeterministic(posts: seq<Post>, base: string, excludeId: Option<string>, a: string, b: string)
    requires IsUniqueSlugFor(posts, base, excludeId, a)
    requires IsUniqueSlugFor(posts, base, excludeId, b)
    ensures a == b
  {
    if a != base && b != base {
      var ka: nat :| ka >= 1 && a == Suffixed(base, ka)
        && forall j: nat :: 1 <= j < ka ==> SlugTaken(posts, Suffixed(base, j), excludeId);
      var kb: nat :| kb >= 1 && b == Suffixed(base, kb)
        && forall j: nat :: 1 <= j < kb ==> SlugTaken(posts, Suffixed(base, j), excludeId);
    }
  }

  /** What holds when the loop of `ensureUniqueSlug` reaches `counter`: every
      earlier candidate was taken, and those are among the taken slugs. */
  ghost predicate ReachedCounter(posts: seq<Post>, base: string, excludeId: Option<string>, counter: nat) {
    counter >= 1
    && (forall c: nat :: 1 <= c < counter ==> SlugTaken(posts, Candidate(base, c), excludeId))
    && TriedBefore(base, counter) <= TakenSlugs(posts, excludeId)
  }

  /** How many taken slugs the loop has not tried yet. */
  ghost function Untried(posts: seq<Post>, base: string, excludeId: Option<string>, counter: nat): nat
    requires counter >= 1
  {
    |TakenSlugs(posts, excludeId) - TriedBefore(base, counter)|
  }

  /** A turn of the loop past a taken candidate keeps `ReachedCounter` and
      leaves fewer taken slugs untried. */
  lemma NextCounter(posts: seq<Post>, base: string, excludeId: Option<string>, counter: nat)
    requires ReachedCounter(posts, base, excludeId, counter)
    requires SlugTaken(posts, Candidate(base, counter), excludeId)
    ensures ReachedCounter(posts, base, excludeId, counter + 1)
    ensures Untried(posts, base, excludeId, counter + 1) < Untried(posts, base, excludeId, counter)
  {
    UniqueSlugStep(posts, base, excludeId, counter, TriedBefore(base, counter), TakenSlugs(posts, excludeId));
  }

  /** The slug the loop of `ensureUniqueSlug` settles on when it reaches
      `counter`: the first candidate from `counter` on that no other post
      uses. */
  function UniqueSlugFrom(posts: seq<Post>, base: string, excludeId: Option<string>, counter: nat): (r: string)
    requires ReachedCounter(posts, base, excludeId, counter)
    ensures IsUniqueSlugFor(posts, base, excludeId, r)
    decreases Untried(posts, base, excludeId, counter)
  {
    if SlugTaken(posts, Candidate(base, counter), excludeId) then
      NextCounter(posts, base, excludeId, counter);
      UniqueSlugFrom(posts, base, excludeId, counter + 1)
    else
      FirstFreeCandidate(posts, base, excludeId, counter);
      Candidate(base, counter)
  }

  /** `ensureUniqueSlug(base, excludeId)` over `posts`: always defined, since
      the posts take finitely many slugs. */
  function UniqueSlug(posts: seq<Post>, base: string, excludeId: Option<string>): (r: string)
    ensures IsUniqueSlugFor(posts, base, excludeId, r)
    ensures !SlugTaken(posts, base, excludeId) ==> r == base
  {
    UniqueSlugFrom(posts, base, excludeId, 1)
  }

  /** No two posts share a slug. */
  predicate DistinctSlugs(posts: seq<Post>) {
    forall i, j :: 0 <= i < j < |posts| ==> posts[i].slug != posts[j].slug
  }

  /** Appending a post whose slug came from `ensureUniqueSlug` (with no
      excluded id) keeps the slugs of the list distinct. */
  lemma {:induction false} CreateKeepsSlugsDistinct(posts: seq<Post>, base: string, p: Post)
    requires DistinctSlugs(posts)
    requires IsUniqueSlugFor(posts, base, None, p.slug)
    ensures DistinctSlugs(posts + [p])
  {
    var r := posts + [p];
    forall i, j | 0 <= i < j < |r| ensures r[i].slug != r[j].slug {
      if j == |posts| {
        assert r[i] == posts[i];
      }
    }
  }

  /** `calculateReadingTime`: one minute per started 200 split pieces. */
  function CalculateReadingTime(content: string): (r: nat)
    ensures r >= 1
    ensures (r - 1) * 200 < |SplitWs(content)| <= r * 200
  {
    CeilDiv(|SplitWs(content)|, 200)
  }

  /** A text of `n` words separated by single spaces reads in `ceil(n / 200)`
      minutes; 220 words read in 2. */
  lemma ReadingTimeOfWords(words: seq<string>)
    requires |words| >= 1
    requires forall i :: 0 <= i < |words| ==> IsWord(words[i])
    ensures CalculateReadingTime(Join(words, " ")) == CeilDiv(|words|, 200)
    ensures |words| == 220 ==> CalculateReadingTime(Join(words, " ")) == 2
  {
    SplitWsJoin(words);
  }

  // ---------------------------------------------------------------------
  // savePost (blog-data.js:250-294)

  /** The message of the `TypeError` raised by `generateSlug(undefined)`. */
  const MissingTitleError := "Cannot read properties of undefined (reading 'toLowerCase')"

  /** The index `savePost` updates: a post with the same `id` first, else one
      with the same `legacy_wp_id`, else -1. */
  function MatchIndex(posts: seq<Post>, data: PostInput): (r: int)
    ensures -1 <= r < |posts|
    ensures Truthy(data.id) && (exists j :: 0 <= j < |posts| && posts[j].id == data.id.value) ==>
              r >= 0 && posts[r].id == data.id.value && forall j :: 0 <= j < r ==> posts[j].id != data.id.value
    ensures r >= 0 ==> (Truthy(data.id) && posts[r].id == data.id.value)
                       || (Truthy(data.legacyWpId) && posts[r].legacyWpId == Some(data.legacyWpId.value))
    ensures (!Truthy(data.id) || forall j :: 0 <= j < |posts| ==> posts[j].id != data.id.value) && r >= 0 ==>
              Truthy(data.legacyWpId) && posts[r].legacyWpId == Some(data.legacyWpId.value)
              && forall j :: 0 <= j < r ==> posts[j].legacyWpId != Some(data.legacyWpId.value)
    ensures r == -1 <==>
              (!Truthy(data.id) || forall j :: 0 <= j < |posts| ==> posts[j].id != data.id.value)
              && (!Truthy(data.legacyWpId) || forall j :: 0 <= j < |posts| ==> posts[j].legacyWpId != Some(data.legacyWpId.value))
  {
    var byId := if Truthy(data.id) then FirstIndex(posts, (p: Post) => p.id == data.id.value) else -1;
    if byId == -1 && Truthy(data.legacyWpId) then
      FirstIndex(posts, (p: Post) => p.legacyWpId == Some(data.legacyWpId.value))
    else byId
  }

  /** `{...old, ...postData, updated_at: now}`, then the id repair for a
      match by `legacy_wp_id` without an id. */
  function Merge(p: Post, data: PostInput, now: Timestamp, freshId: string): (r: Post)
    ensures r.updatedAt == now
    ensures Truthy(data.id) ==> r.id == data.id.value
    ensures data.id.Absent? && p.id != "" ==> r.id == p.id
    ensures r.slug == data.slug.Over(p.slug) && r.readingTimeMinutes == data.readingTimeMinutes.Over(p.readingTimeMinutes)
  {
    var m := Post(
      data.id.Over(p.id),
      if data.legacyWpId.Given? then Some(data.legacyWpId.value) else p.legacyWpId,
      data.title.Over(p.title),
      data.slug.Over(p.slug),
      data.excerpt.Over(p.excerpt),
      data.content.Over(p.content),
      data.status.Over(p.status),
      data.publishedAt.Over(p.publishedAt),
      data.createdAt.Over(p.createdAt),
      now,
      data.categoryId.Over(p.categoryId),
      data.tags.Over(p.tags),
      data.readingTimeMinutes.Over(p.readingTimeMinutes));
    if Truthy(data.legacyWpId) && !Truthy(data.id) then
      m.(id := if m.id != "" then m.id else freshId)
    else m
  }

  /** Saving the same data twice at the same time gives the same record as
      saving it once: re-imports are idempotent. */
  lemma MergeIdempotent(p: Post, data: PostInput, now: Timestamp, freshId: string)
    ensures Merge(Merge(p, data, now, freshId), data, now, freshId) == Merge(p, data, now, freshId)
  {
  }

  /** A post matched by its own id keeps it, and so does one matched by
      `legacy_wp_id` when the input carries no id. */
  lemma MergeKeepsIdentity(posts: seq<Post>, data: PostInput, now: Timestamp, freshId: string)
    requires MatchIndex(posts, data) >= 0
    requires data.id.Absent? || (Truthy(data.id) && exists j :: 0 <= j < |posts| && posts[j].id == data.id.value)
    requires posts[MatchIndex(posts, data)].id != ""
    ensures Merge(posts[MatchIndex(posts, data)], data, now, freshId).id == posts[MatchIndex(posts, data)].id
  {
  }

  /** A match by `legacy_wp_id` whose input carries an unknown non-empty id
      takes that id: the repair at blog-data.js:273-275 runs only when the
      input has no id. */
  lemma LegacyMatchAdoptsSuppliedId()
    ensures var stored := Post("a", Some("7"), "T", "t", "", "", "published", None, 0, 0, None, [], 1);
            var data := PostInput(Given("b"), Given("7"), Absent, Absent, Absent, Absent, Absent,
                                  Absent, Absent, Absent, Absent, Absent);
            MatchIndex([stored], data) == 0 && Merge(stored, data, 5, "fresh").id == "b"
  {
    var stored := Post("a", Some("7"), "T", "t", "", "", "published", None, 0, 0, None, [], 1);
    var data := PostInput(Given("b"), Given("7"), Absent, Absent, Absent, Absent, Absent,
                          Absent, Absent, Absent, Absent, Absent);
    assert stored.id != "b";
  }

  /** An update may give a post the slug of another one: only creation goes
      through `ensureUniqueSlug`. */
  lemma UpdateMayDuplicateSlug()
    ensures var a := Post("a", None, "A", "x", "", "", "published", None, 0, 0, None, [], 1);
            var b := Post("b", None, "B", "y", "", "", "published", None, 0, 0, None, [], 1);
            var data := PostInput(Given("b"), Absent, Absent, Given("x"), Absent, Absent, Absent,
                                  Absent, Absent, Absent, Absent, Absent);
            DistinctSlugs([a, b]) && MatchIndex([a, b], data) == 1
            && !DistinctSlugs([a, b][1 := Merge(b, data, 1, "f")])
  {
    var a := Post("a", None, "A", "x", "", "", "published", None, 0, 0, None, [], 1);
    var b := Post("b", None, "B", "y", "", "", "published", None, 0, 0, None, [], 1);
    var data := PostInput(Given("b"), Absent, Absent, Given("x"), Absent, Absent, Absent,
                          Absent, Absent, Absent, Absent, Absent);
    assert a.id != "b";
    assert [a, b][1].id == "b";
    var m := Merge(b, data, 1, "f");
    assert m.slug == "x";
    assert [a, b][1 := m] == [a, m];
    assert [a, m][0].slug == [a, m][1].slug;
    assert DistinctSlugs([a, b]) by {
      assert "x" != "y";
    }
    assert MatchIndex([a, b], data) == 1;
  }

  /** The slug a new post asks for: `postData.slug || generateSlug(postData.title)`;
      `None` when `generateSlug` would be applied to a missing title. */
  function DesiredSlug(data: PostInput): (r: Option<string>)
    ensures Truthy(data.slug) ==> r == Some(data.slug.value)
    ensures !Truthy(data.slug) && data.title.Given? ==> r == Some(GenerateSlug(data.title.value))
    ensures r.None? <==> !Truthy(data.slug) && data.title.Absent?
  {
    if Truthy(data.slug) then Some(data.slug.value)
    else if data.title.Given? then Some(GenerateSlug(data.title.value))
    else None
  }

  /** The record `savePost` appends: a fresh id unless the input supplies one,
      the unique slug, a computed reading time, the supplied `created_at`
      or `now`. */
  function NewPost(data: PostInput, slug: string, now: Timestamp, freshId: string): (r: Post)
    ensures r.id == data.id.Over(freshId)
    ensures r.slug == slug && r.updatedAt == now
    ensures r.createdAt == data.createdAt.Over(now)
    ensures r.readingTimeMinutes == CalculateReadingTime(data.content.Over("")) >= 1
  {
    Post(
      data.id.Over(freshId),
      if data.legacyWpId.Given? then Some(data.legacyWpId.value) else None,
      data.title.Over(""),
      slug,
      data.excerpt.Over(""),
      data.content.Over(""),
      data.status.Over(""),
      data.publishedAt.Over(None),
      data.createdAt.Over(now),
      now,
      data.categoryId.Over(None),
      data.tags.Over([]),
      CalculateReadingTime(data.content.Over("")))
  }

  /** What `savePost` leaves behind: the post it returns and the new list. */
  datatype Saved = Saved(post: Post, posts: seq<Post>)

  /** `savePost(data)` on the list `posts` at time `now`, `freshId` being
      what `generateId()` returns: a matched post is merged in place, an
      unmatched one is appended with a slug made unique, and an unmatched
      post with neither slug nor title throws. */
  function SavePostResult(posts: seq<Post>, data: PostInput, now: Timestamp, freshId: string): (r: Result<Saved>)
    ensures var i := MatchIndex(posts, data);
            i >= 0 ==> r == Ok(Saved(Merge(posts[i], data, now, freshId), posts[i := Merge(posts[i], data, now, freshId)]))
    ensures MatchIndex(posts, data) < 0 && DesiredSlug(data).None? ==> r == Err(MissingTitleError)
    ensures MatchIndex(posts, data) < 0 && DesiredSlug(data).Some? ==>
              r.Ok? && IsUniqueSlugFor(posts, DesiredSlug(data).value, None, r.value.post.slug)
              && r.value.post == NewPost(data, r.value.post.slug, now, freshId)
              && r.value.posts == posts + [r.value.post]
    ensures r.Err? <==> MatchIndex(posts, data) < 0 && !Truthy(data.slug) && data.title.Absent?
    ensures r.Ok? && MatchIndex(posts, data) < 0 && DistinctSlugs(posts) ==> DistinctSlugs(r.value.posts)
  {
    var i := MatchIndex(posts, data);
    if i >= 0 then
      var updated := Merge(posts[i], data, now, freshId);
      Ok(Saved(updated, posts[i := updated]))
    else
      match DesiredSlug(data)
      case None => Err(MissingTitleError)
      case Some(base) =>
        var created := NewPost(data, UniqueSlug(posts, base, None), now, freshId);
        assert DistinctSlugs(posts) ==> DistinctSlugs(posts + [created]) by {
          if DistinctSlugs(posts) {
            CreateKeepsSlugsDistinct(posts, base, created);
          }
        }
        Ok(Saved(created, posts + [created]))
  }

  // ---------------------------------------------------------------------
  // deletePost (blog-data.js:298-303)

  /** `posts.filter(p => p.id !== id)`: the other posts, each as often as
      the list holds it, in the order of the list. */
  function WithoutId(posts: seq<Post>, id: string): (r: seq<Post>)
    ensures forall p :: p in r <==> p in posts && p.id != id
    ensures |r| <= |posts|
    ensures IsSubsequence(r, posts)
    ensures forall p :: multiset(r)[p] == if p.id != id then multiset(posts)[p] else 0
  {
    var keep := (p: Post) => p.id != id;
    FilterOrder(posts, keep);
    Filter(posts, keep)
  }

  /** Deleting an id no post has leaves the list as it is, and deleting
      twice is deleting once. */
  lemma DeleteUnknownOrRepeated(posts: seq<Post>, id: string)
    ensures (forall i :: 0 <= i < |posts| ==> posts[i].id != id) ==> WithoutId(posts, id) == posts
    ensures WithoutId(WithoutId(posts, id), id) == WithoutId(posts, id)
  {
    if forall i :: 0 <= i < |posts| ==> posts[i].id != id {
      FilterKeepsAll(posts, (p: Post) => p.id != id);
    }
    var r := WithoutId(posts, id);
    assert forall i :: 0 <= i < |r| ==> r[i] in r;
    FilterKeepsAll(r, (p: Post) => p.id != id);
  }

  // ---------------------------------------------------------------------
  // saveCategory / saveTag (blog-data.js:306-347)

  function TermIndex(terms: seq<Term>, id: string): (r: int)
    ensures -1 <= r < |terms|
    ensures r >= 0 ==> terms[r].id == id && forall j :: 0 <= j < r ==> terms[j].id != id
    ensures r == -1 <==> forall j :: 0 <= j < |terms| ==> terms[j].id != id
  {
    FirstIndex(terms, (t: Term) => t.id == id)
  }

  /** `{ ...terms[index], ...data }`. */
  function MergeTerm(t: Term, data: TermInput): (r: Term)
    ensures data.id.Absent? ==> r.id == t.id
  {
    Term(data.id.Over(t.id), data.name.Over(t.name), data.slug.Over(t.slug))
  }

  /** `data.slug || generateSlug(data.name)`, `None` when the name is missing too. */
  function DesiredTermSlug(data: TermInput): (r: Option<string>)
    ensures Truthy(data.slug) ==> r == Some(data.slug.value)
    ensures !Truthy(data.slug) && data.name.Given? ==> r == Some(GenerateSlug(data.name.value))
    ensures r.None? <==> !Truthy(data.slug) && data.name.Absent?
  {
    if Truthy(data.slug) then Some(data.slug.value)
    else if data.name.Given? then Some(GenerateSlug(data.name.value))
    else None
  }

  /** The excluded id passed on: the (falsy) `data.id`, `null` when missing. */
  function ExcludeOf(id: Field<string>): (r: Option<string>)
    ensures id.Given? <==> r.Some?
  {
    if id.Given? then Some(id.value) else None
  }

  /** The list `saveCategory` / `saveTag` stores for `data` when the posts
      are `posts` and the list is `terms`, or the error it throws;
      `notFound` is the message for an unknown id. */
  function SaveTermResult(posts: seq<Post>, terms: seq<Term>, data: TermInput, freshId: string, notFound: string)
    : (r: Result<seq<Term>>)
    ensures Truthy(data.id) && TermIndex(terms, data.id.value) < 0 ==> r == Err(notFound)
    ensures Truthy(data.id) && TermIndex(terms, data.id.value) >= 0 ==>
              var i := TermIndex(terms, data.id.value);
              r == Ok(terms[i := MergeTerm(terms[i], data)])
    ensures !Truthy(data.id) && DesiredTermSlug(data).None? ==> r == Err(MissingTitleError)
    ensures !Truthy(data.id) && DesiredTermSlug(data).Some? ==>
              r.Ok? && |r.value| == |terms| + 1 && r.value[..|terms|] == terms
              && r.value[|terms|].id == freshId && r.value[|terms|].name == data.name.Over("")
              && IsUniqueSlugFor(posts, DesiredTermSlug(data).value, ExcludeOf(data.id), r.value[|terms|].slug)
  {
    if Truthy(data.id) then
      var i := TermIndex(terms, data.id.value);
      if i == -1 then Err(notFound) else Ok(terms[i := MergeTerm(terms[i], data)])
    else
      match DesiredTermSlug(data)
      case None => Err(MissingTitleError)
      case Some(base) =>
        var r := terms + [Term(freshId, data.name.Over(""), UniqueSlug(posts, base, ExcludeOf(data.id)))];
        assert r[..|terms|] == terms;
        Ok(r)
  }

  /** A new category's slug is made unique against the posts only: with no
      posts, a new category asking for the slug "tax" gets it, although a
      default category already has it. */
  lemma TermSlugNotCheckedAgainstTerms()
    ensures DesiredTermSlug(TermInput(Absent, Given("Tax"), Given("tax"))) == Some("tax")
    ensures IsUniqueSlugFor([], "tax", None, "tax")
    ensures DefaultCategories[0].slug == "tax"
  {
  }

  // ---------------------------------------------------------------------
  // Reads: filters, search, sort (blog-data.js:193-227, 350-402)

  /** `posts.filter(post => post.status === 'published')`, in the order of
      the list. */
  function Published(posts: seq<Post>): (r: seq<Post>)
    ensures forall p :: p in r <==> p in posts && p.status == "published"
    ensures IsSubsequence(r, posts)
    ensures forall p :: multiset(r)[p] == if p.status == "published" then multiset(posts)[p] else 0
  {
    var keep := (p: Post) => p.status == "published";
    FilterOrder(posts, keep);
    Filter(posts, keep)
  }

  /** `posts.find(p => p.id === id)`. */
  function PostById(posts: seq<Post>, id: string): (r: Option<Post>)
    ensures r.None? <==> forall i :: 0 <= i < |posts| ==> posts[i].id != id
    ensures r.Some? ==> exists i :: 0 <= i < |posts| && posts[i] == r.value && r.value.id == id
                          && forall j :: 0 <= j < i ==> posts[j].id != id
  {
    var i := FirstIndex(posts, (p: Post) => p.id == id);
    if i < 0 then None else Some(posts[i])
  }

  /** `posts.find(p => p.slug === slug && p.status === 'published')`: drafts
      are never found by slug. */
  function PostBySlug(posts: seq<Post>, slug: string): (r: Option<Post>)
    ensures r.None? <==> forall i :: 0 <= i < |posts| ==> !(posts[i].slug == slug && posts[i].status == "published")
    ensures r.Some? ==> exists i :: 0 <= i < |posts| && posts[i] == r.value && r.value.slug == slug && r.value.status == "published"
                          && forall j :: 0 <= j < i ==> !(posts[j].slug == slug && posts[j].status == "published")
  {
    var i := FirstIndex(posts, (p: Post) => p.slug == slug && p.status == "published");
    if i < 0 then None else Some(posts[i])
  }

  /** The falsy-or-set keys of the `filters` argument; `""` is "not set". */
  datatype SearchFilters = SearchFilters(status: string, category: string, tag: string)

  predicate MatchesFilters(p: Post, f: SearchFilters) {
    (if f.status != "" then p.status == f.status else p.status == "published")
    && (f.category == "" || p.categoryId == Some(f.category))
    && (f.tag == "" || f.tag in p.tags)
  }

  /** Case-insensitive substring match on title, excerpt or content. */
  predicate MatchesQuery(p: Post, query: string) {
    query == ""
    || Contains(Lower(p.title), Lower(query))
    || Contains(Lower(p.excerpt), Lower(query))
    || Contains(Lower(p.content), Lower(query))
  }

  /** `a.published_at || a.created_at`. */
  function SortKey(p: Post): Timestamp {
    if p.publishedAt.Some? then p.publishedAt.value else p.createdAt
  }

  /** The comparator `new Date(dateB) - new Date(dateA)` puts `a` no later than `b`. */
  predicate NewerOrSame(a: Post, b: Post) { SortKey(a) >= SortKey(b) }

  lemma NewestFirstIsPreorder()
    ensures Sorting.TotalPreorder(NewerOrSame)
  {
  }

  /** The status filter of `searchPosts`: the published posts unless a
      status is asked for, then the posts with that status. */
  function ByStatus(posts: seq<Post>, status: string): (r: seq<Post>)
    ensures |r| <= |posts|
    ensures forall p :: p in r <==> p in posts && (if status != "" then p.status == status else p.status == "published")
    ensures IsSubsequence(r, posts)
    ensures forall p :: multiset(r)[p] ==
              if (if status != "" then p.status == status else p.status == "published") then multiset(posts)[p] else 0
  {
    if status != "" then
      var keep := (p: Post) => p.status == status;
      FilterOrder(posts, keep);
      Filter(posts, keep)
    else Published(posts)
  }

  /** One optional filter of `searchPosts`: applied only when its key is set. */
  function FilterIf(posts: seq<Post>, on: bool, keep: Post -> bool): (r: seq<Post>)
    ensures |r| <= |posts|
    ensures forall p :: p in r <==> p in posts && (!on || keep(p))
    ensures IsSubsequence(r, posts)
    ensures forall p :: multiset(r)[p] == if !on || keep(p) then multiset(posts)[p] else 0
  {
    SubsequenceRefl(posts);
    FilterOrder(posts, keep);
    if on then Filter(posts, keep) else posts
  }

  /** The category, tag and query filters of `searchPosts`. */
  function Narrow(posts: seq<Post>, query: string, filters: SearchFilters): (r: seq<Post>)
    ensures |r| <= |posts|
    ensures IsSubsequence(r, posts)
    ensures forall p :: multiset(r)[p] ==
              if (filters.category == "" || p.categoryId == Some(filters.category))
                 && (filters.tag == "" || filters.tag in p.tags) && MatchesQuery(p, query)
              then multiset(posts)[p] else 0
  {
    var byCategory := FilterIf(posts, filters.category != "", (p: Post) => p.categoryId == Some(filters.category));
    var byTag := FilterIf(byCategory, filters.tag != "", (p: Post) => filters.tag in p.tags);
    SubsequenceTrans(byTag, byCategory, posts);
    var r := FilterIf(byTag, query != "", (p: Post) => MatchesQuery(p, query));
    SubsequenceTrans(r, byTag, posts);
    r
  }

  /** `searchPosts(query, filters)`: exactly the stored posts that pass the
      filters and the query, newest first. */
  function SearchPosts(posts: seq<Post>, query: string, filters: SearchFilters): (r: seq<Post>)
    ensures forall p :: p in r <==> p in posts && MatchesFilters(p, filters) && MatchesQuery(p, query)
    ensures Sorting.SortedBy(r, NewerOrSame)
    ensures |r| <= |posts|
    ensures multiset(r) == multiset(Narrow(ByStatus(posts, filters.status), query, filters))
    ensures forall p :: multiset(r)[p] ==
              if MatchesFilters(p, filters) && MatchesQuery(p, query) then multiset(posts)[p] else 0
  {
    var matched := Narrow(ByStatus(posts, filters.status), query, filters);
    NewestFirstIsPreorder();
    var r := Sorting.InsertionSort(matched, NewerOrSame);
    assert forall p :: p in r <==> p in matched by {
      forall p ensures p in r <==> p in matched {
        assert p in r <==> p in multiset(r);
        assert p in matched <==> p in multiset(matched);
      }
    }
    r
  }

  /** The published posts that `keep` accepts, in the order of the list. */
  function PublishedWhere(posts: seq<Post>, keep: Post -> bool): (r: seq<Post>)
    ensures forall p :: p in r <==> p in posts && p.status == "published" && keep(p)
    ensures IsSubsequence(r, posts)
    ensures forall p :: multiset(r)[p] == if p.status == "published" && keep(p) then multiset(posts)[p] else 0
  {
    FilterOrder(Published(posts), keep);
    var r := Filter(Published(posts), keep);
    SubsequenceTrans(r, Published(posts), posts);
    r
  }

  /** `getPostsByCategory(slug)`: `[]` for an unknown slug, otherwise the
      published posts of the first category with that slug. */
  function PostsByCategory(categories: seq<Term>, posts: seq<Post>, slug: string): (r: seq<Post>)
    ensures (forall i :: 0 <= i < |categories| ==> categories[i].slug != slug) ==> r == []
    ensures forall i :: (0 <= i < |categories| && categories[i].slug == slug
                         && forall j :: 0 <= j < i ==> categories[j].slug != slug) ==>
              (forall p :: p in r <==> p in posts && p.status == "published" && p.categoryId == Some(categories[i].id))
              && IsSubsequence(r, posts)
              && forall p :: multiset(r)[p] ==
                   if p.status == "published" && p.categoryId == Some(categories[i].id) then multiset(posts)[p] else 0
  {
    var i := FirstIndex(categories, (c: Term) => c.slug == slug);
    if i < 0 then []
    else
      PublishedWhere(posts, (p: Post) => p.categoryId == Some(categories[i].id))
  }

  /** `getPostsByTag(slug)`: `[]` for an unknown slug, otherwise the published
      posts listing the id of the first tag with that slug. */
  function PostsByTag(tags: seq<Term>, posts: seq<Post>, slug: string): (r: seq<Post>)
    ensures (forall i :: 0 <= i < |tags| ==> tags[i].slug != slug) ==> r == []
    ensures forall i :: (0 <= i < |tags| && tags[i].slug == slug
                         && forall j :: 0 <= j < i ==> tags[j].slug != slug) ==>
              (forall p :: p in r <==> p in posts && p.status == "published" && tags[i].id in p.tags)
              && IsSubsequence(r, posts)
              && forall p :: multiset(r)[p] ==
                   if p.status == "published" && tags[i].id in p.tags then multiset(posts)[p] else 0
  {
    var i := FirstIndex(tags, (t: Term) => t.slug == slug);
    if i < 0 then []
    else
      PublishedWhere(posts, (p: Post) => tags[i].id in p.tags)
  }

  // ---------------------------------------------------------------------
  // The store object

  /** The module-level state of blog-data.js: `dataCache`, the local-storage
      slots it mirrors, and whether `ensureDataLoaded` has started. */
  class BlogStore {
    var cache: Slots
    var storage: Slots
    var loadedFromJson: bool
    var initialized: bool

    /** A page load: nothing cached yet, storage as the browser kept it. */
    constructor(stored: Slots, flag: bool)
      ensures cache == EmptySlots && storage == stored && loadedFromJson == flag && !initialized
    {
      cache := EmptySlots;
      storage := stored;
      loadedFromJson := flag;
      initialized := false;
    }

    function Model(): Store
      reads this
    {
      Store(cache, storage, loadedFromJson)
    }

    /** `loadDataFromJSON`: `json` is the parsed file, `None` when the fetch
        failed or the response was not ok. */
    method LoadDataFromJson(json: Option<Snapshot>) returns (loaded: bool)
      modifies this
      ensures loaded == json.Some?
      ensures initialized == old(initialized)
      ensures loaded ==> Model() == Fetch(old(Model()), json)
      ensures !loaded ==> Model() == old(Model())
    {
      if json.None? {
        return false;
      }
      var j := json.value;
      cache := Slots(Some(j.posts), Some(j.categories), Some(j.tags));
      if |j.posts| > 0 {
        storage := storage.(posts := Some(j.posts));
      }
      if |j.categories| > 0 {
        storage := storage.(categories := Some(j.categories));
      }
      if |j.tags| > 0 {
        storage := storage.(tags := Some(j.tags));
      }
      loadedFromJson := true;
      return true;
    }

    /** `initDefaultCategories`: seeds the defaults when the getter sees no category. */
    method InitDefaultCategories() returns (r: seq<Term>)
      modifies this
      ensures initialized == old(initialized)
      ensures old(Model().Categories()) == [] ==> Model() == WithCategories(old(Model()), DefaultCategories) && r == DefaultCategories
      ensures old(Model().Categories()) != [] ==> Model() == old(Model()) && r == old(Model().Categories())
    {
      var existing := Model().Categories();
      if |existing| == 0 {
        cache := cache.(categories := Some(DefaultCategories));
        storage := storage.(categories := Some(DefaultCategories));
        return DefaultCategories;
      }
      return existing;
    }

    /** `initDefaultTags`. */
    method InitDefaultTags() returns (r: seq<Term>)
      modifies this
      ensures initialized == old(initialized)
      ensures old(Model().Tags()) == [] ==> Model() == WithTags(old(Model()), DefaultTags) && r == DefaultTags
      ensures old(Model().Tags()) != [] ==> Model() == old(Model()) && r == old(Model().Tags())
    {
      var existing := Model().Tags();
      if |existing| == 0 {
        cache := cache.(tags := Some(DefaultTags));
        storage := storage.(tags := Some(DefaultTags));
        return DefaultTags;
      }
      return existing;
    }

    /** What a call of `ensureDataLoaded` does at once: the first call
        creates the loading promise, whose body begins with an awaited
        `fetch` and so runs only after the caller's synchronous code; no
        data changes yet. */
    method BeginLoad() returns (started: bool)
      modifies this
      ensures started == !old(initialized) && initialized
      ensures Model() == old(Model())
    {
      started := !initialized;
      initialized := true;
    }

    /** `ensureDataLoaded` followed by the completion of its promise: the
        load runs on the first call only. */
    method EnsureDataLoaded(json: Option<Snapshot>)
      modifies this
      ensures initialized
      ensures old(initialized) ==> Model() == old(Model())
      ensures !old(initialized) ==> Model() == AfterLoad(old(Model()), json)
    {
      var started := BeginLoad();
      if !started {
        return;
      }
      var jsonLoaded := LoadDataFromJson(json);
      if !jsonLoaded {
        if storage.posts.Some? {
          cache := cache.(posts := storage.posts);
        }
        if storage.categories.Some? {
          cache := cache.(categories := storage.categories);
        }
        if storage.tags.Some? {
          cache := cache.(tags := storage.tags);
        }
      }
      assert Model() == Fetch(old(Model()), json);
      if cache.categories.None? || |cache.categories.value| == 0 {
        var _ := InitDefaultCategories();
      }
      assert Model() == SeedCategories(Fetch(old(Model()), json));
      if cache.tags.None? || |cache.tags.value| == 0 {
        var _ := InitDefaultTags();
      }
    }

    /** `ensureUniqueSlug(slug, excludeId)`. */
    method EnsureUniqueSlug(slug: string, excludeId: Option<string>) returns (unique: string)
      ensures IsUniqueSlugFor(Model().Posts(), slug, excludeId, unique)
      ensures unique == UniqueSlug(Model().Posts(), slug, excludeId)
    {
      var posts := Model().Posts();
      unique := slug;
      var counter: nat := 1;
      ghost var taken := TakenSlugs(posts, excludeId);
      ghost var tried: set<string> := {};
      while SlugTaken(posts, unique, excludeId)
        invariant counter >= 1
        invariant unique == Candidate(slug, counter)
        invariant forall c: nat :: 1 <= c < counter ==> SlugTaken(posts, Candidate(slug, c), excludeId)
        invariant tried == TriedBefore(slug, counter)
        invariant tried <= taken
        decreases |taken - tried|
      {
        UniqueSlugStep(posts, slug, excludeId, counter, tried, taken);
        tried := tried + {unique};
        unique := slug + "-" + NatToString(counter);
        counter := counter + 1;
      }
      FirstFreeCandidate(posts, slug, excludeId, counter);
      UniqueSlugDeterministic(posts, slug, excludeId, unique, UniqueSlug(posts, slug, excludeId));
    }

    /** `savePost(postData)` at time `now`, with `freshId` the value
        `generateId()` would return. */
    method SavePost(data: PostInput, now: Timestamp, freshId: string) returns (r: Result<Post>)
      modifies this
      ensures initialized == old(initialized)
      ensures var posts := old(Model().Posts()); var i := MatchIndex(posts, data);
              i >= 0 ==> r == Ok(Merge(posts[i], data, now, freshId))
                         && Model() == WithPosts(old(Model()), posts[i := r.value])
      ensures var posts := old(Model().Posts());
              MatchIndex(posts, data) < 0 && DesiredSlug(data).None? ==>
                r == Err(MissingTitleError) && Model() == old(Model())
      ensures var posts := old(Model().Posts());
              MatchIndex(posts, data) < 0 && DesiredSlug(data).Some? ==>
                r.Ok? && IsUniqueSlugFor(posts, DesiredSlug(data).value, None, r.value.slug)
                && r.value == NewPost(data, r.value.slug, now, freshId)
                && Model() == WithPosts(old(Model()), posts + [r.value])
      ensures var s := SavePostResult(old(Model().Posts()), data, now, freshId);
              (s.Ok? ==> r == Ok(s.value.post) && Model() == WithPosts(old(Model()), s.value.posts))
              && (s.Err? ==> r == Err(s.message) && Model() == old(Model()))
    {
      var posts := Model().Posts();
      var i := MatchIndex(posts, data);
      if i >= 0 {
        var updated := Merge(posts[i], data, now, freshId);
        posts := posts[i := updated];
        r := Ok(updated);
      } else {
        var desired := DesiredSlug(data);
        if desired.None? {
          return Err(MissingTitleError);
        }
        var slug := EnsureUniqueSlug(desired.value, None);
        var created := NewPost(data, slug, now, freshId);
        posts := posts + [created];
        r := Ok(created);
      }
      cache := cache.(posts := Some(posts));
      storage := storage.(posts := Some(posts));
    }

    /** `deletePost(id)`: always answers true. */
    method DeletePost(id: string) returns (r: bool)
      modifies this
      ensures r
      ensures initialized == old(initialized)
      ensures Model() == WithPosts(old(Model()), WithoutId(old(Model().Posts()), id))
    {
      var filtered := WithoutId(Model().Posts(), id);
      cache := cache.(posts := Some(filtered));
      storage := storage.(posts := Some(filtered));
      return true;
    }

    /** The list `saveCategory` / `saveTag` would store for `data`, or the
        error it throws; `notFound` is the message for an unknown id. */
    method UpsertTerm(terms: seq<Term>, data: TermInput, freshId: string, notFound: string)
      returns (r: Result<seq<Term>>)
      ensures Truthy(data.id) && TermIndex(terms, data.id.value) < 0 ==> r == Err(notFound)
      ensures Truthy(data.id) && TermIndex(terms, data.id.value) >= 0 ==>
                var i := TermIndex(terms, data.id.value);
                r == Ok(terms[i := MergeTerm(terms[i], data)])
      ensures !Truthy(data.id) && DesiredTermSlug(data).None? ==> r == Err(MissingTitleError)
      ensures !Truthy(data.id) && DesiredTermSlug(data).Some? ==>
                r.Ok? && |r.value| == |terms| + 1 && r.value[..|terms|] == terms
                && r.value[|terms|].id == freshId && r.value[|terms|].name == data.name.Over("")
                && IsUniqueSlugFor(Model().Posts(), DesiredTermSlug(data).value, ExcludeOf(data.id), r.value[|terms|].slug)
      ensures r == SaveTermResult(Model().Posts(), terms, data, freshId, notFound)
    {
      if Truthy(data.id) {
        var i := TermIndex(terms, data.id.value);
        if i == -1 {
          return Err(notFound);
        }
        return Ok(terms[i := MergeTerm(terms[i], data)]);
      }
      var desired := DesiredTermSlug(data);
      if desired.None? {
        return Err(MissingTitleError);
      }
      var slug := EnsureUniqueSlug(desired.value, ExcludeOf(data.id));
      r := Ok(terms + [Term(freshId, data.name.Over(""), slug)]);
      assert r.value[..|terms|] == terms;
    }

    /** `saveCategory(data)`: stores and returns the new category list; an
        error leaves the store unchanged. */
    method SaveCategory(data: TermInput, freshId: string) returns (r: Result<seq<Term>>)
      modifies this
      ensures initialized == old(initialized)
      ensures r.Ok? ==> Model() == WithCategories(old(Model()), r.value)
      ensures r.Err? ==> Model() == old(Model())
      ensures Truthy(data.id) ==> (r == Err("Category not found") <==> TermIndex(old(Model().Categories()), data.id.value) < 0)
      ensures Truthy(data.id) && r.Ok? ==> |r.value| == |old(Model().Categories())|
      ensures !Truthy(data.id) && r.Ok? ==>
                |r.value| == |old(Model().Categories())| + 1 && r.value[..|r.value| - 1] == old(Model().Categories())
      ensures r == SaveTermResult(old(Model().Posts()), old(Model().Categories()), data, freshId, "Category not found")
    {
      r := UpsertTerm(Model().Categories(), data, freshId, "Category not found");
      if r.Ok? {
        cache := cache.(categories := Some(r.value));
        storage := storage.(categories := Some(r.value));
      }
    }

    /** `saveTag(data)`. */
    method SaveTag(data: TermInput, freshId: string) returns (r: Result<seq<Term>>)
      modifies this
      ensures initialized == old(initialized)
      ensures r.Ok? ==> Model() == WithTags(old(Model()), r.value)
      ensures r.Err? ==> Model() == old(Model())
      ensures Truthy(data.id) ==> (r == Err("Tag not found") <==> TermIndex(old(Model().Tags()), data.id.value) < 0)
      ensures Truthy(data.id) && r.Ok? ==> |r.value| == |old(Model().Tags())|
      ensures !Truthy(data.id) && r.Ok? ==>
                |r.value| == |old(Model().Tags())| + 1 && r.value[..|r.value| - 1] == old(Model().Tags())
      ensures r == SaveTermResult(old(Model().Posts()), old(Model().Tags()), data, freshId, "Tag not found")
    {
      r := UpsertTerm(Model().Tags(), data, freshId, "Tag not found");
      if r.Ok? {
        cache := cache.(tags := Some(r.value));
        storage := storage.(tags := Some(r.value));
      }
    }
  }
}
