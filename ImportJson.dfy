/** `importFromJSON` of scripts/import-json-to-localstorage.js: imports a
    snapshot file into the blog store, first the categories and tags whose
    slug the store lacks, then every post, resolving the post's category
    slug and tag slugs to ids of the store. */
module ImportJson {
  import opened Common
  import opened Seqs
  import opened BlogData

  /** A post of the file: what `savePost` receives, plus the slug references
      `category_slug` and `tag_slugs` (the latter only when it is an array). */
  datatype ImportPost = ImportPost(data: PostInput, categorySlug: Field<string>, tagSlugs: Field<seq<string>>)

  datatype ImportFile = ImportFile(posts: seq<ImportPost>, categories: seq<TermInput>, tags: seq<TermInput>)

  /** `{ post: post.title, error: error.message }`. */
  datatype ImportError = ImportError(post: Field<string>, error: string)

  datatype Stats = Stats(
    postsImported: nat,
    postsUpdated: nat,
    categoriesCreated: nat,
    tagsCreated: nat,
    errors: seq<ImportError>)

  /** `new Set(terms.map(t => t.slug))`. */
  function SlugSet(terms: seq<Term>): (r: set<string>)
    ensures forall s :: s in r <==> exists i :: 0 <= i < |terms| && terms[i].slug == s
  {
    set i | 0 <= i < |terms| :: terms[i].slug
  }

  /** `!existingSlugs.has(item.slug)`: a missing slug is never in the set. */
  predicate IsNew(item: TermInput, existing: set<string>) {
    !(item.slug.Given? && item.slug.value in existing)
  }

  /** How many items the loop saves. */
  function NewCount(items: seq<TermInput>, existing: set<string>): (r: nat)
    ensures r <= |items|
  {
    if items == [] then 0
    else NewCount(items[..|items| - 1], existing) + (if IsNew(items[|items| - 1], existing) then 1 else 0)
  }

  /** A new slug listed twice is saved twice: the set is not refreshed. */
  lemma RepeatedNewSlugCountsTwice(item: TermInput, existing: set<string>)
    requires IsNew(item, existing)
    ensures NewCount([item, item], existing) == 2
  {
    assert [item, item][..1] == [item];
    assert [item][..0] == [];
  }

  /** `new Map(terms.map(t => [t.slug, t.id]))`: every slug of the list is
      a key (for a slug listed more than once, the last entry wins; see
      `SlugMapLastWins`). */
  function SlugMap(terms: seq<Term>): (m: map<string, string>)
    ensures m.Keys == SlugSet(terms)
  {
    if terms == [] then map[]
    else
      var init := terms[..|terms| - 1];
      var last := terms[|terms| - 1];
      assert SlugSet(terms) == SlugSet(init) + {last.slug} by {
        assert forall i :: 0 <= i < |init| ==> init[i] == terms[i];
      }
      SlugMap(init)[last.slug := last.id]
  }

  /** The id a slug maps to is that of the last entry with the slug. */
  lemma {:induction false} SlugMapLastWins(terms: seq<Term>, i: int)
    requires 0 <= i < |terms| && LastWithSlug(terms, i)
    ensures terms[i].slug in SlugMap(terms) && SlugMap(terms)[terms[i].slug] == terms[i].id
  {
    var init := terms[..|terms| - 1];
    if i < |terms| - 1 {
      assert init[i] == terms[i];
      assert LastWithSlug(init, i) by {
        forall j | i < j < |init| ensures init[j].slug != init[i].slug {
          assert init[j] == terms[j];
        }
      }
      SlugMapLastWins(init, i);
    }
  }

  /** No later entry has the slug of entry `i`. */
  predicate LastWithSlug(terms: seq<Term>, i: int)
    requires 0 <= i < |terms|
  {
    forall j :: i < j < |terms| ==> terms[j].slug != terms[i].slug
  }

  /** `s => map.has(s)`. */
  function Known(m: map<string, string>): string -> bool {
    (s: string) => s in m
  }

  /** `s => map.get(s)` on the slugs the map has. */
  function IdOf(m: map<string, string>): string -> string {
    (s: string) => if s in m then m[s] else ""
  }

  /** `slugs.map(s => map.get(s)).filter(id => id !== undefined)`: the id
      of each known slug, in the order of the slugs and as often as they
      repeat (a lookup is undefined exactly when the slug has no entry). */
  function KnownIds(slugs: seq<string>, m: map<string, string>): (r: seq<string>)
    ensures |r| <= |slugs|
    ensures forall x :: x in r <==> exists i :: IdAt(slugs, m, i, x)
    ensures (forall i :: 0 <= i < |slugs| ==> slugs[i] in m) ==>
              |r| == |slugs| && forall i :: 0 <= i < |r| ==> r[i] == m[slugs[i]]
  {
    if slugs == [] then []
    else
      var rest := KnownIds(slugs[1..], m);
      var r := if slugs[0] in m then [m[slugs[0]]] + rest else rest;
      forall x ensures x in r <==> exists i :: IdAt(slugs, m, i, x) {
        if slugs[0] in m && x == m[slugs[0]] {
          assert IdAt(slugs, m, 0, x);
        }
        if exists i :: IdAt(slugs[1..], m, i, x) {
          var i :| IdAt(slugs[1..], m, i, x);
          assert IdAt(slugs, m, i + 1, x);
        }
        if exists i :: IdAt(slugs, m, i, x) {
          var i :| IdAt(slugs, m, i, x);
          if i > 0 {
            assert IdAt(slugs[1..], m, i - 1, x);
          }
        }
      }
      r
  }

  /** The ids come in the order of their slugs and as often as the slugs
      repeat: the known slugs, each mapped to its id. */
  lemma {:induction false} KnownIdsInOrder(slugs: seq<string>, m: map<string, string>)
    ensures KnownIds(slugs, m) == Map(Filter(slugs, Known(m)), IdOf(m))
  {
    if slugs != [] {
      KnownIdsInOrder(slugs[1..], m);
      var kept := Filter(slugs[1..], Known(m));
      if slugs[0] in m {
        assert Filter(slugs, Known(m)) == [slugs[0]] + kept;
        assert ([slugs[0]] + kept)[1..] == kept;
      }
    }
  }

  /** Slug `i` of the list is known and maps to `x`. */
  predicate IdAt(slugs: seq<string>, m: map<string, string>, i: int, x: string) {
    0 <= i < |slugs| && slugs[i] in m && m[slugs[i]] == x
  }

  /** The input object after the two in-place assignments of the loop:
      `category_id` from the category slug (`|| null`), `tags` from the tag
      slugs. */
  function Resolve(p: ImportPost, categories: map<string, string>, tags: map<string, string>): (r: PostInput)
    ensures r.(categoryId := p.data.categoryId, tags := p.data.tags) == p.data
    ensures p.categorySlug.Given? && p.categorySlug.value != "" ==>
              r.categoryId == Given(var s := p.categorySlug.value;
                                    if s in categories && categories[s] != "" then Some(categories[s]) else None)
    ensures !(p.categorySlug.Given? && p.categorySlug.value != "") ==> r.categoryId == p.data.categoryId
    ensures p.tagSlugs.Given? ==> r.tags == Given(KnownIds(p.tagSlugs.value, tags))
    ensures p.tagSlugs.Absent? ==> r.tags == p.data.tags
  {
    var withCategory :=
      if Truthy(p.categorySlug) then
        var s := p.categorySlug.value;
        p.data.(categoryId := Given(if s in categories && categories[s] != "" then Some(categories[s]) else None))
      else p.data;
    if p.tagSlugs.Given? then withCategory.(tags := Given(KnownIds(p.tagSlugs.value, tags))) else withCategory
  }

  /** `new Set(posts.map(p => p.legacy_wp_id).filter(Boolean))`. */
  function LegacyIds(posts: seq<Post>): (r: set<string>)
    ensures forall x :: x in r <==> x != "" && exists i :: 0 <= i < |posts| && posts[i].legacyWpId == Some(x)
  {
    set i | 0 <= i < |posts| && posts[i].legacyWpId.Some? && posts[i].legacyWpId.value != "" :: posts[i].legacyWpId.value
  }

  /** `existingLegacyIds.has(post.legacy_wp_id)`. */
  predicate IsUpdate(p: ImportPost, legacy: set<string>) {
    p.data.legacyWpId.Given? && p.data.legacyWpId.value in legacy
  }

  function UpdateCount(posts: seq<ImportPost>, legacy: set<string>): (r: nat)
    ensures r <= |posts|
  {
    if posts == [] then 0
    else UpdateCount(posts[..|posts| - 1], legacy) + (if IsUpdate(posts[|posts| - 1], legacy) then 1 else 0)
  }

  /** A post that `savePost` may reject: no slug and no title. */
  predicate Untitled(p: ImportPost) { !Truthy(p.data.slug) && p.data.title.Absent? }

  function UntitledCount(posts: seq<ImportPost>): (r: nat)
    ensures r <= |posts|
  {
    if posts == [] then 0
    else UntitledCount(posts[..|posts| - 1]) + (if Untitled(posts[|posts| - 1]) then 1 else 0)
  }

  /** The values `generateId()` returns, from the `first`-th on: `At(n)` is
      the id handed out `n` calls later. */
  datatype IdSource = IdSource(generate: nat -> string, first: nat) {
    function At(n: nat): string { generate(first + n) }

    /** The ids that remain once `k` have been handed out. */
    function Skip(k: nat): (r: IdSource)
      ensures forall n: nat :: r.At(n) == At(k + n)
    {
      IdSource(generate, first + k)
    }
  }

  /** The message `saveCategory` (`categories` true) or `saveTag` throws for
      an unknown id. */
  function NotFound(categories: bool): string {
    if categories then "Category not found" else "Tag not found"
  }

  /** What the category or tag loop has done after some of the items: the
      list it stored, the number of saves, and the message of the error
      that ended it, if one did. */
  datatype TermProgress = TermProgress(terms: seq<Term>, created: nat, failure: Option<string>)

  /** The category or tag loop over `items` from the list `start`, the posts
      being `posts`: item `i` is saved with the id `ids.At(i)` when its slug
      was not among `existing`, and the first error ends the loop. */
  function TermsImported(posts: seq<Post>, start: seq<Term>, items: seq<TermInput>, existing: set<string>,
                         ids: IdSource, notFound: string): (r: TermProgress)
    ensures r.created <= NewCount(items, existing)
    ensures r.failure.None? ==> r.created == NewCount(items, existing)
    ensures |start| <= |r.terms| <= |start| + r.created
    decreases |items|
  {
    if items == [] then TermProgress(start, 0, None)
    else
      var n := |items| - 1;
      var prev := TermsImported(posts, start, items[..n], existing, ids, notFound);
      if prev.failure.Some? || !IsNew(items[n], existing) then prev
      else
        match SaveTermResult(posts, prev.terms, items[n], ids.At(n), notFound)
        case Ok(terms) => TermProgress(terms, prev.created + 1, None)
        case Err(message) => prev.(failure := Some(message))
  }

  /** The loop over one more item. */
  lemma TermsImportedStep(posts: seq<Post>, start: seq<Term>, items: seq<TermInput>, existing: set<string>,
                          ids: IdSource, notFound: string, i: nat)
    requires i < |items|
    ensures var prev := TermsImported(posts, start, items[..i], existing, ids, notFound);
            TermsImported(posts, start, items[..i + 1], existing, ids, notFound) ==
              if prev.failure.Some? || !IsNew(items[i], existing) then prev
              else
                match SaveTermResult(posts, prev.terms, items[i], ids.At(i), notFound)
                case Ok(terms) => TermProgress(terms, prev.created + 1, None)
                case Err(message) => prev.(failure := Some(message))
  {
    assert items[..i + 1][..i] == items[..i];
    assert items[..i + 1][i] == items[i];
  }

  /** Once an item has failed, the later items change nothing. */
  lemma {:induction false} TermsFailureSticks(posts: seq<Post>, start: seq<Term>, items: seq<TermInput>, existing: set<string>,
                                              ids: IdSource, notFound: string, k: nat)
    requires k <= |items|
    requires TermsImported(posts, start, items[..k], existing, ids, notFound).failure.Some?
    ensures TermsImported(posts, start, items, existing, ids, notFound) == TermsImported(posts, start, items[..k], existing, ids, notFound)
    decreases |items| - k
  {
    if k < |items| {
      assert items[..k + 1][..k] == items[..k];
      TermsFailureSticks(posts, start, items, existing, ids, notFound, k + 1);
    } else {
      assert items[..k] == items;
    }
  }

  /** A first item that is new and names an unknown id fails the loop with
      the not-found message. */
  lemma FirstUnknownIdFails(posts: seq<Post>, start: seq<Term>, items: seq<TermInput>, existing: set<string>,
                            ids: IdSource, notFound: string)
    requires |items| > 0 && IsNew(items[0], existing) && Truthy(items[0].id) && TermIndex(start, items[0].id.value) < 0
    ensures TermsImported(posts, start, items, existing, ids, notFound).failure == Some(notFound)
  {
    assert items[..1][..0] == [];
    assert items[..1][0] == items[0];
    TermsFailureSticks(posts, start, items, existing, ids, notFound, 1);
  }

  /** Items without an id and with a name or a slug are all saved, each
      appended to the list it found: the list keeps its terms and grows by
      exactly the new items. */
  lemma {:induction false} NewTermsAppended(posts: seq<Post>, start: seq<Term>, items: seq<TermInput>, existing: set<string>,
                                            ids: IdSource, notFound: string)
    requires forall i :: 0 <= i < |items| ==> !Truthy(items[i].id) && DesiredTermSlug(items[i]).Some?
    ensures var r := TermsImported(posts, start, items, existing, ids, notFound);
            r.failure.None? && |r.terms| == |start| + NewCount(items, existing) && r.terms[..|start|] == start
    decreases |items|
  {
    if items != [] {
      var n := |items| - 1;
      NewTermsAppended(posts, start, items[..n], existing, ids, notFound);
      var prev := TermsImported(posts, start, items[..n], existing, ids, notFound);
      if IsNew(items[n], existing) {
        var t := SaveTermResult(posts, prev.terms, items[n], ids.At(n), notFound).value;
        assert t[..|start|] == t[..|prev.terms|][..|start|];
      }
    }
  }

  /** The category list (`categories` true) or the tag list of a store. */
  function ListOf(s: Store, categories: bool): seq<Term> {
    if categories then s.Categories() else s.Tags()
  }

  /** `saveCategory(item)` or `saveTag(item)`, as `categories` says. */
  method SaveTermOf(store: BlogStore, categories: bool, item: TermInput, freshId: string) returns (r: Result<seq<Term>>)
    modifies store
    ensures store.initialized == old(store.initialized)
    ensures r == SaveTermResult(old(store.Model().Posts()), ListOf(old(store.Model()), categories), item, freshId, NotFound(categories))
    ensures ListOf(store.Model(), categories) == if r.Ok? then r.value else ListOf(old(store.Model()), categories)
    ensures ListOf(store.Model(), !categories) == ListOf(old(store.Model()), !categories)
    ensures store.Model().Posts() == old(store.Model().Posts())
  {
    if categories {
      r := store.SaveCategory(item, freshId);
    } else {
      r := store.SaveTag(item, freshId);
    }
  }

  /** One pass of the category or tag loop: item `i` is saved when its
      slug was not among `existing`; the result is the error it threw. */
  method ImportTermAt(store: BlogStore, categories: bool, items: seq<TermInput>, i: nat, existing: set<string>,
                      ids: IdSource, ghost posts: seq<Post>, ghost list: seq<Term>)
    returns (failure: Option<string>)
    requires i < |items| && store.Model().Posts() == posts
    requires var p := TermsImported(posts, list, items[..i], existing, ids, NotFound(categories));
             p.failure.None? && ListOf(store.Model(), categories) == p.terms
    modifies store
    ensures store.initialized == old(store.initialized)
    ensures store.Model().Posts() == posts
    ensures ListOf(store.Model(), !categories) == ListOf(old(store.Model()), !categories)
    ensures var prev := TermsImported(posts, list, items[..i], existing, ids, NotFound(categories));
            var p := TermsImported(posts, list, items[..i + 1], existing, ids, NotFound(categories));
            failure == p.failure && ListOf(store.Model(), categories) == p.terms
            && (failure.None? ==> p.created == prev.created + (if IsNew(items[i], existing) then 1 else 0))
  {
    ghost var prev := TermsImported(posts, list, items[..i], existing, ids, NotFound(categories));
    TermsImportedStep(posts, list, items, existing, ids, NotFound(categories), i);
    if IsNew(items[i], existing) {
      var saved := SaveTermOf(store, categories, items[i], ids.At(i));
      assert saved == SaveTermResult(posts, prev.terms, items[i], ids.At(i), NotFound(categories));
      ghost var p := TermsImported(posts, list, items[..i + 1], existing, ids, NotFound(categories));
      if saved.Err? {
        assert p == prev.(failure := Some(saved.message));
        return Some(saved.message);
      }
      assert p == TermProgress(saved.value, prev.created + 1, None);
      return None;
    }
    assert TermsImported(posts, list, items[..i + 1], existing, ids, NotFound(categories)) == prev;
    return None;
  }

  /** The category loop (`categories` true) or the tag loop: saves each item
      whose slug the store lacked before the loop, stopping at the first
      error, and counts the saves. */
  method ImportTerms(store: BlogStore, items: seq<TermInput>, categories: bool, ids: IdSource)
    returns (r: Result<nat>)
    modifies store
    ensures store.initialized == old(store.initialized)
    ensures store.Model().Posts() == old(store.Model().Posts())
    ensures ListOf(store.Model(), !categories) == ListOf(old(store.Model()), !categories)
    ensures var list := ListOf(old(store.Model()), categories);
            var p := TermsImported(old(store.Model().Posts()), list, items, SlugSet(list), ids, NotFound(categories));
            ListOf(store.Model(), categories) == p.terms
            && r == (if p.failure.Some? then Err(p.failure.value) else Ok(p.created))
    ensures r.Ok? ==> r.value == NewCount(items, SlugSet(ListOf(old(store.Model()), categories)))
    ensures |items| > 0 && IsNew(items[0], SlugSet(ListOf(old(store.Model()), categories)))
            && Truthy(items[0].id) && TermIndex(ListOf(old(store.Model()), categories), items[0].id.value) < 0 ==>
              r == Err(NotFound(categories))
  {
    ghost var posts := store.Model().Posts();
    ghost var list := ListOf(store.Model(), categories);
    var existing := SlugSet(ListOf(store.Model(), categories));
    if |items| > 0 && IsNew(items[0], existing) && Truthy(items[0].id) && TermIndex(list, items[0].id.value) < 0 {
      FirstUnknownIdFails(posts, list, items, existing, ids, NotFound(categories));
    }
    var created := 0;
    for i := 0 to |items|
      invariant store.initialized == old(store.initialized)
      invariant store.Model().Posts() == posts
      invariant ListOf(store.Model(), !categories) == ListOf(old(store.Model()), !categories)
      invariant var p := TermsImported(posts, list, items[..i], existing, ids, NotFound(categories));
                p.failure.None? && created == p.created && ListOf(store.Model(), categories) == p.terms
    {
      var failure := ImportTermAt(store, categories, items, i, existing, ids, posts, list);
      if failure.Some? {
        TermsFailureSticks(posts, list, items, existing, ids, NotFound(categories), i + 1);
        return Err(failure.value);
      }
      if IsNew(items[i], existing) {
        created := created + 1;
      }
    }
    assert items[..|items|] == items;
    return Ok(created);
  }

  datatype Outcome = Imported | Updated | Failed(message: string)

  /** One iteration of the post loop: resolve the references, save, and
      classify the result; a thrown error is caught as `Failed`. */
  method ImportOnePost(store: BlogStore, post: ImportPost, categoryMap: map<string, string>,
                       tagMap: map<string, string>, legacy: set<string>, now: Timestamp, freshId: string)
    returns (outcome: Outcome)
    modifies store
    ensures store.initialized == old(store.initialized)
    ensures var s := SavePostResult(old(store.Model().Posts()), Resolve(post, categoryMap, tagMap), now, freshId);
            (s.Ok? ==> store.Model() == WithPosts(old(store.Model()), s.value.posts)
                       && outcome == (if IsUpdate(post, legacy) then Updated else Imported))
            && (s.Err? ==> store.Model() == old(store.Model()) && outcome == Failed(s.message))
    ensures !Untitled(post) ==> !outcome.Failed?
    ensures outcome.Updated? ==> IsUpdate(post, legacy)
    ensures outcome.Imported? ==> !IsUpdate(post, legacy)
    ensures outcome.Failed? ==> Untitled(post) && outcome.message == MissingTitleError
  {
    var data := Resolve(post, categoryMap, tagMap);
    var saved := store.SavePost(data, now, freshId);
    if saved.Err? {
      assert DesiredSlug(data).None?;
      return Failed(saved.message);
    }
    outcome := if IsUpdate(post, legacy) then Updated else Imported;
  }

  /** What the post loop has stored and counted after some of the posts. */
  datatype PostProgress = PostProgress(posts: seq<Post>, imported: nat, updated: nat, errors: seq<ImportError>)

  /** One pass of the post loop from `prev`: the post is resolved, saved at
      time `now` with the id `freshId`, and counted as updated (when its
      legacy id is in `legacy`), imported, or failed. */
  function PostStep(prev: PostProgress, post: ImportPost, categoryMap: map<string, string>, tagMap: map<string, string>,
                    legacy: set<string>, now: Timestamp, freshId: string): (r: PostProgress)
    ensures r.imported + r.updated + |r.errors| == prev.imported + prev.updated + |prev.errors| + 1
    ensures r.updated <= prev.updated + (if IsUpdate(post, legacy) then 1 else 0)
    ensures |r.errors| <= |prev.errors| + (if Untitled(post) then 1 else 0)
    ensures r.errors == prev.errors || r.errors == prev.errors + [ImportError(post.data.title, MissingTitleError)]
    ensures |prev.posts| <= |r.posts| <= |prev.posts| + 1
    ensures !Untitled(post) ==>
              r.errors == prev.errors && r.updated == prev.updated + (if IsUpdate(post, legacy) then 1 else 0)
              && r.imported == prev.imported + (if IsUpdate(post, legacy) then 0 else 1)
  {
    var data := Resolve(post, categoryMap, tagMap);
    assert data.slug == post.data.slug && data.title == post.data.title;
    match SavePostResult(prev.posts, data, now, freshId)
    case Ok(saved) =>
      if IsUpdate(post, legacy) then prev.(posts := saved.posts, updated := prev.updated + 1)
      else prev.(posts := saved.posts, imported := prev.imported + 1)
    case Err(message) => prev.(errors := prev.errors + [ImportError(post.data.title, message)])
  }

  /** The post loop over `posts` from the list `start`: post `i` is saved at
      time `clock(i)` with the id `ids.At(i)`. */
  function PostsImported(start: seq<Post>, posts: seq<ImportPost>, categoryMap: map<string, string>,
                         tagMap: map<string, string>, legacy: set<string>, clock: nat -> Timestamp, ids: IdSource)
    : (r: PostProgress)
    ensures r.imported + r.updated + |r.errors| == |posts|
    ensures r.updated <= UpdateCount(posts, legacy)
    ensures |r.errors| <= UntitledCount(posts)
    ensures forall e :: e in r.errors ==> e.error == MissingTitleError
    ensures |start| <= |r.posts| <= |start| + r.imported + r.updated
    decreases |posts|
  {
    if posts == [] then PostProgress(start, 0, 0, [])
    else
      var n := |posts| - 1;
      PostStep(PostsImported(start, posts[..n], categoryMap, tagMap, legacy, clock, ids), posts[n],
               categoryMap, tagMap, legacy, clock(n), ids.At(n))
  }

  /** The loop over one more post. */
  lemma PostsImportedStep(start: seq<Post>, posts: seq<ImportPost>, categoryMap: map<string, string>,
                          tagMap: map<string, string>, legacy: set<string>, clock: nat -> Timestamp, ids: IdSource, i: nat)
    requires i < |posts|
    ensures PostsImported(start, posts[..i + 1], categoryMap, tagMap, legacy, clock, ids)
              == PostStep(PostsImported(start, posts[..i], categoryMap, tagMap, legacy, clock, ids), posts[i],
                          categoryMap, tagMap, legacy, clock(i), ids.At(i))
  {
    assert posts[..i + 1][..i] == posts[..i];
    assert posts[..i + 1][i] == posts[i];
  }

  /** When every post has a slug or a title, none fails, and a post is
      counted as updated exactly when its legacy id was known. */
  lemma {:induction false} TitledPostsAllSaved(start: seq<Post>, posts: seq<ImportPost>, categoryMap: map<string, string>,
                                               tagMap: map<string, string>, legacy: set<string>, clock: nat -> Timestamp,
                                               ids: IdSource)
    requires forall i :: 0 <= i < |posts| ==> !Untitled(posts[i])
    ensures var r := PostsImported(start, posts, categoryMap, tagMap, legacy, clock, ids);
            r.errors == [] && r.updated == UpdateCount(posts, legacy) && r.imported == |posts| - UpdateCount(posts, legacy)
    decreases |posts|
  {
    if posts != [] {
      TitledPostsAllSaved(start, posts[..|posts| - 1], categoryMap, tagMap, legacy, clock, ids);
    }
  }

  /** One pass of the post loop: post `i` is imported and counted. */
  method ImportPostAt(store: BlogStore, posts: seq<ImportPost>, i: nat, categoryMap: map<string, string>,
                      tagMap: map<string, string>, legacy: set<string>, clock: nat -> Timestamp, ids: IdSource,
                      ghost start: seq<Post>, imported: nat, updated: nat, errors: seq<ImportError>)
    returns (imported': nat, updated': nat, errors': seq<ImportError>)
    requires i < |posts|
    requires var p := PostsImported(start, posts[..i], categoryMap, tagMap, legacy, clock, ids);
             store.Model().Posts() == p.posts && imported == p.imported && updated == p.updated && errors == p.errors
    modifies store
    ensures store.initialized == old(store.initialized)
    ensures var p := PostsImported(start, posts[..i + 1], categoryMap, tagMap, legacy, clock, ids);
            store.Model().Posts() == p.posts && imported' == p.imported && updated' == p.updated && errors' == p.errors
    ensures store.Model().Categories() == old(store.Model().Categories()) && store.Model().Tags() == old(store.Model().Tags())
  {
    ghost var prev := PostsImported(start, posts[..i], categoryMap, tagMap, legacy, clock, ids);
    PostsImportedStep(start, posts, categoryMap, tagMap, legacy, clock, ids, i);
    var post := posts[i];
    var outcome := ImportOnePost(store, post, categoryMap, tagMap, legacy, clock(i), ids.At(i));
    imported', updated', errors' := imported, updated, errors;
    match outcome
    case Updated => updated' := updated + 1;
    case Imported => imported' := imported + 1;
    case Failed(message) => errors' := errors + [ImportError(post.data.title, message)];
  }

  /** The post loop: every post is counted once, as imported, as updated
      (when its legacy id was known before the loop) or as an error. */
  method ImportPosts(store: BlogStore, posts: seq<ImportPost>, categoryMap: map<string, string>,
                     tagMap: map<string, string>, legacy: set<string>, clock: nat -> Timestamp, ids: IdSource)
    returns (imported: nat, updated: nat, errors: seq<ImportError>)
    modifies store
    ensures store.initialized == old(store.initialized)
    ensures var p := PostsImported(old(store.Model().Posts()), posts, categoryMap, tagMap, legacy, clock, ids);
            store.Model().Posts() == p.posts && imported == p.imported && updated == p.updated && errors == p.errors
    ensures store.Model().Categories() == old(store.Model().Categories()) && store.Model().Tags() == old(store.Model().Tags())
    ensures imported + updated + |errors| == |posts|
    ensures updated <= UpdateCount(posts, legacy)
    ensures |errors| <= UntitledCount(posts)
    ensures forall e :: e in errors ==> e.error == MissingTitleError
  {
    ghost var start := store.Model().Posts();
    imported, updated, errors := 0, 0, [];
    for i := 0 to |posts|
      invariant store.initialized == old(store.initialized)
      invariant var p := PostsImported(start, posts[..i], categoryMap, tagMap, legacy, clock, ids);
                store.Model().Posts() == p.posts && imported == p.imported && updated == p.updated && errors == p.errors
      invariant store.Model().Categories() == old(store.Model().Categories()) && store.Model().Tags() == old(store.Model().Tags())
    {
      imported, updated, errors :=
        ImportPostAt(store, posts, i, categoryMap, tagMap, legacy, clock, ids, start, imported, updated, errors);
    }
    assert posts[..|posts|] == posts;
  }

  /** The outcome of an import and the three lists it leaves in the store. */
  datatype ImportState = ImportState(result: Result<Stats>, posts: seq<Post>, categories: seq<Term>, tags: seq<Term>)

  /** `importFromJSON(file)` on the store state `s`: the category loop,
      then the tag loop (an error in either ends the import with what was
      saved so far), then the post loop with the slug maps of the lists the
      two loops left. `clock(i)` is the time post `i` is saved at and `ids`
      supplies the values of `generateId()`, categories first, then tags,
      then posts. */
  function ImportResult(s: Store, file: ImportFile, clock: nat -> Timestamp, ids: IdSource): (r: ImportState)
    ensures r.result.Err? ==> r.posts == s.Posts()
    ensures r.result.Ok? ==> r.result.value.categoriesCreated == NewCount(file.categories, SlugSet(s.Categories()))
    ensures r.result.Ok? ==> r.result.value.tagsCreated == NewCount(file.tags, SlugSet(s.Tags()))
    ensures r.result.Ok? ==> r.result.value.postsImported + r.result.value.postsUpdated + |r.result.value.errors| == |file.posts|
    ensures r.result.Ok? ==> r.result.value.postsUpdated <= UpdateCount(file.posts, LegacyIds(s.Posts()))
    ensures r.result.Ok? ==> |r.result.value.errors| <= UntitledCount(file.posts)
    ensures r.result.Ok? ==> forall e :: e in r.result.value.errors ==> e.error == MissingTitleError
  {
    var cats := TermsImported(s.Posts(), s.Categories(), file.categories, SlugSet(s.Categories()), ids, NotFound(true));
    if cats.failure.Some? then ImportState(Err(cats.failure.value), s.Posts(), cats.terms, s.Tags())
    else
      var tags := TermsImported(s.Posts(), s.Tags(), file.tags, SlugSet(s.Tags()), ids.Skip(|file.categories|), NotFound(false));
      if tags.failure.Some? then ImportState(Err(tags.failure.value), s.Posts(), cats.terms, tags.terms)
      else
        var posts := PostsImported(s.Posts(), file.posts, SlugMap(cats.terms), SlugMap(tags.terms), LegacyIds(s.Posts()),
                                   clock, ids.Skip(|file.categories|).Skip(|file.tags|));
        ImportState(Ok(Stats(posts.imported, posts.updated, cats.created, tags.created, posts.errors)),
                    posts.posts, cats.terms, tags.terms)
  }

  /** The import when both term loops succeed: the post loop runs with the
      slug maps of the two lists they stored. */
  lemma ImportResultOk(s: Store, file: ImportFile, clock: nat -> Timestamp, ids: IdSource)
    requires TermsImported(s.Posts(), s.Categories(), file.categories, SlugSet(s.Categories()), ids, NotFound(true)).failure.None?
    requires TermsImported(s.Posts(), s.Tags(), file.tags, SlugSet(s.Tags()), ids.Skip(|file.categories|), NotFound(false)).failure.None?
    ensures var cats := TermsImported(s.Posts(), s.Categories(), file.categories, SlugSet(s.Categories()), ids, NotFound(true));
            var tags := TermsImported(s.Posts(), s.Tags(), file.tags, SlugSet(s.Tags()), ids.Skip(|file.categories|), NotFound(false));
            var posts := PostsImported(s.Posts(), file.posts, SlugMap(cats.terms), SlugMap(tags.terms), LegacyIds(s.Posts()),
                                       clock, ids.Skip(|file.categories|).Skip(|file.tags|));
            ImportResult(s, file, clock, ids)
              == ImportState(Ok(Stats(posts.imported, posts.updated, cats.created, tags.created, posts.errors)),
                             posts.posts, cats.terms, tags.terms)
  {
  }

  /** A first category that is new and names an unknown id ends the import
      with "Category not found", before any tag is saved. */
  lemma UnknownFirstCategoryFails(s: Store, file: ImportFile, clock: nat -> Timestamp, ids: IdSource)
    requires |file.categories| > 0 && IsNew(file.categories[0], SlugSet(s.Categories()))
             && Truthy(file.categories[0].id) && TermIndex(s.Categories(), file.categories[0].id.value) < 0
    ensures var r := ImportResult(s, file, clock, ids);
            r.result == Err("Category not found") && r.tags == s.Tags() && r.posts == s.Posts()
  {
    FirstUnknownIdFails(s.Posts(), s.Categories(), file.categories, SlugSet(s.Categories()), ids, NotFound(true));
  }

  /** When every post has a slug or a title and the term loops succeed, the
      import reports no errors, and the updated count is the number of posts
      whose legacy id the store held. */
  lemma TitledImportHasNoErrors(s: Store, file: ImportFile, clock: nat -> Timestamp, ids: IdSource)
    requires forall i :: 0 <= i < |file.posts| ==> !Untitled(file.posts[i])
    ensures var r := ImportResult(s, file, clock, ids).result;
            r.Ok? ==> r.value.errors == [] && r.value.postsUpdated == UpdateCount(file.posts, LegacyIds(s.Posts()))
                      && r.value.postsImported == |file.posts| - UpdateCount(file.posts, LegacyIds(s.Posts()))
  {
    var cats := TermsImported(s.Posts(), s.Categories(), file.categories, SlugSet(s.Categories()), ids, NotFound(true));
    var tags := TermsImported(s.Posts(), s.Tags(), file.tags, SlugSet(s.Tags()), ids.Skip(|file.categories|), NotFound(false));
    if cats.failure.None? && tags.failure.None? {
      ImportResultOk(s, file, clock, ids);
      TitledPostsAllSaved(s.Posts(), file.posts, SlugMap(cats.terms), SlugMap(tags.terms), LegacyIds(s.Posts()),
                          clock, ids.Skip(|file.categories|).Skip(|file.tags|));
    }
  }

  /** `importFromJSON(file)`. A thrown error (from `saveCategory` or
      `saveTag`) is `Err`. Reading the existing posts with `getAllPosts()`
      starts the store's load when it has not started; that load completes
      only after the import (see `BlogStore.BeginLoad`). */
  method ImportFromJson(store: BlogStore, file: ImportFile, clock: nat -> Timestamp, ids: IdSource)
    returns (r: Result<Stats>)
    modifies store
    ensures var e := ImportResult(old(store.Model()), file, clock, ids);
            r == e.result && store.Model().Posts() == e.posts
            && store.Model().Categories() == e.categories && store.Model().Tags() == e.tags
    ensures r.Ok? ==> store.initialized
    ensures r.Err? ==> store.initialized == old(store.initialized)
    ensures r.Err? ==> store.Model().Posts() == old(store.Model().Posts())
    ensures |file.categories| > 0 && IsNew(file.categories[0], SlugSet(old(store.Model().Categories())))
            && Truthy(file.categories[0].id) && TermIndex(old(store.Model().Categories()), file.categories[0].id.value) < 0 ==>
              r == Err("Category not found")
    ensures r.Ok? ==> r.value.categoriesCreated == NewCount(file.categories, SlugSet(old(store.Model().Categories())))
    ensures r.Ok? ==> r.value.tagsCreated == NewCount(file.tags, SlugSet(old(store.Model().Tags())))
    ensures r.Ok? ==> r.value.postsImported + r.value.postsUpdated + |r.value.errors| == |file.posts|
    ensures r.Ok? ==> r.value.postsUpdated <= UpdateCount(file.posts, LegacyIds(old(store.Model().Posts())))
    ensures r.Ok? ==> |r.value.errors| <= UntitledCount(file.posts)
    ensures r.Ok? ==> forall e :: e in r.value.errors ==> e.error == MissingTitleError
  {
    ghost var s := store.Model();
    ghost var e := ImportResult(s, file, clock, ids);
    ghost var cats := TermsImported(s.Posts(), s.Categories(), file.categories, SlugSet(s.Categories()), ids, NotFound(true));
    if |file.categories| > 0 && IsNew(file.categories[0], SlugSet(s.Categories()))
       && Truthy(file.categories[0].id) && TermIndex(s.Categories(), file.categories[0].id.value) < 0 {
      UnknownFirstCategoryFails(s, file, clock, ids);
    }
    var categoriesCreated := ImportTerms(store, file.categories, true, ids);
    assert store.Model().Categories() == cats.terms && store.Model().Tags() == s.Tags();
    if categoriesCreated.Err? {
      assert e == ImportState(Err(cats.failure.value), s.Posts(), cats.terms, s.Tags());
      return Err(categoriesCreated.message);
    }
    ghost var tags := TermsImported(s.Posts(), s.Tags(), file.tags, SlugSet(s.Tags()), ids.Skip(|file.categories|), NotFound(false));
    var tagsCreated := ImportTerms(store, file.tags, false, ids.Skip(|file.categories|));
    assert store.Model().Categories() == cats.terms && store.Model().Tags() == tags.terms;
    if tagsCreated.Err? {
      assert e == ImportState(Err(tags.failure.value), s.Posts(), cats.terms, tags.terms);
      return Err(tagsCreated.message);
    }
    var categoryMap := SlugMap(store.Model().Categories());
    var tagMap := SlugMap(store.Model().Tags());
    var _ := store.BeginLoad();
    var legacy := LegacyIds(store.Model().Posts());
    assert legacy == LegacyIds(s.Posts());
    var imported, updated, errors :=
      ImportPosts(store, file.posts, categoryMap, tagMap, legacy, clock, ids.Skip(|file.categories|).Skip(|file.tags|));
    ghost var posts := PostsImported(s.Posts(), file.posts, categoryMap, tagMap, legacy, clock, ids.Skip(|file.categories|).Skip(|file.tags|));
    assert categoryMap == SlugMap(cats.terms) && tagMap == SlugMap(tags.terms);
    ImportResultOk(s, file, clock, ids);
    return Ok(Stats(imported, updated, categoriesCreated.value, tagsCreated.value, errors));
  }
}
