/** scripts/convert-wp-import-to-blog-posts.js: turns the output of the
    WordPress REST import into the snapshot format of the blog store by
    extracting one category per distinct `category_slug` and one tag per
    distinct tag slug, named after the slug and sorted by name. */
module ConvertWp {
  import opened Common
  import opened Text
  import opened Seqs
  import Sorting
  import opened BlogData
  import opened ImportJson

  // ---------------------------------------------------------------------
  // slugToName (scripts/convert-wp-import-to-blog-posts.js:18-24)

  /** `word.charAt(0).toUpperCase() + word.slice(1)`. */
  function Capitalize(w: string): (r: string)
    ensures |r| == |w|
    ensures w != [] ==> r[0] == UpperChar(w[0]) && r[1..] == w[1..]
  {
    if w == [] then [] else [UpperChar(w[0])] + w[1..]
  }

  function CapitalizeAll(pieces: seq<string>): (r: seq<string>)
    ensures |r| == |pieces|
    ensures forall i :: 0 <= i < |r| ==> r[i] == Capitalize(pieces[i])
  {
    if pieces == [] then [] else [Capitalize(pieces[0])] + CapitalizeAll(pieces[1..])
  }

  /** `slugToName(slug)`. */
  function SlugToName(slug: string): (r: string)
    ensures slug == "" ==> r == ""
  {
    if slug == "" then "" else Join(CapitalizeAll(Split(slug, '-')), " ")
  }

  /** Whether `s[i]` starts a piece: the first character when `atStart`,
      or any character after a hyphen. */
  predicate PieceStart(s: string, i: int, atStart: bool)
    requires 0 <= i < |s|
  {
    if i == 0 then atStart else s[i - 1] == '-'
  }

  /** The same conversion character by character: a hyphen becomes a space,
      and a character that starts a piece is upper-cased. */
  function CapWords(s: string, atStart: bool): (r: string)
    ensures |r| == |s|
    ensures forall i :: 0 <= i < |s| && s[i] == '-' ==> r[i] == ' '
    ensures forall i :: 0 <= i < |s| && s[i] != '-' && PieceStart(s, i, atStart) ==> r[i] == UpperChar(s[i])
    ensures forall i :: 0 <= i < |s| && s[i] != '-' && !PieceStart(s, i, atStart) ==> r[i] == s[i]
  {
    if s == [] then []
    else
      var rest := CapWords(s[1..], s[0] == '-');
      var r := [if s[0] == '-' then ' ' else if atStart then UpperChar(s[0]) else s[0]] + rest;
      assert forall i :: 1 <= i < |s| ==> r[i] == rest[i - 1] && s[i] == s[1..][i - 1];
      assert forall i :: 1 < i < |s| ==> PieceStart(s, i, atStart) == PieceStart(s[1..], i - 1, s[0] == '-');
      r
  }

  /** The words after the first, each preceded by the separator. */
  function JoinTail(words: seq<string>): string {
    if |words| <= 1 then "" else " " + Join(words[1..], " ")
  }

  lemma {:induction false} CapWordsOfPieces(t: string)
    ensures CapWords(t, false) == Split(t, '-')[0] + JoinTail(CapitalizeAll(Split(t, '-')))
    ensures CapWords(t, true) == Capitalize(Split(t, '-')[0]) + JoinTail(CapitalizeAll(Split(t, '-')))
  {
    if t != [] {
      CapWordsOfPieces(t[1..]);
      if t[0] == '-' {
        PiecesAtHyphen(t);
      } else {
        PiecesAtOther(t);
      }
    }
  }

  /** The step of `CapWordsOfPieces` at a hyphen: a new, empty piece. */
  lemma PiecesAtHyphen(t: string)
    requires t != [] && t[0] == '-'
    requires CapWords(t[1..], true) == Capitalize(Split(t[1..], '-')[0]) + JoinTail(CapitalizeAll(Split(t[1..], '-')))
    ensures CapWords(t, false) == Split(t, '-')[0] + JoinTail(CapitalizeAll(Split(t, '-')))
    ensures CapWords(t, true) == Capitalize(Split(t, '-')[0]) + JoinTail(CapitalizeAll(Split(t, '-')))
  {
    var q := Split(t[1..], '-');
    var cq := CapitalizeAll(q);
    assert Split(t, '-') == [""] + q;
    CapitalizeAllCons("", q);
    JoinTailCons("", cq);
    JoinFirstTail(cq);
    EmptyAppend(JoinTail(CapitalizeAll(Split(t, '-'))));
  }

  /** The step of `CapWordsOfPieces` at another character: it joins the
      first piece. */
  lemma PiecesAtOther(t: string)
    requires t != [] && t[0] != '-'
    requires CapWords(t[1..], false) == Split(t[1..], '-')[0] + JoinTail(CapitalizeAll(Split(t[1..], '-')))
    ensures CapWords(t, false) == Split(t, '-')[0] + JoinTail(CapitalizeAll(Split(t, '-')))
    ensures CapWords(t, true) == Capitalize(Split(t, '-')[0]) + JoinTail(CapitalizeAll(Split(t, '-')))
  {
    var q := Split(t[1..], '-');
    var p := [[t[0]] + q[0]] + q[1..];
    assert Split(t, '-') == p;
    HeadTail(q);
    CapitalizeAllCons(p[0], q[1..]);
    CapitalizeAllCons(q[0], q[1..]);
    var jt := JoinTail(CapitalizeAll(q[1..]));
    JoinTailCons(Capitalize(p[0]), CapitalizeAll(q[1..]));
    JoinTailCons(Capitalize(q[0]), CapitalizeAll(q[1..]));
    CapitalizeCons(t[0], q[0]);
    AppendAssoc([t[0]], q[0], JoinTail(CapitalizeAll(q)));
    AppendAssoc([UpperChar(t[0])], q[0], JoinTail(CapitalizeAll(q)));
  }

  lemma CapitalizeCons(c: char, w: string)
    ensures Capitalize([c] + w) == [UpperChar(c)] + w
  {
    assert ([c] + w)[1..] == w;
  }

  lemma CapitalizeAllCons(x: string, q: seq<string>)
    ensures CapitalizeAll([x] + q) == [Capitalize(x)] + CapitalizeAll(q)
  {
    assert ([x] + q)[1..] == q;
  }

  /** `Join` seen as the first word and the rest. */
  lemma JoinFirstTail(words: seq<string>)
    requires |words| >= 1
    ensures Join(words, " ") == words[0] + JoinTail(words)
  {
    if |words| == 1 {
      assert words[0] + "" == words[0];
    } else {
      AppendAssoc(words[0], " ", Join(words[1..], " "));
    }
  }

  lemma JoinTailCons(x: string, words: seq<string>)
    ensures JoinTail([x] + words) == if words == [] then "" else " " + Join(words, " ")
  {
    assert ([x] + words)[1..] == words;
  }

  /** `slugToName` agrees with the character-level description: same
      length, hyphens turned into spaces, each piece capitalised. */
  lemma SlugToNameCharwise(slug: string)
    ensures SlugToName(slug) == CapWords(slug, true)
  {
    if slug != "" {
      CapWordsOfPieces(slug);
    }
  }

  /** `slugToName` of a non-empty slug is non-empty, so `item.name ||
      slugToName(item.slug)` never leaves a name empty. */
  lemma SlugToNameNonEmpty(slug: string)
    requires slug != ""
    ensures SlugToName(slug) != ""
    ensures |SlugToName(slug)| == |slug|
  {
    SlugToNameCharwise(slug);
  }

  // ---------------------------------------------------------------------
  // createUniqueItems (scripts/convert-wp-import-to-blog-posts.js:27-42)

  /** An extracted category or tag before `createUniqueItems`; `""` is a
      missing slug or name. */
  datatype Item = Item(slug: string, name: string)

  /** The record pushed for an item: the slug doubles as id, and a missing
      name falls back to `slugToName`. */
  function ItemTerm(item: Item): (t: Term)
    ensures t.id == item.slug && t.slug == item.slug
    ensures item.name != "" ==> t.name == item.name
    ensures item.name == "" ==> t.name == SlugToName(item.slug)
  {
    Term(item.slug, if item.name != "" then item.name else SlugToName(item.slug), item.slug)
  }

  function TermSlugs(terms: seq<Term>): (r: set<string>)
    ensures forall s :: s in r <==> exists i :: 0 <= i < |terms| && terms[i].slug == s
  {
    set i | 0 <= i < |terms| :: terms[i].slug
  }

  lemma TermSlugsAppend(terms: seq<Term>, t: Term)
    ensures TermSlugs(terms + [t]) == TermSlugs(terms) + {t.slug}
  {
    assert (terms + [t])[|terms|] == t;
    assert forall i :: 0 <= i < |terms| ==> (terms + [t])[i] == terms[i];
  }

  predicate DistinctTermSlugs(terms: seq<Term>) {
    forall i, j :: 0 <= i < j < |terms| ==> terms[i].slug != terms[j].slug
  }

  /** The records the items would be pushed as. */
  function ItemTerms(items: seq<Item>): (r: set<Term>)
    ensures forall t :: t in r <==> exists k :: 0 <= k < |items| && ItemTerm(items[k]) == t
  {
    set k | 0 <= k < |items| :: ItemTerm(items[k])
  }

  lemma ItemTermsAppend(items: seq<Item>, x: Item)
    ensures ItemTerms(items + [x]) == ItemTerms(items) + {ItemTerm(x)}
  {
    assert (items + [x])[|items|] == x;
    assert forall k :: 0 <= k < |items| ==> (items + [x])[k] == items[k];
  }

  /** A term whose slug is new keeps the slugs distinct. */
  lemma DistinctAppend(u: seq<Term>, t: Term)
    requires DistinctTermSlugs(u) && t.slug !in TermSlugs(u)
    ensures DistinctTermSlugs(u + [t])
  {
    var r := u + [t];
    forall i, j | 0 <= i < j < |r| ensures r[i].slug != r[j].slug {
      assert r[i] == u[i];
      if j < |u| {
        assert r[j] == u[j];
      }
    }
  }

  /** The list the loop builds: the first item of each non-empty slug, in
      order of first appearance. */
  function UniqueItems(items: seq<Item>): (r: seq<Term>)
    ensures |r| <= |items|
    ensures DistinctTermSlugs(r)
    ensures forall t :: t in r ==> t in ItemTerms(items)
    ensures TermSlugs(r) == ItemSlugs(items) - {""}
  {
    if items == [] then []
    else
      var init := items[..|items| - 1];
      var last := items[|items| - 1];
      var u := UniqueItems(init);
      InitLast(items);
      ItemSlugsAppend(init, last);
      ItemTermsAppend(init, last);
      if last.slug == "" || last.slug in TermSlugs(u) then u
      else
        TermSlugsAppend(u, ItemTerm(last));
        DistinctAppend(u, ItemTerm(last));
        u + [ItemTerm(last)]
  }

  /** Each output entry is made from the first item carrying its slug. */
  lemma {:induction false} UniqueItemsKeepsFirst(items: seq<Item>, k: nat)
    requires k < |items| && items[k].slug != ""
    requires forall j :: 0 <= j < k ==> items[j].slug != items[k].slug
    ensures ItemTerm(items[k]) in UniqueItems(items)
  {
    var init := items[..|items| - 1];
    var last := items[|items| - 1];
    assert items == init + [last];
    if k < |items| - 1 {
      assert forall j :: 0 <= j <= k ==> init[j] == items[j];
      UniqueItemsKeepsFirst(init, k);
    } else {
      assert forall j :: 0 <= j < |init| ==> init[j] == items[j];
      assert last.slug !in ItemSlugs(init);
    }
  }

  lemma {:induction false} DistinctSlugsOnce(u: seq<Term>, x: Term)
    requires DistinctTermSlugs(u)
    ensures multiset(u)[x] <= 1
  {
    if u != [] {
      var init := u[..|u| - 1];
      assert u == init + [u[|u| - 1]];
      DistinctSlugsOnce(init, x);
      if x == u[|u| - 1] {
        assert x !in init;
      }
    }
  }

  lemma TwoCopies(r: seq<Term>, i: nat, j: nat)
    requires i < j < |r| && r[i] == r[j]
    ensures multiset(r)[r[i]] >= 2
  {
    assert r == r[..j] + r[j..];
    assert r[i] in r[..j];
    assert r[j] in r[j..];
  }

  /** A reordering of a list with distinct slugs has distinct slugs. */
  lemma PermutationKeepsDistinctSlugs(r: seq<Term>, u: seq<Term>)
    requires multiset(r) == multiset(u) && DistinctTermSlugs(u)
    ensures DistinctTermSlugs(r)
  {
    forall i, j | 0 <= i < j < |r| ensures r[i].slug != r[j].slug {
      if r[i] == r[j] {
        TwoCopies(r, i, j);
        DistinctSlugsOnce(u, r[i]);
      } else {
        assert r[i] in multiset(u) && r[j] in multiset(u);
      }
    }
  }

  /** The comparator `a.name.localeCompare(b.name)`. */
  predicate ByName(a: Term, b: Term) { LexLeq(a.name, b.name) }

  lemma ByNameIsPreorder()
    ensures Sorting.TotalPreorder(ByName)
  {
    forall a: Term, b: Term ensures ByName(a, b) || ByName(b, a) {
      LexLeqTotal(a.name, b.name);
    }
    forall a: Term, b: Term, c: Term | ByName(a, b) && ByName(b, c) ensures ByName(a, c) {
      LexLeqTransitive(a.name, b.name, c.name);
    }
  }

  /** `createUniqueItems(items)`: the deduplicated items sorted by name. */
  method CreateUniqueItems(items: seq<Item>) returns (r: seq<Term>)
    ensures Sorting.SortedBy(r, ByName)
    ensures multiset(r) == multiset(UniqueItems(items))
    ensures forall t :: t in r <==> t in UniqueItems(items)
    ensures DistinctTermSlugs(r)
  {
    var seen: set<string> := {};
    var result: seq<Term> := [];
    for i := 0 to |items|
      invariant result == UniqueItems(items[..i])
      invariant seen == TermSlugs(result)
    {
      var item := items[i];
      assert items[..i + 1][..i] == items[..i];
      if item.slug == "" || item.slug in seen {
        continue;
      }
      seen := seen + {item.slug};
      result := result + [ItemTerm(item)];
      TermSlugsAppend(UniqueItems(items[..i]), ItemTerm(item));
    }
    assert items[..|items|] == items;
    ByNameIsPreorder();
    r := Sorting.InsertionSort(result, ByName);
    assert forall t :: t in r <==> t in multiset(result);
    PermutationKeepsDistinctSlugs(r, result);
  }

  // ---------------------------------------------------------------------
  // convertWpImportToBlogPosts (scripts/convert-wp-import-to-blog-posts.js:45-105)

  /** The parsed input file; `None` when `posts` is missing or not an array. */
  datatype WpImport = WpImport(posts: Option<seq<ImportPost>>)

  /** The file written: the posts untouched plus the extracted terms. */
  datatype BlogPostsFile = BlogPostsFile(posts: seq<ImportPost>, categories: seq<Term>, tags: seq<Term>)

  /** The post's `category_slug` is truthy. */
  predicate HasCategory(p: ImportPost) { p.categorySlug.Given? && p.categorySlug.value != "" }

  /** `s` is a truthy entry of the post's `tag_slugs` array. */
  predicate HasTag(p: ImportPost, s: string) { s != "" && p.tagSlugs.Given? && s in p.tagSlugs.value }

  /** The truthy category slugs of the posts. */
  function CategorySlugs(posts: seq<ImportPost>): (r: set<string>)
    ensures forall s :: s in r <==> exists i :: 0 <= i < |posts| && HasCategory(posts[i]) && posts[i].categorySlug.value == s
  {
    set i | 0 <= i < |posts| && HasCategory(posts[i]) :: posts[i].categorySlug.value
  }

  /** The truthy tag slugs of the posts. */
  function TagSlugs(posts: seq<ImportPost>): (r: set<string>)
    ensures forall s :: s in r <==> exists i :: 0 <= i < |posts| && HasTag(posts[i], s)
  {
    set i, s | 0 <= i < |posts| && posts[i].tagSlugs.Given? && s in posts[i].tagSlugs.value && HasTag(posts[i], s) :: s
  }

  lemma CategorySlugsAppend(posts: seq<ImportPost>, p: ImportPost)
    ensures CategorySlugs(posts + [p]) == CategorySlugs(posts) + (if HasCategory(p) then {p.categorySlug.value} else {})
  {
    assert (posts + [p])[|posts|] == p;
    assert forall i :: 0 <= i < |posts| ==> (posts + [p])[i] == posts[i];
  }

  lemma TagSlugsAppend(posts: seq<ImportPost>, p: ImportPost)
    ensures forall s :: s in TagSlugs(posts + [p]) <==> s in TagSlugs(posts) || HasTag(p, s)
  {
    assert (posts + [p])[|posts|] == p;
    assert forall i :: 0 <= i < |posts| ==> (posts + [p])[i] == posts[i];
  }

  /** The category slugs of one more post, as the loop over the posts sees it. */
  lemma CategorySlugsStep(posts: seq<ImportPost>, i: nat)
    requires i < |posts|
    ensures CategorySlugs(posts[..i + 1]) == CategorySlugs(posts[..i]) + (if HasCategory(posts[i]) then {posts[i].categorySlug.value} else {})
  {
    PrefixStep(posts, i);
    CategorySlugsAppend(posts[..i], posts[i]);
  }

  lemma TagSlugsStep(posts: seq<ImportPost>, i: nat)
    requires i < |posts|
    ensures forall s :: s in TagSlugs(posts[..i + 1]) <==> s in TagSlugs(posts[..i]) || HasTag(posts[i], s)
  {
    PrefixStep(posts, i);
    TagSlugsAppend(posts[..i], posts[i]);
  }

  /** Items named after their slug, with non-empty slugs. */
  predicate NamedAfterSlug(items: seq<Item>) {
    forall k :: 0 <= k < |items| ==> items[k].slug != "" && items[k].name == SlugToName(items[k].slug)
  }

  /** Terms as the conversion writes them: id and name derived from the slug. */
  ghost predicate WellFormedTerms(terms: seq<Term>) {
    DistinctTermSlugs(terms)
    && Sorting.SortedBy(terms, ByName)
    && forall i :: 0 <= i < |terms| ==> terms[i].slug != "" && terms[i].id == terms[i].slug && terms[i].name == SlugToName(terms[i].slug)
  }

  function ItemSlugs(items: seq<Item>): (r: set<string>)
    ensures forall s :: s in r <==> exists k :: 0 <= k < |items| && items[k].slug == s
  {
    set k | 0 <= k < |items| :: items[k].slug
  }

  lemma ItemSlugsAppend(items: seq<Item>, x: Item)
    ensures ItemSlugs(items + [x]) == ItemSlugs(items) + {x.slug}
  {
    assert (items + [x])[|items|] == x;
    assert forall k :: 0 <= k < |items| ==> (items + [x])[k] == items[k];
  }

  /** Adding the item of a non-empty slug keeps the items named after their
      slugs, and adds that slug. */
  lemma AddSlugItem(items: seq<Item>, slug: string)
    requires NamedAfterSlug(items) && slug != ""
    ensures NamedAfterSlug(items + [Item(slug, SlugToName(slug))])
    ensures ItemSlugs(items + [Item(slug, SlugToName(slug))]) == ItemSlugs(items) + {slug}
  {
    var x := Item(slug, SlugToName(slug));
    ItemSlugsAppend(items, x);
    forall k | 0 <= k < |items + [x]|
      ensures (items + [x])[k].slug != "" && (items + [x])[k].name == SlugToName((items + [x])[k].slug)
    {
      if k < |items| {
        assert (items + [x])[k] == items[k];
      }
    }
  }

  const InvalidImportError := "Invalid WordPress import file: missing posts array"

  /** The category half of the `forEach` over the posts: each truthy
      category slug once, in order of first appearance. */
  method ExtractCategories(posts: seq<ImportPost>) returns (items: seq<Item>)
    ensures ItemSlugs(items) == CategorySlugs(posts)
    ensures NamedAfterSlug(items)
  {
    var seen: set<string> := {};
    items := [];
    for i := 0 to |posts|
      invariant seen == ItemSlugs(items)
      invariant seen == CategorySlugs(posts[..i])
      invariant NamedAfterSlug(items)
    {
      var post := posts[i];
      CategorySlugsStep(posts, i);
      if HasCategory(post) && post.categorySlug.value !in seen {
        var slug := post.categorySlug.value;
        seen := seen + {slug};
        AddSlugItem(items, slug);
        items := items + [Item(slug, SlugToName(slug))];
      }
    }
    PrefixAll(posts);
  }

  /** The truthy tag slugs of one post, added to `items` unless already seen. */
  method ExtractTagsOf(tagSlugs: seq<string>, items0: seq<Item>, seen0: set<string>)
    returns (items: seq<Item>, seen: set<string>)
    requires seen0 == ItemSlugs(items0)
    requires NamedAfterSlug(items0)
    ensures seen == ItemSlugs(items)
    ensures forall s :: s in seen <==> s in seen0 || (s != "" && s in tagSlugs)
    ensures NamedAfterSlug(items)
  {
    items, seen := items0, seen0;
    for t := 0 to |tagSlugs|
      invariant seen == ItemSlugs(items)
      invariant forall s :: s in seen <==> s in seen0 || (s != "" && s in tagSlugs[..t])
      invariant NamedAfterSlug(items)
    {
      var slug := tagSlugs[t];
      PrefixStep(tagSlugs, t);
      if slug != "" && slug !in seen {
        seen := seen + {slug};
        AddSlugItem(items, slug);
        items := items + [Item(slug, SlugToName(slug))];
      }
    }
    PrefixAll(tagSlugs);
  }

  /** The tag half of the `forEach` over the posts. */
  method ExtractTags(posts: seq<ImportPost>) returns (items: seq<Item>)
    ensures ItemSlugs(items) == TagSlugs(posts)
    ensures NamedAfterSlug(items)
  {
    var seen: set<string> := {};
    items := [];
    for i := 0 to |posts|
      invariant seen == ItemSlugs(items)
      invariant seen == TagSlugs(posts[..i])
      invariant NamedAfterSlug(items)
    {
      var post := posts[i];
      TagSlugsStep(posts, i);
      if post.tagSlugs.Given? {
        items, seen := ExtractTagsOf(post.tagSlugs.value, items, seen);
      }
    }
    PrefixAll(posts);
  }

  /** `createUniqueItems` over items named after their slug yields
      well-formed terms whose slugs are exactly the items' slugs. */
  method UniqueTerms(items: seq<Item>) returns (r: seq<Term>)
    requires NamedAfterSlug(items)
    ensures WellFormedTerms(r)
    ensures TermSlugs(r) == ItemSlugs(items)
  {
    r := CreateUniqueItems(items);
    var u := UniqueItems(items);
    forall s ensures s in TermSlugs(r) <==> s in TermSlugs(u) {
      if s in TermSlugs(r) {
        var i :| 0 <= i < |r| && r[i].slug == s;
        assert r[i] in u;
      }
      if s in TermSlugs(u) {
        var i :| 0 <= i < |u| && u[i].slug == s;
        assert u[i] in r;
      }
    }
    forall i | 0 <= i < |r|
      ensures r[i].slug != "" && r[i].id == r[i].slug && r[i].name == SlugToName(r[i].slug)
    {
      assert r[i] in u;
      assert r[i] in ItemTerms(items);
      var k :| 0 <= k < |items| && ItemTerm(items[k]) == r[i];
    }
  }

  /** `convertWpImportToBlogPosts`, without the file reading and writing:
      the posts pass through, and the categories and tags are exactly the
      truthy slugs the posts carry, once each, sorted by name. */
  method ConvertWpImport(input: WpImport) returns (r: Result<BlogPostsFile>)
    ensures input.posts.None? <==> r.Err?
    ensures r.Err? ==> r.message == InvalidImportError
    ensures r.Ok? ==> r.value.posts == input.posts.value
    ensures r.Ok? ==> WellFormedTerms(r.value.categories) && WellFormedTerms(r.value.tags)
    ensures r.Ok? ==> TermSlugs(r.value.categories) == CategorySlugs(input.posts.value)
    ensures r.Ok? ==> TermSlugs(r.value.tags) == TagSlugs(input.posts.value)
  {
    if input.posts.None? {
      return Err(InvalidImportError);
    }
    var posts := input.posts.value;
    var categoryItems := ExtractCategories(posts);
    var tagItems := ExtractTags(posts);
    var categories := UniqueTerms(categoryItems);
    var tags := UniqueTerms(tagItems);
    return Ok(BlogPostsFile(posts, categories, tags));
  }
}
