/** scripts/import-wordpress-xml.js: turns a WordPress export (WXR) into the
    post, category and tag lists of the blog snapshot. The XML parser, the
    file system, image downloads and date parsing are parameters: an item
    arrives with its fields already read as text (`""` for a missing or
    empty one), `store` answers the stored URL of an image (the URL itself
    when the download fails, or in a dry run), and `parseDate` stands for
    `parseDate` with its fallback to the current time. */
module WordPressXml {
  import opened Common
  import opened Text
  import opened Seqs
  import opened Slug
  import opened Html
  import opened WpExport

  // ---------------------------------------------------------------------
  // mapStatus (scripts/import-wordpress-xml.js:246-259)

  /** `publish` is published, `future` is scheduled; `draft`, `private` and
      anything else are drafts. */
  function MapStatus(wpStatus: string): (r: string)
    ensures r == "published" || r == "draft" || r == "scheduled"
    ensures r == "published" <==> wpStatus == "publish"
    ensures r == "scheduled" <==> wpStatus == "future"
  {
    if wpStatus == "publish" then "published"
    else if wpStatus == "future" then "scheduled"
    else "draft"
  }

  // ---------------------------------------------------------------------
  // generateExcerpt (scripts/import-wordpress-xml.js:228-241)

  const DefaultExcerptLength: nat := 200

  function GenerateExcerpt(content: string, maxLength: nat): (r: string)
    ensures content == "" ==> r == ""
    ensures content != "" && |PlainText(content)| <= maxLength ==> r == PlainText(content)
    ensures content != "" && |PlainText(content)| > maxLength ==>
              exists k: nat :: CutPoint(PlainText(content), maxLength, k) && r == PlainText(content)[..k] + "..."
    ensures |r| <= maxLength + 3
  {
    if content == "" then "" else Truncate(PlainText(content), maxLength)
  }

  // ---------------------------------------------------------------------
  // calculateReadingTime (scripts/import-wordpress-xml.js:300-305)

  /** 5 minutes for missing content, else one minute per started 200 words,
      counting the non-empty tokens once tags are spaces. */
  function CalculateReadingTime(content: string): (r: nat)
    ensures content == "" ==> r == 5
    ensures r >= 1
  {
    if content == "" then 5 else MinutesFor(|NonEmpty(SplitWs(TagsToSpaces(content)))|)
  }

  /** A text of plain words counts its words: 220 of them read in 2 minutes. */
  lemma ReadingTimeOfPlainWords(words: seq<string>)
    requires |words| >= 1
    requires forall i :: 0 <= i < |words| ==> PlainWord(words[i])
    ensures CalculateReadingTime(Join(words, " ")) == MinutesFor(|words|)
    ensures |words| == 220 ==> CalculateReadingTime(Join(words, " ")) == 2
  {
    JoinAvoids(words, '>');
    JoinEdges(words);
    SplitWsJoin(words);
    NonEmptyOfWords(words);
  }

  // ---------------------------------------------------------------------
  // extractImageUrls and replaceImageUrls (scripts/import-wordpress-xml.js:164-216)

  /** The `img src` values, then the links to image files, each URL once in
      order of first appearance. */
  function ImageUrls(html: string): (r: seq<string>)
    ensures NoDuplicates(r)
    ensures forall u :: u in r <==> u in Matches(html, 0, ImgSrc) || u in Matches(html, 0, ImageLink)
    ensures forall k :: 0 <= k < |r| ==> r[k] != []
  {
    var all := Matches(html, 0, ImgSrc) + Matches(html, 0, ImageLink);
    NoEmptyConcat(Matches(html, 0, ImgSrc), Matches(html, 0, ImageLink));
    NoEmptyDedup(all);
    Dedup(all)
  }

  method ExtractImageUrls(html: string) returns (urls: seq<string>)
    ensures urls == ImageUrls(html)
  {
    var imgs := ScanMatches(html, ImgSrc);
    var links := ScanMatches(html, ImageLink);
    urls := AddAll([], [], imgs);
    assert [] + imgs == imgs;
    urls := AddAll(urls, imgs, links);
    assert urls == Dedup(Matches(html, 0, ImgSrc) + Matches(html, 0, ImageLink));
  }

  /** `replaceImageUrls(html)`: every extracted URL that is not local is
      handed to the store, and replaced wherever it occurs when the store
      moved it. */
  method ReplaceImageUrls(html: string, store: string -> string) returns (r: string, requested: seq<string>)
    ensures r == ReplaceEach(html, ImageUrls(html), store, false)
    ensures forall u :: u in requested <==> u in ImageUrls(html) && !IsLocalUrl(u)
  {
    if html == "" {
      MatchesOfEmpty(ImgSrc);
      MatchesOfEmpty(ImageLink);
      return html, [];
    }
    var urls := ExtractImageUrls(html);
    r, requested := ReplaceUrls(html, urls, store, false);
  }

  /** A dry run stores nothing: with every URL left where it is, the
      content is unchanged. */
  lemma DryRunKeepsContent(html: string)
    ensures ReplaceEach(html, ImageUrls(html), (u: string) => u, false) == html
  {
  }

  // ---------------------------------------------------------------------
  // processExport (scripts/import-wordpress-xml.js:331-511)

  /** A `<category>` element of an item: `domain`, `nicename` and text. */
  datatype Taxon = Taxon(domain: string, nicename: string, name: string)

  datatype Meta = Meta(key: string, value: string)

  /** An `<item>` of the channel; `postId` is `None` when `wp:post_id` is missing. */
  datatype WxrItem = WxrItem(
    postType: string,
    postId: Option<string>,
    attachmentUrl: string,
    title: string,
    postName: string,
    content: string,
    excerpt: string,
    status: string,
    postDate: string,
    postDateGmt: string,
    modifiedGmt: string,
    creator: string,
    link: string,
    meta: seq<Meta>,
    categories: seq<Taxon>)

  datatype Attachment = Attachment(url: string, alt: Option<string>, title: string)

  datatype NamedSlug = NamedSlug(slug: string, name: string)

  datatype ExportResult = ExportResult(posts: seq<ImportedPost>, categories: seq<NamedSlug>, tags: seq<NamedSlug>)

  const ChannelError := "Invalid WXR format: channel not found"
  const AltKey := "_wp_attachment_image_alt"
  const ThumbnailKey := "_thumbnail_id"

  /** `String(id)`: a missing id prints as `undefined`. */
  function IdText(id: Option<string>): string {
    if id.Some? then id.value else "undefined"
  }

  /** `value || null`. */
  function OrNull(value: Option<string>): (r: Option<string>)
    ensures r.Some? <==> value.Some? && value.value != ""
    ensures r.Some? ==> r == value
  {
    if value.Some? && value.value != "" then value else None
  }

  /** `a || b || null`. */
  function EitherOrNull(a: Option<string>, b: Option<string>): (r: Option<string>)
    ensures r.Some? <==> OrNull(a).Some? || OrNull(b).Some?
    ensures OrNull(a).Some? ==> r == a
    ensures OrNull(a).None? ==> r == OrNull(b)
  {
    if OrNull(a).Some? then a else OrNull(b)
  }

  /** The `k`-th postmeta entry is the last one with key `key`. */
  predicate LastWithKey(meta: seq<Meta>, key: string, k: int) {
    0 <= k < |meta| && meta[k].key == key && forall j :: k < j < |meta| ==> meta[j].key != key
  }

  /** The value of the last postmeta entry with key `key`, as the loops that
      overwrite `altText` and `metaMap[key]` leave it. */
  function LastMeta(meta: seq<Meta>, key: string): (r: Option<string>)
    ensures r.None? <==> forall k :: 0 <= k < |meta| ==> meta[k].key != key
    ensures r.Some? ==> exists k :: LastWithKey(meta, key, k) && meta[k].value == r.value
  {
    if meta == [] then None
    else if meta[|meta| - 1].key == key then
      assert LastWithKey(meta, key, |meta| - 1);
      Some(meta[|meta| - 1].value)
    else
      var r := LastMeta(meta[..|meta| - 1], key);
      LastMetaStep(meta, meta[..|meta| - 1], key, r);
      r
  }

  /** The entries before a last entry with another key decide `LastMeta`. */
  lemma LastMetaStep(meta: seq<Meta>, init: seq<Meta>, key: string, r: Option<string>)
    requires meta != [] && meta[|meta| - 1].key != key && init == meta[..|meta| - 1]
    requires r.None? <==> forall k :: 0 <= k < |init| ==> init[k].key != key
    requires r.Some? ==> exists k :: LastWithKey(init, key, k) && init[k].value == r.value
    ensures r.None? <==> forall k :: 0 <= k < |meta| ==> meta[k].key != key
    ensures r.Some? ==> exists k :: LastWithKey(meta, key, k) && meta[k].value == r.value
  {
    assert forall k :: 0 <= k < |init| ==> init[k] == meta[k];
    if r.Some? {
      var k :| LastWithKey(init, key, k) && init[k].value == r.value;
      assert LastWithKey(meta, key, k);
    }
  }

  // First pass: attachments

  /** An attachment item is recorded only with both an id and a URL. */
  predicate IsRecordedAttachment(item: WxrItem) {
    item.postType == "attachment" && item.postId.Some? && item.postId.value != "" && item.attachmentUrl != ""
  }

  function AttachmentOf(item: WxrItem): Attachment {
    Attachment(item.attachmentUrl, LastMeta(item.meta, AltKey), item.title)
  }

  /** `attachmentsById` after the first pass over `items`. */
  function AttachmentsOf(items: seq<WxrItem>): (r: map<string, Attachment>)
    ensures forall id :: id in r <==> exists k :: 0 <= k < |items| && IsRecordedAttachment(items[k]) && IdText(items[k].postId) == id
  {
    if items == [] then map[]
    else
      var init := items[..|items| - 1];
      var last := items[|items| - 1];
      var r := AttachmentsOf(init);
      assert forall k :: 0 <= k < |init| ==> init[k] == items[k];
      if IsRecordedAttachment(last) then r[IdText(last.postId) := AttachmentOf(last)] else r
  }

  /** The attachment stored under an id is the last recorded item with it. */
  lemma {:induction false} AttachmentOfLastItem(items: seq<WxrItem>, k: nat)
    requires k < |items| && IsRecordedAttachment(items[k])
    requires forall j :: k < j < |items| ==> !(IsRecordedAttachment(items[j]) && IdText(items[j].postId) == IdText(items[k].postId))
    ensures IdText(items[k].postId) in AttachmentsOf(items)
    ensures AttachmentsOf(items)[IdText(items[k].postId)] == AttachmentOf(items[k])
  {
    var init := items[..|items| - 1];
    if k < |items| - 1 {
      assert forall j :: 0 <= j < |init| ==> init[j] == items[j];
      AttachmentOfLastItem(init, k);
    }
  }

  // First pass: categories and tags

  /** A `<category>` element that the first pass records under `domain`. */
  predicate Qualifies(t: Taxon, domain: string) {
    t.domain == domain && t.nicename != "" && t.name != ""
  }

  predicate DistinctSlugs(entries: seq<NamedSlug>) {
    forall i, j :: 0 <= i < j < |entries| ==> entries[i].slug != entries[j].slug
  }

  function SlugsOf(entries: seq<NamedSlug>): (r: set<string>)
    ensures forall s :: s in r <==> exists i :: 0 <= i < |entries| && entries[i].slug == s
  {
    set i | 0 <= i < |entries| :: entries[i].slug
  }

  lemma SlugsOfCons(e: NamedSlug, rest: seq<NamedSlug>)
    ensures SlugsOf([e] + rest) == {e.slug} + SlugsOf(rest)
  {
    var l := [e] + rest;
    assert l[0] == e;
    assert forall i :: 0 <= i < |rest| ==> l[i + 1] == rest[i];
    forall s | s in SlugsOf(l) ensures s in {e.slug} + SlugsOf(rest) {
      var i :| 0 <= i < |l| && l[i].slug == s;
      if i > 0 {
        assert rest[i - 1].slug == s;
      }
    }
  }

  /** `map.set(slug, {slug, name})` on an insertion-ordered map: the entry
      with that slug takes the new name in place, or a new entry is
      appended. */
  function Upsert(entries: seq<NamedSlug>, slug: string, name: string): (r: seq<NamedSlug>)
    requires DistinctSlugs(entries)
    ensures DistinctSlugs(r)
    ensures SlugsOf(r) == SlugsOf(entries) + {slug}
    ensures NamedSlug(slug, name) in r
    ensures forall e :: e in r && e.slug != slug ==> e in entries
  {
    if entries == [] then
      SlugsOfCons(NamedSlug(slug, name), []);
      [NamedSlug(slug, name)]
    else if entries[0].slug == slug then
      UpsertHere(entries, slug, name);
      [NamedSlug(slug, name)] + entries[1..]
    else
      DistinctTail(entries);
      var rest := Upsert(entries[1..], slug, name);
      UpsertLater(entries, slug, name, rest);
      [entries[0]] + rest
  }

  lemma DistinctTail(entries: seq<NamedSlug>)
    requires entries != [] && DistinctSlugs(entries)
    ensures DistinctSlugs(entries[1..])
    ensures entries[0].slug !in SlugsOf(entries[1..])
  {
    var rest := entries[1..];
    forall i, j | 0 <= i < j < |rest| ensures rest[i].slug != rest[j].slug {
      assert rest[i] == entries[i + 1] && rest[j] == entries[j + 1];
    }
    forall i | 0 <= i < |rest| ensures rest[i].slug != entries[0].slug {
      assert rest[i] == entries[i + 1];
    }
  }

  lemma DistinctCons(e: NamedSlug, rest: seq<NamedSlug>)
    requires DistinctSlugs(rest) && e.slug !in SlugsOf(rest)
    ensures DistinctSlugs([e] + rest)
  {
    var l := [e] + rest;
    forall i, j | 0 <= i < j < |l| ensures l[i].slug != l[j].slug {
      assert l[j] == rest[j - 1];
      if i > 0 {
        assert l[i] == rest[i - 1];
      }
    }
  }

  /** `Upsert` where the first entry has the slug. */
  lemma UpsertHere(entries: seq<NamedSlug>, slug: string, name: string)
    requires entries != [] && entries[0].slug == slug && DistinctSlugs(entries)
    ensures var r := [NamedSlug(slug, name)] + entries[1..];
      DistinctSlugs(r) && SlugsOf(r) == SlugsOf(entries) + {slug}
      && NamedSlug(slug, name) in r && forall e :: e in r && e.slug != slug ==> e in entries
  {
    DistinctTail(entries);
    DistinctCons(NamedSlug(slug, name), entries[1..]);
    SlugsOfCons(entries[0], entries[1..]);
    SlugsOfCons(NamedSlug(slug, name), entries[1..]);
    HeadTail(entries);
  }

  /** `Upsert` where the first entry has another slug. */
  lemma UpsertLater(entries: seq<NamedSlug>, slug: string, name: string, rest: seq<NamedSlug>)
    requires entries != [] && entries[0].slug != slug && DistinctSlugs(entries)
    requires DistinctSlugs(rest) && SlugsOf(rest) == SlugsOf(entries[1..]) + {slug}
    requires NamedSlug(slug, name) in rest && forall e :: e in rest && e.slug != slug ==> e in entries[1..]
    ensures var r := [entries[0]] + rest;
      DistinctSlugs(r) && SlugsOf(r) == SlugsOf(entries) + {slug}
      && NamedSlug(slug, name) in r && forall e :: e in r && e.slug != slug ==> e in entries
  {
    DistinctTail(entries);
    DistinctCons(entries[0], rest);
    SlugsOfCons(entries[0], entries[1..]);
    SlugsOfCons(entries[0], rest);
    HeadTail(entries);
  }

  /** `categoriesBySlug` (domain `category`) or `tagsBySlug` (domain
      `post_tag`) after the first pass has seen `taxons`. */
  function TaxonomyOf(taxons: seq<Taxon>, domain: string): (r: seq<NamedSlug>)
    ensures DistinctSlugs(r)
    ensures forall s :: s in SlugsOf(r) <==> exists k :: 0 <= k < |taxons| && Qualifies(taxons[k], domain) && taxons[k].nicename == s
  {
    if taxons == [] then []
    else
      var init := taxons[..|taxons| - 1];
      var last := taxons[|taxons| - 1];
      var r := TaxonomyOf(init, domain);
      assert forall k :: 0 <= k < |init| ==> init[k] == taxons[k];
      if Qualifies(last, domain) then Upsert(r, last.nicename, last.name) else r
  }

  /** Each recorded slug carries the name of the last element with that
      slug: the last name wins. */
  lemma {:induction false} TaxonomyLastWins(taxons: seq<Taxon>, domain: string)
    ensures forall e :: e in TaxonomyOf(taxons, domain) ==> LastNamed(taxons, domain, e)
  {
    if taxons != [] {
      var init := taxons[..|taxons| - 1];
      TaxonomyLastWins(init, domain);
      forall e | e in TaxonomyOf(taxons, domain) ensures LastNamed(taxons, domain, e) {
        LastWinsEntry(taxons, init, domain, e);
      }
    }
  }

  /** One entry of `TaxonomyOf(taxons, domain)`: either the last element
      just set it, or it comes from the earlier elements, none later. */
  lemma LastWinsEntry(taxons: seq<Taxon>, init: seq<Taxon>, domain: string, e: NamedSlug)
    requires taxons != [] && init == taxons[..|taxons| - 1]
    requires forall e :: e in TaxonomyOf(init, domain) ==> LastNamed(init, domain, e)
    requires e in TaxonomyOf(taxons, domain)
    ensures LastNamed(taxons, domain, e)
  {
    var last := taxons[|taxons| - 1];
    var r := TaxonomyOf(init, domain);
    if Qualifies(last, domain) && e.slug == last.nicename {
      var r' := Upsert(r, last.nicename, last.name);
      var i :| 0 <= i < |r'| && r'[i] == e;
      var j :| 0 <= j < |r'| && r'[j] == NamedSlug(last.nicename, last.name);
      assert i == j;
      assert LastNamedAt(taxons, domain, e, |taxons| - 1);
    } else {
      assert e in r;
      var k :| LastNamedAt(init, domain, e, k);
      LastNamedExtends(taxons, init, domain, e, k);
    }
  }

  lemma LastNamedExtends(taxons: seq<Taxon>, init: seq<Taxon>, domain: string, e: NamedSlug, k: int)
    requires taxons != [] && init == taxons[..|taxons| - 1]
    requires LastNamedAt(init, domain, e, k)
    requires !(Qualifies(taxons[|taxons| - 1], domain) && taxons[|taxons| - 1].nicename == e.slug)
    ensures LastNamedAt(taxons, domain, e, k)
  {
    assert forall j :: 0 <= j < |init| ==> init[j] == taxons[j];
  }

  /** `e` is the slug and name of the `k`-th element, the last one recorded
      under `domain` with that slug: the last name wins. */
  predicate LastNamedAt(taxons: seq<Taxon>, domain: string, e: NamedSlug, k: int) {
    0 <= k < |taxons| && Qualifies(taxons[k], domain) && taxons[k].nicename == e.slug && taxons[k].name == e.name
    && forall j :: k < j < |taxons| ==> !(Qualifies(taxons[j], domain) && taxons[j].nicename == e.slug)
  }

  ghost predicate LastNamed(taxons: seq<Taxon>, domain: string, e: NamedSlug) {
    exists k :: LastNamedAt(taxons, domain, e, k)
  }

  /** The `<category>` elements of the items, in document order. */
  function AllTaxons(items: seq<WxrItem>): seq<Taxon> {
    if items == [] then [] else AllTaxons(items[..|items| - 1]) + items[|items| - 1].categories
  }

  lemma TaxonomyStep(prefix: seq<Taxon>, t: Taxon, domain: string)
    ensures TaxonomyOf(prefix + [t], domain)
         == if Qualifies(t, domain) then Upsert(TaxonomyOf(prefix, domain), t.nicename, t.name) else TaxonomyOf(prefix, domain)
  {
    var upto := prefix + [t];
    assert upto[..|upto| - 1] == prefix && upto[|upto| - 1] == t;
  }

  method RecordTaxons(taxons: seq<Taxon>, ghost seen: seq<Taxon>, categories0: seq<NamedSlug>, tags0: seq<NamedSlug>)
    returns (categories: seq<NamedSlug>, tags: seq<NamedSlug>)
    requires categories0 == TaxonomyOf(seen, "category") && tags0 == TaxonomyOf(seen, "post_tag")
    ensures categories == TaxonomyOf(seen + taxons, "category")
    ensures tags == TaxonomyOf(seen + taxons, "post_tag")
  {
    categories, tags := categories0, tags0;
    AppendPrefixEnds(seen, taxons);
    for j := 0 to |taxons|
      invariant categories == TaxonomyOf(seen + taxons[..j], "category")
      invariant tags == TaxonomyOf(seen + taxons[..j], "post_tag")
    {
      var t := taxons[j];
      AppendPrefixStep(seen, taxons, j);
      TaxonomyStep(seen + taxons[..j], t, "category");
      TaxonomyStep(seen + taxons[..j], t, "post_tag");
      if t.domain == "category" && t.nicename != "" && t.name != "" {
        categories := Upsert(categories, t.nicename, t.name);
      } else if t.domain == "post_tag" && t.nicename != "" && t.name != "" {
        tags := Upsert(tags, t.nicename, t.name);
      }
    }
    assert taxons[..|taxons|] == taxons;
  }

  /** The first pass: attachments by id, categories and tags by slug. */
  method FirstPass(items: seq<WxrItem>) returns (attachments: map<string, Attachment>, categories: seq<NamedSlug>, tags: seq<NamedSlug>)
    ensures attachments == AttachmentsOf(items)
    ensures categories == TaxonomyOf(AllTaxons(items), "category")
    ensures tags == TaxonomyOf(AllTaxons(items), "post_tag")
  {
    attachments, categories, tags := map[], [], [];
    for i := 0 to |items|
      invariant attachments == AttachmentsOf(items[..i])
      invariant categories == TaxonomyOf(AllTaxons(items[..i]), "category")
      invariant tags == TaxonomyOf(AllTaxons(items[..i]), "post_tag")
    {
      var item := items[i];
      assert items[..i + 1][..i] == items[..i];
      if item.postType == "attachment" {
        if item.postId.Some? && item.postId.value != "" && item.attachmentUrl != "" {
          var alt := LastMeta(item.meta, AltKey);
          attachments := attachments[item.postId.value := Attachment(item.attachmentUrl, alt, item.title)];
        }
      }
      categories, tags := RecordTaxons(item.categories, AllTaxons(items[..i]), categories, tags);
    }
    assert items[..|items|] == items;
  }

  // Second pass: building the posts

  /** A `<category>` element of `domain` with a truthy nicename. */
  function InDomain(domain: string): Taxon -> bool {
    (t: Taxon) => t.domain == domain && t.nicename != ""
  }

  function Nicename(t: Taxon): string { t.nicename }

  /** The slugs of the `<category>` elements of `domain` with a truthy
      nicename, in document order and as often as they occur. */
  function SlugsIn(taxons: seq<Taxon>, domain: string): (r: seq<string>)
    ensures r == Map(Filter(taxons, InDomain(domain)), Nicename)
    ensures forall k :: 0 <= k < |r| ==> r[k] != ""
    ensures forall s :: s in r <==> exists k :: 0 <= k < |taxons| && taxons[k].domain == domain && taxons[k].nicename == s && s != ""
    ensures r != [] ==> exists k :: 0 <= k < |taxons| && taxons[k].domain == domain && taxons[k].nicename == r[0]
                                    && forall j :: 0 <= j < k ==> !(taxons[j].domain == domain && taxons[j].nicename != "")
  {
    if taxons == [] then []
    else
      var rest := SlugsIn(taxons[1..], domain);
      var kept := Filter(taxons[1..], InDomain(domain));
      var r := if taxons[0].domain == domain && taxons[0].nicename != "" then [taxons[0].nicename] + rest else rest;
      assert r == Map(Filter(taxons, InDomain(domain)), Nicename) by {
        if taxons[0].domain == domain && taxons[0].nicename != "" {
          assert Filter(taxons, InDomain(domain)) == [taxons[0]] + kept;
          assert ([taxons[0]] + kept)[1..] == kept;
        }
      }
      MapFilterMembers(taxons, InDomain(domain), Nicename);
      FilterHead(taxons, InDomain(domain));
      r
  }

  function WpStatus(item: WxrItem): string {
    if item.status != "" then item.status else "draft"
  }

  function Title(item: WxrItem): (r: string)
    ensures r != ""
  {
    if item.title != "" then item.title else "Untitled"
  }

  /** The featured image: the attachment named by a truthy `_thumbnail_id`,
      stored, with its alt text or `null`. */
  function FeaturedImage(item: WxrItem, attachments: map<string, Attachment>, store: string -> string): (r: (Option<string>, Option<string>))
    ensures r.0.None? ==> r.1.None?
  {
    var thumbnail := LastMeta(item.meta, ThumbnailKey);
    if thumbnail.Some? && thumbnail.value != "" && thumbnail.value in attachments then
      var attachment := attachments[thumbnail.value];
      (Some(store(attachment.url)), OrNull(attachment.alt))
    else (None, None)
  }

  /** `postCategories[0] || null`: the first category slug of the item. */
  function PrimaryCategory(taxons: seq<Taxon>): (r: Option<string>)
    ensures r.None? <==> forall k :: 0 <= k < |taxons| ==> !(taxons[k].domain == "category" && taxons[k].nicename != "")
    ensures r.Some? ==> exists k :: 0 <= k < |taxons| && taxons[k].domain == "category" && taxons[k].nicename == r.value
                                   && forall j :: 0 <= j < k ==> !(taxons[j].domain == "category" && taxons[j].nicename != "")
  {
    var slugs := SlugsIn(taxons, "category");
    assert forall k :: 0 <= k < |taxons| && taxons[k].domain == "category" && taxons[k].nicename != "" ==> taxons[k].nicename in slugs;
    if slugs != [] then Some(slugs[0]) else None
  }

  /** The post object built for a `post` item whose content, after the
      image replacement, is `content`. */
  function BuildPost(item: WxrItem, content: string, attachments: map<string, Attachment>,
                     store: string -> string, parseDate: (string, string) -> string, nowIso: string): ImportedPost
  {
    var title := Title(item);
    var slug := if item.postName != "" then item.postName else GenerateSlug(title);
    var wpStatus := WpStatus(item);
    var featured := FeaturedImage(item, attachments, store);
    var shouldPublish := wpStatus == "publish";
    var created := parseDate(item.postDate, item.postDateGmt);
    ImportedPost(
      IdText(item.postId),
      item.link,
      title,
      slug,
      if item.excerpt != "" then item.excerpt else GenerateExcerpt(content, DefaultExcerptLength),
      content,
      if shouldPublish then "published" else MapStatus(wpStatus),
      if shouldPublish || wpStatus == "future" then Some(created) else None,
      created,
      if item.modifiedGmt != "" then parseDate(item.modifiedGmt, item.modifiedGmt) else nowIso,
      item.creator,
      PrimaryCategory(item.categories),
      SlugsIn(item.categories, "post_tag"),
      featured.0,
      featured.1,
      EitherOrNull(LastMeta(item.meta, "_yoast_wpseo_title"), LastMeta(item.meta, "rank_math_title")),
      EitherOrNull(LastMeta(item.meta, "_yoast_wpseo_metadesc"), LastMeta(item.meta, "rank_math_description")),
      CalculateReadingTime(content))
  }

  /** What a built post holds: the status mapped (published exactly for
      `publish`), a publication date only for `publish` and `future`, the
      first category slug, the tag slugs in document order, the post name or
      else a slug generated from the title, and the excerpt given or else
      generated. */
  lemma BuiltPost(item: WxrItem, content: string, attachments: map<string, Attachment>,
                  store: string -> string, parseDate: (string, string) -> string, nowIso: string)
    ensures var p := BuildPost(item, content, attachments, store, parseDate, nowIso);
      && p.status == MapStatus(WpStatus(item))
      && (p.status == "published" <==> WpStatus(item) == "publish")
      && (p.publishedAt.Some? <==> WpStatus(item) == "publish" || WpStatus(item) == "future")
      && p.categorySlug == PrimaryCategory(item.categories)
      && p.tagSlugs == SlugsIn(item.categories, "post_tag")
      && (item.postName != "" ==> p.slug == item.postName)
      && (item.postName == "" ==> IsSlug(p.slug))
      && p.title != "" && p.legacyWpId == IdText(item.postId)
      && p.content == content && p.readingTimeMinutes >= 1
      && (item.excerpt != "" ==> p.excerpt == item.excerpt)
      && (item.excerpt == "" ==> |p.excerpt| <= DefaultExcerptLength + 3)
  {
    GenerateSlugIsSlug(Title(item));
  }

  function ProcessedContent(item: WxrItem, store: string -> string): string {
    ReplaceEach(item.content, ImageUrls(item.content), store, false)
  }

  /** `p` is the post built from the `j`-th item, a `post`. */
  predicate BuiltAt(p: ImportedPost, items: seq<WxrItem>, j: int, attachments: map<string, Attachment>,
                    store: string -> string, parseDate: (string, string) -> string, nowIso: string) {
    0 <= j < |items| && items[j].postType == "post"
    && p == BuildPost(items[j], ProcessedContent(items[j], store), attachments, store, parseDate, nowIso)
  }

  ghost predicate BuiltFrom(p: ImportedPost, items: seq<WxrItem>, attachments: map<string, Attachment>,
                            store: string -> string, parseDate: (string, string) -> string, nowIso: string) {
    exists j :: BuiltAt(p, items, j, attachments, store, parseDate, nowIso)
  }

  /** `postsToImport` after the second pass over `items`: one post per
      `post` item, in order. */
  function PostsOf(items: seq<WxrItem>, attachments: map<string, Attachment>, store: string -> string,
                   parseDate: (string, string) -> string, nowIso: string): (r: seq<ImportedPost>)
    ensures |r| <= |items|
    ensures forall k :: 0 <= k < |r| ==> BuiltFrom(r[k], items, attachments, store, parseDate, nowIso)
  {
    if items == [] then []
    else
      var init := items[..|items| - 1];
      var last := items[|items| - 1];
      var r := PostsOf(init, attachments, store, parseDate, nowIso);
      BuiltFromPrefix(items, init, r, attachments, store, parseDate, nowIso);
      if last.postType != "post" then r
      else
        var p := BuildPost(last, ProcessedContent(last, store), attachments, store, parseDate, nowIso);
        assert BuiltAt(p, items, |items| - 1, attachments, store, parseDate, nowIso);
        r + [p]
  }

  /** A post built from an item of a prefix is built from the whole list. */
  lemma BuiltFromPrefix(items: seq<WxrItem>, init: seq<WxrItem>, r: seq<ImportedPost>, attachments: map<string, Attachment>,
                        store: string -> string, parseDate: (string, string) -> string, nowIso: string)
    requires items != [] && init == items[..|items| - 1]
    requires forall k :: 0 <= k < |r| ==> BuiltFrom(r[k], init, attachments, store, parseDate, nowIso)
    ensures forall k :: 0 <= k < |r| ==> BuiltFrom(r[k], items, attachments, store, parseDate, nowIso)
  {
    forall k | 0 <= k < |r| ensures BuiltFrom(r[k], items, attachments, store, parseDate, nowIso) {
      var j :| BuiltAt(r[k], init, j, attachments, store, parseDate, nowIso);
      assert init[j] == items[j];
      assert BuiltAt(r[k], items, j, attachments, store, parseDate, nowIso);
    }
  }

  function PostCount(items: seq<WxrItem>): nat {
    if items == [] then 0 else PostCount(items[..|items| - 1]) + (if items[|items| - 1].postType == "post" then 1 else 0)
  }

  /** Every `post` item gives exactly one post, and nothing else does. */
  lemma {:induction false} PostsOfCount(items: seq<WxrItem>, attachments: map<string, Attachment>, store: string -> string,
                                        parseDate: (string, string) -> string, nowIso: string)
    ensures |PostsOf(items, attachments, store, parseDate, nowIso)| == PostCount(items)
  {
    if items != [] {
      PostsOfCount(items[..|items| - 1], attachments, store, parseDate, nowIso);
    }
  }

  method SecondPass(items: seq<WxrItem>, attachments: map<string, Attachment>, store: string -> string,
                    parseDate: (string, string) -> string, nowIso: string) returns (posts: seq<ImportedPost>)
    ensures posts == PostsOf(items, attachments, store, parseDate, nowIso)
  {
    posts := [];
    for i := 0 to |items|
      invariant posts == PostsOf(items[..i], attachments, store, parseDate, nowIso)
    {
      var item := items[i];
      assert items[..i + 1][..i] == items[..i];
      if item.postType != "post" {
        continue;
      }
      var content, _ := ReplaceImageUrls(item.content, store);
      posts := posts + [BuildPost(item, content, attachments, store, parseDate, nowIso)];
    }
    assert items[..|items|] == items;
  }

  /** `processExport`: an error without a channel, else the posts of the
      second pass and the taxonomy of the first. */
  method ProcessExport(channel: Option<seq<WxrItem>>, store: string -> string,
                       parseDate: (string, string) -> string, nowIso: string) returns (r: Result<ExportResult>)
    ensures channel.None? <==> r.Err?
    ensures r.Err? ==> r.message == ChannelError
    ensures r.Ok? ==> r.value.posts == PostsOf(channel.value, AttachmentsOf(channel.value), store, parseDate, nowIso)
    ensures r.Ok? ==> r.value.categories == TaxonomyOf(AllTaxons(channel.value), "category")
    ensures r.Ok? ==> r.value.tags == TaxonomyOf(AllTaxons(channel.value), "post_tag")
  {
    if channel.None? {
      return Err(ChannelError);
    }
    var items := channel.value;
    var attachments, categories, tags := FirstPass(items);
    var posts := SecondPass(items, attachments, store, parseDate, nowIso);
    return Ok(ExportResult(posts, categories, tags));
  }
}
