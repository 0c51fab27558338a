/** scripts/import-wp-rest.js: reads the published posts of a WordPress site
    through its REST API and turns each into the post record of the blog
    snapshot. The network is a parameter: the pages the server answers are
    an input sequence, the media lookup of `getFeaturedImage` is the
    `fetched` argument, and `store` answers the stored URL of an image (the
    URL itself when the download fails, and in a dry run, where nothing is
    stored). */
module WpRest {
  import opened Common
  import opened Text
  import opened Seqs
  import opened Html
  import opened WpExport

  // ---------------------------------------------------------------------
  // generateExcerpt and calculateReadingTime (scripts/import-wp-rest.js:265-286)

  const DefaultExcerptLength: nat := 200

  /** The `stripHtml` text, cut like the WXR importer's excerpt when it is
      longer than `maxLength`. */
  function GenerateExcerpt(content: string, maxLength: nat): (r: string)
    ensures content == "" ==> r == ""
    ensures content != "" && |StripHtml(content)| <= maxLength ==> r == StripHtml(content)
    ensures content != "" && |StripHtml(content)| > maxLength ==>
              exists k: nat :: CutPoint(StripHtml(content), maxLength, k) && r == StripHtml(content)[..k] + "..."
    ensures |r| <= maxLength + 3
  {
    if content == "" then "" else Truncate(StripHtml(content), maxLength)
  }

  /** 5 minutes for missing content, else one minute per started 200 words
      of the `stripHtml` text. */
  function CalculateReadingTime(content: string): (r: nat)
    ensures content == "" ==> r == 5
    ensures r >= 1
  {
    if content == "" then 5 else MinutesFor(|NonEmpty(SplitWs(StripHtml(content)))|)
  }

  /** A text of plain words counts its words: 220 of them read in 2 minutes. */
  lemma ReadingTimeOfPlainWords(words: seq<string>)
    requires |words| >= 1
    requires forall i :: 0 <= i < |words| ==> PlainWord(words[i])
    ensures CalculateReadingTime(Join(words, " ")) == MinutesFor(|words|)
    ensures |words| == 220 ==> CalculateReadingTime(Join(words, " ")) == 2
  {
    JoinStartsWithFirst(words);
    StripHtmlOfPlainWords(words);
    SplitWsJoin(words);
    NonEmptyOfWords(words);
  }

  // ---------------------------------------------------------------------
  // extractImageUrls (scripts/import-wp-rest.js:168-191)

  /** `t.split(/\s+/)[0]`: the characters of `t` before its first
      whitespace. */
  function FirstToken(t: string): (r: string)
    ensures r <= t
    ensures forall i :: 0 <= i < |r| ==> !IsSpace(r[i])
    ensures |r| < |t| ==> IsSpace(t[|r|])
  {
    if t == [] || IsSpace(t[0]) then "" else [t[0]] + FirstToken(t[1..])
  }

  /** `FirstToken` is the first piece of the whitespace split. */
  lemma {:induction false} FirstTokenOfSplit(t: string)
    ensures SplitWs(t)[0] == FirstToken(t)
  {
    if t != [] && !IsSpace(t[0]) {
      FirstTokenOfSplit(t[1..]);
    }
  }

  /** The URLs of one `srcset` value: the first token of each trimmed
      comma-separated candidate, the empty ones dropped. */
  function Candidates(srcset: string): (r: seq<string>)
    ensures forall k :: 0 <= k < |r| ==> r[k] != [] && forall i :: 0 <= i < |r[k]| ==> !IsSpace(r[k][i])
  {
    var pieces := Split(srcset, ',');
    var tokens := seq(|pieces|, i requires 0 <= i < |pieces| => FirstToken(Trim(pieces[i])));
    var r := NonEmpty(tokens);
    assert forall k :: 0 <= k < |r| ==> r[k] in tokens;
    r
  }

  /** The candidates of each `srcset` value, in order. */
  function AllCandidates(values: seq<string>): (r: seq<string>)
    ensures forall k :: 0 <= k < |r| ==> r[k] != []
  {
    if values == [] then []
    else
      var init := AllCandidates(values[..|values| - 1]);
      var last := Candidates(values[|values| - 1]);
      NoEmptyConcat(init, last);
      init + last
  }

  /** The `img src` values, then the `srcset` candidates, each URL once in
      order of first appearance; nothing for missing html. */
  function ImageUrls(html: string): (r: seq<string>)
    ensures html == "" ==> r == []
    ensures NoDuplicates(r)
    ensures forall u :: u in r <==> html != "" && (u in Matches(html, 0, ImgSrc) || u in AllCandidates(Matches(html, 0, Srcset)))
    ensures forall k :: 0 <= k < |r| ==> r[k] != []
  {
    if html == "" then []
    else
      var a := Matches(html, 0, ImgSrc);
      var b := AllCandidates(Matches(html, 0, Srcset));
      var all := a + b;
      NoEmptyConcat(a, b);
      NoEmptyDedup(all);
      Dedup(all)
  }

  lemma {:induction false} AllCandidatesStep(done: seq<string>, values: seq<string>, i: nat)
    requires i < |values|
    ensures done + AllCandidates(values[..i + 1]) == (done + AllCandidates(values[..i])) + Candidates(values[i])
  {
    var v := values[..i + 1];
    assert v[..|v| - 1] == values[..i];
    assert v[|v| - 1] == values[i];
    assert AllCandidates(v) == AllCandidates(values[..i]) + Candidates(values[i]);
  }

  /** The `srcset` loop: the candidates of each value added, in order, to
      the set holding the distinct elements of `done`. */
  method AddSrcsets(acc: seq<string>, ghost done: seq<string>, srcsets: seq<string>) returns (urls: seq<string>)
    requires acc == Dedup(done)
    ensures urls == Dedup(done + AllCandidates(srcsets))
  {
    urls := acc;
    assert done + AllCandidates(srcsets[..0]) == done;
    for i := 0 to |srcsets|
      invariant urls == Dedup(done + AllCandidates(srcsets[..i]))
    {
      var candidates := Candidates(srcsets[i]);
      ghost var before := done + AllCandidates(srcsets[..i]);
      urls := AddAll(urls, before, candidates);
      AllCandidatesStep(done, srcsets, i);
    }
    assert srcsets[..|srcsets|] == srcsets;
  }

  method ExtractImageUrls(html: string) returns (urls: seq<string>)
    ensures urls == ImageUrls(html)
  {
    if html == "" {
      return [];
    }
    var imgs := ScanMatches(html, ImgSrc);
    urls := AddAll([], [], imgs);
    assert [] + imgs == imgs;
    var srcsets := ScanMatches(html, Srcset);
    urls := AddSrcsets(urls, imgs, srcsets);
  }

  // ---------------------------------------------------------------------
  // getFirstImageFromContent (scripts/import-wp-rest.js:291-305)

  predicate NotDataUri(u: string) { !("data:" <= u) }

  /** The first extracted URL that is not a `data:` URI, if any. */
  function FirstImage(html: string): (r: Option<string>)
    ensures html == "" ==> r.None?
    ensures r.Some? ==> r.value in ImageUrls(html) && NotDataUri(r.value) && r.value != []
    ensures r.None? <==> forall u :: u in ImageUrls(html) ==> "data:" <= u
  {
    var urls := ImageUrls(html);
    var i := FirstIndex(urls, NotDataUri);
    if i < 0 then None else Some(urls[i])
  }

  method GetFirstImageFromContent(html: string) returns (r: Option<string>)
    ensures r == FirstImage(html)
  {
    if html == "" {
      return None;
    }
    var urls := ExtractImageUrls(html);
    if |urls| > 0 {
      for i := 0 to |urls|
        invariant forall j :: 0 <= j < i ==> !NotDataUri(urls[j])
      {
        if NotDataUri(urls[i]) {
          FirstImageAt(html, urls, i);
          return Some(urls[i]);
        }
      }
    }
    FirstImageAt(html, urls, |urls|);
    return None;
  }

  /** `FirstImage` is the URL at the first index that is not a `data:` URI,
      and `None` when there is no such index. */
  lemma FirstImageAt(html: string, urls: seq<string>, i: nat)
    requires urls == ImageUrls(html)
    requires i <= |urls|
    requires forall j :: 0 <= j < i ==> !NotDataUri(urls[j])
    requires i < |urls| ==> NotDataUri(urls[i])
    ensures FirstImage(html) == if i < |urls| then Some(urls[i]) else None
  {
    var k := FirstIndex(urls, NotDataUri);
    if k >= 0 {
      assert k == i;
    }
  }

  // ---------------------------------------------------------------------
  // replaceImageUrls (scripts/import-wp-rest.js:196-236)

  /** Every extracted URL that is not local is handed to the store and, when
      the store moved it, replaced everywhere, the srcset-aware second
      replacement included. */
  method ReplaceImageUrls(html: string, store: string -> string) returns (r: string, requested: seq<string>)
    ensures r == ReplaceEach(html, ImageUrls(html), store, true)
    ensures forall u :: u in requested <==> u in ImageUrls(html) && !IsLocalUrl(u)
  {
    if html == "" {
      return html, [];
    }
    var urls := ExtractImageUrls(html);
    r, requested := ReplaceUrls(html, urls, store, true);
  }

  /** A dry run stores nothing: with every URL left where it is, the
      content is unchanged. */
  lemma DryRunKeepsContent(html: string)
    ensures ReplaceEach(html, ImageUrls(html), (u: string) => u, true) == html
  {
  }

  // ---------------------------------------------------------------------
  // getFeaturedImage and processPost (scripts/import-wp-rest.js:310-427)

  /** A media object: `source_url`, `alt_text` and `alt` (`""` when
      missing). */
  datatype Media = Media(sourceUrl: string, altText: string, alt: string)

  /** The answer of `getFeaturedImage`; `url` is `""` for `null`. */
  datatype FeaturedInfo = FeaturedInfo(url: string, alt: Option<string>)

  /** A `title`, `excerpt` or `content` field of a REST post: missing (or
      `null`), or an object with its `rendered` text; an object without a
      `rendered` key is `Rendered("")`. */
  datatype Rendered = Missing | Rendered(text: string)

  /** A post as the REST API returns it with `_embed=1`; the other text
      fields are `""` when missing. */
  datatype WpPost = WpPost(
    id: string,
    title: Rendered,
    slug: string,
    excerpt: Rendered,
    content: Rendered,
    link: string,
    date: string,
    dateGmt: string,
    modified: string,
    modifiedGmt: string,
    featuredMedia: nat,
    embeddedMedia: seq<Option<Media>>,
    categorySlugs: seq<string>,
    tagSlugs: seq<string>,
    authorName: string)

  const DefaultAuthor := "Black and White Accounting"

  /** The `TypeError` of calling `replace` on an object that is not text. */
  const NotTextError := "html.replace is not a function"

  /** `post.x?.rendered || post.x || fallback`: the rendered text, the
      fallback for a missing field, and `None` for an object whose
      `rendered` is empty, since the object itself is then handed on and
      `stripHtml` cannot read it. */
  function RenderedText(field: Rendered, fallback: string): (r: Option<string>)
    ensures r.None? <==> field == Rendered("")
    ensures r.Some? ==> r.value == if field.Missing? then fallback else field.text
  {
    match field
    case Missing => Some(fallback)
    case Rendered(text) => if text != "" then Some(text) else None
  }

  function InfoOf(media: Media): (r: FeaturedInfo)
    ensures r.url == media.sourceUrl
    ensures r.alt.None? <==> media.altText == "" && media.alt == ""
  {
    FeaturedInfo(media.sourceUrl, if media.altText != "" then Some(media.altText) else if media.alt != "" then Some(media.alt) else None)
  }

  /** The embedded media first; otherwise, for a non-zero media id, the
      media the API answered (`fetched`, `None` when the request failed);
      otherwise no image. */
  function GetFeaturedImage(mediaId: nat, embedded: seq<Option<Media>>, fetched: Option<Media>): (r: FeaturedInfo)
    ensures r.url == "" ==> r == FeaturedInfo("", None)
    ensures |embedded| > 0 && embedded[0].Some? && embedded[0].value.sourceUrl != "" ==> r == InfoOf(embedded[0].value)
    ensures r.url != "" && (|embedded| == 0 || embedded[0].None? || embedded[0].value.sourceUrl == "") ==>
              mediaId != 0 && fetched.Some? && r == InfoOf(fetched.value)
    ensures ((|embedded| == 0 || embedded[0].None? || embedded[0].value.sourceUrl == "")
             && mediaId != 0 && fetched.Some? && fetched.value.sourceUrl != "") ==> r == InfoOf(fetched.value)
  {
    if |embedded| > 0 && embedded[0].Some? && embedded[0].value.sourceUrl != "" then InfoOf(embedded[0].value)
    else if mediaId != 0 && fetched.Some? && fetched.value.sourceUrl != "" then InfoOf(fetched.value)
    else FeaturedInfo("", None)
  }

  /** The featured image after the fallback: an image with a blank URL is
      replaced by the first image of the content, when there is one. */
  function ResolvedImage(post: WpPost, content: string, fetched: Option<Media>): FeaturedInfo {
    var info := GetFeaturedImage(post.featuredMedia, post.embeddedMedia, fetched);
    if Trim(info.url) != "" then info
    else
      match FirstImage(content)
      case Some(u) => FeaturedInfo(u, None)
      case None => info
  }

  /** The lookup of the featured image, falling back on the first image of
      the content when its URL is blank. */
  method ResolveImage(post: WpPost, content: string, fetched: Option<Media>) returns (info: FeaturedInfo)
    ensures info == ResolvedImage(post, content, fetched)
  {
    info := GetFeaturedImage(post.featuredMedia, post.embeddedMedia, fetched);
    if Trim(info.url) == "" {
      var first := GetFirstImageFromContent(content);
      if first.Some? {
        info := FeaturedInfo(first.value, None);
      }
    }
  }

  /** The record literal of `processPost`, given the title, excerpt and
      content texts, the featured image after the fallback and the content
      after the image replacement. */
  function Assemble(post: WpPost, title: string, excerpt: string, content: string, image: FeaturedInfo,
                    replaced: string, store: string -> string, nowIso: string): ImportedPost
  {
    var stripped := StripHtml(excerpt);
    var dateGmt := if post.dateGmt != "" then post.dateGmt else if post.date != "" then post.date else nowIso;
    ImportedPost(
      post.id,
      post.link,
      StripHtml(title),
      post.slug,
      if stripped != "" then stripped else GenerateExcerpt(content, DefaultExcerptLength),
      replaced,
      "published",
      Some(dateGmt),
      if post.date != "" then post.date else dateGmt,
      if post.modifiedGmt != "" then post.modifiedGmt else if post.modified != "" then post.modified else nowIso,
      if post.authorName != "" then post.authorName else DefaultAuthor,
      if |post.categorySlugs| > 0 then Some(post.categorySlugs[0]) else None,
      NonEmpty(post.tagSlugs),
      if Trim(image.url) != "" then Some(store(image.url)) else None,
      if Trim(image.url) != "" then image.alt else None,
      None,
      None,
      CalculateReadingTime(replaced))
  }

  /** What `processPost` gives for a REST post: the post record, or the
      `TypeError` of a text field that is an object with an empty
      `rendered`. */
  function PostOf(post: WpPost, fetched: Option<Media>, store: string -> string, nowIso: string): Result<ImportedPost> {
    match (RenderedText(post.title, "Untitled"), RenderedText(post.excerpt, ""), RenderedText(post.content, ""))
    case (Some(title), Some(excerpt), Some(content)) =>
      Ok(Assemble(post, title, excerpt, content, ResolvedImage(post, content, fetched),
                  ReplaceEach(content, ImageUrls(content), store, true), store, nowIso))
    case _ => Err(NotTextError)
  }

  /** `processPost`: the text fields are read, the featured image is looked
      up with the first content image as fallback, the content images are
      replaced, and the record is built. */
  method ProcessPost(post: WpPost, fetched: Option<Media>, store: string -> string, nowIso: string)
    returns (r: Result<ImportedPost>)
    ensures r == PostOf(post, fetched, store, nowIso)
  {
    var title := RenderedText(post.title, "Untitled");
    var excerpt := RenderedText(post.excerpt, "");
    var content := RenderedText(post.content, "");
    if title.None? || excerpt.None? || content.None? {
      return Err(NotTextError);
    }
    var info := ResolveImage(post, content.value, fetched);
    var replaced, _ := ReplaceImageUrls(content.value, store);
    r := Ok(Assemble(post, title.value, excerpt.value, content.value, info, replaced, store, nowIso));
  }

  /** `processPost` throws exactly when a text field is an object with an
      empty `rendered`. */
  lemma PostOfFails(post: WpPost, fetched: Option<Media>, store: string -> string, nowIso: string)
    ensures var r := PostOf(post, fetched, store, nowIso);
      && (r.Err? <==> post.title == Rendered("") || post.excerpt == Rendered("") || post.content == Rendered(""))
      && (r.Err? ==> r.message == NotTextError)
  {
  }

  /** The record `processPost` builds from the title, excerpt and content
      texts: published and dated, with the first category slug or none, the
      non-empty tag slugs in their order, a featured image only with a
      non-blank URL and otherwise the first content image, an excerpt within
      bounds when there is none to strip, and the content unchanged when
      nothing is moved. */
  lemma Assembled(post: WpPost, title: string, excerpt: string, content: string, fetched: Option<Media>,
                  store: string -> string, nowIso: string)
    ensures var p := Assemble(post, title, excerpt, content, ResolvedImage(post, content, fetched),
                              ReplaceEach(content, ImageUrls(content), store, true), store, nowIso);
      && p.status == "published" && p.publishedAt.Some?
      && p.title == StripHtml(title)
      && (p.categorySlug.None? <==> post.categorySlugs == [])
      && (p.categorySlug.Some? ==> p.categorySlug.value == post.categorySlugs[0])
      && p.tagSlugs == Filter(post.tagSlugs, IsNonEmpty)
      && IsSubsequence(p.tagSlugs, post.tagSlugs)
      && (p.featuredImageUrl.None? ==> p.featuredImageAlt.None?)
      && (p.featuredImageUrl.None? <==> Trim(ResolvedImage(post, content, fetched).url) == "")
      && (Trim(GetFeaturedImage(post.featuredMedia, post.embeddedMedia, fetched).url) == "" && FirstImage(content).Some?
          ==> ResolvedImage(post, content, fetched) == FeaturedInfo(FirstImage(content).value, None))
      && (excerpt == "" ==> |p.excerpt| <= DefaultExcerptLength + 3)
      && p.readingTimeMinutes >= 1
      && p.metaTitle.None? && p.metaDescription.None?
      && ((forall u :: store(u) == u) ==> p.content == content)
  {
    NonEmptyIsFilter(post.tagSlugs);
    FilterOrder(post.tagSlugs, IsNonEmpty);
  }

  /** When `processPost` does not throw, its record is the one `Assembled`
      describes, over the rendered texts: "Untitled" for a missing title and
      `""` for a missing excerpt or content. */
  lemma BuiltPost(post: WpPost, fetched: Option<Media>, store: string -> string, nowIso: string)
    ensures var r := PostOf(post, fetched, store, nowIso);
      var title := if post.title.Missing? then "Untitled" else post.title.text;
      var excerpt := if post.excerpt.Missing? then "" else post.excerpt.text;
      var content := if post.content.Missing? then "" else post.content.text;
      r.Ok? ==> r.value == Assemble(post, title, excerpt, content, ResolvedImage(post, content, fetched),
                                    ReplaceEach(content, ImageUrls(content), store, true), store, nowIso)
  {
  }

  // ---------------------------------------------------------------------
  // fetchAllPosts (scripts/import-wp-rest.js:432-485)

  const PerPage: nat := 100

  /** What the server answers for one page: a failed request (an HTTP
      error, an unreadable body or no server), a body that is not an array,
      or the posts with the `x-wp-totalpages` header read by `parseInt`
      (`Some(0)` when the header is missing, `None` for `NaN`). */
  datatype Page<T> = FetchError | NotArray | Posts(posts: seq<T>, totalPages: Option<int>)

  function PostsIn<T>(page: Page<T>): seq<T> {
    if page.Posts? then page.posts else []
  }

  /** The posts of every page, in page order. */
  function AllPosts<T>(responses: seq<Page<T>>): seq<T> {
    if responses == [] then [] else PostsIn(responses[0]) + AllPosts(responses[1..])
  }

  /** `fetchAllPosts` from page `page` on, `acc` holding the posts so far:
      the answer to page `k` is `responses[k - 1]`, and a page past the end
      of `responses` is a failed request. A `limit` of 0 is no limit. */
  function FetchFrom<T>(responses: seq<Page<T>>, page: nat, acc: seq<T>, limit: nat): (r: seq<T>)
    requires 1 <= page
    ensures acc <= r || (limit != 0 && |acc| >= limit && r == acc[..limit])
    ensures limit != 0 && |acc| <= limit ==> |r| <= limit
    ensures page <= |responses| + 1 ==> r <= acc + AllPosts(responses[page - 1..])
    decreases |responses| + 1 - page
  {
    if page > |responses| then acc
    else
      var response := responses[page - 1];
      assert responses[page - 1..] == [response] + responses[page..];
      if !response.Posts? || response.posts == [] then acc
      else
        var all := acc + response.posts;
        if limit != 0 && |all| >= limit then all[..limit]
        else if (response.totalPages.Some? && page >= response.totalPages.value) || |response.posts| < PerPage then all
        else FetchFrom(responses, page + 1, all, limit)
  }

  /** The posts `fetchAllPosts` returns: a prefix of all the posts the
      server holds, and never more than a set limit. */
  function Fetched<T>(responses: seq<Page<T>>, limit: nat): (r: seq<T>)
    ensures r <= AllPosts(responses)
    ensures limit != 0 ==> |r| <= limit
  {
    assert responses[0..] == responses;
    FetchFrom(responses, 1, [], limit)
  }

  method FetchAllPosts<T>(responses: seq<Page<T>>, limit: nat) returns (all: seq<T>)
    ensures all == Fetched(responses, limit)
  {
    all := [];
    var page := 1;
    var hasMore := true;
    while hasMore
      invariant 1 <= page <= |responses| + 1
      invariant hasMore ==> FetchFrom(responses, page, all, limit) == Fetched(responses, limit)
      invariant !hasMore ==> all == Fetched(responses, limit)
      decreases |responses| + 1 - page + (if hasMore then 1 else 0)
    {
      var response := if page <= |responses| then responses[page - 1] else FetchError;
      if !response.Posts? || response.posts == [] {
        hasMore := false;
        break;
      }
      all := all + response.posts;
      if limit != 0 && |all| >= limit {
        all := all[..limit];
        hasMore := false;
        break;
      }
      if (response.totalPages.Some? && page >= response.totalPages.value) || |response.posts| < PerPage {
        hasMore := false;
      } else {
        page := page + 1;
      }
    }
  }

  /** A first page shorter than `PER_PAGE` is all there is. */
  lemma ShortFirstPage<T>(responses: seq<Page<T>>, limit: nat)
    requires |responses| >= 1 && responses[0].Posts?
    requires 0 < |responses[0].posts| < PerPage
    requires limit == 0 || limit > |responses[0].posts|
    ensures Fetched(responses, limit) == responses[0].posts
  {
    assert [] + responses[0].posts == responses[0].posts;
  }

  /** A first request that fails, or answers nothing, ends the import with
      no posts. */
  lemma FailedFirstPage<T>(responses: seq<Page<T>>, limit: nat)
    requires responses == [] || !responses[0].Posts? || responses[0].posts == []
    ensures Fetched(responses, limit) == []
  {
  }
}
