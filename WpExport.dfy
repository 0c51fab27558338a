/** The post record both WordPress import scripts write, in the shape the
    blog store's snapshot import reads (`legacy_wp_id`, `category_slug`,
    `tag_slugs`, ...), and the reading-time rule they share. Dates are the
    ISO strings the scripts produce; `None` is `null`. */
module WpExport {
  import opened Common
  import opened Text

  datatype ImportedPost = ImportedPost(
    legacyWpId: string,
    legacyWpUrl: string,
    title: string,
    slug: string,
    excerpt: string,
    content: string,
    status: string,
    publishedAt: Option<string>,
    createdAt: string,
    updatedAt: string,
    authorName: string,
    categorySlug: Option<string>,
    tagSlugs: seq<string>,
    featuredImageUrl: Option<string>,
    featuredImageAlt: Option<string>,
    metaTitle: Option<string>,
    metaDescription: Option<string>,
    readingTimeMinutes: nat)

  /** `Math.max(1, Math.ceil(words / 200))`. */
  function MinutesFor(words: nat): (r: nat)
    ensures r >= 1
    ensures words > 0 ==> (r - 1) * 200 < words <= r * 200
    ensures words <= 200 ==> r == 1
  {
    var m := CeilDiv(words, 200);
    if m < 1 then 1 else m
  }

  /** The minutes of a text of 220 words. */
  lemma TwoHundredTwentyWords()
    ensures MinutesFor(220) == 2
  {
  }
}
