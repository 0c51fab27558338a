# Blog store, import scripts, admin session and triage rows

This project models the data layer of an accounting firm's website in Dafny.

- **Blog store** (`blog-data.js`). Posts, categories and tags live in an in-memory cache backed by browser local storage. On first use the store loads a static JSON snapshot. If the snapshot cannot be read, the store falls back to what local storage holds. Empty taxonomies are seeded with five default categories and five default tags. The store also covers:
  - saving posts, matched by id first and then by WordPress legacy id, with slugs made unique by a numeric suffix;
  - deleting posts, saving categories and tags;
  - searching, with newest-first ordering;
  - lookups by id, by slug, by category and by tag;
  - exporting the snapshot.
- **Snapshot import** (`scripts/import-json-to-localstorage.js`). It creates the categories and tags the store lacks, resolves each post's category and tag slugs to ids, and saves every post. Each post is counted as imported, updated or failed.
- **WordPress conversion** (`scripts/convert-wp-import-to-blog-posts.js`). It turns a WordPress export into a snapshot file by deriving the category and tag lists from the posts' slugs. Each derived term is named after its slug, deduplicated and sorted by name.
- **WordPress XML import** (`scripts/import-wordpress-xml.js`). It works in two passes over the items of a WXR (WordPress eXtended RSS) channel:
  - first pass: attachments, categories and tags;
  - second pass: the items of type `post`. Each gets a status mapping, a slug, an excerpt, a reading time, a featured image, a primary category, tag slugs and content whose image URLs are rewritten.
- **WordPress REST import** (`scripts/import-wp-rest.js`). It covers:
  - paging through the posts endpoint;
  - extracting image URLs, including `srcset` candidates;
  - choosing the featured image: embedded media, then fetched media, then the first image of the content;
  - building the post record;
  - the HTML stripping and excerpt rules of this script.
- **Admin session** (`admin-auth.js`). One session-storage slot holds the time of the last login and is valid for eight hours. Credentials are checked against values configured at build time, after trimming both inputs.
- **Triage rows** (`triage-data-supabase.js`). It covers:
  - mapping a database row to the UI entry;
  - building the insert row and the partial update row;
  - the category-id rules;
  - the guards of delete, archive, add-category and resolve-category.

Module layout:
- Leaf modules:
  - `Common`: Option, Result, and a Field for "key present in a JS object";
  - `Text`: ASCII character classes, trim, lower case, whitespace split, number formatting, lexicographic order;
  - `Seqs`: filter, dedup, and small sequence facts;
  - `Slug`: `generateSlug`;
  - `Sorting`: a stable insertion sort over a total preorder;
  - `Html`: tag stripping, whitespace collapse, entity decoding, truncation, the image-URL scanners and URL replacement;
  - `WpExport`: the imported-post record and the reading-time rule shared by both WordPress scripts.
- One module per core file: `BlogData`, `ImportJson`, `ConvertWp`, `WordPressXml`, `WpRest`, `AdminAuth` and `Triage`.

Behaviour of the code that a reader might not expect, which the model follows:

- **Loading has three sources only.** There is no hosted backend and no merge of snapshot posts into other results. Loading is snapshot first, then local storage, then the default taxonomy (`BlogData.LoadFromSnapshot`, `BlogData.LoadFallback`, `BlogData.LoadSeedsTaxonomy`).
- **A post's id can change.** An update matched by legacy id takes the id the caller supplied (`BlogData.LegacyMatchAdoptsSuppliedId`). An update matched by legacy id that supplies an empty id gets a freshly generated id (`BlogData.Merge`).
- **Slugs are only unique on create.** `savePost` makes the slug unique only when it creates a post. An update writes the supplied slug as given (`BlogData.UpdateMayDuplicateSlug`).
- **The snapshot import counts by the legacy ids it saw first.** An untitled post that matches a stored post by id or legacy id is saved, not failed. A post whose legacy id first appears earlier in the same file is saved as an update of that post but counted as imported (`ImportJson.PostStep`).
- **Term slugs are checked against posts.** Category and tag slugs are made unique against the post slugs, not against other categories or tags (`BlogData.TermSlugNotCheckedAgainstTerms`).
- **Create and update resolve category ids differently.** `createTriage` keeps only a truthy `category_id`. `updateTriage` keeps any value other than `undefined`, `null` and `""`, so `false` survives an update (`Triage.CategoryRulesDiffer`).

## Model

| member | source | states |
|---|---|---|
| BlogData.Current | blog-data.js:163-185 | a getter answers with the cached list when there is one, else with the stored list, else with the empty list |
| BlogData.WithPosts | blog-data.js:290-292 | saving the post list replaces the posts and leaves categories and tags as they were |
| BlogData.PersistIfAny | blog-data.js:34-42 | a snapshot list is written to storage only when it is non-empty; otherwise the stored slot is kept |
| BlogData.PreferStored | blog-data.js:61-76 | on the fallback path, a stored list wins over the cached one, and an absent stored list keeps the cache |
| BlogData.LoadFromSnapshot | blog-data.js:19-50 | after loading a snapshot, the posts are the snapshot's posts and empty taxonomies are replaced by the defaults; storage keeps its old posts when the snapshot has none; the loaded-from-JSON flag is set |
| BlogData.LoadFallback | blog-data.js:54-88 | without a snapshot, stored posts (if any) become the current posts, storage and the flag are unchanged, and non-empty stored categories are used as they are |
| BlogData.LoadSeedsTaxonomy | blog-data.js:78-84 | whatever the sources hold, after loading there is at least one category and one tag, and the posts are exactly those the sources gave |
| BlogData.LoadFromNothing | blog-data.js:91-125 | from empty storage and no snapshot, the store holds no posts and exactly the five built-in categories and five built-in tags |
| BlogData.Export | blog-data.js:416-423 | the exported snapshot holds exactly the current posts, categories and tags |
| BlogData.ExportLoadRoundTrip | blog-data.js:19-50 | loading an exported snapshot into any store reproduces the exporting store's posts, categories and tags |
| BlogData.Suffixed | blog-data.js:155 | a suffixed slug is the base, a hyphen and the decimal counter, and the counter can be read back from it |
| BlogData.SuffixedInjective | blog-data.js:155 | two different counters never give the same suffixed slug |
| BlogData.Candidate | blog-data.js:150-157 | the first slug tried is the base itself; the c-th is the base with suffix c-1 |
| BlogData.UniqueSlugStep | blog-data.js:154-157 | each taken candidate grows the set of tried slugs within the finite set of taken slugs, so the loop ends |
| BlogData.NextCandidateUntried | blog-data.js:154-157 | a later candidate was never tried before, so the loop never revisits a slug |
| BlogData.FirstFreeCandidate | blog-data.js:149-160 | the first candidate no other post uses is the unique slug the function promises |
| BlogData.UniqueSlugFrom | blog-data.js:149-160 | trying candidates from any counter reached by the loop ends at the first free candidate |
| BlogData.UniqueSlug | blog-data.js:149-160 | the unique slug is the first candidate no other post uses; a base no other post uses is kept as it is |
| BlogData.UniqueSlugDeterministic | blog-data.js:149-160 | the unique slug for a base is determined by the posts: two answers meeting the specification are equal |
| BlogData.CreateKeepsSlugsDistinct | blog-data.js:277-289 | appending a post whose slug was made unique keeps all post slugs distinct |
| BlogData.CalculateReadingTime | blog-data.js:132-136 | the minutes are at least one, and the whitespace-separated piece count lies in the last 200-word block the minutes cover |
| BlogData.ReadingTimeOfWords | blog-data.js:132-136 | for a text of single-space-separated words the minutes are the word count divided by 200 rounded up; 220 words take 2 minutes |
| BlogData.MatchIndex | blog-data.js:256-264 | the matched post is the first with the supplied id when there is one, otherwise the first with the supplied legacy id; no match exactly when neither key finds a post |
| BlogData.Merge | blog-data.js:266-276 | an update stamps `updated_at`, takes a truthy supplied id, keeps the stored id when none is supplied, and takes the supplied slug and reading time over the stored ones |
| BlogData.MergeIdempotent | blog-data.js:266-276 | applying the same update twice gives the same post as applying it once |
| BlogData.MergeKeepsIdentity | blog-data.js:256-276 | an update matched by its own id, or supplying no id, keeps the stored post's id |
| BlogData.LegacyMatchAdoptsSuppliedId | blog-data.js:256-270 | an update matched by legacy id takes the caller's different id, so an id can change |
| BlogData.UpdateMayDuplicateSlug | blog-data.js:266-276 | an update can write a slug another post already has, breaking slug uniqueness |
| BlogData.DesiredSlug | blog-data.js:278 | a new post's slug is the truthy supplied slug, else the slug of the title; there is none exactly when both are missing |
| BlogData.NewPost | blog-data.js:277-287 | a created post takes the supplied id or a fresh one, the unique slug, the current time as `updated_at`, the supplied or current `created_at`, and a reading time of at least one minute |
| BlogData.SavePostResult | blog-data.js:250-294 | a matched post is merged in place at its index; an unmatched post without slug or title fails; otherwise the new post with the unique slug is appended, and distinct slugs stay distinct; failure exactly when nothing matches and there is neither slug nor title |
| BlogData.WithoutId | blog-data.js:297-303 | deleting removes every post with that id and keeps every other post, in order and as often as the list held it |
| BlogData.DeleteUnknownOrRepeated | blog-data.js:297-303 | deleting an unknown id changes nothing, and deleting twice is the same as deleting once |
| BlogData.TermIndex | blog-data.js:309-311 | the index found is the first term with the id; there is none exactly when no term has it |
| BlogData.MergeTerm | blog-data.js:312 | updating a term without a new id keeps its id |
| BlogData.DesiredTermSlug | blog-data.js:314 | a new term's slug is the truthy supplied slug, else the slug of its name; there is none exactly when both are missing |
| BlogData.TermSlugNotCheckedAgainstTerms | blog-data.js:313-319 | a new category "Tax" gets the slug `tax` although the default category `tax` exists, because only post slugs are checked |
| BlogData.SaveTermResult | blog-data.js:306-347 | an unknown supplied id fails with the not-found message; a known one merges that term in place; no id appends a term with the fresh id, the supplied name and a slug unique among posts; no slug and no name fails |
| BlogData.Published | blog-data.js:193-196 | exactly the published posts are listed, in the order of the list and as often as it holds them |
| BlogData.PostById | blog-data.js:198-202 | the answer is the first post with the id, and nothing exactly when no post has it |
| BlogData.PostBySlug | blog-data.js:204-208 | the answer is the first published post with the slug, and nothing exactly when no published post has it |
| BlogData.NewestFirstIsPreorder | blog-data.js:379-383 | ordering by publication (or creation) time, newest first, is a total preorder |
| BlogData.ByStatus | blog-data.js:351-356 | the status filter keeps exactly the posts with the given status, or the published ones when none is given, in order and with their multiplicity |
| BlogData.FilterIf | blog-data.js:358-376 | an optional filter keeps, in order and with their multiplicity, the posts it accepts when its key is set, and every post otherwise |
| BlogData.Narrow | blog-data.js:358-376 | the category, tag and query filters keep, in order and with their multiplicity, exactly the posts that pass all three |
| BlogData.SearchPosts | blog-data.js:350-386 | the result is a newest-first permutation of the filtered posts: exactly the posts matching the filters and the query, each as often as the list holds it |
| BlogData.PublishedWhere | blog-data.js:389-402 | the published posts a predicate accepts, in order and with their multiplicity |
| BlogData.PostsByCategory | blog-data.js:389-394 | an unknown slug gives no posts; otherwise the result is exactly the published posts of the first category with that slug, in order and with their multiplicity |
| BlogData.PostsByTag | blog-data.js:397-402 | an unknown slug gives no posts; otherwise the result is exactly the published posts carrying the first tag with that slug, in order and with their multiplicity |
| BlogData.BlogStore.constructor | blog-data.js:12-16 | a fresh store has an empty cache over the given storage, and has not loaded |
| BlogData.BlogStore.LoadDataFromJson | blog-data.js:19-50 | a readable snapshot replaces the cache and persists its non-empty lists; an unreadable one changes nothing |
| BlogData.BlogStore.InitDefaultCategories | blog-data.js:91-107 | with no categories the defaults are stored and returned; otherwise the existing categories are returned and nothing changes |
| BlogData.BlogStore.InitDefaultTags | blog-data.js:109-125 | with no tags the defaults are stored and returned; otherwise the existing tags are returned and nothing changes |
| BlogData.BlogStore.EnsureDataLoaded | blog-data.js:54-88 | the first call performs the load; every later call changes nothing |
| BlogData.BlogStore.BeginLoad | blog-data.js:54-56 | a call starts the load only when none was started, marks the store as loading, and changes no data yet |
| BlogData.BlogStore.EnsureUniqueSlug | blog-data.js:149-160 | the answer is the first of base, base-1, base-2, ... that no other post (other than the excluded id) uses |
| BlogData.BlogStore.SavePost | blog-data.js:250-294 | the answer and the new post list are those of `SavePostResult`: a matched post is merged in place; an unmatched post without slug or title fails and changes nothing; otherwise a new post with a unique slug is appended; categories and tags are unchanged |
| BlogData.BlogStore.DeletePost | blog-data.js:297-303 | deleting always answers true and stores the other posts in order, categories and tags unchanged |
| BlogData.BlogStore.UpsertTerm | blog-data.js:306-325 | the answer is that of `SaveTermResult` over the stored posts: an unknown supplied id fails; a known one updates that term in place; no id appends a new term with a fresh id and a slug unique among posts; no slug and no name fails |
| BlogData.BlogStore.SaveCategory | blog-data.js:306-325 | the answer is `SaveTermResult` over the stored posts and categories with "Category not found"; a success stores that list as the categories, and a failure changes nothing |
| BlogData.BlogStore.SaveTag | blog-data.js:328-347 | the answer is `SaveTermResult` over the stored posts and tags with "Tag not found"; a success stores that list as the tags, and a failure changes nothing |
| Slug.GenerateSlugIsSlug | blog-data.js:139-146 | every generated slug consists of lower-case letters, digits and single inner hyphens, with no hyphen at either end |
| Slug.GenerateSlugFixesSlugs | scripts/import-wordpress-xml.js:288-295 | a string that is already a slug is its own slug |
| Slug.GenerateSlugIdempotent | blog-data.js:139-146 | slugging a slug changes nothing |
| Slug.KeepSlugChars | blog-data.js:143 | only word characters, whitespace and hyphens survive the first replacement |
| Slug.CollapseSeparators | blog-data.js:144 | after collapsing runs of whitespace, `_` and `-`, no two hyphens are adjacent and every character is a slug character |
| Slug.StripHyphens | blog-data.js:145 | the result is a slice of the input with no hyphen at either end |
| Sorting.InsertionSort | blog-data.js:379-383 | the sorted list is ordered by the given total preorder and is a permutation of the input |
| Text.TrimEmptyIffAllSpace | admin-auth.js:77-78 | a string trims to empty exactly when it is all whitespace |
| Text.TrimIdempotent | admin-auth.js:77-78 | trimming twice is trimming once |
| Text.SplitWsJoin | blog-data.js:133 | splitting single-space-joined words on whitespace gives back the words |
| Text.NatToStringInjective | blog-data.js:155 | different counters print differently |
| Text.DecimalValueOfNatToString | admin-auth.js:50 | reading a written decimal numeral gives back the number |
| Text.NonEmptyIsFilter | scripts/import-wp-rest.js:402 | dropping empty strings is the filter on `Boolean`, so the kept strings keep their order |
| Seqs.FilterOrder | blog-data.js:299 | a filter keeps the order of its input and holds each kept element as often as the input does |
| Seqs.FilterAppend | blog-data.js:299 | filtering a list extended by one element extends the filtered list by that element exactly when it is kept |
| Seqs.MapFilterMembers | scripts/import-wordpress-xml.js:459-468 | the mapped, filtered list holds exactly the images of the kept elements |
| ImportJson.SlugSet | scripts/import-json-to-localstorage.js:24-25 | the set holds exactly the slugs of the existing terms |
| ImportJson.NewCount | scripts/import-json-to-localstorage.js:27-33 | the number of items saved is at most the number of items |
| ImportJson.RepeatedNewSlugCountsTwice | scripts/import-json-to-localstorage.js:24-33 | a new slug listed twice is saved twice, because the slug set is not refreshed in the loop |
| ImportJson.SlugMap | scripts/import-json-to-localstorage.js:49-60 | every slug of the store's terms is a key of the map |
| ImportJson.SlugMapLastWins | scripts/import-json-to-localstorage.js:49-60 | for a slug listed more than once, the map gives the id of its last term |
| ImportJson.KnownIds | scripts/import-json-to-localstorage.js:75-79 | the tag ids are exactly the ids of the known slugs; unknown slugs are dropped, and when all are known the ids come in slug order |
| ImportJson.KnownIdsInOrder | scripts/import-json-to-localstorage.js:75-79 | the tag ids are the map of the known slugs, in slug order with unknown slugs dropped |
| ImportJson.Resolve | scripts/import-json-to-localstorage.js:69-79 | only `category_id` and `tags` change: a truthy category slug sets the id, or `null` when unknown; a tag-slug array replaces the tags |
| ImportJson.LegacyIds | scripts/import-json-to-localstorage.js:64-65 | the set holds exactly the non-empty legacy ids of the stored posts |
| ImportJson.TermsImported | scripts/import-json-to-localstorage.js:24-46 | the term loop saves each new item in turn and stops at the first failure; without one, the count is the number of new items |
| ImportJson.TermsImportedStep | scripts/import-json-to-localstorage.js:27-33 | one more item leaves a failed or known item as it was, and otherwise adds the saved term list and one to the count, or records the failure |
| ImportJson.TermsFailureSticks | scripts/import-json-to-localstorage.js:27-33 | after a failure the remaining items change nothing |
| ImportJson.FirstUnknownIdFails | scripts/import-json-to-localstorage.js:27-33 | a new first item with an unknown id fails with the not-found message |
| ImportJson.NewTermsAppended | scripts/import-json-to-localstorage.js:27-33 | items without ids that have a slug or a name never fail, and append one term per new item after the old list |
| ImportJson.SaveTermOf | scripts/import-json-to-localstorage.js:29 | saving one category or tag gives `SaveTermResult` on the stored list, stores the new list on success, and leaves the posts and the other list alone |
| ImportJson.ImportTermAt | scripts/import-json-to-localstorage.js:27-33 | one iteration of the term loop takes the store from the state after the first items to the state after one more |
| ImportJson.ImportTerms | scripts/import-json-to-localstorage.js:24-46 | the stored list becomes the terms the loop saves, the answer is their count or the first failure, and the posts and the other taxonomy are unchanged; on success the count is the number of new items; a new first item with an unknown id fails with "not found" |
| ImportJson.ImportOnePost | scripts/import-json-to-localstorage.js:67-97 | the post list becomes `SavePostResult` of the resolved post; the post counts as updated exactly when its legacy id was known and it was saved; a titled post is never failed, and a failure is always the missing-title error |
| ImportJson.PostStep | scripts/import-json-to-localstorage.js:67-97 | one post adds one to exactly one count; a titled post adds no error and counts as updated exactly when its legacy id was known |
| ImportJson.PostsImported | scripts/import-json-to-localstorage.js:67-97 | every post is counted exactly once; updates and errors are bounded by the known-legacy-id and untitled posts; every error is the missing-title error |
| ImportJson.PostsImportedStep | scripts/import-json-to-localstorage.js:67-97 | the post loop is the post step applied to each post in turn |
| ImportJson.TitledPostsAllSaved | scripts/import-json-to-localstorage.js:67-97 | when every post has a slug or a title there are no errors, and the updated count is exactly the number of known legacy ids |
| ImportJson.ImportPostAt | scripts/import-json-to-localstorage.js:67-97 | one iteration of the post loop takes the store and the counts from the state after the first posts to the state after one more |
| ImportJson.ImportPosts | scripts/import-json-to-localstorage.js:67-97 | the stored posts and the counts become those of the post loop over the file; every post is counted exactly once; updates and errors are bounded by the known-legacy-id and untitled posts |
| ImportJson.ImportResult | scripts/import-json-to-localstorage.js:8-114 | a failed import leaves the posts alone; the stats count the new categories and tags and account for every post |
| ImportJson.ImportResultOk | scripts/import-json-to-localstorage.js:22-97 | without a term failure the import is the category loop, then the tag loop, then the post loop over the maps of the new lists |
| ImportJson.UnknownFirstCategoryFails | scripts/import-json-to-localstorage.js:27-33 | a new first category with an unknown id ends the import with "Category not found", tags and posts untouched |
| ImportJson.TitledImportHasNoErrors | scripts/import-json-to-localstorage.js:67-97 | when every post has a slug or a title, a successful import has no errors and counts the known legacy ids as updates and the rest as imports |
| ImportJson.ImportFromJson | scripts/import-json-to-localstorage.js:8-114 | the answer and the stored posts, categories and tags are those of `ImportResult`; reading the posts starts the store's load; a failed import leaves the posts alone; the stats count the new categories and tags and account for every post |
| ConvertWp.Capitalize | scripts/convert-wp-import-to-blog-posts.js:22 | only the first letter is upper-cased; the rest of the word is kept |
| ConvertWp.SlugToNameCharwise | scripts/convert-wp-import-to-blog-posts.js:18-24 | the name replaces every hyphen by a space and capitalises the first character of every piece |
| ConvertWp.SlugToNameNonEmpty | scripts/convert-wp-import-to-blog-posts.js:18-24 | a non-empty slug gives a non-empty name of the same length |
| ConvertWp.ItemTerm | scripts/convert-wp-import-to-blog-posts.js:34-38 | a term has the slug as id and slug, and the item's name or, when empty, the slug's name |
| ConvertWp.UniqueItems | scripts/convert-wp-import-to-blog-posts.js:28-39 | the unique terms have distinct slugs, come from the items, and cover every non-empty item slug |
| ConvertWp.UniqueItemsKeepsFirst | scripts/convert-wp-import-to-blog-posts.js:31-33 | the first item with a given slug is the one kept |
| ConvertWp.PermutationKeepsDistinctSlugs | scripts/convert-wp-import-to-blog-posts.js:41 | reordering terms keeps their slugs distinct |
| ConvertWp.ByNameIsPreorder | scripts/convert-wp-import-to-blog-posts.js:41 | ordering by name is a total preorder |
| ConvertWp.CreateUniqueItems | scripts/convert-wp-import-to-blog-posts.js:27-42 | the result is the unique terms, sorted by name, with distinct slugs |
| ConvertWp.ExtractCategories | scripts/convert-wp-import-to-blog-posts.js:59-68 | the extracted items have exactly the posts' category slugs, each named after its slug |
| ConvertWp.ExtractTagsOf | scripts/convert-wp-import-to-blog-posts.js:72-79 | one post's tag slugs are added to the seen set, each item named after its slug |
| ConvertWp.ExtractTags | scripts/convert-wp-import-to-blog-posts.js:59-81 | the extracted items have exactly the posts' tag slugs, each named after its slug |
| ConvertWp.UniqueTerms | scripts/convert-wp-import-to-blog-posts.js:84-85 | the terms are well formed and have exactly the items' slugs |
| ConvertWp.ConvertWpImport | scripts/convert-wp-import-to-blog-posts.js:45-105 | an input without posts fails with its message; otherwise the posts are copied and the category and tag lists are well formed with exactly the posts' slugs |
| Html.TagsToSpaces | scripts/import-wp-rest.js:251 | no tag is left; text without `>` is unchanged |
| Html.TagsToSpacesIdempotent | scripts/import-wp-rest.js:251 | removing tags twice is removing them once |
| Html.CollapseWsIsSingleSpaced | scripts/import-wp-rest.js:252 | after collapsing, whitespace runs are single spaces |
| Html.CollapseWsIdempotent | scripts/import-wp-rest.js:252 | collapsing twice is collapsing once |
| Html.ReplaceAll | scripts/import-wp-rest.js:251-256 | text without the pattern is unchanged, and a replacement no longer than the pattern never lengthens the text |
| Html.NoAmpersandDecodesToItself | scripts/import-wp-rest.js:251-256 | text without `&` is unchanged by entity decoding |
| Html.DecodeIsNotSinglePass | scripts/import-wp-rest.js:251-256 | `&amp;lt;` decodes to `<`, because `&amp;` is replaced before `&lt;` |
| Html.PlainText | scripts/import-wordpress-xml.js:232 | the plain text is no longer than the HTML and has no whitespace at either end |
| Html.StripHtml | scripts/import-wp-rest.js:248-260 | empty HTML gives empty text; the text is no longer than the HTML and has no whitespace at either end |
| Html.StripHtmlOfPlainWords | scripts/import-wp-rest.js:248-260 | plain words joined by single spaces come back unchanged from both strippers |
| Html.CutPointUnique | scripts/import-wordpress-xml.js:236-240 | the excerpt's cut point is unique |
| Html.Truncate | scripts/import-wordpress-xml.js:234-240 | short text is kept; long text is cut at the last space within the limit (or at the limit) and ends in `...` |
| Html.EscapeRegex | scripts/import-wordpress-xml.js:221-223 | escaping adds one backslash per special character and leaves text without special characters unchanged |
| Html.UnescapeEscape | scripts/import-wordpress-xml.js:221-223 | escaping loses nothing: unescaping recovers the text |
| Html.FindFrom | scripts/import-wordpress-xml.js:167-178 | a match found after a position ends after it and captures a value the pattern accepts |
| Html.Matches | scripts/import-wordpress-xml.js:167-178 | every value matched is one the pattern accepts |
| Html.ScanMatches | scripts/import-wordpress-xml.js:167-178 | the scanning loop collects exactly the successive matches |
| Html.AddAll | scripts/import-wordpress-xml.js:168-180 | adding to a set in insertion order gives the duplicate-free list of all values seen |
| Html.ReplaceEach | scripts/import-wordpress-xml.js:193-209 | when every URL is local or stored under its own name, the HTML is unchanged |
| Html.ReplaceOne | scripts/import-wordpress-xml.js:195-205 | a local URL, a URL stored under its own name, or a URL absent from the HTML leaves the HTML unchanged |
| Html.ReplaceUrls | scripts/import-wordpress-xml.js:186-216 | the loop rewrites the HTML as the per-URL replacements in order, and requests storage exactly for the non-local URLs |
| WpExport.MinutesFor | scripts/import-wordpress-xml.js:300-305 | the minutes are at least one and cover the word count in 200-word blocks; up to 200 words take one minute |
| WordPressXml.MapStatus | scripts/import-wordpress-xml.js:246-259 | the status is `published`, `draft` or `scheduled`: `published` exactly for `publish`, `scheduled` exactly for `future` |
| WordPressXml.GenerateExcerpt | scripts/import-wordpress-xml.js:228-241 | empty content gives an empty excerpt; short plain text is kept; long text is cut at the cut point with `...`; never more than the limit plus 3 |
| WordPressXml.CalculateReadingTime | scripts/import-wordpress-xml.js:300-305 | empty content reads in 5 minutes; any content in at least one |
| WordPressXml.ReadingTimeOfPlainWords | scripts/import-wordpress-xml.js:300-305 | plain words read at 200 per minute, rounded up; 220 words take 2 minutes |
| WordPressXml.ImageUrls | scripts/import-wordpress-xml.js:164-181 | the URLs are distinct, non-empty, and exactly those of `img src` and image links |
| WordPressXml.ExtractImageUrls | scripts/import-wordpress-xml.js:164-181 | the method computes the image URL list |
| WordPressXml.ReplaceImageUrls | scripts/import-wordpress-xml.js:186-216 | every extracted URL is replaced in turn, and storage is requested exactly for the non-local ones |
| WordPressXml.DryRunKeepsContent | scripts/import-wordpress-xml.js:186-216 | when storage answers every URL with itself, as in a dry run, the content is unchanged |
| WordPressXml.OrNull | scripts/import-wordpress-xml.js:474-475 | an empty or missing value becomes `null`; any other value is kept |
| WordPressXml.EitherOrNull | scripts/import-wordpress-xml.js:474-475 | the first non-empty of two values, else `null` |
| WordPressXml.LastMeta | scripts/import-wordpress-xml.js:419-427 | a meta key absent from the item gives nothing; otherwise the value of its last entry |
| WordPressXml.AttachmentsOf | scripts/import-wordpress-xml.js:348-371 | exactly the ids of attachment items with a URL are recorded |
| WordPressXml.AttachmentOfLastItem | scripts/import-wordpress-xml.js:348-371 | for an id seen more than once, the last attachment wins |
| WordPressXml.Upsert | scripts/import-wordpress-xml.js:374-385 | recording a term keeps slugs distinct and adds its slug |
| WordPressXml.TaxonomyOf | scripts/import-wordpress-xml.js:374-385 | the recorded terms have distinct slugs: exactly the nicenames of the domain's entries whose slug and name are both non-empty |
| WordPressXml.TaxonomyLastWins | scripts/import-wordpress-xml.js:374-385 | each recorded term carries the name of its slug's last occurrence |
| WordPressXml.RecordTaxons | scripts/import-wordpress-xml.js:374-385 | the taxonomy loop extends the recorded categories and tags by its terms |
| WordPressXml.FirstPass | scripts/import-wordpress-xml.js:345-386 | the first pass records the attachments, the categories and the tags of the channel |
| WordPressXml.SlugsIn | scripts/import-wordpress-xml.js:459-468 | the slugs are the non-empty nicenames of the domain's entries, in document order and with repeats kept, the first one first |
| WordPressXml.Title | scripts/import-wordpress-xml.js:407 | a post always has a title (`Untitled` when missing) |
| WordPressXml.FeaturedImage | scripts/import-wordpress-xml.js:430-446 | there is never an alt text without a featured image |
| WordPressXml.PrimaryCategory | scripts/import-wordpress-xml.js:459-471 | the category slug is the first non-empty category nicename, and nothing exactly when there is none |
| WordPressXml.BuiltPost | scripts/import-wordpress-xml.js:406-501 | the post record's status, publication date, category, tags, slug, title, legacy id, content, excerpt and reading time follow the item |
| WordPressXml.PostsOf | scripts/import-wordpress-xml.js:397-504 | every post produced is built from an item of type `post` |
| WordPressXml.PostsOfCount | scripts/import-wordpress-xml.js:397-404 | one post is produced for every item of type `post`, and none for other items |
| WordPressXml.SecondPass | scripts/import-wordpress-xml.js:397-504 | the second pass loop produces the posts of the channel |
| WordPressXml.ProcessExport | scripts/import-wordpress-xml.js:331-511 | a missing channel fails with its message; otherwise the result holds the channel's posts, categories and tags |
| WpRest.GenerateExcerpt | scripts/import-wp-rest.js:265-276 | empty content gives an empty excerpt; short stripped text is kept; long text is cut at the cut point with `...`; never more than the limit plus 3 |
| WpRest.CalculateReadingTime | scripts/import-wp-rest.js:281-286 | empty content reads in 5 minutes; any content in at least one |
| WpRest.ReadingTimeOfPlainWords | scripts/import-wp-rest.js:281-286 | plain words read at 200 per minute, rounded up; 220 words take 2 minutes |
| WpRest.FirstToken | scripts/import-wp-rest.js:184 | a `srcset` candidate's URL is its first whitespace-free run |
| WpRest.FirstTokenOfSplit | scripts/import-wp-rest.js:184 | taking the first run is the first piece of a whitespace split |
| WpRest.Candidates | scripts/import-wp-rest.js:184-187 | every URL taken from a `srcset` is non-empty and without whitespace |
| WpRest.ImageUrls | scripts/import-wp-rest.js:168-191 | empty HTML has no URLs; the URLs are distinct, non-empty, and exactly those of `img src` and `srcset` candidates |
| WpRest.AddSrcsets | scripts/import-wp-rest.js:180-188 | adding every candidate of every `srcset` gives the duplicate-free list of all values seen |
| WpRest.ExtractImageUrls | scripts/import-wp-rest.js:168-191 | the method computes the image URL list |
| WpRest.FirstImage | scripts/import-wp-rest.js:291-305 | the first image is an extracted URL that is not a `data:` URI, and nothing exactly when every URL is one |
| WpRest.GetFirstImageFromContent | scripts/import-wp-rest.js:291-305 | the loop returns the first non-`data:` image |
| WpRest.ReplaceImageUrls | scripts/import-wp-rest.js:196-236 | every extracted URL is replaced in turn, `srcset` occurrences included, and storage is requested exactly for the non-local ones |
| WpRest.DryRunKeepsContent | scripts/import-wp-rest.js:196-236 | when storage answers every URL with itself, the content is unchanged |
| WpRest.InfoOf | scripts/import-wp-rest.js:315-319 | the image info is the media URL, and has no alt text exactly when both alt fields are empty |
| WpRest.GetFeaturedImage | scripts/import-wp-rest.js:310-342 | embedded media with a URL wins; otherwise usable fetched media for a non-zero id is the answer; otherwise no image |
| WpRest.RenderedText | scripts/import-wp-rest.js:349-352 | a missing field gives the fallback, a non-empty rendered text itself, and an object with an empty rendered text no text at all |
| WpRest.ResolveImage | scripts/import-wp-rest.js:358-372 | the featured image is resolved with the first-content-image fallback |
| WpRest.ProcessPost | scripts/import-wp-rest.js:347-427 | the method gives the post record of a REST post, or the error of a text field that is not text |
| WpRest.PostOfFails | scripts/import-wp-rest.js:349-352 | processing throws, with the `replace` type error, exactly when the title, excerpt or content is an object with an empty rendered text |
| WpRest.BuiltPost | scripts/import-wp-rest.js:347-427 | a built record is assembled from the rendered texts: "Untitled" for a missing title, `""` for a missing excerpt or content |
| WpRest.Assembled | scripts/import-wp-rest.js:347-424 | the record is published and dated; its category is the first category slug; its tags are the non-empty tag slugs in order; its image falls back to the first content image; the excerpt is bounded; the reading time is at least one; the meta fields are `null`; a dry run keeps the content |
| WpRest.FetchFrom | scripts/import-wp-rest.js:432-485 | paging only appends pages in order and, with a limit, never returns more than the limit |
| WpRest.Fetched | scripts/import-wp-rest.js:432-485 | the fetched posts are a prefix of all pages' posts, at most the limit |
| WpRest.FetchAllPosts | scripts/import-wp-rest.js:432-485 | the paging loop computes the fetched posts |
| WpRest.ShortFirstPage | scripts/import-wp-rest.js:470-473 | a first page shorter than 100 posts ends paging with exactly that page |
| WpRest.FailedFirstPage | scripts/import-wp-rest.js:444-455 | a failed, missing or empty first page gives no posts |
| AdminAuth.AfterCheck | admin-auth.js:41-60 | the check removes only unparsable or expired entries and does not change the answer |
| AdminAuth.Session.constructor | admin-auth.js:4 | a fresh session slot is empty |
| AdminAuth.Session.IsAuthenticated | admin-auth.js:41-60 | the answer is true exactly for a parsed, unexpired entry; unparsable and expired entries are removed |
| AdminAuth.Session.SetAuthenticated | admin-auth.js:63-68 | the slot records the login time |
| AdminAuth.Session.ClearAuthentication | admin-auth.js:71-73 | the slot is emptied |
| AdminAuth.LoginLastsEightHours | admin-auth.js:47-53 | a login holds up to exactly eight hours later and not one millisecond more |
| AdminAuth.ExpiryIsFinal | admin-auth.js:50-53 | an expired login stays expired, and checking twice at the same time is checking once |
| AdminAuth.OnlyParsedEntriesAuthenticate | admin-auth.js:42-59 | an empty slot, an empty string or unparsable text never authenticates; an entry whose timestamp is missing, an object or non-numeric text always does |
| AdminAuth.ToNumber | admin-auth.js:50 | the subtraction reads `null` as 0, booleans as 0 and 1, numbers as themselves, text as a number after trimming, and missing values and objects as `NaN` |
| AdminAuth.NumberOfText | admin-auth.js:50 | blank text is 0, a run of digits is its decimal value, a sign may precede it, and other text is `NaN` |
| AdminAuth.NullTimestampExpires | admin-auth.js:47-53 | a `null` timestamp counts as 0, so the entry is accepted only within eight hours of the epoch and removed afterwards |
| AdminAuth.NumericTextTimestamp | admin-auth.js:47-53 | a login time stored as decimal text, padded or not, lasts exactly as the number does |
| AdminAuth.AdminUsername | admin-auth.js:10 | the user name is the configured one, or `admin` when unset, never empty |
| AdminAuth.UnsetPasswordAcceptsBlank | admin-auth.js:76-93 | with nothing configured, exactly the user name `admin` with a blank password is accepted |
| AdminAuth.CredentialsIgnorePadding | admin-auth.js:76-93 | whitespace around either input never changes the verdict |
| Triage.OrEmpty | triage-data-supabase.js:104-120 | a truthy value is kept; anything else becomes `""` |
| Triage.OrNull | triage-data-supabase.js:110-124 | a truthy value is kept; anything else becomes `null` |
| Triage.AsFlag | triage-data-supabase.js:116-118 | the flag is the value's truthiness |
| Triage.MapEntry | triage-data-supabase.js:100-126 | the entry copies the row's identity, status and dates; text columns are strings, optional ids are present or `null`, confirmations are booleans |
| Triage.MapEntryKeepsPresentValues | triage-data-supabase.js:100-126 | every truthy column reaches the entry unchanged, and each confirmation is the truthiness of its column |
| Triage.MapEntryIdempotent | triage-data-supabase.js:100-126 | mapping an entry's own row again gives the same entry |
| Triage.CreateCategoryId | triage-data-supabase.js:213-214 | a truthy supplied id wins; else a non-blank name resolves; else `null` |
| Triage.CreateRow | triage-data-supabase.js:209-238 | no row without a backend or a creator; the row carries the creator, defaults `medium` and `open`, text or `null` columns, boolean confirmations and the category rule |
| Triage.CreatedEntryReadBack | triage-data-supabase.js:209-238 | reading back a created row gives the entry's fields as supplied, with defaults for the missing ones |
| Triage.UpdateCategoryId | triage-data-supabase.js:249-251 | a supplied id other than undefined, `null` and `""` wins; else a non-blank name resolves; else `null` |
| Triage.SetClientColumns | triage-data-supabase.js:253-257 | each client column is set exactly when its key is present; other columns are kept |
| Triage.SetWorkColumns | triage-data-supabase.js:258-262 | each work column is set exactly when its key is present, the deadline as an ISO date or `null`; other columns are kept |
| Triage.SetCategoryAndConfirmations | triage-data-supabase.js:263-266 | the category id is set when a category key is present, and each confirmation flag when its key is present |
| Triage.UpdateRow | triage-data-supabase.js:245-274 | no update without an id or a backend; every column is set exactly when its key is present; `updated_at` is now; a full update writes the create row |
| Triage.FullUpdateMatchesCreate | triage-data-supabase.js:209-251 | when every key is truthy, both category rules agree |
| Triage.CategoryRulesDiffer | triage-data-supabase.js:209-251 | a `false` category id is replaced on create but kept on update |
| Triage.RemoveOrArchive | triage-data-supabase.js:280-307 | delete and archive fail without an id or a backend, and otherwise succeed exactly when the backend call does |
| Triage.AddCategory | triage-data-supabase.js:83-95 | a blank name or a missing backend inserts nothing; the inserted name is trimmed; success exactly when an insert ran without error; a duplicate is a failure |
| Triage.ResolveCategoryId | triage-data-supabase.js:315-327 | a blank name or a missing backend gives nothing; a found id wins; otherwise only an insert, when asked for, gives an id |

## Left out

- Asynchrony: every `async` function is modelled as one atomic step, and `ensureDataLoaded`'s shared in-flight promise as a load-once flag.
- Browser storage, `fetch`, the file system, the XML parser, HTTP requests and `console` output are not modelled. Their results are parameters:
  - the snapshot read by `loadDataFromJSON`;
  - the channel items of the WXR file;
  - the REST pages and the fetched media;
  - the stored-image function `storeImage`, whose download, hashing, caching and retries are not modelled. Its result is inserted literally; `String.replace` would expand a `$&` or `$1` inside a stored URL, and that expansion is not modelled.
- The clock (`Date.now()`, `new Date().toISOString()`), `generateId()`, `toIso` and the XML script's `parseDate` are parameters. Timestamps are natural numbers and dates are opaque strings.
- Text is ASCII. JavaScript's `\s`, `\w`, `toLowerCase`, `toUpperCase` and `trim` are modelled on ASCII characters only. `localeCompare` is an ASCII lexicographic order.
- Regular expressions are modelled by what they do:
  - the tag, whitespace and slug expressions by explicit scans;
  - `escapeRegex` followed by a global replace by a literal replacement of every occurrence (`Html.ReplaceAll`, `Html.UnescapeEscape`);
  - the REST script's `srcset` replacement, with its width group, by a second literal replacement over the same URL.
- Fields missing from a JSON object (`undefined`) are modelled as `""` or `[]` where the code reads them as text or arrays. A post's extra JSON fields that the code never reads are not modelled.
- A category or tag that cannot be read as text makes the JavaScript code throw. Only the missing-title failure of `savePost` and `saveCategory`/`saveTag` (`Err(MissingTitleError)` for a term with neither slug nor name) and the not-found failure of an unknown term id are modelled as errors.
- The import scripts mutate the objects they read (`post.category_id = ...`). The model returns the updated value instead.
- The counters the import scripts print are not modelled. `formatDate`, `downloadJSON`, `requireAuth` and the login form are not modelled either.
- These `triage-data-supabase.js` functions are pure database queries and are not modelled: `getTriageEntries`, `getArchivedTriage`, `getStatus`, `ensureProfile`, `getCurrentUser`, `getTeamMembers`, `getCategories`. The Supabase calls of the modelled functions are reduced to their outcomes: configured or not, success or error, the id found or inserted. `updateTriage`'s `!supabase` check is folded into `configured`.
- `archiveTriage` reads the clock twice, for `archived_at` and `updated_at`. The model uses one time for both.
- A `JSON.parse` of the session slot is modelled by its outcome: blank, unparsable (or `null`), or a value with its `timestamp` as a JSON value. JSON numbers are integers.
- AdminAuth.NumberOfText: reads text as an optionally signed decimal integer. Fractions, exponents, hexadecimal, binary and octal numerals and `Infinity`, which `Number` also reads, are taken as `NaN`. An array timestamp is treated like an object (`NaN`), whereas JavaScript reads `[]` as 0 and `[n]` as n.
- WpRest.FetchAllPosts: a negative `limit` is not modelled (the limit is a natural number, 0 meaning none).
- ImportJson.ImportFromJson: `getAllPosts` starts the store's background load (`BlogData.BlogStore.BeginLoad`) but the load itself is not run during the import. In the browser it completes later and can replace the imported posts with the snapshot's; that race is not modelled.
- WpRest.ProcessPost: on a field that makes `processPost` throw, the model answers the error alone. The featured-media request and the `storeImage` call that the code makes before it reaches `calculateReadingTime` are not modelled. A text field given as a plain string instead of an object is not modelled.
- WpRest.PostOf: the loop of `main` that records a thrown post as a failure and goes on is not modelled; `processPost` is modelled per post.
- Sorting.InsertionSort: the source uses `Array.prototype.sort`. The model states sortedness and permutation, not the order of equal elements.
