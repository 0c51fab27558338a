/** The text helpers the two WordPress import scripts share: tag removal,
    whitespace collapsing, entity decoding, excerpt truncation, regex
    escaping and the image-URL regexes, written as character-level scans
    over ASCII (the `i` flag is ASCII case folding). */
module Html {
  import opened Common
  import opened Text
  import opened Seqs

  // ---------------------------------------------------------------------
  // `.replace(/<[^>]*>/g, ' ')`

  /** No `<` has a `>` anywhere after it: the tag regex finds nothing. */
  predicate NoTag(s: string) {
    forall i, j :: 0 <= i < j < |s| && s[i] == '<' ==> s[j] != '>'
  }

  /** Each `<` that has a `>` after it starts a tag running to the first
      such `>`; the tag becomes one space. */
  function TagsToSpaces(s: string): (r: string)
    ensures |r| <= |s|
    ensures '>' !in s ==> r == s
    ensures NoTag(r)
    decreases |s|
  {
    if s == [] then []
    else if s[0] == '<' && '>' in s[1..] then
      var k := IndexOf(s[1..], '>');
      " " + TagsToSpaces(s[k + 2..])
    else
      assert '>' !in s ==> '>' !in s[1..];
      [s[0]] + TagsToSpaces(s[1..])
  }

  /** A text without tags is left alone, so removing tags is idempotent. */
  lemma {:induction false} TagsToSpacesNoTag(s: string)
    requires NoTag(s)
    ensures TagsToSpaces(s) == s
  {
    if s != [] {
      assert NoTag(s[1..]);
      TagsToSpacesNoTag(s[1..]);
      if s[0] == '<' {
        assert '>' !in s[1..];
      }
    }
  }

  lemma TagsToSpacesIdempotent(s: string)
    ensures TagsToSpaces(TagsToSpaces(s)) == TagsToSpaces(s)
  {
    TagsToSpacesNoTag(TagsToSpaces(s));
  }

  // ---------------------------------------------------------------------
  // `.replace(/\s+/g, ' ')`

  /** Whitespace occurs only as single `' '` characters. */
  predicate SingleSpaced(s: string) {
    (forall i :: 0 <= i < |s| && IsSpace(s[i]) ==> s[i] == ' ')
    && forall i :: 0 <= i < |s| - 1 ==> !(IsSpace(s[i]) && IsSpace(s[i + 1]))
  }

  /** Each maximal run of whitespace becomes one space. */
  function CollapseWs(s: string): (r: string)
    ensures |r| <= |s|
    ensures r == [] <==> s == []
    ensures r != [] ==> (IsSpace(r[0]) <==> IsSpace(s[0]))
    decreases |s|
  {
    if s == [] then []
    else if IsSpace(s[0]) then " " + CollapseWs(DropSpaces(s))
    else [s[0]] + CollapseWs(s[1..])
  }

  /** A character in front of a single-spaced text keeps it single-spaced
      when it is a plain space before a non-space, or not a space. */
  lemma SingleSpacedCons(c: char, t: string)
    requires SingleSpaced(t)
    requires IsSpace(c) ==> c == ' ' && (t != [] ==> !IsSpace(t[0]))
    ensures SingleSpaced([c] + t)
  {
    var r := [c] + t;
    forall i | 0 <= i < |r| && IsSpace(r[i]) ensures r[i] == ' ' {
      if i > 0 {
        assert r[i] == t[i - 1];
      }
    }
    forall i | 0 <= i < |r| - 1 ensures !(IsSpace(r[i]) && IsSpace(r[i + 1])) {
      assert r[i + 1] == t[i];
      if i > 0 {
        assert r[i] == t[i - 1];
      }
    }
  }

  /** Collapsing leaves whitespace only as single spaces. */
  lemma {:induction false} CollapseWsIsSingleSpaced(s: string)
    ensures SingleSpaced(CollapseWs(s))
    decreases |s|
  {
    if s != [] {
      if IsSpace(s[0]) {
        CollapseWsIsSingleSpaced(DropSpaces(s));
        SingleSpacedCons(' ', CollapseWs(DropSpaces(s)));
      } else {
        CollapseWsIsSingleSpaced(s[1..]);
        SingleSpacedCons(s[0], CollapseWs(s[1..]));
      }
    }
  }

  /** A single-spaced text is left alone, so collapsing is idempotent. */
  lemma {:induction false} CollapseWsSingleSpaced(s: string)
    requires SingleSpaced(s)
    ensures CollapseWs(s) == s
  {
    if s != [] {
      var rest := s[1..];
      assert SingleSpaced(rest) by {
        forall i | 0 <= i < |rest| && IsSpace(rest[i]) ensures rest[i] == ' ' {
          assert rest[i] == s[i + 1];
        }
        forall i | 0 <= i < |rest| - 1 ensures !(IsSpace(rest[i]) && IsSpace(rest[i + 1])) {
          assert rest[i] == s[i + 1] && rest[i + 1] == s[i + 2];
        }
      }
      CollapseWsSingleSpaced(rest);
      if IsSpace(s[0]) {
        assert s[0] == ' ';
        assert rest != [] ==> !IsSpace(rest[0]) by {
          if rest != [] {
            assert rest[0] == s[1];
          }
        }
        assert DropSpaces(rest) == rest;
        assert DropSpaces(s) == rest;
        assert CollapseWs(s) == " " + CollapseWs(rest);
      } else {
        assert CollapseWs(s) == [s[0]] + CollapseWs(rest);
      }
      assert [s[0]] + rest == s;
    }
  }

  lemma CollapseWsIdempotent(s: string)
    ensures CollapseWs(CollapseWs(s)) == CollapseWs(s)
  {
    CollapseWsIsSingleSpaced(s);
    CollapseWsSingleSpaced(CollapseWs(s));
  }

  // ---------------------------------------------------------------------
  // `.replace(/literal/g, rep)`

  /** Every occurrence of `pat`, scanning left to right without overlap,
      replaced by `rep`. */
  function ReplaceAll(s: string, pat: string, rep: string): (r: string)
    requires pat != []
    ensures !Contains(s, pat) ==> r == s
    ensures |rep| <= |pat| ==> |r| <= |s|
    decreases |s|
  {
    if s == [] then []
    else if pat <= s then rep + ReplaceAll(s[|pat|..], pat, rep)
    else [s[0]] + ReplaceAll(s[1..], pat, rep)
  }

  lemma {:induction false} NotContainedWithoutFirst(s: string, pat: string)
    requires pat != [] && pat[0] !in s
    ensures !Contains(s, pat)
    decreases |s|
  {
    if s != [] {
      assert !(pat <= s);
      assert pat[0] !in s[1..];
      NotContainedWithoutFirst(s[1..], pat);
    }
  }

  /** The entity replacements, in the order the scripts apply them. */
  function DecodeEntities(s: string): (r: string)
    ensures |r| <= |s|
  {
    var t1 := ReplaceAll(s, "&nbsp;", " ");
    var t2 := ReplaceAll(t1, "&amp;", "&");
    var t3 := ReplaceAll(t2, "&lt;", "<");
    var t4 := ReplaceAll(t3, "&gt;", ">");
    var t5 := ReplaceAll(t4, "&quot;", "\"");
    ReplaceAll(t5, "&#39;", "'")
  }

  /** Text without `&` has no entity to decode. */
  lemma NoAmpersandDecodesToItself(s: string)
    requires '&' !in s
    ensures DecodeEntities(s) == s
  {
    NotContainedWithoutFirst(s, "&nbsp;");
    NotContainedWithoutFirst(s, "&amp;");
    NotContainedWithoutFirst(s, "&lt;");
    NotContainedWithoutFirst(s, "&gt;");
    NotContainedWithoutFirst(s, "&quot;");
    NotContainedWithoutFirst(s, "&#39;");
  }

  lemma DecodeStepNbsp()
    ensures ReplaceAll("&amp;lt;", "&nbsp;", " ") == "&amp;lt;"
  {
    var s := "&amp;lt;";
    assert s[1] != "&nbsp;"[1];
    assert s[1..] == "amp;lt;";
    NotContainedWithoutFirst(s[1..], "&nbsp;");
  }

  lemma DecodeStepAmp()
    ensures ReplaceAll("&amp;lt;", "&amp;", "&") == "&lt;"
  {
    var s := "&amp;lt;";
    assert "&amp;" <= s;
    assert s[5..] == "lt;";
    NotContainedWithoutFirst("lt;", "&amp;");
  }

  lemma DecodeStepLt()
    ensures ReplaceAll("&lt;", "&lt;", "<") == "<"
  {
    assert "&lt;" <= "&lt;";
    assert "&lt;"[4..] == "";
  }

  /** `&amp;` is decoded before `&lt;`, so an escaped entity is decoded twice. */
  lemma DecodeIsNotSinglePass()
    ensures DecodeEntities("&amp;lt;") == "<"
  {
    DecodeStepNbsp();
    DecodeStepAmp();
    DecodeStepLt();
    LastThreeKeepPlain("<");
  }

  /** The `&gt;`, `&quot;` and `&#39;` replacements leave text without `&`
      alone. */
  lemma LastThreeKeepPlain(t: string)
    requires '&' !in t
    ensures ReplaceAll(ReplaceAll(ReplaceAll(t, "&gt;", ">"), "&quot;", "\""), "&#39;", "'") == t
  {
    NotContainedWithoutFirst(t, "&gt;");
    NotContainedWithoutFirst(t, "&quot;");
    NotContainedWithoutFirst(t, "&#39;");
  }

  // ---------------------------------------------------------------------
  // stripHtml and the excerpt text

  /** The text of an excerpt in scripts/import-wordpress-xml.js: tags to
      spaces, whitespace collapsed, trimmed. */
  function PlainText(html: string): (r: string)
    ensures |r| <= |html|
    ensures r != [] ==> !IsSpace(r[0]) && !IsSpace(r[|r| - 1])
  {
    Trim(CollapseWs(TagsToSpaces(html)))
  }

  /** `stripHtml` of scripts/import-wp-rest.js: as `PlainText`, with the
      entities decoded between the collapsing and the trimming. */
  function StripHtml(html: string): (r: string)
    ensures html == "" ==> r == ""
    ensures |r| <= |html|
    ensures r != [] ==> !IsSpace(r[0]) && !IsSpace(r[|r| - 1])
  {
    if html == "" then ""
    else
      var collapsed := CollapseWs(TagsToSpaces(html));
      assert |collapsed| <= |html|;
      var decoded := DecodeEntities(collapsed);
      assert |decoded| <= |html|;
      Trim(decoded)
  }

  /** A word without whitespace, tag brackets or entities. */
  predicate PlainWord(w: string) {
    IsWord(w) && '<' !in w && '>' !in w && '&' !in w
  }

  lemma {:induction false} JoinAvoids(words: seq<string>, c: char)
    requires c != ' '
    requires forall i :: 0 <= i < |words| ==> c !in words[i]
    ensures c !in Join(words, " ")
  {
    if |words| > 1 {
      JoinAvoids(words[1..], c);
    }
  }

  /** A non-space character in front passes through collapsing. */
  lemma CollapseWsCons(c: char, s: string)
    requires !IsSpace(c)
    ensures CollapseWs([c] + s) == [c] + CollapseWs(s)
  {
    var cs := [c] + s;
    assert cs[0] == c && cs[1..] == s;
  }

  lemma {:induction false} CollapseWsWordPrefix(w: string, t: string)
    requires forall i :: 0 <= i < |w| ==> !IsSpace(w[i])
    ensures CollapseWs(w + t) == w + CollapseWs(t)
    decreases |w|
  {
    if w == [] {
      assert w + t == t;
    } else {
      ConsAppend(w, t);
      ConsAppend(w, CollapseWs(t));
      CollapseWsCons(w[0], w[1..] + t);
      CollapseWsWordPrefix(w[1..], t);
    }
  }

  lemma {:induction false} CollapseWsJoin(words: seq<string>)
    requires forall i :: 0 <= i < |words| ==> IsWord(words[i])
    ensures CollapseWs(Join(words, " ")) == Join(words, " ")
  {
    if |words| == 1 {
      CollapseWsWordPrefix(words[0], "");
      assert words[0] + "" == words[0];
    } else if |words| > 1 {
      var rest := Join(words[1..], " ");
      CollapseWsJoin(words[1..]);
      JoinStartsWithFirst(words[1..]);
      assert words[0] + " " + rest == words[0] + (" " + rest);
      CollapseWsWordPrefix(words[0], " " + rest);
      var sp := " " + rest;
      assert sp[0] == ' ' && sp[1..] == rest;
      assert DropSpaces(rest) == rest;
      assert DropSpaces(sp) == rest;
      assert CollapseWs(sp) == " " + CollapseWs(rest);
    }
  }

  lemma {:induction false} JoinEdges(words: seq<string>)
    requires |words| >= 1
    requires forall i :: 0 <= i < |words| ==> IsWord(words[i])
    ensures var j := Join(words, " "); j != [] && !IsSpace(j[0]) && !IsSpace(j[|j| - 1])
  {
    JoinStartsWithFirst(words);
    if |words| > 1 {
      JoinEdges(words[1..]);
    }
  }

  /** Plain words separated by single spaces come out of `stripHtml`
      unchanged. */
  lemma StripHtmlOfPlainWords(words: seq<string>)
    requires |words| >= 1
    requires forall i :: 0 <= i < |words| ==> PlainWord(words[i])
    ensures StripHtml(Join(words, " ")) == Join(words, " ")
    ensures PlainText(Join(words, " ")) == Join(words, " ")
  {
    var j := Join(words, " ");
    JoinAvoids(words, '>');
    JoinAvoids(words, '&');
    CollapseWsJoin(words);
    NoAmpersandDecodesToItself(j);
    JoinEdges(words);
    TrimNoEdgeSpace(j);
  }

  // ---------------------------------------------------------------------
  // The truncation in `generateExcerpt`

  /** `k` is where `generateExcerpt` cuts a text longer than `maxLength`: at
      the last space of the first `maxLength` characters if that is past
      index 0, and at `maxLength` otherwise. */
  predicate CutPoint(text: string, maxLength: nat, k: nat) {
    maxLength < |text| && k <= maxLength
    && ((0 < k < maxLength && text[k] == ' ' && forall j :: k < j < maxLength ==> text[j] != ' ')
        || (k == maxLength && forall j :: 0 < j < maxLength ==> text[j] != ' '))
  }

  lemma CutPointUnique(text: string, maxLength: nat, k1: nat, k2: nat)
    requires CutPoint(text, maxLength, k1) && CutPoint(text, maxLength, k2)
    ensures k1 == k2
  {
  }

  /** The text itself if it fits, else its cut prefix followed by `...`. */
  function Truncate(text: string, maxLength: nat): (r: string)
    ensures |text| <= maxLength ==> r == text
    ensures |text| > maxLength ==> exists k: nat :: CutPoint(text, maxLength, k) && r == text[..k] + "..."
    ensures |r| <= maxLength + 3
  {
    if |text| <= maxLength then text
    else
      var truncated := text[..maxLength];
      var lastSpace := LastIndexOf(truncated, ' ');
      var k := if lastSpace > 0 then lastSpace else maxLength;
      assert CutPoint(text, maxLength, k);
      text[..k] + "..."
  }

  // ---------------------------------------------------------------------
  // `escapeRegex`

  /** The characters `/[.*+?^${}()|[\]\\]/` matches. */
  predicate IsRegexSpecial(c: char) {
    c in ".*+?^${}()|[]\\"
  }

  function SpecialCount(s: string): nat {
    if s == [] then 0 else (if IsRegexSpecial(s[0]) then 1 else 0) + SpecialCount(s[1..])
  }

  /** A backslash before each special character, nothing else changed. */
  function EscapeRegex(s: string): (r: string)
    ensures |r| == |s| + SpecialCount(s)
    ensures SpecialCount(s) == 0 ==> r == s
  {
    if s == [] then []
    else (if IsRegexSpecial(s[0]) then ['\\', s[0]] else [s[0]]) + EscapeRegex(s[1..])
  }

  /** Reading an escaped pattern as a literal: `\x` stands for `x`. */
  function UnescapeRegex(e: string): (r: string)
    ensures |r| <= |e|
  {
    if e == [] then []
    else if e[0] == '\\' && |e| >= 2 then [e[1]] + UnescapeRegex(e[2..])
    else [e[0]] + UnescapeRegex(e[1..])
  }

  /** Removing the inserted backslashes restores the input. */
  lemma {:induction false} UnescapeEscape(s: string)
    ensures UnescapeRegex(EscapeRegex(s)) == s
  {
    if s != [] {
      var rest := EscapeRegex(s[1..]);
      UnescapeEscape(s[1..]);
      if IsRegexSpecial(s[0]) {
        assert (['\\', s[0]] + rest)[2..] == rest;
      } else {
        assert s[0] != '\\';
        assert ([s[0]] + rest)[1..] == rest;
      }
      assert [s[0]] + s[1..] == s;
    }
  }

  // ---------------------------------------------------------------------
  // The image-URL regexes, scanned

  /** `/<img[^>]+src=["']([^"']+)["'][^>]*>/gi`,
      `/<a[^>]+href=["']([^"']+\.(jpg|jpeg|png|gif|webp|svg))["'][^>]*>/gi` and
      `/srcset=["']([^"']+)["']/gi`. */
  datatype Pattern = ImgSrc | ImageLink | Srcset

  /** A match: the captured value and the index after the match, where the
      next `exec` resumes. */
  datatype Match = Match(value: string, end: nat)

  /** `s[i..]` starts with the lower-case literal `lit`, ignoring ASCII case. */
  predicate LitAt(s: string, i: nat, lit: string) {
    i + |lit| <= |s| && Lower(s[i..i + |lit|]) == lit
  }

  predicate IsQuote(c: char) { c == '"' || c == '\'' }
  predicate IsGt(c: char) { c == '>' }

  /** The first index from `i` on whose character satisfies `p`, or `|s|`. */
  function Next(s: string, i: nat, p: char -> bool): (j: nat)
    requires i <= |s|
    ensures i <= j <= |s|
    ensures j < |s| ==> p(s[j])
    ensures forall k :: i <= k < j ==> !p(s[k])
    decreases |s| - i
  {
    if i == |s| || p(s[i]) then i else Next(s, i + 1, p)
  }

  /** `["']([^"']+)["']` at `v`: the index of the closing quote. */
  function QuotedAt(s: string, v: nat): (r: Option<nat>)
    ensures r.Some? ==> v + 1 < r.value < |s| && IsQuote(s[v]) && IsQuote(s[r.value])
    ensures r.Some? ==> forall k :: v < k < r.value ==> !IsQuote(s[k])
  {
    if v < |s| && IsQuote(s[v]) then
      var q := Next(s, v + 1, IsQuote);
      if v + 1 < q < |s| then Some(q) else None
    else None
  }

  /** `\.(jpg|jpeg|png|gif|webp|svg)` at the end of a value, with at least
      one character before the dot. */
  predicate EndsWithExt(v: string, ext: string) {
    |v| >= |ext| + 2 && Lower(v[|v| - |ext| - 1..]) == "." + ext
  }

  predicate HasImageExtension(v: string) {
    EndsWithExt(v, "jpg") || EndsWithExt(v, "jpeg") || EndsWithExt(v, "png")
    || EndsWithExt(v, "gif") || EndsWithExt(v, "webp") || EndsWithExt(v, "svg")
  }

  function AttrName(pat: Pattern): string {
    match pat
    case ImgSrc => "src="
    case ImageLink => "href="
    case Srcset => "srcset="
  }

  function TagOpen(pat: Pattern): string {
    if pat == ImgSrc then "<img" else "<a"
  }

  predicate Accepts(pat: Pattern, v: string) {
    pat == ImageLink ==> HasImageExtension(v)
  }

  /** Shape every captured value has. */
  predicate Captured(pat: Pattern, v: string) {
    v != [] && (forall k :: 0 <= k < |v| ==> !IsQuote(v[k])) && Accepts(pat, v)
  }

  /** The attribute part of a pattern at `p`: name, quoted value and, for the
      two tag patterns, the rest of the tag up to its first `>`. */
  function AttrAt(s: string, p: nat, pat: Pattern): (r: Option<Match>)
    ensures r.Some? ==> p < r.value.end <= |s| && Captured(pat, r.value.value)
  {
    var name := AttrName(pat);
    if !LitAt(s, p, name) then None
    else
      match QuotedAt(s, p + |name|)
      case None => None
      case Some(q) =>
        var v := s[p + |name| + 1..q];
        if !Accepts(pat, v) then None
        else if pat == Srcset then Some(Match(v, q + 1))
        else
          var g := Next(s, q + 1, IsGt);
          if g < |s| then Some(Match(v, g + 1)) else None
  }

  /** The greedy `[^>]+` before the attribute: the last attribute position
      in `[lo, hi)` that matches. */
  function LastAttr(s: string, lo: nat, hi: nat, pat: Pattern): (r: Option<Match>)
    requires hi <= |s|
    ensures r.Some? ==> lo < r.value.end <= |s| && Captured(pat, r.value.value)
    decreases hi
  {
    if hi <= lo then None
    else
      var here := AttrAt(s, hi - 1, pat);
      if here.Some? then here else LastAttr(s, lo, hi - 1, pat)
  }

  /** The pattern matched at position `i`. */
  function MatchAt(s: string, i: nat, pat: Pattern): (r: Option<Match>)
    ensures r.Some? ==> i < r.value.end <= |s| && Captured(pat, r.value.value)
  {
    if pat == Srcset then AttrAt(s, i, pat)
    else if !LitAt(s, i, TagOpen(pat)) then None
    else
      var t := i + |TagOpen(pat)|;
      LastAttr(s, t + 1, Next(s, t, IsGt), pat)
  }

  /** `re.exec(s)` with `re.lastIndex == from`: the leftmost match at or
      after `from`. */
  function FindFrom(s: string, from: nat, pat: Pattern): (r: Option<Match>)
    ensures r.Some? ==> from < r.value.end <= |s| && Captured(pat, r.value.value)
    decreases |s| - from
  {
    if from >= |s| then None
    else
      var here := MatchAt(s, from, pat);
      if here.Some? then here else FindFrom(s, from + 1, pat)
  }

  /** The captured values of all successive matches from `from` on. */
  function Matches(s: string, from: nat, pat: Pattern): (r: seq<string>)
    ensures forall k :: 0 <= k < |r| ==> Captured(pat, r[k])
    decreases |s| - from
  {
    match FindFrom(s, from, pat)
    case None => []
    case Some(m) => [m.value] + Matches(s, m.end, pat)
  }

  /** `while ((match = re.exec(html)) !== null)`: the captured values in
      order. */
  method ScanMatches(html: string, pat: Pattern) returns (values: seq<string>)
    ensures values == Matches(html, 0, pat)
  {
    values := [];
    var pos := 0;
    while true
      invariant pos <= |html|
      invariant values + Matches(html, pos, pat) == Matches(html, 0, pat)
      decreases |html| - pos
    {
      var m := FindFrom(html, pos, pat);
      MatchesFrom(html, pos, pat);
      if m.None? {
        EmptyAppend(values);
        break;
      }
      AppendAssoc(values, [m.value.value], Matches(html, m.value.end, pat));
      values := values + [m.value.value];
      pos := m.value.end;
    }
  }

  /** `Matches` by the next match from `from`. */
  lemma MatchesFrom(s: string, from: nat, pat: Pattern)
    ensures FindFrom(s, from, pat).None? ==> Matches(s, from, pat) == []
    ensures FindFrom(s, from, pat).Some? ==>
              Matches(s, from, pat) == [FindFrom(s, from, pat).value.value] + Matches(s, FindFrom(s, from, pat).value.end, pat)
  {
  }

  /** No match in an empty text. */
  lemma MatchesOfEmpty(pat: Pattern)
    ensures Matches("", 0, pat) == []
  {
  }

  /** Adding `xs` to an insertion-ordered set holding the distinct elements
      of `done`. */
  method AddAll(acc: seq<string>, ghost done: seq<string>, xs: seq<string>) returns (r: seq<string>)
    requires acc == Dedup(done)
    ensures r == Dedup(done + xs)
  {
    r := acc;
    AppendPrefixEnds(done, xs);
    for i := 0 to |xs|
      invariant r == Dedup(done + xs[..i])
    {
      AppendPrefixStep(done, xs, i);
      DedupSnoc(done + xs[..i], xs[i]);
      if xs[i] !in r {
        r := r + [xs[i]];
      }
    }
  }

  /** `startsWith('data:') || startsWith('/') || startsWith('./')`: a URL
      `replaceImageUrls` leaves alone. */
  predicate IsLocalUrl(u: string) {
    "data:" <= u || "/" <= u || "./" <= u
  }

  predicate NotLocal(u: string) { !IsLocalUrl(u) }

  /** The content after `replaceImageUrls` has handled `urls` in order: a
      URL that is not local and that the store moved (`store(u) != u`) has
      every occurrence replaced by its stored URL; `srcsetPass` repeats the
      replacement, as the second, srcset-aware `replace` of
      scripts/import-wp-rest.js does (its optional size group is put back
      unchanged, so it replaces the URL alone). */
  function ReplaceEach(html: string, urls: seq<string>, store: string -> string, srcsetPass: bool): (r: string)
    requires forall k :: 0 <= k < |urls| ==> urls[k] != []
    ensures (forall k :: 0 <= k < |urls| ==> IsLocalUrl(urls[k]) || store(urls[k]) == urls[k]) ==> r == html
  {
    if urls == [] then html
    else
      var prev := ReplaceEach(html, urls[..|urls| - 1], store, srcsetPass);
      ReplaceOne(prev, urls[|urls| - 1], store, srcsetPass)
  }

  /** The handling of the one URL `u` in `html`. */
  function ReplaceOne(html: string, u: string, store: string -> string, srcsetPass: bool): (r: string)
    requires u != []
    ensures IsLocalUrl(u) || store(u) == u ==> r == html
    ensures !Contains(html, u) ==> r == html
  {
    if IsLocalUrl(u) || store(u) == u then html
    else
      var once := ReplaceAll(html, u, store(u));
      if srcsetPass then ReplaceAll(once, u, store(u)) else once
  }

  /** One more URL of the list, as the loop handles it. */
  lemma ReplaceEachStep(html: string, urls: seq<string>, i: nat, store: string -> string, srcsetPass: bool)
    requires forall k :: 0 <= k < |urls| ==> urls[k] != []
    requires i < |urls|
    ensures ReplaceEach(html, urls[..i + 1], store, srcsetPass) == ReplaceOne(ReplaceEach(html, urls[..i], store, srcsetPass), urls[i], store, srcsetPass)
  {
    var v := urls[..i + 1];
    assert v[..|v| - 1] == urls[..i];
  }

  /** The loop of `replaceImageUrls` over the extracted URLs, with the
      download behind `store` (a failed download answers the URL itself).
      `requested` lists the URLs handed to the store: never a local one. */
  method ReplaceUrls(html: string, urls: seq<string>, store: string -> string, srcsetPass: bool)
    returns (r: string, requested: seq<string>)
    requires forall k :: 0 <= k < |urls| ==> urls[k] != []
    ensures r == ReplaceEach(html, urls, store, srcsetPass)
    ensures requested == Filter(urls, NotLocal)
    ensures forall u :: u in requested ==> !IsLocalUrl(u)
  {
    r, requested := html, [];
    FilterEmpty(NotLocal);
    for i := 0 to |urls|
      invariant r == ReplaceEach(html, urls[..i], store, srcsetPass)
      invariant requested == Filter(urls[..i], NotLocal)
    {
      var u := urls[i];
      ReplaceEachStep(html, urls, i, store, srcsetPass);
      FilterPrefixStep(urls, i, NotLocal);
      if IsLocalUrl(u) {
        continue;
      }
      requested := requested + [u];
      var stored := store(u);
      if stored != u {
        r := ReplaceAll(r, u, stored);
        if srcsetPass {
          r := ReplaceAll(r, u, stored);
        }
      }
    }
    AppendPrefixEnds([], urls);
  }

  /** Joining two lists of non-empty URLs gives one. */
  lemma {:induction false} NoEmptyConcat(a: seq<string>, b: seq<string>)
    requires forall k :: 0 <= k < |a| ==> a[k] != []
    requires forall k :: 0 <= k < |b| ==> b[k] != []
    ensures forall k :: 0 <= k < |a + b| ==> (a + b)[k] != []
  {
    forall k | 0 <= k < |a + b| ensures (a + b)[k] != [] {
      if k < |a| {
        assert (a + b)[k] == a[k];
      } else {
        assert (a + b)[k] == b[k - |a|];
      }
    }
  }

  /** Removing duplicates keeps every URL non-empty. */
  lemma {:induction false} NoEmptyDedup(s: seq<string>)
    requires forall k :: 0 <= k < |s| ==> s[k] != []
    ensures forall k :: 0 <= k < |Dedup(s)| ==> Dedup(s)[k] != []
  {
    var r := Dedup(s);
    forall k | 0 <= k < |r| ensures r[k] != [] {
      assert r[k] in s;
      var j :| 0 <= j < |s| && s[j] == r[k];
    }
  }
}
