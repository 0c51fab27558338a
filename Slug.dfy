/** URL slugs: `generateSlug` from blog-data.js, repeated verbatim in
    scripts/import-wordpress-xml.js.

    The source is a chain of five string operations:
      lower-case, trim, drop every character outside `[\w\s-]`,
      replace each run of `[\s_-]` by one `-`, strip leading and trailing `-`.
    Each step is one function below; the lemmas prove the shape of the
    result and that the chain is idempotent. */
module Slug {
  import opened Text
  import opened Seqs

  /** The characters `[\w\s-]` that `replace(/[^\w\s-]/g, '')` keeps. */
  predicate KeptChar(c: char) { IsWordChar(c) || IsSpace(c) || c == '-' }

  /** The characters `[\s_-]` that are merged into one hyphen. */
  predicate IsSeparator(c: char) { IsSpace(c) || c == '_' || c == '-' }

  /** The characters a finished slug is made of: `[a-z0-9-]`. */
  predicate SlugChar(c: char) { IsLower(c) || IsDigit(c) || c == '-' }

  predicate NoUpper(s: string) { forall i :: 0 <= i < |s| ==> !IsUpper(s[i]) }

  /** What is left after lower-casing and filtering: `[a-z0-9_-]` and whitespace. */
  predicate LowerKeptChars(s: string) {
    forall i :: 0 <= i < |s| ==> IsLower(s[i]) || IsDigit(s[i]) || IsSeparator(s[i])
  }

  predicate NoDoubleHyphen(s: string) {
    forall i :: 0 <= i < |s| - 1 ==> !(s[i] == '-' && s[i + 1] == '-')
  }

  /** What `generateSlug` promises about its output. */
  predicate IsSlug(s: string) {
    (forall i :: 0 <= i < |s| ==> SlugChar(s[i]))
    && (s != [] ==> s[0] != '-' && s[|s| - 1] != '-')
    && NoDoubleHyphen(s)
  }

  /** `replace(/[^\w\s-]/g, '')`. */
  function KeepSlugChars(s: string): (r: string)
    ensures forall i :: 0 <= i < |r| ==> KeptChar(r[i])
    ensures NoUpper(s) ==> LowerKeptChars(r)
  {
    if s == [] then []
    else if KeptChar(s[0]) then [s[0]] + KeepSlugChars(s[1..])
    else KeepSlugChars(s[1..])
  }

  /** Drops the run of separators at the front of `s`. */
  function DropSeparators(s: string): (r: string)
    ensures |r| <= |s|
    ensures r == s[|s| - |r|..]
    ensures r != [] ==> !IsSeparator(r[0])
    ensures s != [] && IsSeparator(s[0]) ==> |r| < |s|
  {
    if s != [] && IsSeparator(s[0]) then DropSeparators(s[1..]) else s
  }

  /** `replace(/[\s_-]+/g, '-')`: each maximal run of separators becomes one hyphen. */
  function CollapseSeparators(s: string): (r: string)
    ensures LowerKeptChars(s) ==> forall i :: 0 <= i < |r| ==> SlugChar(r[i])
    ensures NoDoubleHyphen(r)
    ensures s != [] && !IsSeparator(s[0]) ==> r != [] && r[0] == s[0]
    ensures s == [] ==> r == []
    decreases |s|
  {
    if s == [] then []
    else if IsSeparator(s[0]) then
      var d := DropSeparators(s);
      var rest := CollapseSeparators(d);
      assert LowerKeptChars(s) ==> LowerKeptChars(d) by {
        if LowerKeptChars(s) {
          forall i | 0 <= i < |d| ensures IsLower(d[i]) || IsDigit(d[i]) || IsSeparator(d[i]) {
            assert d[i] == s[|s| - |d| + i];
          }
        }
      }
      "-" + rest
    else
      var rest := CollapseSeparators(s[1..]);
      [s[0]] + rest
  }

  function TrimHyphensStart(s: string): (r: string)
    ensures |r| <= |s| && r == s[|s| - |r|..]
    ensures r != [] ==> r[0] != '-'
  {
    if s != [] && s[0] == '-' then TrimHyphensStart(s[1..]) else s
  }

  function TrimHyphensEnd(s: string): (r: string)
    ensures |r| <= |s| && r == s[..|r|]
    ensures r != [] ==> r[|r| - 1] != '-'
  {
    if s != [] && s[|s| - 1] == '-' then TrimHyphensEnd(s[..|s| - 1]) else s
  }

  /** `replace(/^-+|-+$/g, '')`. */
  function StripHyphens(s: string): (r: string)
    ensures r != [] ==> r[0] != '-' && r[|r| - 1] != '-'
    ensures exists a, b :: 0 <= a <= b <= |s| && r == s[a..b]
  {
    var t := TrimHyphensStart(s);
    var r := TrimHyphensEnd(t);
    assert r == s[|s| - |t|..|s| - |t| + |r|];
    r
  }

  /** `generateSlug(title)` (blog-data.js:139-146, scripts/import-wordpress-xml.js:288-295). */
  function GenerateSlug(title: string): string {
    StripHyphens(CollapseSeparators(KeepSlugChars(Trim(Lower(title)))))
  }

  /** A slice of a string with the slug character set and no double hyphen keeps both. */
  lemma {:induction false} SliceKeepsSlugShape(s: string, a: int, b: int)
    requires 0 <= a <= b <= |s|
    requires forall i :: 0 <= i < |s| ==> SlugChar(s[i])
    requires NoDoubleHyphen(s)
    ensures forall i :: 0 <= i < b - a ==> SlugChar(s[a..b][i])
    ensures NoDoubleHyphen(s[a..b])
  {
    var r := s[a..b];
    forall i | 0 <= i < |r| - 1 ensures !(r[i] == '-' && r[i + 1] == '-') {
      assert r[i] == s[a + i] && r[i + 1] == s[a + i + 1];
    }
  }

  /** The output of `generateSlug` uses only `[a-z0-9-]`, has no leading or
      trailing hyphen and never two hyphens in a row. */
  lemma GenerateSlugIsSlug(title: string)
    ensures IsSlug(GenerateSlug(title))
  {
    var lowered := Lower(title);
    TrimKeepsNoUpper(lowered);
    var collapsed := CollapseSeparators(KeepSlugChars(Trim(lowered)));
    StripKeepsSlugShape(collapsed);
  }

  /** Stripping the hyphens at both ends of a string with the slug
      character set and no double hyphen leaves a slug. */
  lemma StripKeepsSlugShape(s: string)
    requires forall i :: 0 <= i < |s| ==> SlugChar(s[i])
    requires NoDoubleHyphen(s)
    ensures IsSlug(StripHyphens(s))
  {
    var r := StripHyphens(s);
    var a, b :| 0 <= a <= b <= |s| && r == s[a..b];
    SliceKeepsSlugShape(s, a, b);
  }

  lemma {:induction false} TrimKeepsNoUpper(s: string)
    requires NoUpper(s)
    ensures NoUpper(Trim(s))
  {
    var t := TrimStart(s);
    var r := TrimEnd(t);
    forall i | 0 <= i < |r| ensures !IsUpper(r[i]) {
      assert r[i] == t[i] == s[|s| - |t| + i];
    }
  }

  // ---------------------------------------------------------------------
  // Idempotence: every step leaves a slug as it is.

  lemma {:induction false} LowerOfSlugChars(s: string)
    requires forall i :: 0 <= i < |s| ==> SlugChar(s[i])
    ensures Lower(s) == s
  {
  }

  lemma {:induction false} KeepOfSlugChars(s: string)
    requires forall i :: 0 <= i < |s| ==> SlugChar(s[i])
    ensures KeepSlugChars(s) == s
  {
    if s != [] {
      KeepOfSlugChars(s[1..]);
      assert [s[0]] + s[1..] == s;
    }
  }

  /** Collapsing leaves alone a string whose only separator is `-` and which
      has no two hyphens in a row. */
  lemma {:induction false} CollapseOfSlugChars(s: string)
    requires forall i :: 0 <= i < |s| ==> SlugChar(s[i])
    requires NoDoubleHyphen(s)
    ensures CollapseSeparators(s) == s
    decreases |s|
  {
    if s != [] {
      TailKeepsSlugShape(s);
      CollapseOfSlugChars(s[1..]);
      if s[0] == '-' {
        DropSeparatorsAfterHyphen(s);
        CollapseAtSeparator(s);
      } else {
        CollapseAtOther(s);
      }
      HeadTail(s);
    }
  }

  lemma TailKeepsSlugShape(s: string)
    requires s != []
    requires forall i :: 0 <= i < |s| ==> SlugChar(s[i])
    requires NoDoubleHyphen(s)
    ensures forall i :: 0 <= i < |s| - 1 ==> SlugChar(s[1..][i])
    ensures NoDoubleHyphen(s[1..])
  {
    var t := s[1..];
    forall i | 0 <= i < |t| - 1 ensures !(t[i] == '-' && t[i + 1] == '-') {
      assert t[i] == s[i + 1] && t[i + 1] == s[i + 2];
    }
  }

  lemma CollapseAtSeparator(s: string)
    requires s != [] && IsSeparator(s[0])
    ensures CollapseSeparators(s) == "-" + CollapseSeparators(DropSeparators(s))
  {
  }

  lemma CollapseAtOther(s: string)
    requires s != [] && !IsSeparator(s[0])
    ensures CollapseSeparators(s) == [s[0]] + CollapseSeparators(s[1..])
  {
  }

  lemma {:induction false} DropSeparatorsAfterHyphen(s: string)
    requires s != [] && s[0] == '-'
    requires forall i :: 0 <= i < |s| ==> SlugChar(s[i])
    requires NoDoubleHyphen(s)
    ensures DropSeparators(s) == s[1..]
  {
    var t := s[1..];
    assert DropSeparators(s) == DropSeparators(t);
    if t != [] {
      assert t[0] == s[1] && s[1] != '-' && SlugChar(s[1]);
      assert !IsSeparator(t[0]);
    }
  }

  /** A slug is a fixed point of `generateSlug`. */
  lemma GenerateSlugFixesSlugs(s: string)
    requires IsSlug(s)
    ensures GenerateSlug(s) == s
  {
    LowerOfSlugChars(s);
    assert Trim(s) == s by {
      assert s != [] ==> !IsSpace(s[0]) && !IsSpace(s[|s| - 1]);
      TrimNoEdgeSpace(s);
    }
    KeepOfSlugChars(s);
    CollapseOfSlugChars(s);
    assert TrimHyphensStart(s) == s;
    assert TrimHyphensEnd(s) == s;
  }

  /** `generateSlug(generateSlug(t)) == generateSlug(t)`. */
  lemma GenerateSlugIdempotent(title: string)
    ensures GenerateSlug(GenerateSlug(title)) == GenerateSlug(title)
  {
    GenerateSlugIsSlug(title);
    GenerateSlugFixesSlugs(GenerateSlug(title));
  }
}
