/** Slug normalisation and the `-2`, `-3`, ... suffix search, shared by
    `BlogService.slugify`/`ensureUniqueSlug`, the `toSlug` helper of the AI
    service and the copies in the backfill script (the three are the same
    pipeline: NFD, strip diacritics, lower-case, runs of anything outside
    `[a-z0-9]` become one `-`, leading and trailing `-` removed, first 80
    characters kept). */
module Slug {
  import opened Text

  const MaxSlugLength: nat := 80

  predicate IsAlnum(c: char) { 'a' <= c <= 'z' || '0' <= c <= '9' }

  predicate IsSlugChar(c: char) { IsAlnum(c) || c == '-' }

  /** The two ASCII code points that carry the Unicode Diacritic property
      (CIRCUMFLEX ACCENT and GRAVE ACCENT); on ASCII input NFD changes
      nothing and `/\p{Diacritic}+/gu` removes exactly these. */
  predicate IsAsciiDiacritic(c: char) { c == '^' || c == '`' }

  function StripDiacritics(s: string): (r: string)
    ensures |r| <= |s|
    ensures forall i :: 0 <= i < |r| ==> !IsAsciiDiacritic(r[i])
    ensures (forall i :: 0 <= i < |s| ==> !IsAsciiDiacritic(s[i])) ==> r == s
    ensures |s| == 1 && IsAsciiDiacritic(s[0]) ==> r == []
  {
    if s == [] then []
    else if IsAsciiDiacritic(s[0]) then StripDiacritics(s[1..])
    else [s[0]] + StripDiacritics(s[1..])
  }

  /** Stripping works character by character: it distributes over
      concatenation, so with the single-character cases of its contract it
      keeps every other character, in order. */
  lemma {:induction false} StripDiacriticsAppend(a: string, b: string)
    ensures StripDiacritics(a + b) == StripDiacritics(a) + StripDiacritics(b)
    decreases |a|
  {
    if a != [] {
      assert (a + b)[0] == a[0] && (a + b)[1..] == a[1..] + b;
      StripDiacriticsAppend(a[1..], b);
      if IsAsciiDiacritic(a[0]) {
        assert StripDiacritics(a + b) == StripDiacritics(a[1..] + b);
      } else {
        assert StripDiacritics(a + b) == [a[0]] + StripDiacritics(a[1..] + b);
        assert StripDiacritics(a) == [a[0]] + StripDiacritics(a[1..]);
        assert [a[0]] + (StripDiacritics(a[1..]) + StripDiacritics(b))
          == ([a[0]] + StripDiacritics(a[1..])) + StripDiacritics(b);
      }
    } else {
      assert a + b == b;
    }
  }

  /** Drops the leading characters outside `[a-z0-9]`. */
  function SkipSeparators(s: string): (r: string)
    ensures |r| <= |s| && r == s[|s| - |r|..]
    ensures r == [] || IsAlnum(r[0])
    ensures (s == [] || IsAlnum(s[0])) ==> r == s
  {
    if s != [] && !IsAlnum(s[0]) then SkipSeparators(s[1..]) else s
  }

  /** `replace(/[^a-z0-9]+/g, '-')`: each maximal run of characters outside
      `[a-z0-9]` becomes a single `-`. */
  function Collapse(s: string): (r: string)
    ensures r == [] <==> s == []
    ensures r != [] ==> (IsAlnum(r[0]) <==> IsAlnum(s[0]))
    ensures forall i :: 0 <= i < |r| ==> IsSlugChar(r[i])
    ensures NoDoubleDash(r)
    decreases |s|
  {
    if s == [] then []
    else if IsAlnum(s[0]) then [s[0]] + Collapse(s[1..])
    else "-" + Collapse(SkipSeparators(s[1..]))
  }

  /** Runs never straddle a `[a-z0-9]` character, so a string cut right
      after one collapses piece by piece. With `CollapseSep` (a maximal run
      followed by `[a-z0-9]` or by nothing becomes one `-`) and
      `CollapseRun` this pins `Collapse` down on every input, and
      `CollapseKeepsAlnums` states the upshot: the `[a-z0-9]` characters are
      kept, in order. */
  lemma {:induction false} CollapseAppend(a: string, b: string)
    requires a == [] || IsAlnum(a[|a| - 1])
    ensures Collapse(a + b) == Collapse(a) + Collapse(b)
    decreases |a|
  {
    if a != [] {
      assert (a + b)[0] == a[0] && (a + b)[1..] == a[1..] + b;
      if IsAlnum(a[0]) {
        CollapseAppend(a[1..], b);
        assert Collapse(a + b) == [a[0]] + Collapse(a[1..] + b);
        assert Collapse(a) == [a[0]] + Collapse(a[1..]);
        assert [a[0]] + (Collapse(a[1..]) + Collapse(b)) == ([a[0]] + Collapse(a[1..])) + Collapse(b);
      } else {
        var rest := a[1..];
        SkipSeparatorsAppend(rest, b);
        var k := SkipSeparators(rest);
        assert k != [] && k[|k| - 1] == a[|a| - 1];
        CollapseAppend(k, b);
        assert Collapse(a + b) == "-" + Collapse(SkipSeparators(rest + b));
        assert Collapse(a) == "-" + Collapse(k);
        assert "-" + (Collapse(k) + Collapse(b)) == ("-" + Collapse(k)) + Collapse(b);
      }
    } else {
      assert a + b == b;
    }
  }

  /** Skipping separators stops inside a string that ends with
      `[a-z0-9]`. */
  lemma {:induction false} SkipSeparatorsAppend(a: string, b: string)
    requires a != [] && IsAlnum(a[|a| - 1])
    ensures SkipSeparators(a + b) == SkipSeparators(a) + b
    ensures SkipSeparators(a) != [] && SkipSeparators(a)[|SkipSeparators(a)| - 1] == a[|a| - 1]
    decreases |a|
  {
    assert (a + b)[0] == a[0];
    if !IsAlnum(a[0]) {
      assert |a| > 1;
      assert (a + b)[1..] == a[1..] + b;
      SkipSeparatorsAppend(a[1..], b);
    }
  }

  /** A maximal run of characters outside `[a-z0-9]`, that is, one followed
      by a `[a-z0-9]` character or by the end, becomes one `-` and the rest
      collapses on its own. */
  lemma CollapseSep(r: string, b: string)
    requires r != [] && forall i :: 0 <= i < |r| ==> !IsAlnum(r[i])
    requires b == [] || IsAlnum(b[0])
    ensures Collapse(r + b) == "-" + Collapse(b)
  {
    var t := r + b;
    assert t[0] == r[0] && t[1..] == r[1..] + b;
    SkipRunThen(r[1..], b);
    CollapseOfSeparator(t);
  }

  /** The unfolding of `Collapse` at a leading separator. */
  lemma CollapseOfSeparator(t: string)
    requires t != [] && !IsAlnum(t[0])
    ensures Collapse(t) == "-" + Collapse(SkipSeparators(t[1..]))
  {
  }

  /** A non-empty run of characters outside `[a-z0-9]` becomes one `-`; a
      single `[a-z0-9]` character stays. */
  lemma CollapseRun(s: string)
    requires s != [] && forall i :: 0 <= i < |s| ==> !IsAlnum(s[i])
    ensures Collapse(s) == "-"
    ensures forall c :: IsAlnum(c) ==> Collapse([c]) == [c]
  {
    assert s + [] == s;
    CollapseSep(s, []);
  }

  /** Skipping separators passes a whole run and stops where the run ends. */
  lemma {:induction false} SkipRunThen(r: string, b: string)
    requires forall i :: 0 <= i < |r| ==> !IsAlnum(r[i])
    requires b == [] || IsAlnum(b[0])
    ensures SkipSeparators(r + b) == b
    decreases |r|
  {
    if r == [] {
      assert r + b == b;
    } else {
      assert (r + b)[0] == r[0] && (r + b)[1..] == r[1..] + b;
      SkipRunThen(r[1..], b);
    }
  }

  /** The `[a-z0-9]` characters of a string, in order. */
  function Alnums(s: string): (r: string)
    ensures forall i :: 0 <= i < |r| ==> IsAlnum(r[i])
    ensures |r| <= |s|
  {
    if s == [] then []
    else if IsAlnum(s[0]) then [s[0]] + Alnums(s[1..])
    else Alnums(s[1..])
  }

  lemma {:induction false} AlnumsAppend(a: string, b: string)
    ensures Alnums(a + b) == Alnums(a) + Alnums(b)
    decreases |a|
  {
    if a == [] {
      assert a + b == b;
    } else {
      assert (a + b)[0] == a[0] && (a + b)[1..] == a[1..] + b;
      AlnumsAppend(a[1..], b);
      if IsAlnum(a[0]) {
        assert [a[0]] + (Alnums(a[1..]) + Alnums(b)) == ([a[0]] + Alnums(a[1..])) + Alnums(b);
      }
    }
  }

  /** Skipped separators hold no `[a-z0-9]` character. */
  lemma {:induction false} SkipKeepsAlnums(s: string)
    ensures Alnums(SkipSeparators(s)) == Alnums(s)
    decreases |s|
  {
    if s != [] && !IsAlnum(s[0]) {
      SkipKeepsAlnums(s[1..]);
    }
  }

  /** Collapsing keeps every `[a-z0-9]` character, in order: only the runs
      of other characters change. */
  lemma {:induction false} CollapseKeepsAlnums(s: string)
    ensures Alnums(Collapse(s)) == Alnums(s)
    decreases |s|
  {
    if s != [] {
      if IsAlnum(s[0]) {
        var c := Collapse(s[1..]);
        CollapseKeepsAlnums(s[1..]);
        assert ([s[0]] + c)[0] == s[0] && ([s[0]] + c)[1..] == c;
      } else {
        var k := SkipSeparators(s[1..]);
        var c := Collapse(k);
        CollapseKeepsAlnums(k);
        SkipKeepsAlnums(s[1..]);
        assert ("-" + c)[0] == '-' && ("-" + c)[1..] == c;
      }
    }
  }

  predicate NoDoubleDash(s: string) {
    forall i :: 0 <= i < |s| - 1 ==> !(s[i] == '-' && s[i + 1] == '-')
  }

  function DropLeadingDashes(s: string): (r: string)
    ensures |r| <= |s| && r == s[|s| - |r|..]
    ensures r == [] || r[0] != '-'
    ensures (s == [] || s[0] != '-') ==> r == s
  {
    if s != [] && s[0] == '-' then DropLeadingDashes(s[1..]) else s
  }

  function DropTrailingDashes(s: string): (r: string)
    ensures |r| <= |s| && r == s[..|r|]
    ensures r == [] || r[|r| - 1] != '-'
    ensures (s == [] || s[|s| - 1] != '-') ==> r == s
  {
    if s != [] && s[|s| - 1] == '-' then DropTrailingDashes(s[..|s| - 1]) else s
  }

  /** `replace(/^-+|-+$/g, '')`. */
  function TrimDashes(s: string): string {
    DropTrailingDashes(DropLeadingDashes(s))
  }

  function Prefix(s: string, n: nat): (r: string)
    ensures |r| == if |s| < n then |s| else n
    ensures r == s[..|r|]
  {
    if |s| <= n then s else s[..n]
  }

  function Slugify(text: string): string {
    Prefix(TrimDashes(Collapse(ToLower(StripDiacritics(text)))), MaxSlugLength)
  }

  /** What every slug looks like: only `[a-z0-9-]`, no leading `-`, no two
      `-` in a row, at most 80 characters. */
  predicate IsSlugShaped(s: string) {
    && (forall i :: 0 <= i < |s| ==> IsSlugChar(s[i]))
    && (s == [] || s[0] != '-')
    && NoDoubleDash(s)
    && |s| <= MaxSlugLength
  }

  /** A slug shape that also has no trailing `-`. */
  predicate IsCanonicalSlug(s: string) {
    IsSlugShaped(s) && (s == [] || s[|s| - 1] != '-')
  }

  lemma SlugifyShape(text: string)
    ensures IsSlugShaped(Slugify(text))
  {
    var c := Collapse(ToLower(StripDiacritics(text)));
    var l := DropLeadingDashes(c);
    var t := DropTrailingDashes(l);
    assert l == c[|c| - |l|..];
    assert t == l[..|t|];
    var r := Prefix(t, MaxSlugLength);
    assert r == t[..|r|];
    assert forall i :: 0 <= i < |r| ==> r[i] == c[|c| - |l| + i];
  }

  /** Slugify keeps the `[a-z0-9]` characters of the lower-cased,
      diacritic-free title, in order: a prefix of them survives the
      80-character cut, and all of them when the cut does not bite. */
  lemma SlugifyKeepsAlnums(text: string)
    ensures Alnums(Slugify(text)) <= Alnums(ToLower(StripDiacritics(text)))
    ensures |TrimDashes(Collapse(ToLower(StripDiacritics(text))))| <= MaxSlugLength ==>
      Alnums(Slugify(text)) == Alnums(ToLower(StripDiacritics(text)))
  {
    var lower := ToLower(StripDiacritics(text));
    var c := Collapse(lower);
    CollapseKeepsAlnums(lower);
    var l := DropLeadingDashes(c);
    DropLeadingKeepsAlnums(c);
    var t := DropTrailingDashes(l);
    DropTrailingKeepsAlnums(l);
    PrefixKeepsAlnums(t, MaxSlugLength);
  }

  lemma {:induction false} DropLeadingKeepsAlnums(s: string)
    ensures Alnums(DropLeadingDashes(s)) == Alnums(s)
    decreases |s|
  {
    if s != [] && s[0] == '-' {
      DropLeadingKeepsAlnums(s[1..]);
    }
  }

  lemma {:induction false} DropTrailingKeepsAlnums(s: string)
    ensures Alnums(DropTrailingDashes(s)) == Alnums(s)
    decreases |s|
  {
    if s != [] && s[|s| - 1] == '-' {
      var init := s[..|s| - 1];
      DropTrailingKeepsAlnums(init);
      assert s == init + ['-'];
      AlnumsAppend(init, ['-']);
      assert Alnums(['-']) == [];
    }
  }

  /** Cutting a string keeps a prefix of its `[a-z0-9]` characters, and all
      of them when nothing is cut. */
  lemma PrefixKeepsAlnums(s: string, n: nat)
    ensures Alnums(Prefix(s, n)) <= Alnums(s)
    ensures |s| <= n ==> Alnums(Prefix(s, n)) == Alnums(s)
  {
    if n < |s| {
      assert s == s[..n] + s[n..];
      AlnumsOfPrefix(s[..n], s[n..]);
    }
  }

  lemma AlnumsOfPrefix(p: string, q: string)
    ensures Alnums(p) <= Alnums(p + q)
  {
    AlnumsAppend(p, q);
    var a, b := Alnums(p), Alnums(q);
    assert (a + b)[..|a|] == a;
  }

  /** Without the 80-character cut, the result never ends with `-`; only the
      cut can leave one there. */
  lemma SlugifyTrailingDashOnlyFromCut(text: string)
    requires |TrimDashes(Collapse(ToLower(StripDiacritics(text))))| <= MaxSlugLength
    ensures IsCanonicalSlug(Slugify(text))
  {
    SlugifyShape(text);
  }

  /** On a string of slug characters with no double `-`, collapsing changes
      nothing. */
  lemma {:induction false} CollapseOfSlugChars(s: string)
    requires forall i :: 0 <= i < |s| ==> IsSlugChar(s[i])
    requires NoDoubleDash(s)
    ensures Collapse(s) == s
  {
    if s != [] {
      CollapseOfSlugChars(s[1..]);
      if !IsAlnum(s[0]) {
        assert s[0] == '-';
        assert s[1..] == [] || IsAlnum(s[1]);
        assert SkipSeparators(s[1..]) == s[1..];
      }
      assert s == [s[0]] + s[1..];
    }
  }

  /** Slugify accepts a dash-free-ended slug-character string as it is, up to
      the 80-character cut. */
  lemma SlugifyOfSlugChars(s: string)
    requires forall i :: 0 <= i < |s| ==> IsSlugChar(s[i])
    requires NoDoubleDash(s)
    requires s == [] || (s[0] != '-' && s[|s| - 1] != '-')
    ensures Slugify(s) == Prefix(s, MaxSlugLength)
  {
    assert StripDiacritics(s) == s;
    assert forall i :: 0 <= i < |s| ==> LowerChar(s[i]) == s[i];
    assert ToLower(s) == s;
    CollapseOfSlugChars(s);
  }

  /** Canonical slugs are fixed points of Slugify. */
  lemma SlugifyCanonical(s: string)
    requires IsCanonicalSlug(s)
    ensures Slugify(s) == s
  {
    SlugifyOfSlugChars(s);
  }

  /** Drops one trailing `-`, if there is one. */
  function DropOneTrailingDash(s: string): string {
    if s != [] && s[|s| - 1] == '-' then s[..|s| - 1] else s
  }

  /** The pre-cut pipeline leaves a string of slug characters with no double
      `-` unchanged. */
  lemma NormalizeSlugChars(s: string)
    requires forall i :: 0 <= i < |s| ==> IsSlugChar(s[i])
    requires NoDoubleDash(s)
    ensures Collapse(ToLower(StripDiacritics(s))) == s
  {
    assert StripDiacritics(s) == s by {
      assert forall i :: 0 <= i < |s| ==> !IsAsciiDiacritic(s[i]);
    }
    LowerOfSlugChars(s);
    CollapseOfSlugChars(s);
  }

  lemma LowerOfSlugChars(s: string)
    requires forall i :: 0 <= i < |s| ==> IsSlugChar(s[i])
    ensures ToLower(s) == s
  {
    var r := ToLower(s);
    assert |r| == |s|;
    forall i | 0 <= i < |s|
      ensures r[i] == s[i]
    {
      assert IsSlugChar(s[i]);
    }
  }

  /** On an already slug-shaped string, Slugify only drops a trailing `-`. */
  lemma SlugifyOfShaped(s: string)
    requires IsSlugShaped(s)
    ensures Slugify(s) == DropOneTrailingDash(s)
  {
    NormalizeSlugChars(s);
    assert DropLeadingDashes(s) == s;
    if s != [] && s[|s| - 1] == '-' {
      assert |s| >= 2;
      var t := s[..|s| - 1];
      assert t[|t| - 1] == s[|s| - 2];
      assert DropTrailingDashes(s) == DropTrailingDashes(t);
      assert DropTrailingDashes(t) == t;
    }
  }

  /** Slugify is not idempotent: a second pass removes the `-` that the
      80-character cut can leave at the end, and changes nothing else. */
  lemma SlugifyTwice(text: string)
    ensures Slugify(Slugify(text)) == DropOneTrailingDash(Slugify(text))
    ensures IsCanonicalSlug(Slugify(Slugify(text)))
  {
    SlugifyShape(text);
    SlugifyOfShaped(Slugify(text));
    SlugifyShape(Slugify(text));
    var s := Slugify(text);
    if s != [] && s[|s| - 1] == '-' {
      assert |s| >= 2;
      assert s[|s| - 2] != '-';
    }
  }

  function Repeat(c: char, n: nat): (r: string)
    ensures |r| == n && forall i :: 0 <= i < n ==> r[i] == c
  {
    if n == 0 then [] else [c] + Repeat(c, n - 1)
  }

  /** A concrete title on which a second pass changes the slug: 79 letters,
      a separator and one more letter. The first pass keeps
      `aaa...a-` (80 characters), the second drops the `-`. */
  lemma SlugifyNotIdempotent()
    ensures var x := Repeat('a', 79) + "-b";
      Slugify(x) == Repeat('a', 79) + "-" && Slugify(Slugify(x)) == Repeat('a', 79)
  {
    var x := Repeat('a', 79) + "-b";
    assert forall i :: 0 <= i < |x| ==> IsSlugChar(x[i]);
    assert NoDoubleDash(x);
    SlugifyOfSlugChars(x);
    assert Prefix(x, MaxSlugLength) == Repeat('a', 79) + "-";
    SlugifyTwice(x);
  }

  // ------------------------------------------------ minimal free suffix

  /** The candidate `${clean}-${i}`. */
  function Candidate(clean: string, i: nat): (r: string)
    ensures StartsWith(r, clean)
  {
    clean + "-" + NatToString(i)
  }

  lemma CandidateInjective(clean: string, i: nat, j: nat)
    requires Candidate(clean, i) == Candidate(clean, j)
    ensures i == j
  {
    var a := Candidate(clean, i);
    var b := Candidate(clean, j);
    assert NatToString(i) == a[|clean| + 1..];
    assert NatToString(j) == b[|clean| + 1..];
    PrintedInjective(i, j);
  }

  /** The candidates already probed before suffix `i`. */
  ghost function Probed(clean: string, i: nat): set<string> {
    set j | 2 <= j < i :: Candidate(clean, j)
  }

  /** Probing one more taken candidate shrinks the not-yet-probed part of the
      observed set. */
  lemma ProbeStep(clean: string, existing: set<string>, i: nat)
    requires i >= 2
    requires Candidate(clean, i) in existing
    ensures |existing - Probed(clean, i + 1)| < |existing - Probed(clean, i)|
  {
    var c := Candidate(clean, i);
    assert c !in Probed(clean, i) by {
      if c in Probed(clean, i) {
        var j :| 2 <= j < i && Candidate(clean, j) == c;
        CandidateInjective(clean, i, j);
      }
    }
    forall x | x in Probed(clean, i + 1)
      ensures x in Probed(clean, i) + {c}
    {
      var j :| 2 <= j < i + 1 && Candidate(clean, j) == x;
      if j < i {
        assert x in Probed(clean, i);
      }
    }
    forall x | x in Probed(clean, i)
      ensures x in Probed(clean, i + 1)
    {
      var j :| 2 <= j < i && Candidate(clean, j) == x;
    }
    assert c in Probed(clean, i + 1);
    assert Probed(clean, i + 1) == Probed(clean, i) + {c};
    assert existing - Probed(clean, i + 1) == (existing - Probed(clean, i)) - {c};
  }

  /** The least suffix at or above `i` whose candidate is not observed. */
  function FirstFree(clean: string, existing: set<string>, i: nat): (k: nat)
    requires i >= 2
    requires forall j :: 2 <= j < i ==> Candidate(clean, j) in existing
    ensures k >= i
    ensures Candidate(clean, k) !in existing
    ensures forall j :: 2 <= j < k ==> Candidate(clean, j) in existing
    decreases |existing - Probed(clean, i)|
  {
    if Candidate(clean, i) !in existing then i
    else
      ProbeStep(clean, existing, i);
      FirstFree(clean, existing, i + 1)
  }

  /** `ensureUniqueSlug` after the query: `clean` itself when it is free,
      otherwise the candidate with the least free suffix from 2 up. */
  function UniqueSlug(clean: string, existing: set<string>): string {
    if clean !in existing then clean else Candidate(clean, FirstFree(clean, existing, 2))
  }

  /** The allocated slug is fresh, starts with `clean`, is `clean` exactly
      when `clean` is free, and otherwise carries the least free suffix. */
  lemma UniqueSlugSpec(clean: string, existing: set<string>)
    ensures UniqueSlug(clean, existing) !in existing
    ensures StartsWith(UniqueSlug(clean, existing), clean)
    ensures clean !in existing ==> UniqueSlug(clean, existing) == clean
    ensures clean in existing ==>
      exists k :: k >= 2 && UniqueSlug(clean, existing) == Candidate(clean, k)
        && (forall j :: 2 <= j < k ==> Candidate(clean, j) in existing)
  {
    if clean in existing {
      var k := FirstFree(clean, existing, 2);
      assert UniqueSlug(clean, existing) == Candidate(clean, k);
    }
  }

  /** Only observed slugs that start with `clean` can influence the result,
      so a query restricted to that prefix is enough. */
  lemma UniqueSlugPrefixSufficient(clean: string, existing: set<string>, other: set<string>)
    requires forall s :: s in other ==> !StartsWith(s, clean)
    ensures UniqueSlug(clean, existing + other) == UniqueSlug(clean, existing)
  {
    assert clean in existing + other <==> clean in existing by {
      assert StartsWith(clean, clean);
    }
    if clean in existing {
      var k := FirstFree(clean, existing, 2);
      var k' := FirstFree(clean, existing + other, 2);
      forall j | 2 <= j
        ensures Candidate(clean, j) in existing + other <==> Candidate(clean, j) in existing
      {
      }
      assert k == k';
    }
  }

  /** The probe loop of `ensureUniqueSlug`: `clean` when it is not observed,
      otherwise `i := 2` and `i++` while `${clean}-${i}` is observed. */
  method Probe(clean: string, existing: set<string>) returns (slug: string)
    ensures slug == UniqueSlug(clean, existing)
    ensures slug !in existing && StartsWith(slug, clean)
  {
    if clean !in existing {
      return clean;
    }
    var i := 2;
    while Candidate(clean, i) in existing
      invariant i >= 2
      invariant forall j :: 2 <= j < i ==> Candidate(clean, j) in existing
      invariant FirstFree(clean, existing, i) == FirstFree(clean, existing, 2)
      decreases |existing - Probed(clean, i)|
    {
      ProbeStep(clean, existing, i);
      i := i + 1;
    }
    slug := Candidate(clean, i);
  }
}
