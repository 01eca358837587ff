/** Brand-name normalisation and the fuzzy brand match
    (normalizeBrandName and isBrandMatch in src/lib/openai.js). */
module BrandNames {
  import opened Strings

  /** The corporate-entity words of the suffix pattern, in its order. */
  const CorporateSuffixes: seq<string> :=
    ["inc", "llc", "pvt", "ltd", "limited", "corp", "corporation", "company", "co", "gmbh", "pty"]

  predicate IsLowerLetters(w: string) {
    forall i :: 0 <= i < |w| ==> 'a' <= w[i] <= 'z'
  }

  lemma SuffixWordsShape()
    ensures forall j :: 0 <= j < |CorporateSuffixes| ==>
      |CorporateSuffixes[j]| >= 2 && IsLowerLetters(CorporateSuffixes[j])
    ensures forall j :: 0 <= j < |CorporateSuffixes| ==>
      CorporateSuffixes[j][0] in "ilpcg"
  {
  }

  /** `w` followed by a word boundary (`\b`) sits at the start of `s`. */
  predicate WholeWordAt(s: string, w: string) {
    |w| <= |s| && s[..|w|] == w && (|w| == |s| || !IsWordChar(s[|w|]))
  }

  /** Index of the first alternative of the suffix pattern, from the `k`-th
      on, that matches at the start of `s` as a whole word. */
  function SuffixIndex(s: string, k: nat): (r: Option<nat>)
    requires k <= |CorporateSuffixes|
    ensures r.None? ==> forall j :: k <= j < |CorporateSuffixes| ==> !WholeWordAt(s, CorporateSuffixes[j])
    ensures r.Some? ==> k <= r.value < |CorporateSuffixes| && WholeWordAt(s, CorporateSuffixes[r.value])
    decreases |CorporateSuffixes| - k
  {
    if k == |CorporateSuffixes| then None
    else if WholeWordAt(s, CorporateSuffixes[k]) then Some(k)
    else SuffixIndex(s, k + 1)
  }

  /** Length of the suffix word the pattern removes at the start of `s`
      (0 for none); `\b` must hold before it. Every alternative is made of
      letters and must be followed by `\b`, so at most one of them can
      match at a position and their order does not matter. */
  function SuffixLength(s: string, atBoundary: bool): (n: nat)
    ensures n != 0 ==> atBoundary && n <= |s| && (n == |s| || !IsWordChar(s[n]))
    ensures n != 0 ==> forall i :: 0 <= i < n ==> 'a' <= s[i] <= 'z'
    ensures n != 0 ==> s[0] in "ilpcg" && n >= 2
  {
    if !atBoundary then 0
    else match SuffixIndex(s, 0)
      case None => 0
      case Some(j) =>
        SuffixWordsShape();
        var w := CorporateSuffixes[j];
        assert forall i :: 0 <= i < |w| ==> s[i] == w[i];
        |w|
  }

  /** One step of the scan of the suffix pattern over `s`: the characters
      kept, how many are consumed, and whether `\b` holds before a letter
      right after them. */
  datatype ScanStep = ScanStep(kept: string, consumed: nat, next: bool)

  function SuffixScanStep(s: string, atBoundary: bool): (st: ScanStep)
    requires s != []
    ensures 1 <= st.consumed <= |s|
    ensures st.kept == [] || st.kept == [s[0]]
    ensures st.consumed == |s| ==> st.next == !IsWordChar(s[|s| - 1])
  {
    var n := SuffixLength(s, atBoundary);
    if n == 0 then ScanStep([s[0]], 1, !IsWordChar(s[0]))
    else if n < |s| && s[n] == '.' then ScanStep([], n + 1, true)
    else
      ScanStep([], n, false)
  }

  /** The global replace of `\b(inc|llc|...|pty)\b\.?` by nothing.
      `atBoundary` tells whether the character before `s` in the original
      string is a non-word character (or absent), so that `\b` holds before
      a letter at the start of `s`. */
  function StripSuffixes(s: string, atBoundary: bool): (r: string)
    ensures |r| <= |s|
    decreases |s|
  {
    if s == [] then []
    else
      var st := SuffixScanStep(s, atBoundary);
      st.kept + StripSuffixes(s[st.consumed..], st.next)
  }

  /** Suffix stripping only removes characters. */
  lemma {:induction false} StripSuffixesChars(s: string, atBoundary: bool)
    ensures forall i :: 0 <= i < |StripSuffixes(s, atBoundary)| ==> StripSuffixes(s, atBoundary)[i] in s
    decreases |s|
  {
    if s != [] {
      var st := SuffixScanStep(s, atBoundary);
      StripSuffixesChars(s[st.consumed..], st.next);
    }
  }

  /** The replace of `[^\w\s]` by nothing. */
  function KeepWordAndSpace(s: string): (r: string)
    ensures forall i :: 0 <= i < |r| ==> (IsWordChar(r[i]) || IsSpace(r[i])) && r[i] in s
  {
    if s == [] then []
    else
      var front := KeepWordAndSpace(s[..|s| - 1]);
      var c := s[|s| - 1];
      assert forall i :: 0 <= i < |front| ==> front[i] in s[..|s| - 1];
      if IsWordChar(c) || IsSpace(c) then front + [c] else front
  }

  /** The global replace of `\s+` by `sub`: every maximal run of white space
      becomes one `sub`. */
  function ReplaceSpaceRuns(s: string, sub: char): (r: string)
    ensures s == [] <==> r == []
    ensures r != [] ==> r[0] == (if IsSpace(s[0]) then sub else s[0])
    ensures r != [] ==> r[|r| - 1] == (if IsSpace(s[|s| - 1]) then sub else s[|s| - 1])
    ensures forall i :: 0 <= i < |r| ==> r[i] == sub || (r[i] in s && !IsSpace(r[i]))
    ensures IsSpace(sub) ==> forall i :: 0 <= i < |r| - 1 ==> !(r[i] == sub && r[i + 1] == sub)
    decreases |s|
  {
    if s == [] then []
    else if IsSpace(s[0]) then
      var k := LeadingSpaces(s);
      var rest := ReplaceSpaceRuns(s[k..], sub);
      assert forall i :: 0 <= i < |rest| && rest[i] != sub ==> rest[i] in s[k..];
      assert k == |s| ==> IsSpace(s[|s| - 1]);
      [sub] + rest
    else
      var rest := ReplaceSpaceRuns(s[1..], sub);
      assert forall i :: 0 <= i < |rest| && rest[i] != sub ==> rest[i] in s[1..];
      [s[0]] + rest
  }

  /** normalizeBrandName: "" for the empty name; otherwise lower-case, drop
      whole-word corporate suffixes (with one optional `.` after them),
      drop every character that is neither a word character nor white
      space, trim, and turn each white-space run into one space. */
  function Normalize(name: string): (r: string)
    ensures name == [] ==> r == []
    ensures forall i :: 0 <= i < |r| ==> IsWordChar(r[i]) || r[i] == ' '
    ensures forall i :: 0 <= i < |r| ==> !IsUpper(r[i])
    ensures r == [] || (r[0] != ' ' && r[|r| - 1] != ' ')
    ensures forall i :: 0 <= i < |r| - 1 ==> !(r[i] == ' ' && r[i + 1] == ' ')
  {
    if name == [] then []
    else
      var lower := Lower(name);
      var stripped := StripSuffixes(lower, true);
      StripSuffixesChars(lower, true);
      var kept := KeepWordAndSpace(stripped);
      var trimmed := Trim(kept);
      var r := ReplaceSpaceRuns(trimmed, ' ');
      NormalizeChars(lower, stripped, kept, trimmed, r);
      r
  }

  lemma NormalizeChars(lower: string, stripped: string, kept: string, trimmed: string, r: string)
    requires forall i :: 0 <= i < |lower| ==> !IsUpper(lower[i])
    requires forall i :: 0 <= i < |stripped| ==> stripped[i] in lower
    requires forall i :: 0 <= i < |kept| ==> (IsWordChar(kept[i]) || IsSpace(kept[i])) && kept[i] in stripped
    requires forall i :: 0 <= i < |trimmed| ==> trimmed[i] in kept
    requires forall i :: 0 <= i < |r| ==> r[i] == ' ' || (r[i] in trimmed && !IsSpace(r[i]))
    ensures forall i :: 0 <= i < |r| ==> (IsWordChar(r[i]) || r[i] == ' ') && !IsUpper(r[i])
  {
    forall i | 0 <= i < |r| && r[i] != ' '
      ensures IsWordChar(r[i]) && !IsUpper(r[i])
    {
      var c := r[i];
      var j1 :| 0 <= j1 < |trimmed| && trimmed[j1] == c;
      var j2 :| 0 <= j2 < |kept| && kept[j2] == c;
      var j3 :| 0 <= j3 < |stripped| && stripped[j3] == c;
      var j4 :| 0 <= j4 < |lower| && lower[j4] == c;
    }
  }

  /** isBrandMatch: false when either string is empty, otherwise whether the
      normalised text contains the normalised brand name. */
  predicate IsBrandMatch(text: string, brandName: string) {
    text != [] && brandName != [] && Contains(Normalize(text), Normalize(brandName))
  }

  // ---------------------------------------------------------------------
  // Suffix stripping works piecewise

  /** No match of the suffix pattern can straddle the seam between `a` and `b`. */
  predicate Separable(a: string, b: string) {
    a == [] || b == [] || !IsWordChar(a[|a| - 1]) || (!IsWordChar(b[0]) && b[0] != '.')
  }

  /** Whether `\b` holds before a letter that follows `a`. */
  function BoundaryAfter(a: string, atBoundary: bool): bool {
    if a == [] then atBoundary else !IsWordChar(a[|a| - 1])
  }

  lemma WholeWordConcat(a: string, b: string, w: string)
    requires a != [] && Separable(a, b) && IsLowerLetters(w) && |w| > 0
    ensures WholeWordAt(a + b, w) <==> WholeWordAt(a, w)
  {
    var s := a + b;
    if |w| < |a| {
      assert s[..|w|] == a[..|w|];
      assert s[|w|] == a[|w|];
    } else if |w| == |a| {
      assert s[..|w|] == a;
      assert WholeWordAt(a, w) <==> a == w;
      if a == w {
        assert 'a' <= a[|a| - 1] <= 'z';
        assert b == [] || (!IsWordChar(b[0]) && s[|w|] == b[0]);
      }
    } else {
      SeamChars(a, b, w);
    }
  }

  /** A prefix of `a + b` longer than `a` holds the last character of `a` and the first of `b`. */
  lemma SeamChars(a: string, b: string, w: string)
    requires a != [] && |w| > |a|
    ensures |w| <= |a + b| && (a + b)[..|w|] == w ==> a[|a| - 1] == w[|a| - 1] && b[0] == w[|a|]
  {
    if |w| <= |a + b| && (a + b)[..|w|] == w {
      assert (a + b)[|a| - 1] == w[|a| - 1];
      assert (a + b)[|a|] == w[|a|];
    }
  }

  lemma {:induction false} SuffixIndexConcat(a: string, b: string, k: nat)
    requires a != [] && Separable(a, b) && k <= |CorporateSuffixes|
    ensures SuffixIndex(a + b, k) == SuffixIndex(a, k)
    decreases |CorporateSuffixes| - k
  {
    if k < |CorporateSuffixes| {
      SuffixWordsShape();
      WholeWordConcat(a, b, CorporateSuffixes[k]);
      SuffixIndexConcat(a, b, k + 1);
    }
  }

  lemma ScanStepConcat(a: string, b: string, f: bool)
    requires a != [] && Separable(a, b)
    ensures SuffixScanStep(a + b, f) == SuffixScanStep(a, f)
  {
    SuffixIndexConcat(a, b, 0);
    var n := SuffixLength(a, f);
    if n != 0 {
      if n < |a| {
        assert (a + b)[n] == a[n];
      }
    }
  }

  /** Stripping a concatenation strips each part, provided no match spans the seam. */
  lemma {:induction false} StripConcat(a: string, b: string, f: bool)
    requires Separable(a, b)
    ensures StripSuffixes(a + b, f) == StripSuffixes(a, f) + StripSuffixes(b, BoundaryAfter(a, f))
    decreases |a|
  {
    if a == [] {
      assert a + b == b;
    } else {
      var st := SuffixScanStep(a, f);
      assert Separable(a[st.consumed..], b) by {
        if st.consumed < |a| {
          assert a[st.consumed..][|a| - st.consumed - 1] == a[|a| - 1];
        }
      }
      StripConcat(a[st.consumed..], b, st.next);
      StripConcatStep(a, b, f);
    }
  }

  /** The inductive step of StripConcat: one scan step over `a + b` is one over `a`. */
  lemma StripConcatStep(a: string, b: string, f: bool)
    requires a != [] && Separable(a, b)
    requires var st := SuffixScanStep(a, f);
      StripSuffixes(a[st.consumed..] + b, st.next) ==
      StripSuffixes(a[st.consumed..], st.next) + StripSuffixes(b, BoundaryAfter(a[st.consumed..], st.next))
    ensures StripSuffixes(a + b, f) == StripSuffixes(a, f) + StripSuffixes(b, BoundaryAfter(a, f))
  {
    var st := SuffixScanStep(a, f);
    ScanStepConcat(a, b, f);
    var rest := a[st.consumed..];
    DropConcat(a, b, st.consumed);
    assert BoundaryAfter(rest, st.next) == BoundaryAfter(a, f) by {
      if rest != [] {
        assert rest[|rest| - 1] == a[|a| - 1];
      }
    }
    var x := StripSuffixes(rest, st.next);
    var y := StripSuffixes(b, BoundaryAfter(a, f));
    assert StripSuffixes(a + b, f) == st.kept + (x + y);
    assert StripSuffixes(a, f) == st.kept + x;
    ConcatAssoc(st.kept, x, y);
  }

  /** A suffix word followed by a non-word character (or nothing) is removed in full. */
  lemma SuffixOfWord(w: string, t: string)
    requires w in CorporateSuffixes
    requires t == [] || !IsWordChar(t[0])
    ensures SuffixLength(w + t, true) == |w|
  {
    SuffixWordsShape();
    var s := w + t;
    assert s[..|w|] == w;
    var j :| 0 <= j < |CorporateSuffixes| && CorporateSuffixes[j] == w;
    assert WholeWordAt(s, w) by {
      if t != [] { assert s[|w|] == t[0]; }
    }
  }

  /** Nothing of a suffix word survives stripping, with or without its `.`. */
  lemma StripSuffixWord(w: string)
    requires w in CorporateSuffixes
    ensures StripSuffixes(w, true) == []
    ensures StripSuffixes(w + ".", true) == []
  {
    SuffixOfWord(w, []);
    assert w + [] == w;
    SuffixOfWord(w, ".");
    assert (w + ".")[|w|] == '.';
    assert (w + ".")[|w| + 1..] == [];
  }

  lemma StripSpaceWord(w: string, f: bool)
    requires w in CorporateSuffixes
    ensures StripSuffixes(" " + w, f) == " "
    ensures StripSuffixes(" " + w + ".", f) == " "
  {
    StripSuffixWord(w);
    var s := " " + w;
    assert s[1..] == w;
    assert SuffixLength(s, f) == 0;
    var s' := " " + w + ".";
    assert s'[1..] == w + ".";
    assert SuffixLength(s', f) == 0;
  }

  lemma KeepAppendSpace(s: string)
    ensures KeepWordAndSpace(s + " ") == KeepWordAndSpace(s) + " "
  {
    assert (s + " ")[..|s|] == s;
  }

  /** The steps after suffix stripping ignore one trailing space. */
  lemma CleanupIgnoresTrailingSpace(x: string)
    ensures Trim(KeepWordAndSpace(x + " ")) == Trim(KeepWordAndSpace(x))
  {
    KeepAppendSpace(x);
    TrimDropsTrailingSpace(KeepWordAndSpace(x), ' ');
  }

  /** A whole-word corporate suffix after a space, in any letter case and
      with or without a trailing `.`, does not change the normal form. */
  lemma NormalizeDropsSuffix(a: string, suffix: string)
    requires Lower(suffix) in CorporateSuffixes
    ensures Normalize(a + " " + suffix) == Normalize(a)
    ensures Normalize(a + " " + suffix + ".") == Normalize(a)
  {
    var w := Lower(suffix);
    var la := Lower(a);
    LowerConcat(a, " ");
    LowerConcat(a + " ", suffix);
    LowerConcat(a + " " + suffix, ".");
    assert Lower(" ") == " ";
    assert Lower(".") == ".";
    assert Lower(a + " " + suffix) == la + (" " + w);
    assert Lower(a + " " + suffix + ".") == la + (" " + w + ".");
    StripConcat(la, " " + w, true);
    StripConcat(la, " " + w + ".", true);
    StripSpaceWord(w, BoundaryAfter(la, true));
    var x := StripSuffixes(la, true);
    CleanupIgnoresTrailingSpace(x);
    if a == [] {
      assert x == [];
      assert KeepWordAndSpace([]) == [];
      assert Trim([]) == [];
    }
  }

  // ---------------------------------------------------------------------
  // Keeping characters and collapsing white space, piece by piece

  /** Characters are kept or dropped one by one, in order. */
  lemma {:induction false} KeepWordAndSpaceConcat(a: string, b: string)
    ensures KeepWordAndSpace(a + b) == KeepWordAndSpace(a) + KeepWordAndSpace(b)
    decreases |b|
  {
    if b == [] {
      assert a + b == a;
    } else {
      var front := b[..|b| - 1];
      var c := b[|b| - 1];
      assert (a + b)[..|a + b| - 1] == a + front;
      assert (a + b)[|a + b| - 1] == c;
      KeepWordAndSpaceConcat(a, front);
      var kc := if IsWordChar(c) || IsSpace(c) then [c] else [];
      assert KeepWordAndSpace(b) == KeepWordAndSpace(front) + kc;
      ConcatAssoc(KeepWordAndSpace(a), KeepWordAndSpace(front), kc);
    }
  }

  /** One character is kept exactly when it is a word or white-space character. */
  lemma KeepWordAndSpaceChar(c: char)
    ensures KeepWordAndSpace([c]) == if IsWordChar(c) || IsSpace(c) then [c] else []
  {
    assert [c][..0] == [];
  }

  /** A character other than white space is kept as it is. */
  lemma ReplaceKeepsChar(c: char, sub: char)
    requires !IsSpace(c)
    ensures ReplaceSpaceRuns([c], sub) == [c]
  {
    assert [c][1..] == [];
  }

  /** A whole run of white space becomes one `sub`. */
  lemma ReplaceRun(ws: string, sub: char)
    requires ws != [] && AllSpace(ws)
    ensures ReplaceSpaceRuns(ws, sub) == [sub]
  {
    LeadingSpacesUnique(ws, |ws|);
    assert ws[|ws|..] == [];
  }

  /** A string without white space is left as it is. */
  lemma {:induction false} ReplaceSpaceFree(s: string, sub: char)
    requires forall i :: 0 <= i < |s| ==> !IsSpace(s[i])
    ensures ReplaceSpaceRuns(s, sub) == s
    decreases |s|
  {
    if s != [] {
      ReplaceSpaceFree(s[1..], sub);
    }
  }

  lemma ReplaceInLowerLetters(s: string, sub: char)
    requires IsLowerLetters(s)
    ensures ReplaceSpaceRuns(s, sub) == s
  {
    forall i | 0 <= i < |s|
      ensures !IsSpace(s[i])
    {
      assert 'a' <= s[i] <= 'z';
    }
    ReplaceSpaceFree(s, sub);
  }

  /** No run spans a seam with a character other than white space on one side. */
  lemma {:induction false} ReplaceConcat(a: string, b: string, sub: char)
    requires a == [] || b == [] || !IsSpace(a[|a| - 1]) || !IsSpace(b[0])
    ensures ReplaceSpaceRuns(a + b, sub) == ReplaceSpaceRuns(a, sub) + ReplaceSpaceRuns(b, sub)
    decreases |a|
  {
    if a == [] {
      assert a + b == b;
    } else if b == [] {
      assert a + b == a;
    } else if !IsSpace(a[0]) {
      var rest := a[1..];
      assert (a + b)[1..] == rest + b;
      assert rest != [] ==> rest[|rest| - 1] == a[|a| - 1];
      ReplaceConcat(rest, b, sub);
      ConcatAssoc([a[0]], ReplaceSpaceRuns(rest, sub), ReplaceSpaceRuns(b, sub));
    } else if AllSpace(a) {
      assert !IsSpace(b[0]);
      LeadingSpacesUnique(a + b, |a|);
      assert (a + b)[|a|..] == b;
      ReplaceRun(a, sub);
    } else {
      var k := LeadingSpaces(a);
      LeadingSpacesConcat(a, b);
      var rest := a[k..];
      assert (a + b)[k..] == rest + b;
      assert rest[|rest| - 1] == a[|a| - 1];
      ReplaceConcat(rest, b, sub);
      ConcatAssoc([sub], ReplaceSpaceRuns(rest, sub), ReplaceSpaceRuns(b, sub));
    }
  }

  /** The trailing white space of `p` is white space. */
  lemma TrailingRunSpace(p: string)
    ensures AllSpace(p[|p| - TrailingSpaces(p)..])
  {
    var t := TrailingSpaces(p);
    var n := |p| - t;
    forall i | 0 <= i < t
      ensures IsSpace(p[n..][i])
    {
      assert p[n..][i] == p[n + i];
    }
  }

  /** What comes before the trailing white space of `p` does not end in white space. */
  lemma BeforeTrailingRun(p: string)
    ensures var n := |p| - TrailingSpaces(p);
      n == 0 || !IsSpace(p[..n][n - 1])
  {
    var t := TrailingSpaces(p);
    var n := |p| - t;
    if n > 0 {
      assert p[..n][n - 1] == p[|p| - 1 - t];
    }
  }

  /** `q` is its leading white space, then the rest. */
  lemma SplitLeadingSpaces(q: string)
    ensures var n := LeadingSpaces(q);
      && q == q[..n] + q[n..] && AllSpace(q[..n])
      && (n == |q| || !IsSpace(q[n..][0]))
  {
  }

  lemma AllSpaceConcat(a: string, b: string, c: string)
    requires AllSpace(a) && AllSpace(b) && AllSpace(c)
    ensures AllSpace(a + b + c)
  {
    var s := a + b + c;
    forall i | 0 <= i < |s|
      ensures IsSpace(s[i])
    {
      if i < |a| {
        assert s[i] == a[i];
      } else if i < |a| + |b| {
        assert s[i] == b[i - |a|];
      } else {
        assert s[i] == c[i - |a| - |b|];
      }
    }
  }

  /** A non-empty run of white space between `p` and `q` becomes one `sub`,
      together with the white space at the end of `p` and at the start of
      `q`; how long the run is does not matter. */
  lemma ReplaceAroundRun(p: string, ws: string, q: string, sub: char)
    requires ws != [] && AllSpace(ws)
    ensures ReplaceSpaceRuns(p + ws + q, sub) ==
      ReplaceSpaceRuns(p[..|p| - TrailingSpaces(p)], sub) + [sub] + ReplaceSpaceRuns(q[LeadingSpaces(q)..], sub)
  {
    var n := |p| - TrailingSpaces(p);
    var pn, pt := p[..n], p[n..];
    var qs, qn := q[..LeadingSpaces(q)], q[LeadingSpaces(q)..];
    TrailingRunSpace(p);
    BeforeTrailingRun(p);
    assert p == pn + pt;
    SplitLeadingSpaces(q);
    var mid := pt + ws + qs;
    AllSpaceConcat(pt, ws, qs);
    ReplaceAroundPieces(pn, mid, qn, sub);
    GroupAroundRun(pn, pt, ws, qs, qn);
  }

  lemma GroupAroundRun(a: string, b: string, c: string, d: string, e: string)
    ensures (a + b) + c + (d + e) == a + ((b + c + d) + e)
  {
  }

  lemma ReplaceAroundPieces(pn: string, mid: string, qn: string, sub: char)
    requires mid != [] && AllSpace(mid)
    requires pn == [] || !IsSpace(pn[|pn| - 1])
    requires qn == [] || !IsSpace(qn[0])
    ensures ReplaceSpaceRuns(pn + (mid + qn), sub) ==
      ReplaceSpaceRuns(pn, sub) + [sub] + ReplaceSpaceRuns(qn, sub)
  {
    ReplaceRunThen(mid, qn, sub);
    ReplaceConcat(pn, mid + qn, sub);
    ConcatAssoc(ReplaceSpaceRuns(pn, sub), [sub], ReplaceSpaceRuns(qn, sub));
  }

  lemma ReplaceRunThen(mid: string, qn: string, sub: char)
    requires mid != [] && AllSpace(mid)
    requires qn == [] || !IsSpace(qn[0])
    ensures ReplaceSpaceRuns(mid + qn, sub) == [sub] + ReplaceSpaceRuns(qn, sub)
  {
    ReplaceConcat(mid, qn, sub);
    ReplaceRun(mid, sub);
  }

  /** The steps after suffix stripping treat two spaces between two pieces
      as one. */
  lemma CleanupAbsorbsSpace(u: string, v: string)
    ensures ReplaceSpaceRuns(Trim(u + "  " + v), ' ') == ReplaceSpaceRuns(Trim(u + " " + v), ' ')
  {
    if AllSpace(u) {
      TrimDropsLeadingRun(u + "  ", v);
      TrimDropsLeadingRun(u + " ", v);
    } else if AllSpace(v) {
      TrimAfterRun(u, "  ", v);
      TrimAfterRun(u, " ", v);
    } else {
      CleanupInnerRun(u, v);
    }
  }

  lemma TrimAfterRun(u: string, ws: string, v: string)
    requires AllSpace(ws) && AllSpace(v)
    ensures Trim(u + ws + v) == Trim(u)
  {
    assert AllSpace(ws + v);
    assert u + ws + v == u + (ws + v);
    TrimDropsTrailingRun(u, ws + v);
  }

  lemma CleanupInnerRun(u: string, v: string)
    requires !AllSpace(u) && !AllSpace(v)
    ensures ReplaceSpaceRuns(Trim(u + "  " + v), ' ') == ReplaceSpaceRuns(Trim(u + " " + v), ' ')
  {
    TrimAroundRun(u, "  ", v);
    TrimAroundRun(u, " ", v);
    var p := u[LeadingSpaces(u)..];
    var q := v[..|v| - TrailingSpaces(v)];
    ReplaceAroundRun(p, "  ", q, ' ');
    ReplaceAroundRun(p, " ", q, ' ');
  }

  /** A space is never the start of a suffix word, and `\b` holds after it. */
  lemma StripLeadingSpace(x: string, f: bool)
    ensures StripSuffixes(" " + x, f) == " " + StripSuffixes(x, true)
  {
    var s := " " + x;
    assert SuffixLength(s, f) == 0;
    assert s[1..] == x;
  }

  /** A suffix word between two spaces leaves the two spaces. */
  lemma StripSpacedSuffix(w: string, lb: string, f: bool)
    requires w in CorporateSuffixes
    ensures StripSuffixes(" " + w + " " + lb, f) == "  " + StripSuffixes(lb, true)
  {
    StripSpaceWord(w, f);
    StripBeforeSpace(" " + w, lb, f);
  }

  /** The same with the `.` of the suffix. */
  lemma StripSpacedDottedSuffix(w: string, lb: string, f: bool)
    requires w in CorporateSuffixes
    ensures StripSuffixes(" " + w + ". " + lb, f) == "  " + StripSuffixes(lb, true)
  {
    StripSpaceWord(w, f);
    DotThenSpace(" " + w, lb);
    StripBeforeSpace(" " + w + ".", lb, f);
  }

  lemma DotThenSpace(x: string, y: string)
    ensures x + ". " + y == (x + ".") + " " + y
  {
  }

  /** A piece that strips to one space, then a space. */
  lemma StripBeforeSpace(t: string, lb: string, f: bool)
    requires t != [] && StripSuffixes(t, f) == " "
    ensures StripSuffixes(t + " " + lb, f) == "  " + StripSuffixes(lb, true)
  {
    StripPieceThenSpace(t, lb, f);
    ConcatAssoc(t, " ", lb);
    ConcatAssoc(" ", " ", StripSuffixes(lb, true));
  }

  lemma StripPieceThenSpace(t: string, lb: string, f: bool)
    requires StripSuffixes(t, f) == " "
    ensures StripSuffixes(t + (" " + lb), f) == " " + (" " + StripSuffixes(lb, true))
  {
    assert Separable(t, " " + lb) by {
      assert (" " + lb)[0] == ' ';
    }
    StripConcat(t, " " + lb, f);
    StripLeadingSpace(lb, BoundaryAfter(t, f));
  }

  /** Suffix stripping of a name with a suffix word between two spaces, and
      of the same name without it. */
  lemma StripInnerSuffix(la: string, w: string, lb: string)
    requires w in CorporateSuffixes
    ensures StripSuffixes(la + (" " + w + " " + lb), true) == StripSuffixes(la, true) + "  " + StripSuffixes(lb, true)
    ensures StripSuffixes(la + (" " + w + ". " + lb), true) == StripSuffixes(la, true) + "  " + StripSuffixes(lb, true)
    ensures StripSuffixes(la + (" " + lb), true) == StripSuffixes(la, true) + " " + StripSuffixes(lb, true)
  {
    var f := BoundaryAfter(la, true);
    var x, y := StripSuffixes(la, true), StripSuffixes(lb, true);
    StripConcat(la, " " + w + " " + lb, true);
    StripConcat(la, " " + w + ". " + lb, true);
    StripConcat(la, " " + lb, true);
    StripSpacedSuffix(w, lb, f);
    StripSpacedDottedSuffix(w, lb, f);
    StripLeadingSpace(lb, f);
    ConcatAssoc(x, "  ", y);
    ConcatAssoc(x, " ", y);
  }

  lemma KeepAroundSpaces(x: string, y: string)
    ensures KeepWordAndSpace(x + "  " + y) == KeepWordAndSpace(x) + "  " + KeepWordAndSpace(y)
    ensures KeepWordAndSpace(x + " " + y) == KeepWordAndSpace(x) + " " + KeepWordAndSpace(y)
  {
    KeepWordAndSpaceConcat(x + "  ", y);
    KeepWordAndSpaceConcat(x, "  ");
    KeepWordAndSpaceConcat(x + " ", y);
    KeepWordAndSpaceConcat(x, " ");
    KeepWordAndSpaceChar(' ');
    assert "  " == " " + " ";
    KeepWordAndSpaceConcat(" ", " ");
  }

  /** A whole-word corporate suffix between two spaces anywhere in the name,
      in any letter case and with or without its `.`, does not change the
      normal form, as "Acme Inc Labs" and "Acme Labs" both normalise to
      "acme labs". */
  lemma NormalizeDropsInnerSuffix(a: string, suffix: string, b: string)
    requires Lower(suffix) in CorporateSuffixes
    ensures Normalize(a + " " + suffix + " " + b) == Normalize(a + " " + b)
    ensures Normalize(a + " " + suffix + ". " + b) == Normalize(a + " " + b)
  {
    var w, la, lb := Lower(suffix), Lower(a), Lower(b);
    LowerInner(a, suffix, b);
    StripInnerSuffix(la, w, lb);
    var x, y := StripSuffixes(la, true), StripSuffixes(lb, true);
    KeepAroundSpaces(x, y);
    CleanupAbsorbsSpace(KeepWordAndSpace(x), KeepWordAndSpace(y));
  }

  lemma LowerInner(a: string, suffix: string, b: string)
    ensures Lower(a + " " + suffix + " " + b) == Lower(a) + (" " + Lower(suffix) + " " + Lower(b))
    ensures Lower(a + " " + suffix + ". " + b) == Lower(a) + (" " + Lower(suffix) + ". " + Lower(b))
    ensures Lower(a + " " + b) == Lower(a) + (" " + Lower(b))
  {
    assert Lower(" ") == " ";
    assert Lower(". ") == ". ";
    LowerFive(a, " ", suffix, " ", b);
    LowerFive(a, " ", suffix, ". ", b);
    LowerConcat(a + " ", b);
    LowerConcat(a, " ");
  }

  lemma LowerFive(a: string, b: string, c: string, d: string, e: string)
    ensures Lower(a + b + c + d + e) == Lower(a) + (Lower(b) + Lower(c) + Lower(d) + Lower(e))
  {
    LowerConcat(a + b + c + d, e);
    LowerConcat(a + b + c, d);
    LowerConcat(a + b, c);
    LowerConcat(a, b);
  }

  // ---------------------------------------------------------------------
  // Strings the steps leave alone

  lemma {:induction false} StripInsideWord(s: string)
    requires forall i :: 0 <= i < |s| ==> IsWordChar(s[i])
    ensures StripSuffixes(s, false) == s
  {
    if s != [] {
      StripInsideWord(s[1..]);
    }
  }

  lemma {:induction false} KeepLowerLetters(s: string)
    requires IsLowerLetters(s)
    ensures KeepWordAndSpace(s) == s
  {
    if s != [] {
      KeepLowerLetters(s[..|s| - 1]);
    }
  }

  lemma TrimLowerLetters(s: string)
    requires IsLowerLetters(s)
    ensures Trim(s) == s
  {
    TrimOfTrimmed(s);
  }

  /** What the suffix scan removes is one of the suffix words. */
  lemma SuffixLengthWord(s: string, atBoundary: bool)
    ensures SuffixLength(s, atBoundary) != 0 ==> s[..SuffixLength(s, atBoundary)] in CorporateSuffixes
    ensures SuffixLength(s, atBoundary) == |s| != 0 ==> s in CorporateSuffixes
  {
    if atBoundary && SuffixIndex(s, 0).Some? {
      var j := SuffixIndex(s, 0).value;
      assert s[..|CorporateSuffixes[j]|] == CorporateSuffixes[j];
      if |CorporateSuffixes[j]| == |s| {
        assert s[..|s|] == s;
      }
    }
  }

  /** A lower-case word that is not itself a suffix word survives suffix stripping. */
  lemma StripPlainWord(s: string)
    requires s != [] && IsLowerLetters(s) && s !in CorporateSuffixes
    ensures StripSuffixes(s, true) == s
  {
    SuffixLengthWord(s, true);
    StripInsideWord(s[1..]);
    assert [s[0]] + s[1..] == s;
  }

  lemma LowerOfLowerLetters(s: string)
    requires IsLowerLetters(s)
    ensures Lower(s) == s
  {
  }

  /** A lower-case word that suffix stripping leaves alone is its own normal form. */
  lemma NormalizeOfPlainWord(s: string)
    requires s != [] && IsLowerLetters(s) && StripSuffixes(s, true) == s
    ensures Normalize(s) == s
  {
    LowerOfLowerLetters(s);
    KeepLowerLetters(s);
    TrimLowerLetters(s);
    ReplaceInLowerLetters(s, ' ');
  }

  /** A one-word name, followed by a corporate suffix with or without its
      `.`, normalises to the lower-cased word, as "Acme Inc." and "Acme" both
      normalise to "acme". */
  lemma NormalizeWordWithSuffix(name: string, suffix: string)
    requires name != [] && IsLowerLetters(Lower(name)) && Lower(name) !in CorporateSuffixes
    requires Lower(suffix) in CorporateSuffixes
    ensures Normalize(name) == Lower(name)
    ensures Normalize(name + " " + suffix) == Lower(name)
    ensures Normalize(name + " " + suffix + ".") == Lower(name)
  {
    NormalizeDropsSuffix(name, suffix);
    NormalizeIgnoresCase(name);
    StripPlainWord(Lower(name));
    NormalizeOfPlainWord(Lower(name));
  }

  /** A suffix word alone normalises to nothing. */
  lemma NormalizeSuffixWord(w: string)
    requires w in CorporateSuffixes
    ensures Normalize(w) == []
  {
    SuffixWordsShape();
    LowerOfLowerLetters(w);
    StripSuffixWord(w);
    assert KeepWordAndSpace([]) == [];
    assert Trim([]) == [];
  }

  lemma StripDottedPair(c: char, d: char)
    requires 'a' <= c <= 'z' && 'a' <= d <= 'z'
    ensures StripSuffixes([c, '.', d], true) == [c, '.', d]
  {
    var s := [c, '.', d];
    assert [d][1..] == [];
    assert SuffixLength([d], true) == 0;
    assert StripSuffixes([d], true) == [d] + StripSuffixes([], false);
    assert ['.', d][1..] == [d];
    assert StripSuffixes(['.', d], false) == ['.'] + StripSuffixes([d], true);
    assert s[1..] == ['.', d];
    assert SuffixLength(s, true) == 0 by { assert s[1] == '.'; }
    assert StripSuffixes(s, true) == [c] + StripSuffixes(['.', d], false);
  }

  lemma KeepDottedPair(c: char, d: char)
    requires 'a' <= c <= 'z' && 'a' <= d <= 'z'
    ensures KeepWordAndSpace([c, '.', d]) == [c, d]
  {
    assert [c][..0] == [];
    assert KeepWordAndSpace([c]) == [c];
    assert [c, '.'][..1] == [c];
    assert KeepWordAndSpace([c, '.']) == [c];
    assert [c, '.', d][..2] == [c, '.'];
    assert KeepWordAndSpace([c, '.', d]) == [c] + [d];
  }

  /** Normalisation is not idempotent: a suffix word with a `.` inside it,
      such as "c.o", normalises to the suffix word ("co"), which normalises
      to "". */
  lemma NormalizeNotIdempotent(w: string)
    requires w in CorporateSuffixes && |w| == 2
    ensures Normalize([w[0], '.', w[1]]) == w
    ensures Normalize(Normalize([w[0], '.', w[1]])) == []
  {
    SuffixWordsShape();
    var s := [w[0], '.', w[1]];
    LowerOfLowerLetters(w);
    assert Lower(s) == s;
    StripDottedPair(w[0], w[1]);
    KeepDottedPair(w[0], w[1]);
    assert [w[0], w[1]] == w;
    KeepLowerLetters(w);
    TrimLowerLetters(w);
    ReplaceInLowerLetters(w, ' ');
    NormalizeSuffixWord(w);
  }

  /** Letter case never matters to normalisation. */
  lemma NormalizeIgnoresCase(s: string)
    ensures Normalize(Lower(s)) == Normalize(s)
  {
    LowerIdempotent(s);
  }

  /** A non-empty name matches itself. */
  lemma BrandMatchReflexive(s: string)
    requires s != []
    ensures IsBrandMatch(s, s)
  {
    assert OccursAt(Normalize(s), Normalize(s), 0);
  }

  /** A brand name that is only a corporate suffix normalises to "" and so
      matches every non-empty text. */
  lemma SuffixBrandMatchesAnyText(text: string, brandName: string)
    requires text != []
    requires Lower(brandName) in CorporateSuffixes
    ensures Normalize(brandName) == []
    ensures IsBrandMatch(text, brandName)
  {
    SuffixWordsShape();
    var j :| 0 <= j < |CorporateSuffixes| && CorporateSuffixes[j] == Lower(brandName);
    assert |brandName| == |Lower(brandName)| >= 2;
    NormalizeIgnoresCase(brandName);
    NormalizeSuffixWord(Lower(brandName));
    ContainsEmpty(Normalize(text));
  }

  /** Appending a corporate suffix to a non-empty brand name does not change what it matches. */
  lemma BrandMatchIgnoresSuffix(text: string, brandName: string, suffix: string)
    requires brandName != []
    requires Lower(suffix) in CorporateSuffixes
    ensures IsBrandMatch(text, brandName + " " + suffix) == IsBrandMatch(text, brandName)
    ensures IsBrandMatch(text, brandName + " " + suffix + ".") == IsBrandMatch(text, brandName)
  {
    NormalizeDropsSuffix(brandName, suffix);
  }
}
