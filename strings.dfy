/** Character classes and the JavaScript string built-ins that the response
    helpers rely on: toLowerCase, trim, includes, split on one character,
    parseInt of a digit run and the decimal rendering of a number.
    A `char` is one Unicode code point, so lengths and indices agree with
    JavaScript's UTF-16 code units only on text inside the Basic
    Multilingual Plane. */
module Strings {

  datatype Option<T> = None | Some(value: T)

  /** JavaScript's `\s` (and the set `trim` removes): the WhiteSpace and
      LineTerminator code points of ECMAScript. */
  predicate IsSpace(c: char) {
    || c == '\t' || c == '\n' || c == '\U{000B}' || c == '\U{000C}' || c == '\r' || c == ' '
    || c == '\U{00A0}' || c == '\U{1680}' || ('\U{2000}' <= c <= '\U{200A}')
    || c == '\U{2028}' || c == '\U{2029}' || c == '\U{202F}' || c == '\U{205F}'
    || c == '\U{3000}' || c == '\U{FEFF}'
  }

  /** JavaScript's `\w` without the `u` flag: ASCII letters, digits and `_`. */
  predicate IsWordChar(c: char) {
    ('a' <= c <= 'z') || ('A' <= c <= 'Z') || ('0' <= c <= '9') || c == '_'
  }

  predicate IsDigit(c: char) { '0' <= c <= '9' }

  predicate IsUpper(c: char) { 'A' <= c <= 'Z' }

  function LowerChar(c: char): (d: char)
    ensures !IsUpper(d)
    ensures IsWordChar(d) <==> IsWordChar(c)
    ensures IsSpace(d) <==> IsSpace(c)
    ensures !IsUpper(c) ==> d == c
  {
    if IsUpper(c) then (c as int + 32) as char else c
  }

  /** `toLowerCase`, on the ASCII letters. */
  function Lower(s: string): (r: string)
    ensures |r| == |s|
    ensures forall i :: 0 <= i < |s| ==> r[i] == LowerChar(s[i])
  {
    seq(|s|, i requires 0 <= i < |s| => LowerChar(s[i]))
  }

  lemma LowerConcat(a: string, b: string)
    ensures Lower(a + b) == Lower(a) + Lower(b)
  {
    assert forall i :: 0 <= i < |a + b| ==> Lower(a + b)[i] == (Lower(a) + Lower(b))[i];
  }

  /** Lower-casing twice is lower-casing once. */
  lemma LowerIdempotent(s: string)
    ensures Lower(Lower(s)) == Lower(s)
  {
    assert forall i :: 0 <= i < |s| ==> Lower(Lower(s))[i] == Lower(s)[i];
  }

  lemma DropConcat(a: string, b: string, k: nat)
    requires k <= |a|
    ensures (a + b)[k..] == a[k..] + b
  {
  }

  lemma ConcatAssoc<T>(a: seq<T>, b: seq<T>, c: seq<T>)
    ensures a + (b + c) == (a + b) + c
  {
  }

  lemma SliceThree<T>(s: seq<T>, i: nat, j: nat)
    requires i <= j <= |s|
    ensures s == s[..i] + s[i..j] + s[j..]
  {
  }

  lemma ConsSnoc<T>(xs: seq<T>, x: T)
    requires xs != []
    ensures xs + [x] == [xs[0]] + (xs[1..] + [x])
  {
  }

  lemma TakeSnoc<T>(xs: seq<T>, i: nat)
    requires i < |xs|
    ensures xs[..i + 1] == xs[..i] + [xs[i]]
  {
  }

  lemma ConcatEmpty<T>(xs: seq<T>)
    ensures xs + [] == xs
  {
  }

  lemma TakeAll<T>(xs: seq<T>)
    ensures xs[..|xs|] == xs
  {
  }

  /** `xs.find(p)`, as an index: the first position whose element satisfies `p`. */
  function FirstWhere<T>(xs: seq<T>, p: T -> bool): (r: Option<nat>)
    ensures r.None? <==> forall k :: 0 <= k < |xs| ==> !p(xs[k])
    ensures r.Some? ==> r.value < |xs| && p(xs[r.value]) && forall k :: 0 <= k < r.value ==> !p(xs[k])
  {
    if xs == [] then None
    else if p(xs[0]) then Some(0)
    else
      var r := FirstWhere(xs[1..], p);
      if r.None? then None else Some(r.value + 1)
  }

  /** The last position whose element satisfies `p`. */
  function LastWhere<T>(xs: seq<T>, p: T -> bool): (r: Option<nat>)
    ensures r.None? <==> forall k :: 0 <= k < |xs| ==> !p(xs[k])
    ensures r.Some? ==> r.value < |xs| && p(xs[r.value]) && forall k :: r.value < k < |xs| ==> !p(xs[k])
  {
    if xs == [] then None
    else if p(xs[|xs| - 1]) then Some(|xs| - 1)
    else LastWhere(xs[..|xs| - 1], p)
  }

  /** When `x` is the only element satisfying `p`, the search from the back finds it. */
  lemma LastWhereOnly<T>(xs: seq<T>, p: T -> bool, x: T)
    requires x in xs && p(x)
    requires forall y :: y in xs && p(y) ==> y == x
    ensures LastWhere(xs, p).Some? && xs[LastWhere(xs, p).value] == x
  {
    var k :| 0 <= k < |xs| && xs[k] == x;
    var r := LastWhere(xs, p);
    assert xs[r.value] in xs;
  }

  /** Searches from the back agree on sequences whose elements agree pointwise. */
  lemma {:induction false} LastWhereAgree<A, B>(xs: seq<A>, p: A -> bool, ys: seq<B>, q: B -> bool)
    requires |xs| == |ys|
    requires forall k :: 0 <= k < |xs| ==> (p(xs[k]) <==> q(ys[k]))
    ensures LastWhere(xs, p) == LastWhere(ys, q)
  {
    if xs != [] {
      LastWhereAgree(xs[..|xs| - 1], p, ys[..|ys| - 1], q);
    }
  }

  /** `s.includes(pat)`: `pat` occurs in `s` as a contiguous block. */
  predicate Contains(s: string, pat: string) {
    exists i | 0 <= i <= |s| - |pat| :: OccursAt(s, pat, i)
  }

  predicate OccursAt(s: string, pat: string, i: nat) {
    i + |pat| <= |s| && s[i..i + |pat|] == pat
  }

  lemma ContainsInfix(a: string, pat: string, b: string)
    ensures Contains(a + pat + b, pat)
  {
    var s := a + pat + b;
    assert OccursAt(s, pat, |a|);
  }

  lemma ContainsBoth(a: string, x: string, b: string, y: string)
    ensures Contains(a + x + b + y, x) && Contains(a + x + b + y, y)
  {
    var s := a + x + b + y;
    assert OccursAt(s, x, |a|);
    assert OccursAt(s, y, |a + x + b|);
  }

  lemma ContainsEmpty(s: string)
    ensures Contains(s, [])
  {
    assert OccursAt(s, [], 0);
  }

  /** Number of leading `\s` characters. */
  function LeadingSpaces(s: string): (n: nat)
    ensures n <= |s|
    ensures forall i :: 0 <= i < n ==> IsSpace(s[i])
    ensures n < |s| ==> !IsSpace(s[n])
  {
    if s != [] && IsSpace(s[0]) then 1 + LeadingSpaces(s[1..]) else 0
  }

  /** Number of trailing `\s` characters. */
  function TrailingSpaces(s: string): (n: nat)
    ensures n <= |s|
    ensures forall i :: |s| - n <= i < |s| ==> IsSpace(s[i])
    ensures n < |s| ==> !IsSpace(s[|s| - 1 - n])
  {
    if s != [] && IsSpace(s[|s| - 1]) then 1 + TrailingSpaces(s[..|s| - 1]) else 0
  }

  lemma LeadingSpacesUnique(s: string, n: nat)
    requires n <= |s|
    requires forall i :: 0 <= i < n ==> IsSpace(s[i])
    requires n < |s| ==> !IsSpace(s[n])
    ensures LeadingSpaces(s) == n
  {
  }

  /** `trim`: drops the leading and the trailing `\s` characters. */
  function Trim(s: string): (r: string)
    ensures r == [] || (!IsSpace(r[0]) && !IsSpace(r[|r| - 1]))
    ensures forall i :: 0 <= i < |r| ==> r[i] in s
    ensures (forall i :: 0 <= i < |s| ==> IsSpace(s[i])) <==> r == []
  {
    var t := s[LeadingSpaces(s)..];
    var r := t[..|t| - TrailingSpaces(t)];
    assert forall i :: 0 <= i < |r| ==> r[i] == s[LeadingSpaces(s) + i];
    assert r != [] ==> r[0] == s[LeadingSpaces(s)];
    r
  }

  /** A string without surrounding white space is its own trim. */
  lemma TrimOfTrimmed(s: string)
    requires s == [] || (!IsSpace(s[0]) && !IsSpace(s[|s| - 1]))
    ensures Trim(s) == s
  {
  }

  /** A trailing white-space character does not change the trim. */
  lemma TrimDropsTrailingSpace(s: string, c: char)
    requires IsSpace(c)
    ensures Trim(s + [c]) == Trim(s)
  {
    var s' := s + [c];
    var a := LeadingSpaces(s);
    if a == |s| {
      LeadingSpacesUnique(s', |s'|);
    } else {
      LeadingSpacesUnique(s', a);
      var t := s[a..];
      assert s'[a..] == t + [c];
      TrailingSpaceAppend(t, c);
    }
  }

  /** A leading white-space character does not change the trim. */
  lemma TrimDropsLeadingSpace(c: char, s: string)
    requires IsSpace(c)
    ensures Trim([c] + s) == Trim(s)
  {
    var s' := [c] + s;
    assert s'[1..] == s;
    assert LeadingSpaces(s') == 1 + LeadingSpaces(s);
    assert s'[LeadingSpaces(s')..] == s[LeadingSpaces(s)..];
  }

  lemma TrailingSpaceAppend(t: string, c: char)
    requires IsSpace(c)
    ensures (t + [c])[..|t + [c]| - TrailingSpaces(t + [c])] == t[..|t| - TrailingSpaces(t)]
  {
    assert (t + [c])[..|t|] == t;
  }

  predicate AllSpace(s: string) {
    forall i :: 0 <= i < |s| ==> IsSpace(s[i])
  }

  lemma {:induction false} TrailingSpacesUnique(s: string, n: nat)
    requires n <= |s|
    requires forall i :: |s| - n <= i < |s| ==> IsSpace(s[i])
    requires n < |s| ==> !IsSpace(s[|s| - 1 - n])
    ensures TrailingSpaces(s) == n
    decreases n
  {
    if n > 0 {
      var f := s[..|s| - 1];
      assert forall i :: 0 <= i < |f| ==> f[i] == s[i];
      TrailingSpacesUnique(f, n - 1);
    }
  }

  /** A leading run of white space does not change the trim. */
  lemma {:induction false} TrimDropsLeadingRun(ws: string, s: string)
    requires AllSpace(ws)
    ensures Trim(ws + s) == Trim(s)
    decreases |ws|
  {
    if ws == [] {
      assert ws + s == s;
    } else {
      assert ws + s == [ws[0]] + (ws[1..] + s);
      TrimDropsLeadingSpace(ws[0], ws[1..] + s);
      TrimDropsLeadingRun(ws[1..], s);
    }
  }

  /** A trailing run of white space does not change the trim. */
  lemma {:induction false} TrimDropsTrailingRun(s: string, ws: string)
    requires AllSpace(ws)
    ensures Trim(s + ws) == Trim(s)
    decreases |ws|
  {
    if ws == [] {
      assert s + ws == s;
    } else {
      var front := ws[..|ws| - 1];
      assert s + ws == (s + front) + [ws[|ws| - 1]];
      TrimDropsTrailingSpace(s + front, ws[|ws| - 1]);
      TrimDropsTrailingRun(s, front);
    }
  }

  /** Leading white space of `p` is all the leading white space of `p + x`
      when `p` is not all white space. */
  lemma LeadingSpacesConcat(p: string, x: string)
    requires !AllSpace(p)
    ensures LeadingSpaces(p + x) == LeadingSpaces(p) < |p|
  {
    var a := LeadingSpaces(p);
    assert forall i :: 0 <= i <= a && i < |p| ==> (p + x)[i] == p[i];
    LeadingSpacesUnique(p + x, a);
  }

  /** Trailing white space of `q` is all the trailing white space of `x + q`
      when `q` is not all white space. */
  lemma TrailingSpacesConcat(x: string, q: string)
    requires !AllSpace(q)
    ensures TrailingSpaces(x + q) == TrailingSpaces(q) < |q|
  {
    var b := TrailingSpaces(q);
    var t := x + q;
    assert forall i :: 0 <= i < |q| ==> t[|x| + i] == q[i];
    TrailingSpacesUnique(t, b);
  }

  /** White space between two pieces that are not all white space is kept
      by `trim`; only the outer ends of the pieces are cut. */
  lemma TrimAroundRun(p: string, ws: string, q: string)
    requires !AllSpace(p) && !AllSpace(q) && AllSpace(ws)
    ensures Trim(p + ws + q) == p[LeadingSpaces(p)..] + ws + q[..|q| - TrailingSpaces(q)]
  {
    var a := LeadingSpaces(p);
    var b := TrailingSpaces(q);
    LeadingSpacesConcat(p, ws + q);
    assert p + ws + q == p + (ws + q);
    DropFromFront(p, ws + q, a);
    var t := (p + ws + q)[a..];
    assert t == (p[a..] + ws) + q;
    TrailingSpacesConcat(p[a..] + ws, q);
    TakeFromBack(p[a..] + ws, q, b);
  }

  lemma DropFromFront(x: string, y: string, a: nat)
    requires a <= |x|
    ensures (x + y)[a..] == x[a..] + y
  {
  }

  lemma TakeFromBack(x: string, y: string, b: nat)
    requires b <= |y|
    ensures (x + y)[..|x + y| - b] == x + y[..|y| - b]
  {
  }

  /** Index of the first `c` in `s`. */
  function FirstIndex(s: string, c: char): (i: nat)
    requires c in s
    ensures i < |s| && s[i] == c && c !in s[..i]
  {
    if s[0] == c then 0 else 1 + FirstIndex(s[1..], c)
  }

  /** `s.split(sep)` for a one-character separator. */
  function Split(s: string, sep: char): (parts: seq<string>)
    ensures |parts| >= 1
    ensures forall k :: 0 <= k < |parts| ==> sep !in parts[k]
    decreases |s|
  {
    if sep !in s then [s]
    else
      var i := FirstIndex(s, sep);
      [s[..i]] + Split(s[i + 1..], sep)
  }

  /** `parts.join(sep)`. */
  function Join(parts: seq<string>, sep: char): string
    requires |parts| >= 1
  {
    if |parts| == 1 then parts[0] else parts[0] + [sep] + Join(parts[1..], sep)
  }

  /** Joining the pieces of a split gives back the string. */
  lemma {:induction false} JoinSplit(s: string, sep: char)
    ensures Join(Split(s, sep), sep) == s
    decreases |s|
  {
    if sep in s {
      var i := FirstIndex(s, sep);
      var rest := Split(s[i + 1..], sep);
      JoinSplit(s[i + 1..], sep);
      var parts := [s[..i]] + rest;
      assert Split(s, sep) == parts;
      assert parts[0] == s[..i] && parts[1..] == rest;
      assert Join(parts, sep) == s[..i] + [sep] + Join(rest, sep);
      assert s == s[..i] + [sep] + s[i + 1..];
    }
  }

  /** Splitting a join of separator-free pieces gives back the pieces. */
  lemma {:induction false} SplitJoin(parts: seq<string>, sep: char)
    requires |parts| >= 1
    requires forall k :: 0 <= k < |parts| ==> sep !in parts[k]
    ensures Split(Join(parts, sep), sep) == parts
  {
    if |parts| > 1 {
      JoinFirstPiece(parts, sep);
      SplitJoin(parts[1..], sep);
      assert parts == [parts[0]] + parts[1..];
    }
  }

  /** A join starts with its first piece, then the separator, then the join
      of the rest. */
  lemma JoinFirstPiece(parts: seq<string>, sep: char)
    requires |parts| > 1 && sep !in parts[0]
    ensures var s, i := Join(parts, sep), |parts[0]|;
      && sep in s && FirstIndex(s, sep) == i
      && s[..i] == parts[0] && s[i + 1..] == Join(parts[1..], sep)
  {
    var s, i := Join(parts, sep), |parts[0]|;
    assert s == parts[0] + [sep] + Join(parts[1..], sep);
    assert s[i] == sep;
    assert s[..i] == parts[0];
    assert s[i + 1..] == Join(parts[1..], sep);
  }

  lemma {:induction false} JoinSnoc(parts: seq<string>, x: string, sep: char)
    requires |parts| >= 1
    ensures Join(parts + [x], sep) == Join(parts, sep) + [sep] + x
  {
    if |parts| == 1 {
      assert parts + [x] == [parts[0], x];
    } else {
      assert (parts + [x])[1..] == parts[1..] + [x];
      JoinSnoc(parts[1..], x, sep);
    }
  }

  /** Lines each followed by the separator. */
  function Terminated(lines: seq<string>, sep: char): string {
    if lines == [] then [] else lines[0] + [sep] + Terminated(lines[1..], sep)
  }

  lemma {:induction false} TerminatedConcat(xs: seq<string>, ys: seq<string>, sep: char)
    ensures Terminated(xs + ys, sep) == Terminated(xs, sep) + Terminated(ys, sep)
  {
    if xs != [] {
      assert (xs + ys)[1..] == xs[1..] + ys;
      TerminatedConcat(xs[1..], ys, sep);
    } else {
      assert xs + ys == ys;
    }
  }

  /** The first separator of `a + [sep] + b` is the one after `a` when `a` has none. */
  lemma {:induction false} FirstIndexAfter(a: string, sep: char, b: string)
    requires sep !in a
    ensures sep in a + [sep] + b && FirstIndex(a + [sep] + b, sep) == |a|
  {
    var s := a + [sep] + b;
    assert s[|a|] == sep;
    if a != [] {
      assert s[1..] == a[1..] + [sep] + b;
      FirstIndexAfter(a[1..], sep, b);
    }
  }

  /** A piece without the separator, then the separator, splits off first. */
  lemma SplitCons(a: string, sep: char, b: string)
    requires sep !in a
    ensures Split(a + [sep] + b, sep) == [a] + Split(b, sep)
  {
    var s := a + [sep] + b;
    FirstIndexAfter(a, sep, b);
    assert s[..|a|] == a;
    assert s[|a| + 1..] == b;
  }

  /** The first terminated line splits off first. */
  lemma SplitTerminatedStep(lines: seq<string>, last: string, sep: char)
    requires lines != [] && sep !in lines[0]
    ensures Split(Terminated(lines, sep) + last, sep) == [lines[0]] + Split(Terminated(lines[1..], sep) + last, sep)
  {
    var head := lines[0] + [sep];
    assert Terminated(lines, sep) == head + Terminated(lines[1..], sep);
    ConcatAssoc(head, Terminated(lines[1..], sep), last);
    SplitCons(lines[0], sep, Terminated(lines[1..], sep) + last);
  }

  /** Splitting separator-terminated lines followed by a last line gives the
      lines back, the last one included. */
  lemma {:induction false} SplitTerminated(lines: seq<string>, last: string, sep: char)
    requires forall k :: 0 <= k < |lines| ==> sep !in lines[k]
    requires sep !in last
    ensures Split(Terminated(lines, sep) + last, sep) == lines + [last]
  {
    if lines == [] {
      assert Terminated(lines, sep) + last == last;
    } else {
      SplitTerminatedStep(lines, last, sep);
      SplitTerminated(lines[1..], last, sep);
      ConsSnoc(lines, last);
    }
  }

  function DigitValue(c: char): (v: nat)
    requires IsDigit(c)
    ensures v < 10
  {
    c as int - '0' as int
  }

  function DigitChar(v: nat): (c: char)
    requires v < 10
    ensures IsDigit(c) && DigitValue(c) == v
  {
    ('0' as int + v) as char
  }

  /** `parseInt` of a run of decimal digits (leading zeros allowed). */
  function ParseDecimal(ds: string): nat
    requires forall i :: 0 <= i < |ds| ==> IsDigit(ds[i])
  {
    if ds == [] then 0 else ParseDecimal(ds[..|ds| - 1]) * 10 + DigitValue(ds[|ds| - 1])
  }

  /** The decimal rendering of a number inside a template literal. */
  function NatToString(n: nat): (s: string)
    ensures |s| >= 1
    ensures forall i :: 0 <= i < |s| ==> IsDigit(s[i])
  {
    if n < 10 then [DigitChar(n)] else NatToString(n / 10) + [DigitChar(n % 10)]
  }

  /** `parseInt` reads back the rendered number. */
  lemma {:induction false} ParseNatToString(n: nat)
    ensures ParseDecimal(NatToString(n)) == n
  {
    if n >= 10 {
      var s := NatToString(n);
      assert s[..|s| - 1] == NatToString(n / 10);
      ParseNatToString(n / 10);
    }
  }
}
