/** The offline analyser of an AI answer (getMockAnalysis in
    src/lib/openai.js): numbered list lines become brand mentions, the last
    list line naming the user's brand gives its rank, and the whole text is
    searched when the brand is not ranked. */
module MockAnalysis {
  import opened Strings
  import opened BrandNames

  /** The sentiment values of the analysis records. */
  datatype Sentiment = Positive | Negative | Neutral | NotMentioned

  datatype Mention = Mention(brandName: string, rank: nat, context: string, sentiment: Sentiment)

  datatype Citation = Citation(url: string, title: string, domain: string)

  datatype Analysis = Analysis(
    brandMentions: seq<Mention>,
    citations: seq<Citation>,
    userBrandMentioned: bool,
    userBrandRank: Option<nat>,
    userBrandSentiment: Sentiment,
    totalBrandsMentioned: nat,
    summary: string)

  /** The three sources every analysis cites. */
  const FixedCitations: seq<Citation> := [
    Citation("https://www.g2.com", "G2 Reviews", "g2.com"),
    Citation("https://www.capterra.com", "Capterra", "capterra.com"),
    Citation("https://www.techradar.com", "TechRadar", "techradar.com")
  ]

  // ---------------------------------------------------------------------
  // The list-item pattern ^(\d+)\.\s*\*\*?([^*:]+)\*\*?[:\s-]

  /** A match of the list-item pattern: the parsed leading number, the
      captured name (untrimmed) and the length of the whole match. */
  datatype ListItem = ListItem(rank: nat, name: string, matchLength: nat)

  predicate IsNameChar(c: char) { c != '*' && c != ':' }

  predicate IsItemDelimiter(c: char) { c == ':' || c == '-' || IsSpace(c) }

  /** End of the longest run of characters satisfying `p` from index `i`. */
  function RunEnd(s: string, i: nat, p: char -> bool): (e: nat)
    requires i <= |s|
    ensures i <= e <= |s|
    ensures forall k :: i <= k < e ==> p(s[k])
    ensures e < |s| ==> !p(s[e])
    decreases |s| - i
  {
    if i < |s| && p(s[i]) then RunEnd(s, i + 1, p) else i
  }

  /** `\*\*?` at index `i`: the index after one or two `*`. */
  function Stars(line: string, i: nat): (r: Option<nat>)
    ensures r.Some? ==> i < r.value <= |line| && line[i] == '*' && r.value <= i + 2
  {
    if i < |line| && line[i] == '*' then
      Some(if i + 1 < |line| && line[i + 1] == '*' then i + 2 else i + 1)
    else None
  }

  /** Where the name sits in a match, and where the match ends. */
  datatype NameSpan = NameSpan(start: nat, end: nat, matchEnd: nat)

  /** `\*\*?([^*:]+)\*\*?[:\s-]` matches `line[p..m]`, capturing `line[s..e]`:
      one or two `*`, a run of name characters, one or two `*`, and a `:`,
      `-` or white-space character. */
  predicate NameMatch(line: string, p: nat, s: nat, e: nat, m: nat) {
    && p < s < e < m <= |line|
    && line[p] == '*' && (s == p + 1 || (s == p + 2 && line[p + 1] == '*'))
    && (forall k :: s <= k < e ==> IsNameChar(line[k]))
    && line[e] == '*' && (m == e + 2 || (m == e + 3 && line[e + 1] == '*'))
    && IsItemDelimiter(line[m - 1])
  }

  /** `\*\*?([^*:]+)\*\*?[:\s-]` from index `p`. */
  function MatchName(line: string, p: nat): (r: Option<NameSpan>)
    ensures r.Some? ==> NameMatch(line, p, r.value.start, r.value.end, r.value.matchEnd)
  {
    match Stars(line, p)
    case None => None
    case Some(n) =>
      var e := RunEnd(line, n, IsNameChar);
      if e == n then None
      else match Stars(line, e)
        case None => None
        case Some(q) => if q < |line| && IsItemDelimiter(line[q]) then Some(NameSpan(n, e, q + 1)) else None
  }

  /** Every way the name part can match is the one the scan finds. */
  lemma MatchNameComplete(line: string, p: nat, s: nat, e: nat, m: nat)
    requires NameMatch(line, p, s, e, m)
    ensures MatchName(line, p) == Some(NameSpan(s, e, m))
  {
    assert Stars(line, p) == Some(s);
    RunEndExact(line, s, e, IsNameChar);
    assert Stars(line, e) == Some(m - 1);
  }

  /** The match of the list-item pattern against a line. Every quantifier of
      the pattern is followed by a character it cannot consume, so the
      pattern has at most one way to match and is scanned left to right:
      digits, `.`, white space, one or two `*`, the name, one or two `*`,
      and one of `:`, `-` or white space. */
  function ParseListItem(line: string): (r: Option<ListItem>)
    ensures '*' !in line ==> r.None?
    ensures r.Some? ==>
      && 0 < r.value.matchLength <= |line| && IsDigit(line[0])
      && IsItemDelimiter(line[r.value.matchLength - 1])
      && r.value.name != [] && (forall c :: c in r.value.name ==> IsNameChar(c))
  {
    var d := RunEnd(line, 0, IsDigit);
    if d == 0 || d >= |line| || line[d] != '.' then None
    else match MatchName(line, RunEnd(line, d + 1, IsSpace))
      case None => None
      case Some(span) =>
        var name := line[span.start..span.end];
        assert forall c :: c in name ==> IsNameChar(c);
        Some(ListItem(ParseDecimal(line[..d]), name, span.matchEnd))
  }

  /** `^(\d+)\.\s*\*\*?([^*:]+)\*\*?[:\s-]` matches `line[..m]`: digits in
      `line[..d]`, a `.`, white space up to `p`, then the name part, capturing
      `line[s..e]`. */
  predicate ItemMatch(line: string, d: nat, p: nat, s: nat, e: nat, m: nat) {
    && 0 < d < p < |line|
    && (forall k :: 0 <= k < d ==> IsDigit(line[k])) && line[d] == '.'
    && (forall k :: d + 1 <= k < p ==> IsSpace(line[k]))
    && NameMatch(line, p, s, e, m)
  }

  /** Every match of the pattern is found, with the rank its digits spell,
      its capture as the name and its length. */
  lemma ParseListItemComplete(line: string, d: nat, p: nat, s: nat, e: nat, m: nat)
    requires ItemMatch(line, d, p, s, e, m)
    ensures ParseListItem(line) == Some(ListItem(ParseDecimal(line[..d]), line[s..e], m))
  {
    RunEndExact(line, 0, d, IsDigit);
    RunEndExact(line, d + 1, p, IsSpace);
    MatchNameComplete(line, p, s, e, m);
  }

  /** Whatever is found is a match of the pattern. */
  lemma ParseListItemSound(line: string)
    requires ParseListItem(line).Some?
    ensures exists d: nat, p: nat, s: nat, e: nat, m: nat ::
              && ItemMatch(line, d, p, s, e, m)
              && ParseListItem(line) == Some(ListItem(ParseDecimal(line[..d]), line[s..e], m))
  {
    var d := RunEnd(line, 0, IsDigit);
    var p := RunEnd(line, d + 1, IsSpace);
    var span := MatchName(line, p).value;
    assert ItemMatch(line, d, p, span.start, span.end, span.matchEnd);
  }

  /** The line "N. **Name**:rest", with the number already written as digits. */
  function RenderedLine(digits: string, name: string, rest: string): string {
    digits + ". **" + name + "**:" + rest
  }

  /** `line` starts with `d` digits of value `rank`, then ". **", `e - d - 4`
      name characters and "**:". */
  predicate ItemShape(line: string, d: nat, e: nat, rank: nat) {
    && 0 < d && d + 4 < e && e + 3 <= |line|
    && (forall k :: 0 <= k < d ==> IsDigit(line[k])) && ParseDecimal(line[..d]) == rank
    && line[d] == '.' && line[d + 1] == ' ' && line[d + 2] == '*' && line[d + 3] == '*'
    && (forall k :: d + 4 <= k < e ==> IsNameChar(line[k]))
    && line[e] == '*' && line[e + 1] == '*' && line[e + 2] == ':'
  }

  /** "N. **Name**:rest" has that shape when N is a run of digits of value `rank`. */
  lemma RenderedShape(ds: string, rank: nat, name: string, rest: string)
    requires ds != [] && (forall k :: 0 <= k < |ds| ==> IsDigit(ds[k])) && ParseDecimal(ds) == rank
    requires name != [] && forall c :: c in name ==> IsNameChar(c)
    ensures var line := RenderedLine(ds, name, rest);
      var e := |ds| + 4 + |name|;
      ItemShape(line, |ds|, e, rank) && line[|ds| + 4..e] == name
  {
    RenderedLineChars(ds, name, rest);
    ShapeOfPieces(RenderedLine(ds, name, rest), ds, rank, name);
  }

  /** Where the pieces of "N. **Name**:rest" sit. */
  lemma RenderedLineChars(ds: string, name: string, rest: string)
    ensures
      var line := RenderedLine(ds, name, rest);
      var d := |ds|;
      var e := d + 4 + |name|;
      && e + 3 <= |line|
      && line[..d] == ds
      && line[d] == '.' && line[d + 1] == ' ' && line[d + 2] == '*' && line[d + 3] == '*'
      && line[d + 4..e] == name
      && line[e] == '*' && line[e + 1] == '*' && line[e + 2] == ':'
  {
  }

  /** A line made of those pieces has the shape of a list item. */
  lemma ShapeOfPieces(line: string, ds: string, rank: nat, name: string)
    requires ds != [] && (forall k :: 0 <= k < |ds| ==> IsDigit(ds[k])) && ParseDecimal(ds) == rank
    requires name != [] && forall c :: c in name ==> IsNameChar(c)
    requires
      var d := |ds|;
      var e := d + 4 + |name|;
      && e + 3 <= |line|
      && line[..d] == ds
      && line[d] == '.' && line[d + 1] == ' ' && line[d + 2] == '*' && line[d + 3] == '*'
      && line[d + 4..e] == name
      && line[e] == '*' && line[e + 1] == '*' && line[e + 2] == ':'
    ensures ItemShape(line, |ds|, |ds| + 4 + |name|, rank)
  {
    var d := |ds|;
    forall k | 0 <= k < d
      ensures IsDigit(line[k])
    {
      assert line[k] == line[..d][k];
    }
    forall k | d + 4 <= k < d + 4 + |name|
      ensures IsNameChar(line[k])
    {
      assert line[k] == name[k - d - 4];
    }
  }

  /** A line of that shape is matched with that rank and name, and the match
      ends after the `:`. */
  lemma ParseItemShape(line: string, d: nat, e: nat, rank: nat, name: string, n: nat)
    requires ItemShape(line, d, e, rank) && line[d + 4..e] == name && n == e + 3
    ensures ParseListItem(line) == Some(ListItem(rank, name, n))
  {
    MatchItemShape(line, d, e, rank);
    assert ListItem(rank, line[d + 4..e], e + 3) == ListItem(rank, name, n);
  }

  lemma MatchItemShape(line: string, d: nat, e: nat, rank: nat)
    requires ItemShape(line, d, e, rank)
    ensures ParseListItem(line) == Some(ListItem(rank, line[d + 4..e], e + 3))
  {
    assert ItemMatch(line, d, d + 2, d + 4, e, e + 3);
    ParseListItemComplete(line, d, d + 2, d + 4, e, e + 3);
  }

  /** What follows the match of "N. **Name**:rest" is `rest`. */
  lemma RenderedRest(line: string, ds: string, name: string, rest: string, n: nat)
    requires line == RenderedLine(ds, name, rest) && n == |ds| + 7 + |name|
    ensures n <= |line| && line[n..] == rest
  {
  }

  lemma RunEndExact(s: string, i: nat, e: nat, p: char -> bool)
    requires i <= e <= |s|
    requires forall k :: i <= k < e ==> p(s[k])
    requires e < |s| ==> !p(s[e])
    ensures RunEnd(s, i, p) == e
    decreases e - i
  {
    if i < e {
      RunEndExact(s, i + 1, e, p);
    }
  }

  /** The example "1. Name:" of the pattern's comment is not matched: the
      pattern needs a `*` before the name. */
  lemma PlainNumberedLineNotMatched(rank: nat, name: string, rest: string)
    requires '*' !in name && '*' !in rest
    ensures ParseListItem(NatToString(rank) + ". " + name + ":" + rest).None?
  {
    var line := NatToString(rank) + ". " + name + ":" + rest;
    assert forall k :: 0 <= k < |line| ==> line[k] != '*' by {
      var ds := NatToString(rank);
      assert forall k :: 0 <= k < |ds| ==> IsDigit(ds[k]);
      forall k | 0 <= k < |line|
        ensures line[k] != '*'
      {
        if k < |ds| {
          assert line[k] == ds[k];
        } else if k < |ds| + 2 {
          assert line[k] == ". "[k - |ds|];
        } else if k < |ds| + 2 + |name| {
          assert line[k] == name[k - |ds| - 2];
        } else if k == |ds| + 2 + |name| {
          assert line[k] == ':';
        } else {
          assert line[k] == rest[k - |ds| - 3 - |name|];
        }
      }
    }
  }

  // ---------------------------------------------------------------------
  // Mentions

  /** The context of a list item: at most 100 characters, then "...". */
  function Excerpt(c: string): (r: string)
    ensures |r| <= 103
    ensures |c| <= 100 ==> r == c
    ensures |c| > 100 ==> |r| == 103 && r[..100] == c[..100] && r[100..] == "..."
  {
    if |c| > 100 then c[..100] + "..." else c
  }

  /** The mention recorded for a matched line. */
  function MentionOf(line: string, it: ListItem): (m: Mention)
    requires it.matchLength <= |line|
    ensures m.sentiment == Positive && m.rank == it.rank && |m.context| <= 103
  {
    Mention(Trim(it.name), it.rank, Excerpt(Trim(line[it.matchLength..])), Positive)
  }

  /** The mentions one line contributes: one if it matches the pattern, none otherwise. */
  function LineMention(line: string): (ms: seq<Mention>)
    ensures |ms| <= 1
    ensures ms != [] <==> ParseListItem(line).Some?
    ensures ms != [] ==> ms[0].sentiment == Positive && |ms[0].context| <= 103
  {
    match ParseListItem(line)
    case None => []
    case Some(it) => [MentionOf(line, it)]
  }

  /** brandMentions: the mentions of the lines, in line order. */
  function Mentions(lines: seq<string>): (ms: seq<Mention>)
    ensures |ms| <= |lines|
  {
    if lines == [] then [] else Mentions(lines[..|lines| - 1]) + LineMention(lines[|lines| - 1])
  }

  lemma MentionsSnoc(lines: seq<string>, line: string)
    ensures Mentions(lines + [line]) == Mentions(lines) + LineMention(line)
  {
    assert (lines + [line])[..|lines|] == lines;
  }

  /** Mentions keep the order of the lines they come from. */
  lemma {:induction false} MentionsConcat(l1: seq<string>, l2: seq<string>)
    ensures Mentions(l1 + l2) == Mentions(l1) + Mentions(l2)
    decreases |l2|
  {
    if l2 == [] {
      assert l1 + l2 == l1;
    } else {
      var front, last := l2[..|l2| - 1], l2[|l2| - 1];
      assert l1 + l2 == (l1 + front) + [last];
      MentionsSnoc(l1 + front, last);
      MentionsConcat(l1, front);
      var m1, mf, ml := Mentions(l1), Mentions(front), LineMention(last);
      assert Mentions(l2) == mf + ml;
      ConcatAssoc(m1, mf, ml);
    }
  }

  /** Every mention is positive, has a context of at most 103 characters and
      carries the rank parsed from a line of the input. */
  lemma {:induction false} MentionsShape(lines: seq<string>)
    ensures forall m :: m in Mentions(lines) ==>
      m.sentiment == Positive && |m.context| <= 103 &&
      exists k :: 0 <= k < |lines| && ParseListItem(lines[k]).Some? && ParseListItem(lines[k]).value.rank == m.rank
  {
    if lines != [] {
      var front := lines[..|lines| - 1];
      MentionsShape(front);
      forall m | m in Mentions(lines)
        ensures m.sentiment == Positive && |m.context| <= 103
        ensures exists k :: 0 <= k < |lines| && ParseListItem(lines[k]).Some? && ParseListItem(lines[k]).value.rank == m.rank
      {
        if m in Mentions(front) {
          var k :| 0 <= k < |front| && ParseListItem(front[k]).Some? && ParseListItem(front[k]).value.rank == m.rank;
          assert lines[k] == front[k];
        } else {
          assert ParseListItem(lines[|lines| - 1]).Some?;
        }
      }
    }
  }

  // ---------------------------------------------------------------------
  // The user's brand in the list

  /** A line of the list whose trimmed name fuzzily contains the user's brand. */
  predicate IsUserLine(line: string, brand: string) {
    ParseListItem(line).Some? && IsBrandMatch(Trim(ParseListItem(line).value.name), brand)
  }

  /** The test applied to each line in search of the user's brand. */
  function UserLine(brand: string): string -> bool {
    line => IsUserLine(line, brand)
  }

  /** The mention of the last list line naming the user's brand: each such
      line overwrites the rank and context found before it. */
  function LastUserMention(lines: seq<string>, brand: string): (r: Option<Mention>)
    ensures r.Some? ==> r.value.sentiment == Positive
  {
    match LastWhere(lines, UserLine(brand))
    case None => None
    case Some(k) => Some(LineMention(lines[k])[0])
  }

  /** The user's brand is found in the list exactly when some line names it. */
  lemma LastUserMentionNone(lines: seq<string>, brand: string)
    ensures LastUserMention(lines, brand).None? <==> forall k :: 0 <= k < |lines| ==> !IsUserLine(lines[k], brand)
  {
    var isUser := UserLine(brand);
    var r := LastWhere(lines, isUser);
    if r.Some? {
      assert isUser(lines[r.value]);
    }
  }

  /** What is found is the mention of the last line naming the brand. */
  lemma LastUserMentionIsLast(lines: seq<string>, brand: string)
    ensures LastUserMention(lines, brand).Some? ==>
      exists k ::
        && 0 <= k < |lines| && IsUserLine(lines[k], brand)
        && LineMention(lines[k]) == [LastUserMention(lines, brand).value]
        && forall j :: k < j < |lines| ==> !IsUserLine(lines[j], brand)
  {
    var isUser := UserLine(brand);
    var r := LastWhere(lines, isUser);
    if r.Some? {
      assert isUser(lines[r.value]);
    }
  }

  /** One more line: it either becomes the last user line or leaves the result unchanged. */
  lemma LastUserMentionSnoc(lines: seq<string>, line: string, brand: string)
    ensures LastUserMention(lines + [line], brand) ==
      if IsUserLine(line, brand) then Some(LineMention(line)[0]) else LastUserMention(lines, brand)
  {
    var xs := lines + [line];
    assert xs[..|xs| - 1] == lines;
  }

  /** Lines appended after `l1` take over the user's mention when one of them names the brand. */
  lemma {:induction false} LastUserMentionConcat(l1: seq<string>, l2: seq<string>, brand: string)
    ensures LastUserMention(l1 + l2, brand) ==
      if LastUserMention(l2, brand).Some? then LastUserMention(l2, brand) else LastUserMention(l1, brand)
    decreases |l2|
  {
    if l2 == [] {
      assert l1 + l2 == l1;
    } else {
      var front := l2[..|l2| - 1];
      var line := l2[|l2| - 1];
      assert l2 == front + [line];
      assert l1 + l2 == (l1 + front) + [line];
      LastUserMentionSnoc(l1 + front, line, brand);
      LastUserMentionSnoc(front, line, brand);
      LastUserMentionConcat(l1, front, brand);
    }
  }

  // ---------------------------------------------------------------------
  // Sentences

  predicate IsSentenceEnd(c: char) { c == '.' || c == '!' || c == '?' }

  /** Index of the first `.`, `!` or `?` of `s`, or |s|. */
  function SentenceEnd(s: string): (i: nat)
    ensures i <= |s|
    ensures forall k :: 0 <= k < i ==> !IsSentenceEnd(s[k])
    ensures i < |s| ==> IsSentenceEnd(s[i])
  {
    if s == [] || IsSentenceEnd(s[0]) then 0 else 1 + SentenceEnd(s[1..])
  }

  /** `s.split(/[.!?]+/)`: the pieces between maximal runs of `.`, `!` and `?`. */
  function SplitSentences(s: string): (parts: seq<string>)
    ensures |parts| >= 1
    ensures forall k, j :: 0 <= k < |parts| && 0 <= j < |parts[k]| ==> !IsSentenceEnd(parts[k][j])
    decreases |s|
  {
    var i := SentenceEnd(s);
    if i == |s| then [s]
    else
      var j := RunEnd(s, i, IsSentenceEnd);
      [s[..i]] + SplitSentences(s[j..])
  }

  /** A separator `split(/[.!?]+/)` removes: a non-empty run of `.`, `!` and `?`. */
  predicate SentenceRun(r: string) {
    r != [] && forall k :: 0 <= k < |r| ==> IsSentenceEnd(r[k])
  }

  /** `parts[0] + seps[0] + parts[1] + ... + parts[|seps|]`. */
  function Interleave(parts: seq<string>, seps: seq<string>): (s: string)
    requires |parts| == |seps| + 1
    ensures parts[0] <= s
    decreases |seps|
  {
    if seps == [] then parts[0] else parts[0] + seps[0] + Interleave(parts[1..], seps[1..])
  }

  /** The separators `split(/[.!?]+/)` removes from `s`, in order. */
  function SentenceSeparators(s: string): (seps: seq<string>)
    ensures |seps| + 1 == |SplitSentences(s)|
    ensures forall k :: 0 <= k < |seps| ==> SentenceRun(seps[k])
    decreases |s|
  {
    var i := SentenceEnd(s);
    if i == |s| then []
    else
      var j := RunEnd(s, i, IsSentenceEnd);
      [s[i..j]] + SentenceSeparators(s[j..])
  }

  /** Nothing is lost: putting the separators back between the pieces gives
      the text again. */
  lemma {:induction false} SplitSentencesRejoin(s: string)
    ensures Interleave(SplitSentences(s), SentenceSeparators(s)) == s
    decreases |s|
  {
    var i := SentenceEnd(s);
    if i < |s| {
      var j := RunEnd(s, i, IsSentenceEnd);
      SplitSentencesRejoin(s[j..]);
      InterleaveCons(s[..i], s[i..j], SplitSentences(s[j..]), SentenceSeparators(s[j..]));
      SliceThree(s, i, j);
    }
  }

  lemma InterleaveCons(p: string, sep: string, parts: seq<string>, seps: seq<string>)
    requires |parts| == |seps| + 1
    ensures Interleave([p] + parts, [sep] + seps) == p + sep + Interleave(parts, seps)
  {
    assert ([p] + parts)[1..] == parts;
    assert ([sep] + seps)[1..] == seps;
  }

  /** Only the pieces between two separators are sure to be non-empty: the
      first and the last are empty when the text starts or ends with a
      separator. */
  lemma {:induction false} SplitSentencesInnerNonEmpty(s: string)
    ensures forall k :: 0 < k < |SplitSentences(s)| - 1 ==> SplitSentences(s)[k] != []
    decreases |s|
  {
    var i := SentenceEnd(s);
    if i < |s| {
      var j := RunEnd(s, i, IsSentenceEnd);
      var rest := s[j..];
      SplitSentencesInnerNonEmpty(rest);
      if |SplitSentences(rest)| > 1 {
        assert SentenceEnd(rest) < |rest|;
        assert SplitSentences(rest)[0] == rest[..SentenceEnd(rest)];
        assert !IsSentenceEnd(rest[0]);
      }
      assert forall k :: 0 < k < |SplitSentences(s)| ==> SplitSentences(s)[k] == SplitSentences(rest)[k - 1];
    }
  }

  /** Pieces without `.`, `!` or `?`, separators made of them, and no empty
      piece between two separators. */
  predicate Splittable(parts: seq<string>, seps: seq<string>) {
    && |parts| == |seps| + 1
    && (forall k, c :: 0 <= k < |parts| && c in parts[k] ==> !IsSentenceEnd(c))
    && (forall k :: 0 <= k < |seps| ==> SentenceRun(seps[k]))
    && (forall k :: 0 < k < |parts| - 1 ==> parts[k] != [])
  }

  lemma SplittableTail(parts: seq<string>, seps: seq<string>)
    requires Splittable(parts, seps) && seps != []
    ensures Splittable(parts[1..], seps[1..])
  {
    assert forall k :: 0 <= k < |parts| - 1 ==> parts[1..][k] == parts[k + 1];
    assert forall k :: 0 <= k < |seps| - 1 ==> seps[1..][k] == seps[k + 1];
  }

  /** Pieces without `.`, `!` or `?`, joined by separator runs, are split
      back into the same pieces and separators. */
  lemma {:induction false} SplitSentencesOfInterleave(parts: seq<string>, seps: seq<string>)
    requires Splittable(parts, seps)
    ensures SplitSentences(Interleave(parts, seps)) == parts
    ensures SentenceSeparators(Interleave(parts, seps)) == seps
    decreases |seps|
  {
    if seps == [] {
      NoSentenceEnd(parts[0]);
    } else {
      InterleaveStep(parts, seps);
      SplittableTail(parts, seps);
      SplitSentencesOfInterleave(parts[1..], seps[1..]);
      var s, i := Interleave(parts, seps), |parts[0]|;
      SplitAfterStep(s, i, i + |seps[0]|, parts, seps);
    }
  }

  lemma NoSentenceEnd(p: string)
    requires forall c :: c in p ==> !IsSentenceEnd(c)
    ensures SplitSentences(p) == [p] && SentenceSeparators(p) == []
  {
    assert forall k :: 0 <= k < |p| ==> p[k] in p;
  }

  lemma SplitAfterStep(s: string, i: nat, j: nat, parts: seq<string>, seps: seq<string>)
    requires |parts| == |seps| + 1 && seps != []
    requires i < |s| && j <= |s| && SentenceEnd(s) == i && RunEnd(s, i, IsSentenceEnd) == j
    requires s[..i] == parts[0] && s[i..j] == seps[0]
    requires SplitSentences(s[j..]) == parts[1..] && SentenceSeparators(s[j..]) == seps[1..]
    ensures SplitSentences(s) == parts && SentenceSeparators(s) == seps
  {
    assert parts == [parts[0]] + parts[1..];
    assert seps == [seps[0]] + seps[1..];
  }

  /** How the scan takes apart `parts[0] + seps[0] + rest`. */
  lemma InterleaveStep(parts: seq<string>, seps: seq<string>)
    requires Splittable(parts, seps) && seps != []
    ensures var s, i := Interleave(parts, seps), |parts[0]|;
      var j := i + |seps[0]|;
      && j <= |s| && SentenceEnd(s) == i && RunEnd(s, i, IsSentenceEnd) == j
      && s[..i] == parts[0] && s[i..j] == seps[0] && s[j..] == Interleave(parts[1..], seps[1..])
  {
    var rest := Interleave(parts[1..], seps[1..]);
    RestStart(parts, seps);
    assert forall c :: c in parts[0] ==> !IsSentenceEnd(c);
    ScanPieces(parts[0], seps[0], rest);
  }

  /** After the first separator comes a character that ends no sentence, or nothing. */
  lemma RestStart(parts: seq<string>, seps: seq<string>)
    requires Splittable(parts, seps) && seps != []
    ensures var rest := Interleave(parts[1..], seps[1..]);
      rest == [] || !IsSentenceEnd(rest[0])
  {
    var ps := parts[1..];
    if ps[0] != [] {
      assert ps[0][0] in parts[1];
    } else {
      assert |parts| == 2;
    }
  }

  lemma ScanPieces(p: string, sep: string, rest: string)
    requires forall c :: c in p ==> !IsSentenceEnd(c)
    requires SentenceRun(sep)
    requires rest == [] || !IsSentenceEnd(rest[0])
    ensures var s, i, j := p + sep + rest, |p|, |p| + |sep|;
      && j <= |s| && SentenceEnd(s) == i && RunEnd(s, i, IsSentenceEnd) == j
      && s[..i] == p && s[i..j] == sep && s[j..] == rest
  {
    var s, i, j := p + sep + rest, |p|, |p| + |sep|;
    ScanFirstEnd(p, sep + rest);
    assert s == p + (sep + rest);
    ScanRun(p, sep, rest);
  }

  lemma ScanFirstEnd(p: string, t: string)
    requires forall c :: c in p ==> !IsSentenceEnd(c)
    requires t != [] && IsSentenceEnd(t[0])
    ensures SentenceEnd(p + t) == |p|
  {
    var s := p + t;
    assert forall k :: 0 <= k < |p| ==> s[k] == p[k] && p[k] in p;
    assert s[|p|] == t[0];
  }

  lemma ScanRun(p: string, sep: string, rest: string)
    requires SentenceRun(sep)
    requires rest == [] || !IsSentenceEnd(rest[0])
    ensures var s, i, j := p + sep + rest, |p|, |p| + |sep|;
      && RunEnd(s, i, IsSentenceEnd) == j
      && s[..i] == p && s[i..j] == sep && s[j..] == rest
  {
    var s, i, j := p + sep + rest, |p|, |p| + |sep|;
    assert forall k :: i <= k < j ==> s[k] == sep[k - i];
    assert j < |s| ==> s[j] == rest[0];
    RunEndExact(s, i, j, IsSentenceEnd);
  }

  /** `sentences.find(s => isBrandMatch(s, brand))`: the first sentence that names the brand. */
  function FirstMatching(sentences: seq<string>, brand: string): (r: Option<string>)
    ensures r.Some? ==> IsBrandMatch(r.value, brand)
  {
    match FirstWhere(sentences, s => IsBrandMatch(s, brand))
    case None => None
    case Some(k) => Some(sentences[k])
  }

  /** No sentence is found exactly when none names the brand. */
  lemma FirstMatchingNone(sentences: seq<string>, brand: string)
    ensures FirstMatching(sentences, brand).None? <==> forall k :: 0 <= k < |sentences| ==> !IsBrandMatch(sentences[k], brand)
  {
    var names := s => IsBrandMatch(s, brand);
    var r := FirstWhere(sentences, names);
    if r.Some? {
      assert names(sentences[r.value]);
    }
  }

  /** The sentence found comes before every other sentence that names the brand. */
  lemma FirstMatchingIsFirst(sentences: seq<string>, brand: string)
    ensures FirstMatching(sentences, brand).Some? ==>
      exists k ::
        && 0 <= k < |sentences| && sentences[k] == FirstMatching(sentences, brand).value
        && forall j :: 0 <= j < k ==> !IsBrandMatch(sentences[j], brand)
  {
    var names := s => IsBrandMatch(s, brand);
    var r := FirstWhere(sentences, names);
    if r.Some? {
      assert names(sentences[r.value]);
    }
  }

  // ---------------------------------------------------------------------
  // The analysis

  /** JavaScript truthiness of the rank: null and 0 are false. */
  predicate RankTruthy(rank: Option<nat>) { rank.Some? && rank.value != 0 }

  const NotRankedSummary: string := "Your brand was mentioned in the text but not ranked."
  const NotMentionedSummary: string := "Your brand was not mentioned in the top results."

  function RankedSummary(rank: nat): string {
    "Your brand was ranked #" + NatToString(rank) + " in the list of recommendations."
  }

  function RankOf(user: Option<Mention>): Option<nat> {
    if user.Some? then Some(user.value.rank) else None
  }

  /** getMockAnalysis as a function of the answer text and the user's brand. */
  function Analyze(text: string, brand: string): (a: Analysis)
    ensures a.totalBrandsMentioned == |a.brandMentions|
    ensures a.citations == FixedCitations
    ensures a.userBrandMentioned <==> a.userBrandRank.Some? || IsBrandMatch(text, brand)
    ensures a.userBrandSentiment == Neutral <==> !RankTruthy(a.userBrandRank) && IsBrandMatch(text, brand)
    ensures a.userBrandSentiment == NotMentioned <==> !a.userBrandMentioned
    ensures a.userBrandSentiment != Negative
    ensures RankTruthy(a.userBrandRank) ==> a.summary == RankedSummary(a.userBrandRank.value)
    ensures !RankTruthy(a.userBrandRank) && a.userBrandMentioned ==> a.summary == NotRankedSummary
    ensures !a.userBrandMentioned ==> a.summary == NotMentionedSummary
  {
    var lines := Split(text, '\n');
    var mentions := Mentions(lines);
    var rank := RankOf(LastUserMention(lines, brand));
    var sentiment :=
      if !RankTruthy(rank) && IsBrandMatch(text, brand) then Neutral
      else if rank.Some? then Positive
      else NotMentioned;
    var summary :=
      if RankTruthy(rank) then RankedSummary(rank.value)
      else if sentiment != NotMentioned then NotRankedSummary
      else NotMentionedSummary;
    Analysis(mentions, FixedCitations, RankTruthy(rank) || sentiment != NotMentioned,
      rank, sentiment, |mentions|, summary)
  }

  /** The context the analyser settles on (computed, but not part of the result). */
  ghost function AnalysisContext(text: string, brand: string): string {
    var user := LastUserMention(Split(text, '\n'), brand);
    var listContext := if user.Some? then user.value.context else "";
    if !RankTruthy(RankOf(user)) && IsBrandMatch(text, brand) then FallbackContext(text, brand, listContext)
    else listContext
  }

  /** The trimmed first sentence naming the brand, if there is one. */
  ghost function FallbackContext(text: string, brand: string, listContext: string): string {
    match FirstMatching(SplitSentences(text), brand)
    case Some(s) => Trim(s)
    case None => listContext
  }

  /** getMockAnalysis: one pass over the lines, then the whole-text fallback. */
  method GetMockAnalysis(aiResponse: string, userBrandName: string) returns (a: Analysis, ghost context: string)
    ensures a == Analyze(aiResponse, userBrandName)
    ensures context == AnalysisContext(aiResponse, userBrandName)
  {
    var lines := Split(aiResponse, '\n');
    var rank: Option<nat> := None;
    var sentiment := NotMentioned;
    context := "";
    var brandMentions: seq<Mention> := [];
    ghost var user: Option<Mention> := None;
    for i := 0 to |lines|
      invariant brandMentions == Mentions(lines[..i])
      invariant user == LastUserMention(lines[..i], userBrandName)
      invariant rank == RankOf(user)
      invariant sentiment == (if user.Some? then Positive else NotMentioned)
      invariant context == (if user.Some? then user.value.context else "")
    {
      var line := lines[i];
      TakeSnoc(lines, i);
      LastUserMentionSnoc(lines[..i], line, userBrandName);
      MentionsSnoc(lines[..i], line);
      var match_ := ParseListItem(line);
      if match_.Some? {
        var it := match_.value;
        var foundRank := it.rank;
        var foundName := Trim(it.name);
        var isUserBrand := IsBrandMatch(foundName, userBrandName);
        var itemContext := Excerpt(Trim(line[it.matchLength..]));
        if isUserBrand {
          rank := Some(foundRank);
          sentiment := Positive;
          context := itemContext;
          user := Some(Mention(foundName, foundRank, itemContext, Positive));
        }
        brandMentions := brandMentions + [Mention(foundName, foundRank, itemContext, Positive)];
      } else {
        ConcatEmpty(brandMentions);
      }
    }
    TakeAll(lines);
    ghost var listContext := context;
    if !RankTruthy(rank) && IsBrandMatch(aiResponse, userBrandName) {
      sentiment := Neutral;
      var sentences := SplitSentences(aiResponse);
      var mentionSentence := FirstMatching(sentences, userBrandName);
      if mentionSentence.Some? {
        context := Trim(mentionSentence.value);
      }
      assert context == FallbackContext(aiResponse, userBrandName, listContext);
    }
    var summary :=
      if RankTruthy(rank) then RankedSummary(rank.value)
      else if sentiment != NotMentioned then NotRankedSummary
      else NotMentionedSummary;
    a := Analysis(brandMentions, FixedCitations, RankTruthy(rank) || sentiment != NotMentioned,
      rank, sentiment, |brandMentions|, summary);
  }
}
