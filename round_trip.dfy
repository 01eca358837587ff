/** The generator and the analyser fit together: analysing an answer that
    getMockAIResponse wrote recovers the ranked brands in order, and finds
    the user's brand at its rank exactly when the draw put it in. */
module RoundTrip {
  import opened Strings
  import opened BrandNames
  import opened MockAnalysis
  import opened MockResponse

  /** A brand name the list pattern reads back unchanged: not empty, no
      white space at either end, and no `*`, `:` or line break. */
  predicate PlainName(s: string) {
    && s != [] && !IsSpace(s[0]) && !IsSpace(s[|s| - 1])
    && '*' !in s && ':' !in s && '\n' !in s
  }

  predicate AllPlain(brands: seq<string>) {
    forall k :: 0 <= k < |brands| ==> PlainName(brands[k])
  }

  /** No name in `names` matches the brand. */
  predicate NoneMatch(names: seq<string>, brand: string) {
    forall c :: c in names ==> !IsBrandMatch(c, brand)
  }

  /** A line the list pattern cannot match: empty, or not opening with a digit. */
  predicate NotNumbered(line: string) {
    line == [] || !IsDigit(line[0])
  }

  function MatchesBrand(brand: string): string -> bool {
    b => IsBrandMatch(b, brand)
  }

  // ---------------------------------------------------------------------
  // The answer as lines

  /** The entry line of the brand at `index`. */
  function Entry(index: nat, brand: string): string {
    EntryHead(index, brand) + EntryRest(index, brand)
  }

  function Entries(brands: seq<string>): (es: seq<string>)
    ensures |es| == |brands|
    ensures forall i :: 0 <= i < |brands| ==> es[i] == Entry(i, brands[i])
  {
    seq(|brands|, i requires 0 <= i < |brands| => Entry(i, brands[i]))
  }

  /** The list as lines: each entry, then an empty line. */
  function ListLines(entries: seq<string>): (lines: seq<string>)
    ensures |lines| == 2 * |entries|
  {
    if entries == [] then []
    else ListLines(entries[..|entries| - 1]) + [entries[|entries| - 1], []]
  }

  /** The lines before the list. */
  function OpeningLines(category: Option<string>, introIndex: nat): seq<string>
    requires introIndex < 3
  {
    [Intros(CategoryText(category))[introIndex], []]
  }

  /** The lines after the list but the last. */
  function ClosingLines(brands: seq<string>, category: Option<string>): seq<string> {
    [SummaryHeading, SummaryLine(BrandAt(brands, 0), BrandAt(brands, 1)), [],
     SourcesTitle, G2Line(category), CapterraLine(category)]
  }

  lemma TwoLines(e: string)
    ensures Terminated([e, []], '\n') == e + "\n\n"
  {
    var empty: seq<string> := [[]];
    assert [e, []][1..] == empty;
    assert empty[1..] == [];
    assert Terminated(empty, '\n') == "\n";
  }

  lemma {:induction false} ListBodyLines(brands: seq<string>, n: nat)
    requires n <= |brands|
    ensures ListBody(brands, n) == Terminated(ListLines(Entries(brands)[..n]), '\n')
  {
    if n > 0 {
      var es := Entries(brands);
      var e := Entry(n - 1, brands[n - 1]);
      ListBodyLines(brands, n - 1);
      assert es[..n][..n - 1] == es[..n - 1];
      TwoLines(e);
      TerminatedConcat(ListLines(es[..n - 1]), [e, []], '\n');
    }
  }

  lemma SummaryAndSources(sh: string, sl: string, st: string, g2: string, cap: string)
    ensures Terminated([sh, sl, [], st, g2, cap], '\n') == sh + "\n" + sl + "\n\n" + st + "\n" + g2 + "\n" + cap + "\n"
  {
    var xs := [sh, sl, [], st, g2, cap];
    assert xs[1..] == [sl, [], st, g2, cap];
    assert xs[1..][1..] == [[], st, g2, cap];
    assert xs[1..][1..][1..] == [st, g2, cap];
    assert xs[1..][1..][1..][1..] == [g2, cap];
    assert xs[1..][1..][1..][1..][1..] == [cap];
    var last: seq<string> := [cap];
    assert last[1..] == [];
    assert Terminated(last, '\n') == cap + "\n";
    assert Terminated([g2, cap], '\n') == g2 + "\n" + cap + "\n";
    assert Terminated([st, g2, cap], '\n') == st + "\n" + g2 + "\n" + cap + "\n";
    assert Terminated([[], st, g2, cap], '\n') == "\n" + st + "\n" + g2 + "\n" + cap + "\n";
  }

  lemma GroupClosingLines(x: string, sb: string, st: string, g2: string, cap: string, tr: string)
    ensures x + sb + st + "\n" + g2 + "\n" + cap + "\n" + tr == x + (sb + st + "\n" + g2 + "\n" + cap + "\n") + tr
  {
  }

  /** The answer is its lines, each but the last followed by a line break. */
  lemma ResponseTextLines(brands: seq<string>, category: Option<string>, introIndex: nat)
    requires introIndex < 3
    ensures ResponseText(brands, category, introIndex)
      == Terminated(OpeningLines(category, introIndex) + ListLines(Entries(brands)) + ClosingLines(brands, category), '\n')
         + TechRadarLine(category)
  {
    var intro := Intros(CategoryText(category))[introIndex];
    var a := OpeningLines(category, introIndex);
    var b := ListLines(Entries(brands));
    var sl := SummaryLine(BrandAt(brands, 0), BrandAt(brands, 1));
    TwoLines(intro);
    ListBodyLines(brands, |brands|);
    TakeAll(Entries(brands));
    SummaryAndSources(SummaryHeading, sl, SourcesTitle, G2Line(category), CapterraLine(category));
    TerminatedConcat(a, b, '\n');
    TerminatedConcat(a + b, ClosingLines(brands, category), '\n');
    GroupClosingLines(intro + "\n\n" + ListBody(brands, |brands|), SummaryBlock(BrandAt(brands, 0), BrandAt(brands, 1)),
      SourcesTitle, G2Line(category), CapterraLine(category), TechRadarLine(category));
  }

  // ---------------------------------------------------------------------
  // The templates hold no line break (one small lemma per piece of text)

  lemma Description1OnOneLine() ensures '\n' !in Description1 {}
  lemma Description2OnOneLine() ensures '\n' !in Description2 {}
  lemma Description3OnOneLine() ensures '\n' !in Description3 {}
  lemma Description4OnOneLine() ensures '\n' !in Description4 {}
  lemma Description5OnOneLine() ensures '\n' !in Description5 {}
  lemma Description6OnOneLine() ensures '\n' !in Description6 {}

  lemma DescriptionsOnOneLine()
    ensures forall i :: 0 <= i < |Descriptions| ==> '\n' !in Descriptions[i]
  {
    Description1OnOneLine();
    Description2OnOneLine();
    Description3OnOneLine();
    Description4OnOneLine();
    Description5OnOneLine();
    Description6OnOneLine();
  }

  lemma IntroEdgesOnOneLine()
    ensures '\n' !in Intro1Start && '\n' !in Intro2Start && '\n' !in Intro2End && '\n' !in Intro3End
  {}
  lemma Intro1EndOnOneLine() ensures '\n' !in Intro1End {}
  lemma Intro3StartOnOneLine() ensures '\n' !in Intro3Start {}
  lemma SummaryEdgesOnOneLine() ensures '\n' !in SummaryLead && '\n' !in SummaryClose {}
  lemma SummaryMiddleOnOneLine() ensures '\n' !in SummaryMiddle {}
  lemma G2OnOneLine() ensures '\n' !in G2Start && '\n' !in G2Middle {}
  lemma CapterraOnOneLine() ensures '\n' !in CapterraStart && '\n' !in CapterraMiddle {}
  lemma TechRadarOnOneLine() ensures '\n' !in TechRadarStart {}

  /** No line of `lines` holds a line break. */
  predicate OneLineEach(lines: seq<string>) {
    forall k :: 0 <= k < |lines| ==> '\n' !in lines[k]
  }

  lemma IntroOnOneLine(category: string, introIndex: nat)
    requires '\n' !in category && introIndex < 3
    ensures '\n' !in Intros(category)[introIndex]
  {
    IntroEdgesOnOneLine();
    Intro1EndOnOneLine();
    Intro3StartOnOneLine();
  }

  lemma EntryOnOneLine(index: nat, brand: string)
    requires '\n' !in brand
    ensures '\n' !in Entry(index, brand)
  {
    DescriptionsOnOneLine();
    var ds := NatToString(index + 1);
    assert forall k :: 0 <= k < |ds| ==> IsDigit(ds[k]);
  }

  lemma SummaryLineOnOneLine(first: string, second: string)
    requires '\n' !in first && '\n' !in second
    ensures '\n' !in SummaryLine(first, second)
  {
    SummaryEdgesOnOneLine();
    SummaryMiddleOnOneLine();
  }

  lemma SlugOnOneLine(category: Option<string>)
    ensures '\n' !in Slug(category)
  {
    var slug := Slug(category);
    assert IsSpace('\n');
    assert forall k :: 0 <= k < |slug| ==> slug[k] != '\n';
  }

  lemma G2LineOnOneLine(category: Option<string>)
    requires '\n' !in CategoryText(category)
    ensures '\n' !in G2Line(category)
  {
    G2OnOneLine();
    SlugOnOneLine(category);
  }

  lemma CapterraLineOnOneLine(category: Option<string>)
    requires '\n' !in CategoryText(category)
    ensures '\n' !in CapterraLine(category)
  {
    CapterraOnOneLine();
    SlugOnOneLine(category);
  }

  lemma TechRadarLineOnOneLine(category: Option<string>)
    ensures '\n' !in TechRadarLine(category)
  {
    TechRadarOnOneLine();
    SlugOnOneLine(category);
  }

  lemma SourceLinesOnOneLine(category: Option<string>)
    requires '\n' !in CategoryText(category)
    ensures '\n' !in G2Line(category) && '\n' !in CapterraLine(category) && '\n' !in TechRadarLine(category)
  {
    G2LineOnOneLine(category);
    CapterraLineOnOneLine(category);
    TechRadarLineOnOneLine(category);
  }

  lemma {:induction false} ListLinesOnOneLine(entries: seq<string>)
    requires OneLineEach(entries)
    ensures OneLineEach(ListLines(entries))
  {
    if entries != [] {
      ListLinesOnOneLine(entries[..|entries| - 1]);
    }
  }

  /** The empty lines between the entries yield no mention. */
  lemma {:induction false} ListLinesMentions(entries: seq<string>)
    ensures Mentions(ListLines(entries)) == Mentions(entries)
  {
    if entries != [] {
      var front := entries[..|entries| - 1];
      var e := entries[|entries| - 1];
      var lf := ListLines(front);
      ListLinesMentions(front);
      assert ListLines(entries) == (lf + [e]) + [[]];
      MentionsSnoc(lf + [e], []);
      MentionsSnoc(lf, e);
      assert LineMention([]) == [];
    }
  }

  /** The user's mention in the list's lines is that of the last entry naming the brand. */
  lemma {:induction false} ListLinesUser(entries: seq<string>, brand: string)
    ensures LastUserMention(ListLines(entries), brand) ==
      match LastWhere(entries, UserLine(brand))
      case None => None
      case Some(k) => Some(LineMention(entries[k])[0])
  {
    if entries != [] {
      var front := entries[..|entries| - 1];
      var e := entries[|entries| - 1];
      var lf := ListLines(front);
      ListLinesUser(front, brand);
      assert ListLines(entries) == (lf + [e]) + [[]];
      LastUserMentionSnoc(lf + [e], [], brand);
      LastUserMentionSnoc(lf, e, brand);
    }
  }

  /** Lines the list pattern cannot match yield no mention and no user mention. */
  lemma {:induction false} NoListLines(lines: seq<string>, brand: string)
    requires forall k :: 0 <= k < |lines| ==> NotNumbered(lines[k])
    ensures Mentions(lines) == []
    ensures LastUserMention(lines, brand).None?
  {
    LastUserMentionNone(lines, brand);
    if lines != [] {
      NoListLines(lines[..|lines| - 1], brand);
      assert ParseListItem(lines[|lines| - 1]).None?;
    }
  }

  /** Every description ends with a full stop. */
  lemma DescriptionsEndWithStop()
    ensures forall i :: 0 <= i < |Descriptions| ==>
      Descriptions[i] != [] && Descriptions[i][|Descriptions[i]| - 1] == '.'
  {
  }

  /** The mention the analyser reads from the entry of the brand at `index`. */
  function EntryMentionOf(index: nat, brand: string): Mention {
    Mention(brand, index + 1, Excerpt(brand + " " + Descriptions[index % |Descriptions|]), Positive)
  }

  /** The text after a name, as the analyser trims it. */
  lemma PaddedTrim(name: string, d: string)
    requires name != [] && !IsSpace(name[0])
    requires d != [] && !IsSpace(d[|d| - 1])
    ensures Trim(" " + name + " " + d) == name + " " + d
  {
    var x := name + " " + d;
    assert " " + name + " " + d == [' '] + x;
    TrimDropsLeadingSpace(' ', x);
    assert x[|x| - 1] == d[|d| - 1];
    TrimOfTrimmed(x);
  }

  /** An entry has the shape of a list item of rank `index + 1` named by
      the brand, and its match ends where the head ends. */
  lemma EntryShape(index: nat, brand: string)
    requires PlainName(brand)
    ensures var line := Entry(index, brand);
      var d := |NatToString(index + 1)|;
      && ItemShape(line, d, d + 4 + |brand|, index + 1)
      && line[d + 4..d + 4 + |brand|] == brand
      && |EntryHead(index, brand)| == d + 4 + |brand| + 3
      && line[|EntryHead(index, brand)|..] == EntryRest(index, brand)
  {
    assert forall c :: c in brand ==> IsNameChar(c);
    var ds := NatToString(index + 1);
    var rest := EntryRest(index, brand);
    ParseNatToString(index + 1);
    assert Entry(index, brand) == RenderedLine(ds, brand, rest);
    RenderedShape(ds, index + 1, brand, rest);
    RenderedRest(Entry(index, brand), ds, brand, rest, |EntryHead(index, brand)|);
  }

  /** An entry is matched with rank `index + 1` and the brand as its name,
      and the rest of the entry follows the match. */
  lemma EntryParsed(index: nat, brand: string)
    requires PlainName(brand)
    ensures var line := Entry(index, brand);
      var n := |EntryHead(index, brand)|;
      && ParseListItem(line) == Some(ListItem(index + 1, brand, n))
      && line[n..] == EntryRest(index, brand)
  {
    EntryShape(index, brand);
    var d := |NatToString(index + 1)|;
    ParseItemShape(Entry(index, brand), d, d + 4 + |brand|, index + 1, brand, |EntryHead(index, brand)|);
  }

  /** An entry is read back as the brand at rank `index + 1`, with the name
      and the description as context, and it is a line of the user's brand
      exactly when the brand matches. */
  lemma EntryMention(index: nat, brand: string, user: string)
    requires PlainName(brand)
    ensures LineMention(Entry(index, brand)) == [EntryMentionOf(index, brand)]
    ensures IsUserLine(Entry(index, brand), user) <==> IsBrandMatch(brand, user)
  {
    EntryParsed(index, brand);
    DescriptionsEndWithStop();
    PaddedTrim(brand, Descriptions[index % |Descriptions|]);
    TrimOfTrimmed(brand);
  }

  /** The mentions the analyser should read from the list of `brands`. */
  function EntryMentions(brands: seq<string>): (ms: seq<Mention>)
    ensures |ms| == |brands|
    ensures forall k :: 0 <= k < |brands| ==> ms[k] == EntryMentionOf(k, brands[k])
  {
    seq(|brands|, k requires 0 <= k < |brands| => EntryMentionOf(k, brands[k]))
  }

  lemma EntryMentionsSnoc(brands: seq<string>)
    requires brands != []
    ensures EntryMentions(brands)
      == EntryMentions(brands[..|brands| - 1]) + [EntryMentionOf(|brands| - 1, brands[|brands| - 1])]
  {
  }

  lemma EntriesSnoc(brands: seq<string>)
    requires brands != []
    ensures Entries(brands) == Entries(brands[..|brands| - 1]) + [Entry(|brands| - 1, brands[|brands| - 1])]
  {
  }

  /** The entries yield one mention per brand, in ranking order. */
  lemma {:induction false} MentionsOfEntries(brands: seq<string>)
    requires AllPlain(brands)
    ensures Mentions(Entries(brands)) == EntryMentions(brands)
  {
    if brands != [] {
      var n := |brands| - 1;
      var front := brands[..n];
      MentionsOfEntries(front);
      EntriesSnoc(brands);
      MentionsSnoc(Entries(front), Entry(n, brands[n]));
      EntryMention(n, brands[n], []);
      EntryMentionsSnoc(brands);
    }
  }

  /** The entry naming the user's brand last is that of the last brand matching it. */
  lemma EntriesUser(brands: seq<string>, user: string)
    requires AllPlain(brands)
    ensures LastWhere(Entries(brands), UserLine(user)) == LastWhere(brands, MatchesBrand(user))
  {
    var es := Entries(brands);
    forall k | 0 <= k < |es|
      ensures UserLine(user)(es[k]) <==> MatchesBrand(user)(brands[k])
    {
      EntryMention(k, brands[k], user);
    }
    LastWhereAgree(es, UserLine(user), brands, MatchesBrand(user));
  }

  /** The mention of the entry of the last brand matching the user's brand. */
  function EntryUserMention(brands: seq<string>, user: string): Option<Mention> {
    match LastWhere(brands, MatchesBrand(user))
    case None => None
    case Some(p) => Some(EntryMentionOf(p, brands[p]))
  }

  /** The user's mention in the list is the entry of the last brand matching the user's brand. */
  lemma ListUserMention(brands: seq<string>, user: string)
    requires AllPlain(brands)
    ensures LastUserMention(ListLines(Entries(brands)), user) == EntryUserMention(brands, user)
  {
    ListLinesUser(Entries(brands), user);
    EntriesUser(brands, user);
    var r := LastWhere(brands, MatchesBrand(user));
    if r.Some? {
      EntryMention(r.value, brands[r.value], user);
    }
  }

  /** The introduction and the empty line after it are not list lines. */
  lemma OpeningNotNumbered(category: Option<string>, introIndex: nat)
    requires introIndex < 3
    ensures forall k :: 0 <= k < |OpeningLines(category, introIndex)| ==> NotNumbered(OpeningLines(category, introIndex)[k])
  {
    var c := CategoryText(category);
    assert Intro1Start[0] == 'W' && Intro2Start[0] == 'H' && Intro3Start[0] == 'B';
    assert (Intro1Start + c + Intro1End)[0] == Intro1Start[0];
    assert (Intro2Start + c + Intro2End)[0] == Intro2Start[0];
    assert (Intro3Start + c + Intro3End)[0] == Intro3Start[0];
  }

  lemma SummaryFirstChars(first: string, second: string)
    ensures SummaryHeading[0] == '#' && SummaryLine(first, second)[0] == 'F'
  {
    assert SummaryLead[0] == 'F';
  }

  lemma SourceFirstChars(category: Option<string>)
    ensures SourcesTitle[0] == '#'
    ensures G2Line(category)[0] == '-' && CapterraLine(category)[0] == '-' && TechRadarLine(category)[0] == '-'
  {
    assert G2Start[0] == '-' && CapterraStart[0] == '-' && TechRadarStart[0] == '-';
  }

  /** The summary and the sources are not list lines. */
  lemma ClosingNotNumbered(brands: seq<string>, category: Option<string>)
    ensures forall k :: 0 <= k < |ClosingLines(brands, category)| ==> NotNumbered(ClosingLines(brands, category)[k])
    ensures NotNumbered(TechRadarLine(category))
  {
    var sl := SummaryLine(BrandAt(brands, 0), BrandAt(brands, 1));
    SummaryFirstChars(BrandAt(brands, 0), BrandAt(brands, 1));
    SourceFirstChars(category);
    SixNotNumbered(SummaryHeading, sl, [], SourcesTitle, G2Line(category), CapterraLine(category));
  }

  lemma SixNotNumbered(l0: string, l1: string, l2: string, l3: string, l4: string, l5: string)
    requires NotNumbered(l0) && NotNumbered(l1) && NotNumbered(l2)
    requires NotNumbered(l3) && NotNumbered(l4) && NotNumbered(l5)
    ensures var lines := [l0, l1, l2, l3, l4, l5];
      forall k :: 0 <= k < |lines| ==> NotNumbered(lines[k])
  {
  }

  lemma OneLineEachConcat(a: seq<string>, b: seq<string>)
    requires OneLineEach(a) && OneLineEach(b)
    ensures OneLineEach(a + b)
  {
    forall k | 0 <= k < |a + b|
      ensures '\n' !in (a + b)[k]
    {
      if k >= |a| {
        assert (a + b)[k] == b[k - |a|];
      }
    }
  }

  lemma SixOnOneLine(l0: string, l1: string, l2: string, l3: string, l4: string, l5: string)
    requires '\n' !in l0 && '\n' !in l1 && '\n' !in l2
    requires '\n' !in l3 && '\n' !in l4 && '\n' !in l5
    ensures OneLineEach([l0, l1, l2, l3, l4, l5])
  {
  }

  lemma BrandAtOnOneLine(brands: seq<string>, i: nat)
    requires AllPlain(brands)
    ensures '\n' !in BrandAt(brands, i)
  {
    if i < |brands| {
      assert PlainName(brands[i]);
    }
  }

  lemma ClosingOnOneLine(brands: seq<string>, category: Option<string>)
    requires AllPlain(brands) && '\n' !in CategoryText(category)
    ensures OneLineEach(ClosingLines(brands, category))
    ensures '\n' !in TechRadarLine(category)
  {
    BrandAtOnOneLine(brands, 0);
    BrandAtOnOneLine(brands, 1);
    SummaryLineOnOneLine(BrandAt(brands, 0), BrandAt(brands, 1));
    SourceLinesOnOneLine(category);
    assert '\n' !in SummaryHeading && '\n' !in SourcesTitle;
    SixOnOneLine(SummaryHeading, SummaryLine(BrandAt(brands, 0), BrandAt(brands, 1)), [],
      SourcesTitle, G2Line(category), CapterraLine(category));
  }

  lemma EntriesOnOneLine(brands: seq<string>)
    requires AllPlain(brands)
    ensures OneLineEach(ListLines(Entries(brands)))
  {
    var es := Entries(brands);
    forall k | 0 <= k < |es|
      ensures '\n' !in es[k]
    {
      assert PlainName(brands[k]);
      EntryOnOneLine(k, brands[k]);
    }
    ListLinesOnOneLine(es);
  }

  /** No line of the answer holds a line break. */
  lemma ResponseOnOneLine(brands: seq<string>, category: Option<string>, introIndex: nat)
    requires introIndex < 3 && AllPlain(brands) && '\n' !in CategoryText(category)
    ensures OneLineEach(OpeningLines(category, introIndex) + ListLines(Entries(brands)) + ClosingLines(brands, category))
    ensures '\n' !in TechRadarLine(category)
  {
    var o := OpeningLines(category, introIndex);
    var l := ListLines(Entries(brands));
    IntroOnOneLine(CategoryText(category), introIndex);
    assert OneLineEach(o);
    EntriesOnOneLine(brands);
    ClosingOnOneLine(brands, category);
    OneLineEachConcat(o, l);
    OneLineEachConcat(o + l, ClosingLines(brands, category));
  }

  /** The lines the analyser splits the answer into. */
  lemma ResponseLines(brands: seq<string>, category: Option<string>, introIndex: nat)
    requires introIndex < 3 && AllPlain(brands) && '\n' !in CategoryText(category)
    ensures Split(ResponseText(brands, category, introIndex), '\n')
      == OpeningLines(category, introIndex) + ListLines(Entries(brands)) + ClosingLines(brands, category)
         + [TechRadarLine(category)]
  {
    var lines := OpeningLines(category, introIndex) + ListLines(Entries(brands)) + ClosingLines(brands, category);
    ResponseOnOneLine(brands, category, introIndex);
    ResponseTextLines(brands, category, introIndex);
    SplitTerminated(lines, TechRadarLine(category), '\n');
  }

  /** The analyser reads back one mention per ranked brand, in ranking order. */
  lemma ResponseMentions(brands: seq<string>, category: Option<string>, introIndex: nat)
    requires introIndex < 3 && AllPlain(brands) && '\n' !in CategoryText(category)
    ensures Mentions(Split(ResponseText(brands, category, introIndex), '\n')) == EntryMentions(brands)
  {
    var o := OpeningLines(category, introIndex);
    var l := ListLines(Entries(brands));
    var c := ClosingLines(brands, category);
    var t := TechRadarLine(category);
    ResponseLines(brands, category, introIndex);
    OpeningNotNumbered(category, introIndex);
    ClosingNotNumbered(brands, category);
    MentionsSnoc(o + l + c, t);
    assert ParseListItem(t).None?;
    MentionsConcat(o + l, c);
    NoListLines(c, []);
    MentionsConcat(o, l);
    NoListLines(o, []);
    ListLinesMentions(Entries(brands));
    MentionsOfEntries(brands);
  }

  /** The analyser finds the user's brand in the list exactly at the entry
      of the last ranked brand that matches it. */
  lemma ResponseUserMention(brands: seq<string>, category: Option<string>, introIndex: nat, user: string)
    requires introIndex < 3 && AllPlain(brands) && '\n' !in CategoryText(category)
    ensures LastUserMention(Split(ResponseText(brands, category, introIndex), '\n'), user)
      == EntryUserMention(brands, user)
  {
    var o := OpeningLines(category, introIndex);
    var l := ListLines(Entries(brands));
    var c := ClosingLines(brands, category);
    var t := TechRadarLine(category);
    ResponseLines(brands, category, introIndex);
    OpeningNotNumbered(category, introIndex);
    ClosingNotNumbered(brands, category);
    LastUserMentionSnoc(o + l + c, t, user);
    assert ParseListItem(t).None?;
    LastUserMentionConcat(o + l, c, user);
    NoListLines(c, user);
    LastUserMentionConcat(o, l, user);
    NoListLines(o, user);
    ListUserMention(brands, user);
  }

  // ---------------------------------------------------------------------
  // The competitor names are read back unchanged

  lemma CrmPlain() ensures AllPlain(CrmCompetitors) {}
  lemma MarketingPlain() ensures AllPlain(MarketingCompetitors) {}
  lemma ProductivityPlain() ensures AllPlain(ProductivityCompetitors) {}
  lemma AiPlain() ensures AllPlain(AiCompetitors) {}
  lemma FinancePlain() ensures AllPlain(FinanceCompetitors) {}
  lemma EcommercePlain() ensures AllPlain(EcommerceCompetitors) {}
  lemma DesignPlain() ensures AllPlain(DesignCompetitors) {}
  lemma DefaultPlain() ensures AllPlain(DefaultCompetitors) {}

  lemma CompetitorsPlain(key: string)
    ensures AllPlain(CompetitorsFor(key))
  {
    CrmPlain();
    MarketingPlain();
    ProductivityPlain();
    AiPlain();
    FinancePlain();
    EcommercePlain();
    DesignPlain();
    DefaultPlain();
  }

  // ---------------------------------------------------------------------
  // Analysing a generated answer

  /** The rank the analyser should report for the user's brand: one more
      than the index of the last ranked brand matching it, if any. */
  function ExpectedRank(brands: seq<string>, user: string): (r: Option<nat>)
    ensures r.Some? ==> 1 <= r.value <= |brands|
  {
    match LastWhere(brands, MatchesBrand(user))
    case None => None
    case Some(p) => Some(p + 1)
  }

  /** No rank exactly when no brand matches. */
  lemma ExpectedRankNone(brands: seq<string>, user: string)
    ensures ExpectedRank(brands, user).None? <==> forall k :: 0 <= k < |brands| ==> !IsBrandMatch(brands[k], user)
  {
    var matches := MatchesBrand(user);
    var r := LastWhere(brands, matches);
    if r.Some? {
      assert matches(brands[r.value]);
    }
  }

  /** The user's brand has a rank, and it is the user's brand that stands at that place. */
  predicate RankedAt(brands: seq<string>, user: string) {
    ExpectedRank(brands, user).Some? && brands[ExpectedRank(brands, user).value - 1] == user
  }

  /** When the user's brand is the only brand matching it, it is ranked at its
      own place. */
  lemma ExpectedRankOnly(brands: seq<string>, user: string)
    requires user in brands && IsBrandMatch(user, user)
    requires forall y :: y in brands && IsBrandMatch(y, user) ==> y == user
    ensures RankedAt(brands, user)
  {
    var matches := MatchesBrand(user);
    assert matches(user);
    forall y | y in brands && matches(y)
      ensures y == user
    {
      assert IsBrandMatch(y, user);
    }
    LastWhereOnly(brands, matches, user);
    var p := LastWhere(brands, matches).value;
    assert ExpectedRank(brands, user).value - 1 == p;
  }

  /** A rank is that of a brand that matches. */
  lemma ExpectedRankMatches(brands: seq<string>, user: string)
    ensures ExpectedRank(brands, user).Some? ==> IsBrandMatch(brands[ExpectedRank(brands, user).value - 1], user)
  {
    var matches := MatchesBrand(user);
    var r := LastWhere(brands, matches);
    if r.Some? {
      var p := r.value;
      assert ExpectedRank(brands, user).value - 1 == p;
      assert matches(brands[p]);
    }
  }

  /** Analysing the answer written for a ranking recovers the ranking: one
      mention per brand, in order, with ranks 1, 2, ..., and the user's brand
      at the rank of the last brand that matches it. */
  lemma AnalyseResponse(brands: seq<string>, category: Option<string>, introIndex: nat, user: string)
    requires introIndex < 3 && AllPlain(brands) && '\n' !in CategoryText(category)
    ensures var a := Analyze(ResponseText(brands, category, introIndex), user);
      && a.brandMentions == EntryMentions(brands)
      && a.totalBrandsMentioned == |brands|
      && a.userBrandRank == ExpectedRank(brands, user)
  {
    ResponseMentions(brands, category, introIndex);
    ResponseUserMention(brands, category, introIndex, user);
    EntryUserRank(brands, user);
  }

  /** The rank of the user's entry is the expected rank. */
  lemma EntryUserRank(brands: seq<string>, user: string)
    ensures RankOf(EntryUserMention(brands, user)) == ExpectedRank(brands, user)
  {
  }

  /** A brand ranked in the list is reported as mentioned, positive, and at its rank in the summary. */
  lemma RankedAnalysis(text: string, brand: string)
    requires Analyze(text, brand).userBrandRank.Some? && Analyze(text, brand).userBrandRank.value != 0
    ensures var a := Analyze(text, brand);
      a.userBrandMentioned && a.userBrandSentiment == Positive && a.summary == RankedSummary(a.userBrandRank.value)
  {
  }

  lemma SubsetPlain(xs: seq<string>, ys: seq<string>)
    requires AllPlain(ys)
    requires forall c :: c in xs ==> c in ys
    ensures AllPlain(xs)
  {
    forall k | 0 <= k < |xs|
      ensures PlainName(xs[k])
    {
      assert xs[k] in ys;
    }
  }

  /** When the draw mentions the user's brand and no candidate matches it,
      the rank found is that of the user's brand itself. */
  lemma RankingWithUser(candidates: seq<string>, brand: string, ch: Choices)
    requires brand != [] && ch.mentionUser
    requires NoneMatch(candidates, brand)
    ensures RankedAt(Ranking(candidates, brand, ch), brand)
  {
    var fb := Ranking(candidates, brand, ch);
    RankingContents(candidates, brand, ch);
    BrandMatchReflexive(brand);
    forall y | y in fb && IsBrandMatch(y, brand)
      ensures y == brand
    {
      assert y !in candidates;
    }
    ExpectedRankOnly(fb, brand);
  }

  /** Otherwise no rank is found. */
  lemma RankingWithoutUser(candidates: seq<string>, brand: string, ch: Choices)
    requires !ch.mentionUser
    requires NoneMatch(candidates, brand)
    ensures ExpectedRank(Ranking(candidates, brand, ch), brand).None?
  {
    var fb := Ranking(candidates, brand, ch);
    RankingContents(candidates, brand, ch);
    ExpectedRankNone(fb, brand);
    forall k | 0 <= k < |fb|
      ensures !IsBrandMatch(fb[k], brand)
    {
      assert fb[k] in fb;
    }
  }

  /** The competitors left for a brand are read back unchanged ... */
  lemma CandidatesPlain(brand: string, category: Option<string>)
    ensures AllPlain(CandidateCompetitors(brand, category))
  {
    var cs := CompetitorsFor(CategoryKey(category));
    CompetitorsPlain(CategoryKey(category));
    SubsetPlain(Retained(cs, brand), cs);
  }

  /** ... and none of them matches the brand. */
  lemma CandidatesDoNotMatch(brand: string, category: Option<string>)
    ensures NoneMatch(CandidateCompetitors(brand, category), brand)
  {
  }

  /** A brand whose normal form is empty (such as "Inc") matches every
      competitor, so none is left: the final brands are the user's brand alone,
      or nothing, and the summary's second brand prints as "undefined". */
  lemma EmptyNormalBrandRanking(brand: string, category: Option<string>, ch: Choices)
    requires brand != [] && Normalize(brand) == []
    ensures CandidateCompetitors(brand, category) == []
    ensures FinalBrands(brand, category, ch) == if ch.mentionUser then [brand] else []
    ensures BrandAt(FinalBrands(brand, category, ch), 1) == "undefined"
  {
    var cs := CompetitorsFor(CategoryKey(category));
    CompetitorsPlain(CategoryKey(category));
    AllMatchEmptyNormal(cs, brand);
    NothingRetained(cs, brand);
    var r := CandidateCompetitors(brand, category);
    var picked := Pick(ApplySwaps(r, ch.competitorOrder), PickCount(ch));
    assert picked == [];
    SingleOrder(WithUser(picked, brand, ch.mentionUser), ch.rankingOrder);
  }

  /** Every non-empty name matches a brand whose normal form is empty. */
  lemma AllMatchEmptyNormal(cs: seq<string>, brand: string)
    requires AllPlain(cs) && brand != [] && Normalize(brand) == []
    ensures forall c :: c in cs ==> IsBrandMatch(c, brand)
  {
    forall c | c in cs
      ensures IsBrandMatch(c, brand)
    {
      ContainsEmpty(Normalize(c));
    }
  }

  /** The filter keeps nothing when every name matches. */
  lemma NothingRetained(cs: seq<string>, brand: string)
    requires forall c :: c in cs ==> IsBrandMatch(c, brand)
    ensures Retained(cs, brand) == []
  {
    var r := Retained(cs, brand);
    assert forall k :: 0 <= k < |r| ==> r[k] in r;
  }

  /** Reordering at most one brand leaves it where it is. */
  lemma SingleOrder(xs: seq<string>, swaps: seq<Swap>)
    requires |xs| <= 1
    ensures ApplySwaps(xs, swaps) == xs
  {
    var r := ApplySwaps(xs, swaps);
    if |xs| == 1 {
      assert r[0] in multiset(r);
      assert r == [r[0]];
    }
  }

  /** A ranking of plain names is read back unchanged. */
  lemma RankingPlain(candidates: seq<string>, brand: string, ch: Choices)
    requires AllPlain(candidates) && PlainName(brand)
    ensures AllPlain(Ranking(candidates, brand, ch))
  {
    RankingContents(candidates, brand, ch);
    SubsetPlain(Ranking(candidates, brand, ch), candidates + [brand]);
  }

  /** The drawn brands are plain names when the user's brand is one. */
  lemma DrawnPlain(brand: string, category: Option<string>, ch: Choices)
    requires PlainName(brand)
    ensures AllPlain(FinalBrands(brand, category, ch))
  {
    CandidatesPlain(brand, category);
    RankingPlain(CandidateCompetitors(brand, category), brand, ch);
  }

  /** When the draw mentions the user's brand, it is ranked at its own place. */
  lemma DrawnWithUser(brand: string, category: Option<string>, ch: Choices)
    requires brand != [] && ch.mentionUser
    ensures RankedAt(FinalBrands(brand, category, ch), brand)
  {
    CandidatesDoNotMatch(brand, category);
    RankingWithUser(CandidateCompetitors(brand, category), brand, ch);
  }

  /** Otherwise it is not ranked. */
  lemma DrawnWithoutUser(brand: string, category: Option<string>, ch: Choices)
    requires !ch.mentionUser
    ensures ExpectedRank(FinalBrands(brand, category, ch), brand).None?
  {
    CandidatesDoNotMatch(brand, category);
    RankingWithoutUser(CandidateCompetitors(brand, category), brand, ch);
  }

  /** The drawn brands are plain names; when the draw mentions the user's
      brand, the last brand matching it is the user's brand itself, and
      otherwise no drawn brand matches it. */
  lemma DrawnBrands(brand: string, category: Option<string>, ch: Choices)
    requires PlainName(brand)
    ensures var fb := FinalBrands(brand, category, ch);
      && AllPlain(fb)
      && (ch.mentionUser ==> ExpectedRank(fb, brand).Some? && fb[ExpectedRank(fb, brand).value - 1] == brand)
      && (!ch.mentionUser ==> ExpectedRank(fb, brand).None?)
  {
    DrawnPlain(brand, category, ch);
    if ch.mentionUser {
      DrawnWithUser(brand, category, ch);
    } else {
      DrawnWithoutUser(brand, category, ch);
    }
  }

  /** The answer for a ranking, analysed for the user's brand: the brands
      are read back in order, and the user's brand has the rank of the last
      brand matching it; when it has one it is reported as mentioned and
      positive, and the summary names that rank. */
  lemma AnalyseDrawn(brands: seq<string>, brand: string, category: Option<string>, introIndex: nat)
    requires introIndex < 3 && AllPlain(brands) && '\n' !in CategoryText(category)
    ensures var a := Analyze(ResponseText(brands, category, introIndex), brand);
      var r := ExpectedRank(brands, brand);
      && a.brandMentions == EntryMentions(brands)
      && a.userBrandRank == r
      && (r.Some? ==> a.userBrandMentioned && a.userBrandSentiment == Positive && a.summary == RankedSummary(r.value))
  {
    AnalyseResponse(brands, category, introIndex, brand);
    if ExpectedRank(brands, brand).Some? {
      RankedAnalysis(ResponseText(brands, category, introIndex), brand);
    }
  }

  /** The answer getMockAIResponse writes, analysed by getMockAnalysis for the
      same brand: every drawn brand is read back at its place in the
      ranking; when the draw mentions the user's brand it is found at the
      place the ranking gave it, reported as mentioned and positive, and
      named in the summary with that rank; otherwise it is not ranked. */
  lemma GeneratedAnswer(brand: string, category: Option<string>, ch: Choices)
    requires PlainName(brand) && '\n' !in CategoryText(category) && ch.introIndex < 3
    ensures var fb := FinalBrands(brand, category, ch);
      var a := Analyze(AnswerText(brand, category, ch), brand);
      var r := ExpectedRank(fb, brand);
      && a.brandMentions == EntryMentions(fb)
      && a.userBrandRank == r
      && (ch.mentionUser ==>
            && r.Some? && fb[r.value - 1] == brand
            && a.userBrandMentioned && a.userBrandSentiment == Positive && a.summary == RankedSummary(r.value))
      && (!ch.mentionUser ==> r.None?)
  {
    DrawnBrands(brand, category, ch);
    AnalyseDrawn(FinalBrands(brand, category, ch), brand, category, ch.introIndex);
  }
}
