/** The offline stand-ins for the AI provider (getMockQueries and
    getMockAIResponse in src/lib/openai.js). Every draw of Math.random is an
    input: the orders produced by the two random-comparator sorts are
    sequences of swaps, and the other draws are fields of `Choices`. */
module MockResponse {
  import opened Strings
  import opened BrandNames

  /** `category || 'software'`, where `None` is an absent category. */
  function OrSoftware(category: Option<string>): (c: string)
    ensures c != []
    ensures category.Some? && category.value != [] ==> c == category.value
  {
    if category.Some? && category.value != [] then category.value else "software"
  }

  /** A category inside a template literal: an absent one reads "undefined". */
  function CategoryText(category: Option<string>): string {
    if category.Some? then category.value else "undefined"
  }

  // ---------------------------------------------------------------------
  // getMockQueries

  const Query1Start: string := "What is the best "
  const Query1End: string := " for small businesses in 2024?"
  const Query2Start: string := "Top rated "
  const Query2End: string := " tools with AI features"
  const Query3Start: string := "Compare "
  const Query3Middle: string := " vs competitors for "
  const Query4Start: string := "Free "
  const Query4End: string := " alternatives for startups"
  const Query5Start: string := "Who are the market leaders in "
  const Query5End: string := "?"

  /** The five canned search queries: every one is about the category (or
      "software"), and the third compares the brand with its competitors. */
  function MockQueries(brandName: string, category: Option<string>): (qs: seq<string>)
    ensures |qs| == 5
    ensures forall i :: 0 <= i < |qs| ==> Contains(qs[i], OrSoftware(category))
    ensures Contains(qs[2], brandName)
    ensures category.None? || category.value == [] ==> forall i :: 0 <= i < |qs| ==> Contains(qs[i], "software")
  {
    var c := OrSoftware(category);
    var third := Query3Start + brandName + Query3Middle + c;
    ContainsBoth(Query3Start, brandName, Query3Middle, c);
    [Around(Query1Start, c, Query1End), Around(Query2Start, c, Query2End), third,
     Around(Query4Start, c, Query4End), Around(Query5Start, c, Query5End)]
  }

  /** A template literal with one interpolation: it contains what is interpolated. */
  function Around(start: string, x: string, end: string): (r: string)
    ensures Contains(r, x)
  {
    ContainsInfix(start, x, end);
    start + x + end
  }

  // ---------------------------------------------------------------------
  // Competitors

  /** The keys of the competitor table, in the order they are searched. */
  const CategoryKeys: seq<string> :=
    ["crm", "marketing", "productivity", "ai", "finance", "ecommerce", "design"]

  const CrmCompetitors: seq<string> := ["Salesforce", "HubSpot", "Zoho", "Pipedrive", "Monday.com"]
  const MarketingCompetitors: seq<string> := ["Marketo", "Mailchimp", "ActiveCampaign", "Semrush", "Ahrefs"]
  const ProductivityCompetitors: seq<string> := ["Notion", "Asana", "ClickUp", "Trello", "Slack"]
  const AiCompetitors: seq<string> := ["Jasper", "Copy.ai", "ChatGPT", "Claude", "Writesonic", "Midjourney"]
  const FinanceCompetitors: seq<string> := ["QuickBooks", "Xero", "FreshBooks", "Wave", "NetSuite"]
  const EcommerceCompetitors: seq<string> := ["Shopify", "WooCommerce", "BigCommerce", "Magento", "Wix"]
  const DesignCompetitors: seq<string> := ["Canva", "Figma", "Adobe XD", "Sketch", "InVision"]

  const CompetitorMap: map<string, seq<string>> := map[
    "crm" := CrmCompetitors,
    "marketing" := MarketingCompetitors,
    "productivity" := ProductivityCompetitors,
    "ai" := AiCompetitors,
    "finance" := FinanceCompetitors,
    "ecommerce" := EcommerceCompetitors,
    "design" := DesignCompetitors
  ]

  const DefaultCompetitors: seq<string> :=
    ["Competitor A", "Competitor B", "Big Corp", "Industry Leader", "Startup X"]

  /** The lower-cased category the keys are searched in (`(category || '').toLowerCase()`). */
  function CategorySearchText(category: Option<string>): string {
    Lower(if category.Some? then category.value else "")
  }

  /** `keys.find(k => text.includes(k)) || 'default'`. */
  function FindKey(keys: seq<string>, text: string): (key: string)
    ensures key == "default" || key in keys
  {
    match FirstWhere(keys, k => Contains(text, k))
    case None => "default"
    case Some(i) => keys[i]
  }

  /** The key is "default" exactly when the text contains no key, and
      otherwise it is the first key of the list that the text contains. */
  lemma FindKeyIsFirst(keys: seq<string>, text: string)
    requires "default" !in keys
    ensures FindKey(keys, text) == "default" <==> forall i :: 0 <= i < |keys| ==> !Contains(text, keys[i])
    ensures FindKey(keys, text) != "default" ==>
      exists i ::
        && 0 <= i < |keys| && keys[i] == FindKey(keys, text) && Contains(text, keys[i])
        && forall j :: 0 <= j < i ==> !Contains(text, keys[j])
  {
    var contained := k => Contains(text, k);
    var r := FirstWhere(keys, contained);
    if r.Some? {
      assert contained(keys[r.value]);
    }
  }

  /** The key of the competitor table chosen for a category. */
  function CategoryKey(category: Option<string>): (key: string)
    ensures key == "default" || key in CategoryKeys
  {
    FindKey(CategoryKeys, CategorySearchText(category))
  }

  /** The competitor list of a key; "default" is not in the table. */
  function CompetitorsFor(key: string): (cs: seq<string>)
    ensures 5 <= |cs| <= 6
    ensures key !in CompetitorMap ==> cs == DefaultCompetitors
  {
    if key in CompetitorMap then CompetitorMap[key] else DefaultCompetitors
  }

  /** `competitors.filter(c => !isBrandMatch(c, brandName))`. */
  function Retained(competitors: seq<string>, brand: string): (r: seq<string>)
    ensures |r| <= |competitors|
    ensures forall c :: c in r <==> c in competitors && !IsBrandMatch(c, brand)
  {
    if competitors == [] then []
    else
      var rest := Retained(competitors[1..], brand);
      assert forall c :: c in competitors <==> c == competitors[0] || c in competitors[1..];
      if IsBrandMatch(competitors[0], brand) then rest else [competitors[0]] + rest
  }

  // ---------------------------------------------------------------------
  // Sorting with a random comparator

  /** One exchange of two positions, each taken modulo the length. */
  datatype Swap = Swap(i: nat, j: nat)

  function SwapAt(xs: seq<string>, s: Swap): (r: seq<string>)
    ensures |r| == |xs|
    ensures multiset(r) == multiset(xs)
  {
    if xs == [] then xs
    else
      var i := s.i % |xs|;
      var j := s.j % |xs|;
      xs[i := xs[j]][j := xs[i]]
  }

  /** The order a comparator returning random signs leaves behind, given as
      the exchanges the sort made: always a permutation of the input. */
  function ApplySwaps(xs: seq<string>, swaps: seq<Swap>): (r: seq<string>)
    ensures |r| == |xs|
    ensures multiset(r) == multiset(xs)
    decreases |swaps|
  {
    if swaps == [] then xs else ApplySwaps(SwapAt(xs, swaps[0]), swaps[1..])
  }

  /** One exchange made by the sort. */
  method SwapInPlace(a: array<string>, s: Swap)
    modifies a
    ensures a[..] == SwapAt(old(a[..]), s)
  {
    if a.Length > 0 {
      var i := s.i % a.Length;
      var j := s.j % a.Length;
      a[i], a[j] := a[j], a[i];
    }
  }

  lemma ApplySwapsStep(xs: seq<string>, swaps: seq<Swap>, k: nat)
    requires k < |swaps|
    ensures ApplySwaps(xs, swaps[k..]) == ApplySwaps(SwapAt(xs, swaps[k]), swaps[k + 1..])
  {
    assert swaps[k..][1..] == swaps[k + 1..];
  }

  /** `a.sort(() => 0.5 - Math.random())`, in place. */
  method SortRandomly(a: array<string>, swaps: seq<Swap>)
    modifies a
    ensures a[..] == ApplySwaps(old(a[..]), swaps)
  {
    for k := 0 to |swaps|
      invariant ApplySwaps(a[..], swaps[k..]) == ApplySwaps(old(a[..]), swaps)
    {
      ApplySwapsStep(a[..], swaps, k);
      SwapInPlace(a, swaps[k]);
    }
  }

  // ---------------------------------------------------------------------
  // The random draws and the brands they select

  /** The draws of Math.random in one call: the exchanges of the first sort,
      whether four competitors are kept rather than three, whether the
      user's brand is mentioned, the exchanges of the second sort and the
      index of the introduction. */
  datatype Choices = Choices(
    competitorOrder: seq<Swap>,
    pickFour: bool,
    mentionUser: bool,
    rankingOrder: seq<Swap>,
    introIndex: nat)

  /** `Math.floor(Math.random() * 2) + 3`. */
  function PickCount(ch: Choices): nat {
    if ch.pickFour then 4 else 3
  }

  function Min(a: nat, b: nat): nat { if a < b then a else b }

  /** The competitors of the category that do not match the user's brand. */
  function CandidateCompetitors(brand: string, category: Option<string>): seq<string> {
    Retained(CompetitorsFor(CategoryKey(category)), brand)
  }

  /** `xs.slice(0, count)`: the first `count` elements, or all of them. */
  function Pick(xs: seq<string>, count: nat): (r: seq<string>)
    ensures |r| == Min(count, |xs|)
    ensures multiset(r) <= multiset(xs)
  {
    var n := Min(count, |xs|);
    assert xs == xs[..n] + xs[n..];
    xs[..n]
  }

  /** `[...picked]`, then the user's brand pushed when drawn. */
  function WithUser(picked: seq<string>, brand: string, mentionUser: bool): seq<string> {
    picked + (if mentionUser then [brand] else [])
  }

  /** The ranking drawn from the given candidates. */
  function Ranking(candidates: seq<string>, brand: string, ch: Choices): seq<string> {
    var picked := Pick(ApplySwaps(candidates, ch.competitorOrder), PickCount(ch));
    ApplySwaps(WithUser(picked, brand, ch.mentionUser), ch.rankingOrder)
  }

  /** The brands of the answer, in ranking order. */
  function FinalBrands(brand: string, category: Option<string>, ch: Choices): seq<string> {
    Ranking(CandidateCompetitors(brand, category), brand, ch)
  }

  /** A ranking holds three or four of the candidates (fewer when fewer are
      left) and, when drawn, the user's brand, and nothing else. */
  lemma RankingContents(candidates: seq<string>, brand: string, ch: Choices)
    ensures var r := Ranking(candidates, brand, ch);
      && |r| == Min(PickCount(ch), |candidates|) + (if ch.mentionUser then 1 else 0)
      && (ch.mentionUser ==> brand in r)
      && (forall c :: c in r ==> c in candidates || (ch.mentionUser && c == brand))
  {
    var picked := Pick(ApplySwaps(candidates, ch.competitorOrder), PickCount(ch));
    var r := Ranking(candidates, brand, ch);
    var w := WithUser(picked, brand, ch.mentionUser);
    assert multiset(r) == multiset(w);
    assert multiset(w) == multiset(picked) + (if ch.mentionUser then multiset{brand} else multiset{});
    if ch.mentionUser {
      assert brand in multiset(r);
    }
    forall c | c in r
      ensures c in candidates || (ch.mentionUser && c == brand)
    {
      assert c in multiset(r);
      if !(ch.mentionUser && c == brand) {
        assert c in multiset(picked);
      }
    }
  }

  /** Every brand of the answer is either the user's brand, when the draw
      says to mention it, or a competitor of the category that does not match
      the user's brand; the user's brand is ranked when the draw says so. */
  lemma FinalBrandsContents(brand: string, category: Option<string>, ch: Choices)
    ensures var fb := FinalBrands(brand, category, ch);
      && |fb| == Min(PickCount(ch), |CandidateCompetitors(brand, category)|) + (if ch.mentionUser then 1 else 0)
      && (ch.mentionUser ==> brand in fb)
      && (forall c :: c in fb ==>
            (ch.mentionUser && c == brand)
            || (c in CompetitorsFor(CategoryKey(category)) && !IsBrandMatch(c, brand)))
  {
    RankingContents(CandidateCompetitors(brand, category), brand, ch);
  }

  // ---------------------------------------------------------------------
  // The answer text

  const Intro1Start: string := "When looking for the best "
  const Intro1End: string :=
    " solutions, several top contenders"
    + " stand out based on features,"
    + " pricing, and user reviews."
  const Intro2Start: string := "Here is a breakdown of the leading "
  const Intro2End: string := " tools available in 2024."
  const Intro3Start: string :=
    "Based on current market analysis"
    + " and user feedback, these are"
    + " the most recommended "
  const Intro3End: string := " platforms."

  /** The three opening sentences, one of which is drawn. */
  function Intros(category: string): (r: seq<string>)
    ensures |r| == 3
  {
    [Intro1Start + category + Intro1End, Intro2Start + category + Intro2End, Intro3Start + category + Intro3End]
  }

  const Description1: string :=
    "is a powerhouse in this space, "
    + "offering comprehensive features "
    + "for scaling teams."
  const Description2: string :=
    "stands out for its ease of use "
    + "and intuitive interface, making "
    + "it great for beginners."
  const Description3: string :=
    "provides excellent value for money "
    + "with its robust free tier "
    + "and affordable plans."
  const Description4: string :=
    "is known for its advanced AI "
    + "capabilities and automation "
    + "features."
  const Description5: string :=
    "is a reliable choice with a strong "
    + "community and extensive "
    + "integration options."
  const Description6: string :=
    "has recently gained popularity "
    + "due to its innovative approach "
    + "to workflow management."

  const Descriptions: seq<string> :=
    [Description1, Description2, Description3, Description4, Description5, Description6]

  /** The numbered, bold name that opens the entry of the brand at `index`. */
  function EntryHead(index: nat, brand: string): string {
    NatToString(index + 1) + ". **" + brand + "**:"
  }

  /** The rest of the entry: the name again and a description, taken round-robin. */
  function EntryRest(index: nat, brand: string): string {
    " " + brand + " " + Descriptions[index % |Descriptions|]
  }

  /** The list entry of the brand at `index`, followed by an empty line. */
  function BrandLine(index: nat, brand: string): string {
    EntryHead(index, brand) + EntryRest(index, brand) + "\n\n"
  }

  /** The entries of the first `n` brands. */
  function ListBody(brands: seq<string>, n: nat): string
    requires n <= |brands|
  {
    if n == 0 then [] else ListBody(brands, n - 1) + BrandLine(n - 1, brands[n - 1])
  }

  /** `finalBrands[i]` inside a template literal: "undefined" past the end. */
  function BrandAt(brands: seq<string>, i: nat): string {
    if i < |brands| then brands[i] else "undefined"
  }

  const SummaryHeading: string := "### Summary"
  const SummaryLead: string := "For most users, **"
  const SummaryMiddle: string :=
    "** is the top recommendation due to "
    + "its balance of features and price. "
    + "However, if you need specific "
    + "integrations, **"
  const SummaryClose: string := "** is also a strong contender."

  function SummaryLine(first: string, second: string): string {
    SummaryLead + first + SummaryMiddle + second + SummaryClose
  }

  /** The summary heading, the line recommending the first two brands and an empty line. */
  function SummaryBlock(first: string, second: string): string {
    SummaryHeading + "\n" + SummaryLine(first, second) + "\n\n"
  }

  /** The URL path of the category: lower-cased, white-space runs as `-`. */
  function Slug(category: Option<string>): (s: string)
    ensures s != []
    ensures forall i :: 0 <= i < |s| ==> !IsSpace(s[i]) && !IsUpper(s[i])
  {
    var lower := Lower(OrSoftware(category));
    assert forall c :: c in lower ==> !IsUpper(c);
    ReplaceSpaceRuns(lower, '-')
  }

  /** Without a category the path is "software". */
  lemma SlugOfMissing()
    ensures Slug(None) == "software" && Slug(Some([])) == "software"
  {
    assert Lower("software") == "software";
    assert IsLowerLetters("software");
    ReplaceInLowerLetters("software", '-');
  }

  /** A one-word category is only lower-cased. */
  lemma SlugOfWord(w: string)
    requires w != [] && forall i :: 0 <= i < |w| ==> !IsSpace(w[i])
    ensures Slug(Some(w)) == Lower(w)
  {
    var lw := Lower(w);
    assert forall i :: 0 <= i < |lw| ==> !IsSpace(lw[i]);
    ReplaceSpaceFree(lw, '-');
  }

  /** Words around a white-space run are joined by exactly one `-`. */
  lemma SlugOfWords(a: string, ws: string, b: string)
    requires a != [] && b != [] && !IsSpace(a[|a| - 1]) && !IsSpace(b[0])
    requires ws != [] && AllSpace(ws)
    ensures Slug(Some(a + ws + b)) == Slug(Some(a)) + "-" + Slug(Some(b))
  {
    var la, lw, lb := Lower(a), Lower(ws), Lower(b);
    assert a + ws + b == a + (ws + b);
    LowerConcat(a, ws + b);
    LowerConcat(ws, b);
    assert Lower(a + ws + b) == la + (lw + lb);
    assert AllSpace(lw) by {
      assert forall i :: 0 <= i < |lw| ==> lw[i] == LowerChar(ws[i]);
    }
    assert !IsSpace(la[|la| - 1]) && !IsSpace(lb[0]);
    ReplaceAroundPieces(la, lw, lb, '-');
  }

  const SourcesTitle: string := "### Sources"
  const G2Start: string := "- [G2 "
  const G2Middle: string :=
    " Reviews](https://www.g2.com/"
    + "categories/"
  const CapterraStart: string := "- [Capterra Best "
  const CapterraMiddle: string :=
    " Software]("
    + "https://www.capterra.com/"
  const TechRadarStart: string :=
    "- [TechRadar Top Picks]("
    + "https://www.techradar.com/best/"

  function G2Line(category: Option<string>): string {
    G2Start + CategoryText(category) + G2Middle + Slug(category) + ")"
  }

  function CapterraLine(category: Option<string>): string {
    CapterraStart + CategoryText(category) + CapterraMiddle + Slug(category) + ")"
  }

  function TechRadarLine(category: Option<string>): string {
    TechRadarStart + Slug(category) + ")"
  }

  /** The answer for a given ranking: introduction, list, summary, sources. */
  function ResponseText(brands: seq<string>, category: Option<string>, introIndex: nat): string
    requires introIndex < 3
  {
    Intros(CategoryText(category))[introIndex] + "\n\n"
      + ListBody(brands, |brands|)
      + SummaryBlock(BrandAt(brands, 0), BrandAt(brands, 1))
      + SourcesTitle + "\n" + G2Line(category) + "\n" + CapterraLine(category) + "\n" + TechRadarLine(category)
  }

  /** getMockAIResponse as a function of its inputs and its random draws. */
  function AnswerText(brand: string, category: Option<string>, ch: Choices): string
    requires ch.introIndex < 3
  {
    ResponseText(FinalBrands(brand, category, ch), category, ch.introIndex)
  }

  /** The two random sorts of getMockAIResponse, each on its own array:
      the candidates are shuffled and cut to three or four, the user's brand
      is pushed when drawn, and the result is shuffled again. */
  method RankBrands(candidates: seq<string>, brandName: string, ch: Choices) returns (finalBrands: seq<string>)
    ensures finalBrands == Ranking(candidates, brandName, ch)
  {
    var competitors := NewArray(candidates);
    SortRandomly(competitors, ch.competitorOrder);
    var randomCompetitors := competitors[..Min(PickCount(ch), competitors.Length)];
    var brandsToMention := NewArray(WithUser(randomCompetitors, brandName, ch.mentionUser));
    SortRandomly(brandsToMention, ch.rankingOrder);
    finalBrands := brandsToMention[..];
  }

  /** A fresh array holding `xs`. */
  method NewArray(xs: seq<string>) returns (a: array<string>)
    ensures fresh(a) && a[..] == xs
  {
    a := new string[|xs|](i requires 0 <= i < |xs| => xs[i]);
  }

  /** The text of getMockAIResponse, appended piece by piece. */
  method WriteResponse(finalBrands: seq<string>, category: Option<string>, introIndex: nat)
    returns (responseText: string)
    requires introIndex < 3
    ensures responseText == ResponseText(finalBrands, category, introIndex)
  {
    var intro := Intros(CategoryText(category))[introIndex] + "\n\n";
    responseText := intro;
    for index := 0 to |finalBrands|
      invariant responseText == intro + ListBody(finalBrands, index)
    {
      ConcatAssoc(intro, ListBody(finalBrands, index), BrandLine(index, finalBrands[index]));
      responseText := responseText + BrandLine(index, finalBrands[index]);
    }
    responseText := responseText + SummaryBlock(BrandAt(finalBrands, 0), BrandAt(finalBrands, 1));
    responseText := responseText + SourcesTitle + "\n";
    responseText := responseText + G2Line(category) + "\n";
    responseText := responseText + CapterraLine(category) + "\n";
    responseText := responseText + TechRadarLine(category);
  }

  /** getMockAIResponse: the competitors of the category without the ones
      matching the user's brand, ranked at random, then written out. The
      query is not used. */
  method GetMockAIResponse(query: string, brandName: string, category: Option<string>, ch: Choices)
    returns (responseText: string)
    requires ch.introIndex < 3
    ensures responseText == AnswerText(brandName, category, ch)
  {
    var catKey := CategoryKey(category);
    var competitors := Retained(CompetitorsFor(catKey), brandName);
    var finalBrands := RankBrands(competitors, brandName, ch);
    responseText := WriteResponse(finalBrands, category, ch.introIndex);
  }
}
