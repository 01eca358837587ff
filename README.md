# Mock AI answers and their analysis, in Dafny

This project models the offline core of the brand-visibility tracker's AI
layer, `src/lib/openai.js`. It covers five pieces:

- **`normalizeBrandName`**: lower-cases a brand name and strips whole-word
  corporate suffixes (`inc`, `llc`, … `pty`, each with an optional `.`). It
  then deletes every character that is neither a word character nor white
  space, trims, and collapses white-space runs into one space.
- **`isBrandMatch`**: a one-directional substring test on two normalised
  strings, false when either input is empty.
- **`getMockQueries`**: five canned search queries.
- **`getMockAIResponse`**: a canned answer listing competitors of the
  category, and sometimes the user's brand, as a numbered, bold list, then
  a summary and three source links.
- **`getMockAnalysis`**: splits an answer into lines and reads every line
  matching `^(\d+)\.\s*\*\*?([^*:]+)\*\*?[:\s-]` as a brand mention. It takes
  the user's rank from the last list line whose name matches the user's
  brand. When there is no such rank it falls back to a whole-text match.

The files:

- `strings.dfy` (module `Strings`): the JavaScript string operations the
  code relies on. These are ASCII `toLowerCase`, `trim`, `split`, `includes`,
  `find`, `parseInt` of digits and number rendering, with `\s` as the exact
  ECMAScript white-space and line-terminator set and `\w` as
  `[A-Za-z0-9_]`.
- `brand_names.dfy` (module `BrandNames`): normalisation and the fuzzy
  match.
- `mock_response.dfy` (module `MockResponse`): the generators. Every draw
  of `Math.random` is an input.
  - Each random-comparator `sort` becomes a sequence of exchanges
    (`Swap`), applied in place to an array by `SortRandomly`.
  - The count 3 or 4, the mention flag and the introduction index are
    fields of `Choices`.
  - `WriteResponse` appends the answer piece by piece, as the `forEach`
    does.
- `mock_analysis.dfy` (module `MockAnalysis`): the analyser.
  - `Analyze` is its specification as a function.
  - `GetMockAnalysis` is the line-by-line loop, proved equal to it.
  - The list pattern is a deterministic left-to-right scanner
    (`ParseListItem`). Every quantifier of the pattern is followed by a
    character it cannot consume, so the match is unique.
- `round_trip.dfy` (module `RoundTrip`): the generator and the analyser fit
  together. For any draw, analysing the generated answer for the same brand
  reads back every drawn brand at its place. When the draw includes the
  user's brand, it is found at its own rank, positive, and named in the
  summary (`GeneratedAnswer`).

Observations the proofs make explicit:

- Normalisation is not idempotent. `"c.o"` normalises to `"co"`, which
  normalises to `""` (`NormalizeNotIdempotent`).
- A brand that is only a corporate suffix, such as `"Inc"`, normalises to
  `""` and so matches every non-empty text (`SuffixBrandMatchesAnyText`).
- The comment at `src/lib/openai.js:127` says the list pattern matches
  `1. Name:`. It does not: the pattern needs a `*` before the name
  (`PlainNumberedLineNotMatched`).
- A brand whose normal form is empty, such as `"Inc"`, filters out every
  competitor. The answer then ranks at most the user's brand, and its summary
  names `**undefined**` as the second brand, or as both brands when the user's
  brand is not drawn (`EmptyNormalBrandRanking`).
- A rank is judged by JavaScript truthiness, so a parsed rank of `0` counts
  as unranked (`RankTruthy` in `Analyze`).

A category is an `Option<string>`. `None` stands for the absent
(`undefined`) category, which template literals print as `undefined` and
`category || 'software'` replaces by `software`.

## Model

| member | source | states |
|---|---|---|
| Strings.Lower | src/lib/openai.js:19 | `toLowerCase` keeps the length, and each character is mapped on its own |
| Strings.IsSpace | src/lib/openai.js:23 | `\s`: tab, line feed, vertical tab, form feed, carriage return, space, no-break space, the Unicode space separators, the line and paragraph separators, and the byte-order mark |
| Strings.IsWordChar | src/lib/openai.js:21 | `\w` without the `u` flag: ASCII letters, digits and `_` |
| Strings.LowerIdempotent | src/lib/openai.js:19 | lower-casing twice is lower-casing once |
| Strings.Trim | src/lib/openai.js:22 | the trimmed string has no white space at either end, only holds characters of the input, and is empty exactly when the input is all white space |
| Strings.TrimOfTrimmed | src/lib/openai.js:22 | a string without surrounding white space is its own trim |
| Strings.TrimDropsLeadingRun | src/lib/openai.js:22 | white space in front of a string does not change its trim |
| Strings.TrimDropsTrailingRun | src/lib/openai.js:22 | white space behind a string does not change its trim |
| Strings.TrimAroundRun | src/lib/openai.js:22 | between two pieces that are not all white space, trimming removes only the outer white space and keeps the run between them |
| Strings.Split | src/lib/openai.js:118 | `split('\n')` gives at least one piece, and no piece holds the separator |
| Strings.JoinSplit | src/lib/openai.js:118 | joining the pieces of a split with the separator gives back the string |
| Strings.SplitJoin | src/lib/openai.js:118 | splitting a join of separator-free pieces gives back the pieces |
| Strings.SplitTerminated | src/lib/openai.js:118 | text written as lines each ending in `\n`, then a last line, splits into exactly those lines |
| Strings.NatToString | src/lib/openai.js:103 | `${index + 1}` renders a non-empty run of decimal digits |
| Strings.ParseNatToString | src/lib/openai.js:130 | `parseInt` of a rendered number gives the number back |
| Strings.FirstWhere | src/lib/openai.js:159 | `find` gives the first position satisfying the test, and nothing exactly when no element does |
| Strings.LastWhere | src/lib/openai.js:139-143 | the search from the back gives the last position satisfying the test, and nothing exactly when no element does |
| Strings.ContainsEmpty | src/lib/openai.js:33 | every string `includes` the empty string |
| Strings.Contains | src/lib/openai.js:33 | `includes`: the pattern occurs at some position of the text |
| Strings.ParseDecimal | src/lib/openai.js:130 | `parseInt` of a run of decimal digits, read in base 10 (`ParseNatToString` proves it inverts the rendering) |
| BrandNames.SuffixIndex | src/lib/openai.js:20 | finds the first suffix word standing as a whole word at the start of the string, or shows that none does |
| BrandNames.SuffixLength | src/lib/openai.js:20 | a removed suffix needs `\b` before it, is lower-case letters and is followed by `\b` |
| BrandNames.SuffixLengthWord | src/lib/openai.js:20 | what the suffix scan removes is one of the eleven suffix words |
| BrandNames.SuffixScanStep | src/lib/openai.js:20 | one step of the global replace: a suffix match at the front is consumed and dropped, otherwise one character is kept; the step consumes at least one character, and after the whole string `\b` is read from its last character |
| BrandNames.StripSuffixes | src/lib/openai.js:20 | the global replace of the suffix pattern as a left-to-right scan; its result is never longer than its input, and the lemmas below state what it removes |
| BrandNames.StripConcat | src/lib/openai.js:20 | when no match can span the seam, stripping a concatenation strips each part, the second with `\b` read from the end of the first |
| BrandNames.SuffixOfWord | src/lib/openai.js:20 | a suffix word at a word boundary, followed by a character other than a word character, is matched whole |
| BrandNames.StripSuffixWord | src/lib/openai.js:20 | a suffix word alone, with or without its `.`, is removed entirely |
| BrandNames.StripPlainWord | src/lib/openai.js:20 | a lower-case word that is not a suffix word is left as it is |
| BrandNames.StripInnerSuffix | src/lib/openai.js:20 | a suffix word between two spaces, with or without its `.`, is removed and leaves the two spaces; the pieces around it are stripped on their own |
| BrandNames.KeepWordAndSpace | src/lib/openai.js:21 | only word and white-space characters of the input are kept |
| BrandNames.KeepWordAndSpaceConcat | src/lib/openai.js:21 | characters are kept or removed one at a time and in order: the result for a concatenation is the concatenation of the results |
| BrandNames.KeepWordAndSpaceChar | src/lib/openai.js:21 | a single character is kept exactly when it is a word or white-space character |
| BrandNames.ReplaceSpaceRuns | src/lib/openai.js:23 | empty exactly when the input is; every character is the replacement or a non-white-space character of the input; the first and last characters are those of the input, replaced when white space; no two replacements are adjacent when the replacement is white space |
| BrandNames.ReplaceKeepsChar | src/lib/openai.js:23 | a character other than white space is left as it is |
| BrandNames.ReplaceRun | src/lib/openai.js:23 | a whole run of white space becomes exactly one replacement |
| BrandNames.ReplaceSpaceFree | src/lib/openai.js:23 | a string without white space is left as it is |
| BrandNames.ReplaceConcat | src/lib/openai.js:23 | when no white-space run spans the seam, the result for a concatenation is the concatenation of the results |
| BrandNames.ReplaceAroundRun | src/lib/openai.js:23 | a white-space run between two pieces becomes one replacement, and the pieces are replaced on their own |
| BrandNames.CleanupAbsorbsSpace | src/lib/openai.js:22-23 | after trimming and collapsing, two spaces between two pieces give the same result as one |
| BrandNames.Normalize | src/lib/openai.js:16-24 | `""` for the empty name; otherwise only lower-case word characters and single spaces remain, with no space at either end |
| BrandNames.NormalizeDropsSuffix | src/lib/openai.js:20 | a corporate suffix at the end of the name, after a space, in any letter case, with or without its `.`, does not change the normal form |
| BrandNames.NormalizeDropsInnerSuffix | src/lib/openai.js:18-23 | a corporate suffix between two spaces anywhere in the name, in any letter case, with or without its `.`, does not change the normal form (as in "Acme Inc Labs" and "Acme Labs") |
| BrandNames.NormalizeWordWithSuffix | src/lib/openai.js:18-23 | a one-word name with or without a suffix (as in "Acme Inc." and "Acme") normalises to the lower-cased word |
| BrandNames.NormalizeSuffixWord | src/lib/openai.js:20 | a suffix word alone normalises to `""` |
| BrandNames.NormalizeNotIdempotent | src/lib/openai.js:18-23 | a two-letter suffix word with a `.` inside ("c.o") normalises to the word, which normalises to `""` |
| BrandNames.NormalizeIgnoresCase | src/lib/openai.js:19 | letter case never changes the normal form |
| BrandNames.IsBrandMatch | src/lib/openai.js:29-34 | false when either input is empty, otherwise whether the normal form of the text contains that of the brand |
| BrandNames.BrandMatchReflexive | src/lib/openai.js:29-34 | every non-empty name matches itself |
| BrandNames.SuffixBrandMatchesAnyText | src/lib/openai.js:29-34 | a brand that is only a suffix word normalises to `""` and matches every non-empty text |
| BrandNames.BrandMatchIgnoresSuffix | src/lib/openai.js:29-34 | appending a corporate suffix to a brand name does not change which texts it matches |
| MockResponse.OrSoftware | src/lib/openai.js:39 | `category \|\| 'software'` is never empty and is the category when that is non-empty |
| MockResponse.CategoryText | src/lib/openai.js:84-88 | `${category}` in a template literal: the category, or `undefined` when it is absent |
| MockResponse.MockQueries | src/lib/openai.js:38-47 | exactly five queries, each containing the category or `software` (always `software` for an absent or empty category), the third containing the brand name |
| MockResponse.FindKey | src/lib/openai.js:64 | the key chosen is `default` or one of the keys |
| MockResponse.FindKeyIsFirst | src/lib/openai.js:64 | the key is `default` exactly when the text contains no key, and otherwise the first key, in table order, that the text contains |
| MockResponse.CategoryKey | src/lib/openai.js:64 | the category's key is `default` or a key of the competitor table |
| MockResponse.CompetitorsFor | src/lib/openai.js:65 | five or six competitors; the default list for a key outside the table |
| MockResponse.Retained | src/lib/openai.js:68 | a competitor is kept exactly when it does not match the user's brand |
| MockResponse.SwapAt | src/lib/openai.js:71 | one exchange keeps the length and the elements |
| MockResponse.ApplySwaps | src/lib/openai.js:71 | the order a random-comparator sort leaves is a permutation of its input |
| MockResponse.SwapInPlace | src/lib/openai.js:71 | the array after one exchange is the exchanged sequence |
| MockResponse.SortRandomly | src/lib/openai.js:71 | the array after the in-place sort holds the input permuted by the given exchanges |
| MockResponse.Pick | src/lib/openai.js:71 | `slice(0, count)` keeps `min(count, length)` elements, all taken from the input |
| MockResponse.PickCount | src/lib/openai.js:71 | `Math.floor(Math.random() * 2) + 3`: 4 when the draw says so, otherwise 3 |
| MockResponse.CandidateCompetitors | src/lib/openai.js:64-68 | the competitors listed for the category's key, without those matching the user's brand |
| MockResponse.WithUser | src/lib/openai.js:76-79 | the picked competitors, with the user's brand pushed at the end when the draw mentions it |
| MockResponse.Ranking | src/lib/openai.js:70-82 | the candidates in the first drawn order, cut to the drawn count, the user's brand appended when drawn, then put in the second drawn order |
| MockResponse.FinalBrands | src/lib/openai.js:64-82 | the ranking drawn from the competitors of the category that do not match the user's brand |
| MockResponse.RankingContents | src/lib/openai.js:70-82 | a ranking holds min(3 or 4, candidates) candidates, plus the user's brand when it is drawn, and nothing else |
| MockResponse.FinalBrandsContents | src/lib/openai.js:64-82 | every final brand is the user's brand (when drawn) or a competitor of the chosen category that does not match it |
| MockResponse.RankBrands | src/lib/openai.js:70-82 | the two in-place sorts, the cut and the push produce the specified ranking |
| MockResponse.Intros | src/lib/openai.js:84-88 | there are three opening sentences to draw from |
| MockResponse.BrandLine | src/lib/openai.js:101-104 | the entry of the brand at an index: `N. **brand**: brand description` with N = index + 1, the description chosen by index modulo 6, then a blank line |
| MockResponse.ListBody | src/lib/openai.js:101-104 | the entries of the first n brands, in ranking order |
| MockResponse.BrandAt | src/lib/openai.js:106 | `${finalBrands[i]}`: the brand at index i, or `undefined` past the end of the ranking |
| MockResponse.SummaryBlock | src/lib/openai.js:106 | the summary heading, then the line naming the first and the second brand, then a blank line |
| MockResponse.G2Line | src/lib/openai.js:109 | the G2 source line: the category as printed and the category's URL path |
| MockResponse.CapterraLine | src/lib/openai.js:110 | the Capterra source line: the category as printed and the category's URL path |
| MockResponse.TechRadarLine | src/lib/openai.js:111 | the TechRadar source line: the category's URL path, with no line break after it |
| MockResponse.Slug | src/lib/openai.js:109-111 | the URL path of the category is non-empty, without white space or upper-case letters |
| MockResponse.SlugOfMissing | src/lib/openai.js:109-111 | without a category, or with an empty one, the path is `software` |
| MockResponse.SlugOfWord | src/lib/openai.js:109-111 | a category without white space is only lower-cased |
| MockResponse.SlugOfWords | src/lib/openai.js:109-111 | two pieces around a white-space run give their paths joined by exactly one `-` |
| MockResponse.WriteResponse | src/lib/openai.js:99-113 | the text appended piece by piece is the specified answer text |
| MockResponse.ResponseText | src/lib/openai.js:84-111 | the drawn introduction and a blank line, one numbered bold entry per brand with its description, the summary naming the first two brands, and the three source links |
| MockResponse.AnswerText | src/lib/openai.js:49-114 | the answer text for the final brands drawn for the brand and category |
| MockResponse.GetMockAIResponse | src/lib/openai.js:49-114 | the answer is the specified one for the given draws, whatever the query |
| MockAnalysis.RunEnd | src/lib/openai.js:128 | a greedy run of a character class stops at the first character outside it |
| MockAnalysis.NameMatch | src/lib/openai.js:128 | where `\*\*?([^*:]+)\*\*?[:\s-]` can match: one or two `*`, a non-empty run without `*` or `:`, one or two `*`, then `:`, `-` or white space |
| MockAnalysis.MatchName | src/lib/openai.js:128 | what the scan finds is a match of the name part, with the capture and match end it reports |
| MockAnalysis.MatchNameComplete | src/lib/openai.js:128 | every match of the name part is the one the scan finds |
| MockAnalysis.ParseListItem | src/lib/openai.js:128 | no match without a `*`; a match starts with a digit, ends with a delimiter, and captures a non-empty name without `*` or `:` |
| MockAnalysis.ItemMatch | src/lib/openai.js:128 | where the whole pattern can match: digits, `.`, a white-space run, then the name part |
| MockAnalysis.ParseListItemComplete | src/lib/openai.js:128-130 | every match of the pattern is found, with the value of its digits as rank, its capture as name and its length |
| MockAnalysis.ParseListItemSound | src/lib/openai.js:128-130 | whatever is found is a match of the pattern, with those fields |
| MockAnalysis.MatchItemShape | src/lib/openai.js:128-130 | a line of digits, `. **`, a name and `**:` is matched with the parsed number as rank and the name as capture, up to the `:` |
| MockAnalysis.ParseItemShape | src/lib/openai.js:128-130 | the same, with the rank, the name and the match length given |
| MockAnalysis.RenderedShape | src/lib/openai.js:103 | a rendered list line `N. **Name**:rest` has the shape the pattern matches |
| MockAnalysis.RenderedRest | src/lib/openai.js:136 | what follows the match of `N. **Name**:` is the rest of the line |
| MockAnalysis.PlainNumberedLineNotMatched | src/lib/openai.js:127-128 | a line `N. Name:` without `*` is not matched, contrary to the comment |
| MockAnalysis.Excerpt | src/lib/openai.js:137 | a context over 100 characters is cut to 100 plus `...`, so at most 103; shorter ones are kept |
| MockAnalysis.MentionOf | src/lib/openai.js:130-150 | a mention is positive, carries the parsed rank and has at most 103 characters of context |
| MockAnalysis.LineMention | src/lib/openai.js:128-151 | a line yields one mention exactly when it matches, and that mention is positive with a bounded context |
| MockAnalysis.Mentions | src/lib/openai.js:124-152 | no more mentions than lines |
| MockAnalysis.MentionsSnoc | src/lib/openai.js:126-151 | one more line appends its mention, if any |
| MockAnalysis.MentionsConcat | src/lib/openai.js:126-151 | mentions keep the order of the lines |
| MockAnalysis.MentionsShape | src/lib/openai.js:130-150 | every mention is positive, has at most 103 characters of context, and carries the rank parsed from some line |
| MockAnalysis.IsUserLine | src/lib/openai.js:128-133 | a line names the user's brand when it matches the pattern and its trimmed capture matches the brand |
| MockAnalysis.LastUserMention | src/lib/openai.js:139-143 | the user's mention, when found, is positive |
| MockAnalysis.LastUserMentionNone | src/lib/openai.js:133-143 | the user's brand is not found exactly when no list line's trimmed name matches it |
| MockAnalysis.LastUserMentionIsLast | src/lib/openai.js:133-143 | what is found is the mention of a line naming the brand, and no later line names it |
| MockAnalysis.LastUserMentionSnoc | src/lib/openai.js:139-143 | a later line naming the brand overwrites the rank and context |
| MockAnalysis.LastUserMentionConcat | src/lib/openai.js:139-143 | lines appended later take over the user's mention when one of them names the brand |
| MockAnalysis.SentenceEnd | src/lib/openai.js:158 | the first `.`, `!` or `?`, or the end of the text |
| MockAnalysis.SplitSentences | src/lib/openai.js:158 | `split(/[.!?]+/)` gives at least one piece, and no piece holds a sentence end |
| MockAnalysis.SentenceSeparators | src/lib/openai.js:158 | the runs of `.`, `!` and `?` the split removes: one fewer than the pieces, each non-empty |
| MockAnalysis.SplitSentencesRejoin | src/lib/openai.js:158 | putting the separators back between the pieces gives the text again |
| MockAnalysis.SplitSentencesInnerNonEmpty | src/lib/openai.js:158 | every piece between two separators is non-empty |
| MockAnalysis.SplitSentencesOfInterleave | src/lib/openai.js:158 | pieces without `.`, `!` or `?`, joined by such runs with no empty piece inside, split back into the same pieces and separators |
| MockAnalysis.FirstMatching | src/lib/openai.js:159 | the sentence found matches the brand |
| MockAnalysis.FirstMatchingNone | src/lib/openai.js:159-162 | no sentence is found exactly when none matches the brand |
| MockAnalysis.FirstMatchingIsFirst | src/lib/openai.js:159-162 | the sentence found comes before every other matching sentence |
| MockAnalysis.RankTruthy | src/lib/openai.js:155 | a rank counts, in `!rank` here, in `!!rank` at line 172 and in `rank ?` at line 176, only when it is present and not 0 |
| MockAnalysis.RankOf | src/lib/openai.js:140 | the rank is that of the user's mention, and absent (`null`) when no list line names the brand |
| MockAnalysis.RankedSummary | src/lib/openai.js:177 | the summary for a truthy rank, naming the rank in decimal |
| MockAnalysis.Analyze | src/lib/openai.js:155-178 | count = number of mentions; the three fixed citations; mentioned iff ranked or the text matches; neutral iff no truthy rank and the text matches; not-mentioned iff not mentioned; never negative; the summary follows the same three cases |
| MockAnalysis.AnalysisContext | src/lib/openai.js:121-161 | the final `context`: that of the last list line naming the brand, or `""`; replaced by the fallback when the rank is not truthy and the whole text matches the brand |
| MockAnalysis.FallbackContext | src/lib/openai.js:158-161 | the trimmed first sentence naming the brand, or the context unchanged when no sentence does |
| MockAnalysis.GetMockAnalysis | src/lib/openai.js:116-180 | the loop over the lines and the fallback compute the specified analysis and context |
| RoundTrip.Entries | src/lib/openai.js:101-104 | the i-th entry line is that of the i-th brand |
| RoundTrip.ResponseTextLines | src/lib/openai.js:99-111 | the answer is its lines each ending in `\n`, then the last source line |
| RoundTrip.ResponseOnOneLine | src/lib/openai.js:84-111 | no line of the answer contains a line break when the brands and the category do not |
| RoundTrip.ResponseLines | src/lib/openai.js:99-118 | splitting the answer gives the opening, the list, the summary and the sources, line by line |
| RoundTrip.OpeningNotNumbered | src/lib/openai.js:84-88 | the introduction and the empty line after it are not list lines |
| RoundTrip.ClosingNotNumbered | src/lib/openai.js:106-111 | the summary and the source lines are not list lines |
| RoundTrip.NoListLines | src/lib/openai.js:126-151 | lines that do not open with a digit yield no mention and no user mention |
| RoundTrip.PaddedTrim | src/lib/openai.js:136 | the context after a rendered entry trims to the name and the description |
| RoundTrip.EntryShape | src/lib/openai.js:103 | an entry line has the shape of a list item of rank index + 1 naming the brand |
| RoundTrip.EntryParsed | src/lib/openai.js:103-136 | an entry line is matched with rank index + 1 and the brand as name, and the rest of the entry follows the match |
| RoundTrip.EntryMention | src/lib/openai.js:128-150 | an entry yields the mention of the brand at rank index + 1 with the name and description as context, and names the user's brand exactly when the brand matches it |
| RoundTrip.EntryMentions | src/lib/openai.js:101-104 | one expected mention per brand, in ranking order |
| RoundTrip.MentionsOfEntries | src/lib/openai.js:124-152 | the entry lines yield one mention per brand, in ranking order |
| RoundTrip.EntriesUser | src/lib/openai.js:133-143 | the last entry naming the user's brand is that of the last brand matching it |
| RoundTrip.ListUserMention | src/lib/openai.js:133-143 | the user's mention in the list is the entry of the last brand matching it |
| RoundTrip.ResponseMentions | src/lib/openai.js:118-152 | the mentions read from the answer are one per ranked brand, in order |
| RoundTrip.ResponseUserMention | src/lib/openai.js:118-143 | the user's mention read from the answer is the entry of the last ranked brand matching it |
| RoundTrip.ExpectedRank | src/lib/openai.js:139-143 | an expected rank lies between 1 and the number of brands |
| RoundTrip.ExpectedRankNone | src/lib/openai.js:139-143 | there is no expected rank exactly when no brand matches |
| RoundTrip.ExpectedRankMatches | src/lib/openai.js:139-143 | the brand at the expected rank matches the user's brand |
| RoundTrip.ExpectedRankOnly | src/lib/openai.js:139-143 | when the user's brand is the only brand matching it, it stands at the expected rank |
| RoundTrip.AnalyseResponse | src/lib/openai.js:116-180 | the analysis of an answer reads back the brands in order, counts them, and reports the expected rank |
| RoundTrip.RankedAnalysis | src/lib/openai.js:172-178 | a truthy rank makes the brand mentioned and positive, and the summary names the rank |
| RoundTrip.CompetitorsPlain | src/lib/openai.js:53-65 | no competitor name contains `*`, `:` or a line break, or has white space at either end |
| RoundTrip.CandidatesPlain | src/lib/openai.js:64-68 | the competitors left for a brand are such names too |
| RoundTrip.CandidatesDoNotMatch | src/lib/openai.js:68 | no competitor left matches the user's brand |
| RoundTrip.EmptyNormalBrandRanking | src/lib/openai.js:68-106 | a non-empty brand whose normal form is empty (such as "Inc") filters out every competitor; the final brands are the user's brand alone or nothing, and the summary's second brand is `undefined` |
| RoundTrip.RankingPlain | src/lib/openai.js:70-82 | a ranking of such names holds only such names |
| RoundTrip.RankingWithUser | src/lib/openai.js:70-82 | when the user's brand is drawn and no candidate matches it, the user's brand stands at the expected rank |
| RoundTrip.RankingWithoutUser | src/lib/openai.js:70-82 | when it is not drawn, no brand of the ranking matches it |
| RoundTrip.DrawnPlain | src/lib/openai.js:64-82 | the final brands are plain names when the user's brand is one |
| RoundTrip.DrawnWithUser | src/lib/openai.js:73-82 | when the draw mentions the user's brand, it stands at the expected rank |
| RoundTrip.DrawnWithoutUser | src/lib/openai.js:73-82 | otherwise there is no expected rank |
| RoundTrip.DrawnBrands | src/lib/openai.js:64-82 | the three facts above together |
| RoundTrip.AnalyseDrawn | src/lib/openai.js:116-180 | analysing the answer for a ranking reads back the brands in order with the expected rank, mentioned and positive, and the summary names that rank |
| RoundTrip.GeneratedAnswer | src/lib/openai.js:49-180 | analysing a generated answer for the same brand reads back every drawn brand at its place; the user's brand is found at its own rank, positive and in the summary exactly when the draw mentions it, and otherwise is not ranked |

## Left out

- The OpenAI client and the exported functions `generateQueries`, `getAIResponse`, `getAIResponseWithContext` and `analyzeResponse`: network calls, environment flags and `JSON.parse` of model output.
- `Math.random`: its draws are inputs (`Choices`, `Swap` sequences); no distribution is modelled, so nothing is said about the 70% mention rate or the shuffle being uniform.
- A random-comparator sort is modelled as some sequence of exchanges. Any such sequence yields a permutation, but which permutations a JavaScript engine's sort can actually produce is not modelled.
- `toLowerCase` is modelled for ASCII letters only; other characters are left unchanged, although JavaScript maps non-ASCII letters too.
- `parseInt` is modelled on unbounded integers; the loss of precision above 2^53 is not modelled.
- `null` as a category is treated like an absent one; a template literal would print `null` rather than `undefined`.
- MockAnalysis.GetMockAnalysis: the `context` variable is computed but never returned by the source, so it is a ghost out-parameter, specified by `AnalysisContext`.
- The query argument of `getMockAIResponse` and its `normalizedBrand` variable are unused in the source and have no effect in the model.
- MockAnalysis.Excerpt: lengths count Unicode code points, so text outside the Basic Multilingual Plane is cut at a different place than JavaScript's UTF-16 `length` and `substring` would cut it.
- RoundTrip.GeneratedAnswer: assumes the user's brand is a plain name (no `*`, `:` or line break, no surrounding white space) and the category has no line break; other names can break the list pattern and are not covered.
- RoundTrip.GeneratedAnswer: when the draw leaves the user's brand out, it says only that the brand is unranked; whether the whole-text fallback then finds it (for example in the category text) is not stated.
