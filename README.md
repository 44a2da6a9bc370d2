# Fact-check bot: the decision logic, in Dafny

The fact-check bot takes a news URL or a piece of text and passes it to a crew
of language-model agents (a scraper, a claim finder, a researcher and a
summariser). It returns the crew's verdict. Most of `fact_check_bot.py` is
prompt text. This project models the parts that are ordinary program logic:

- **URL admission** in `fact_check_url`. This is the URL-format regular
  expression `^https?://[^\s/$.?#].[^\s]*$`, modelled character by
  character. It includes the `.` that accepts a space and Python's `$`
  before a final newline. Then come the future-year guard on the first
  `/dddd/` path segment and the BBC substring test (module `UrlCheck`).
- **Search-query reformulation** in `SearchTool._run`. This decides which
  queries reach the search backend and how their results are combined
  (module `SearchTool`). The backend is a function parameter.
- **The direct scraper** `FirecrawlTool._fallback_scrape` (modules `Scraper`
  and `BodyText`). It is written imperatively, as the source is: nested
  loops build `content_blocks`, the headline loop `break`s, skipped classes
  `continue`, and each later tier runs only while the list is empty. Each
  loop is proved against a specification function (`Scraper.Extract`,
  `Scraper.FallbackText`). The properties of the tiers are proved about
  those functions.
- **The scraping tool** `FirecrawlTool._run` (module `Firecrawl`). It
  validates the input, tests whether the Firecrawl API's content is
  acceptable, and falls back to the direct scraper. The result records how
  many API requests and direct scrapes each call makes.
- **The orchestrators** `fact_check_url` and `fact_check_text` (module
  `FactCheck`). They choose among the crew's task outputs, detect a failed
  extraction, run the BBC recovery re-scrape, and apply the BBC template
  that ends `**Real**`. The crew runs are inputs.

Helper modules:

- `Seqs`: Option, flattening of nested lists, and `Collect`, the
  "keep what the filter accepts, in order" loop.
- `Text`: the Python string operations the code relies on. These are
  `str.isspace` (the same set as `\s` and as what `strip()` removes),
  `lower`, `in`, `startswith`, `strip`, `join`, `re.sub(r'\s+', ' ', ...)`,
  and `int`/`str` on decimal digits.

The external services are inputs to the model:

- The DuckDuckGo search backend is a function `string -> string`.
- The Firecrawl reply is an `ApiReply` value.
- The direct fetch plus the HTML parse is a `Fetch` value. It holds what
  each CSS selector matched.
- The environment key is a boolean.
- `datetime.now().year` is an integer parameter.
- A crew kickoff is a `CrewResult`.

## Model

| member | source | states |
|---|---|---|
| `UrlCheck.SchemeLength` | fact_check_bot.py:660 | the `^https?://` prefix is matched exactly when the URL starts with http:// or https:// |
| `UrlCheck.MatchesUrlPattern` | fact_check_bot.py:660-661 | defines `re.match(r'^https?://[^\s/$.?#].[^\s]*$', url)`: the scheme, one character that is not whitespace or one of `/$.?#`, one character other than a newline, then non-whitespace up to the end or a final newline |
| `UrlCheck.YearSegmentAt` | fact_check_bot.py:667 | defines where `/(\d{4})/` matches: a slash, four ASCII digits and a slash starting at that index |
| `UrlCheck.IsBbcUrl` | fact_check_bot.py:679 | defines the BBC test `"bbc.com" in url or "bbc.co.uk" in url`; the scraper makes the same test at line 248 |
| `UrlCheck.AdmittedUrlHasHttpScheme` | fact_check_bot.py:660-663 | a URL the format gate admits is non-empty and starts with http:// or https://, so it also passes the tool's own checks at lines 117-131 |
| `UrlCheck.AdmittedUrlWhitespace` | fact_check_bot.py:660 | an admitted URL holds whitespace only right after the first host character (the `.` of the pattern) or as one final newline (`$`) |
| `UrlCheck.FirstYearSegmentFrom` | fact_check_bot.py:667 | `re.search(r'/(\d{4})/')` finds the leftmost `/dddd/` segment: no earlier index matches, and none matches when it finds nothing |
| `UrlCheck.UrlYear` | fact_check_bot.py:667-669 | the year read from the first segment is at most 9999 |
| `UrlCheck.SegmentYear` | fact_check_bot.py:669 | `int` of four digits is at most 9999 |
| `UrlCheck.DecimalBound` | fact_check_bot.py:669 | the value of n decimal digits is below 10^n |
| `UrlCheck.AdmitUrl` | fact_check_bot.py:659-673 | the invalid-format message is returned exactly when the regular expression fails; otherwise the URL is refused exactly when its first `/dddd/` year is after the current year, with the future-date message naming that year |
| `UrlCheck.FutureMessageDiffers` | fact_check_bot.py:662-673 | the future-date message is never the invalid-format message |
| `UrlCheck.LaterYearSegmentsIgnored` | fact_check_bot.py:667-673 | a future year in a later `/dddd/` segment is ignored when the first segment's year is not in the future |
| `UrlCheck.FutureDateMessageNamesYear` | fact_check_bot.py:673 | the message holds `str(year)`, whose digits read back as that year |
| `Text.Lower` | fact_check_bot.py:53 | `lower()` on ASCII text: each ASCII capital becomes its small letter and every other character is kept |
| `Text.Strip` | fact_check_bot.py:301 | `strip()` gives a slice of the input with only whitespace before and after it, and it is empty exactly when the input is all whitespace |
| `Text.StripEnds` | fact_check_bot.py:301 | a non-empty result of `strip()` starts and ends with non-whitespace, so nothing more could be stripped |
| `Text.StripIdempotent` | fact_check_bot.py:378 | stripping twice is stripping once, so the join's second `strip()` leaves a paragraph block unchanged |
| `Text.JoinContains` | fact_check_bot.py:378 | every piece of `"\n\n".join(...)` occurs in the joined text |
| `Text.Join` | fact_check_bot.py:378 | defines `sep.join(xs)`: the pieces in order with the separator between neighbours, "" for no pieces |
| `Text.CollapseSpaces` | fact_check_bot.py:372 | `re.sub(r'\s+', ' ', ...)` never lengthens the text, is empty exactly when the input is, and begins with whitespace exactly when the input does |
| `Text.CollapsedSpacing` | fact_check_bot.py:372 | after `re.sub(r'\s+', ' ', ...)` every whitespace character is a plain space and no two whitespace characters are adjacent |
| `Text.CollapseKeepsCharacters` | fact_check_bot.py:372 | collapsing whitespace brings in no other character: every non-whitespace character of the result was in the input |
| `Text.CollapseKeepsText` | fact_check_bot.py:372 | collapsing whitespace keeps every non-whitespace character of the input, in order: only whitespace runs are rewritten |
| `Text.CollapsedEnd` | fact_check_bot.py:372 | the collapsed text ends in whitespace exactly when the input does |
| `Text.CollapsedEndsInSpace` | fact_check_bot.py:372 | a text ending in whitespace collapses to one ending in a plain space |
| `Text.CollapsedKeepsLast` | fact_check_bot.py:372 | a text ending in non-whitespace collapses to one ending in that same character |
| `Text.CollapseAppend` | fact_check_bot.py:372 | a text that ends in non-whitespace collapses on its own: `re.sub(r'\s+', ' ', a + t)` is the collapsed `a` followed by the collapsed `t` |
| `Text.CollapseRunFirst` | fact_check_bot.py:372 | a whitespace run in front of a text that starts with non-whitespace becomes exactly one space |
| `Text.CollapseRun` | fact_check_bot.py:372 | a whitespace run between two words, or at either end of the text, becomes exactly one space, never none and never more; the texts on either side collapse on their own |
| `Text.NatToString` | fact_check_bot.py:673 | `str(year)` is a non-empty string of digits with no leading zero |
| `Text.DecimalRoundTrip` | fact_check_bot.py:669-673 | `int(str(n)) == n` |
| `SearchTool.Plan` | fact_check_bot.py:53-73 | every query sent extends the agent's query; the first query is the agent's own unless the news branch rewrote it; two queries are sent only for a verify query, and they differ |
| `SearchTool.HasDateTerm` | fact_check_bot.py:55 | defines a match of the date pattern anywhere in the text: a 202x year or a month name, with a word boundary on both sides |
| `SearchTool.IsNewsQuery` | fact_check_bot.py:53 | defines the news test: the lower-cased query contains one of "bbc", "reuters", "news", "reported" |
| `SearchTool.IsDated` | fact_check_bot.py:55-56 | defines a query that already names a date term or contains "recent", lower-cased |
| `SearchTool.IsVerifyQuery` | fact_check_bot.py:63 | defines the verification test: the lower-cased query contains "verify" or "fact check" |
| `SearchTool.TakesNewsBranch` | fact_check_bot.py:53-60 | defines when the early news branch returns: a news query with no date term and no "recent" |
| `SearchTool.Search` | fact_check_bot.py:42-73 | a single search returns the backend's text unchanged; two searches return exactly "Regular search results:", the plain results, then "Verification search results:" and the results for the query with the verification suffix |
| `SearchTool.NewsQuerySearchedOnce` | fact_check_bot.py:53-60 | a news query with no year, no month name and no "recent" is searched once, as `query + " recent news"`, even when it asks to verify |
| `SearchTool.VerifyQuerySearchedTwice` | fact_check_bot.py:63-70 | any other query containing "verify" or "fact check" is searched twice: unchanged, then with the verification suffix |
| `SearchTool.OtherQuerySearchedUnchanged` | fact_check_bot.py:72-73 | every remaining query is searched once, unchanged |
| `SearchTool.RecencyAppendedOnce` | fact_check_bot.py:55-58 | a rewritten query counts as dated, so it is never rewritten again |
| `BodyText.LazyEnd` | fact_check_bot.py:373 | the lazy part of the noise pattern ends just after the first full stop, at the end of the text, or just before a final newline, with no full stop or newline before that end; it fails exactly when a newline that is not the last character comes before any full stop |
| `BodyText.NoiseWordAt` | fact_check_bot.py:373 | gives the length of the noise alternative that matches at an index without regard to case; any match it reports is non-empty and inside the text |
| `BodyText.DenoiseFrom` | fact_check_bot.py:373 | the left-to-right scan of `re.sub`: a match is dropped and the scan resumes at its end, other characters are kept; the result is no longer than the scanned part and holds only its characters |
| `BodyText.NoiseMatch` | fact_check_bot.py:373 | a noise match is never empty and stays inside the text |
| `BodyText.Denoise` | fact_check_bot.py:373 | noise removal keeps only characters of the input and never lengthens it |
| `BodyText.DenoiseWithoutNoise` | fact_check_bot.py:373 | a text with no noise word anywhere is left unchanged |
| `BodyText.BodyBlock` | fact_check_bot.py:367-374 | the body tier's block has at most 8000 characters, and its only whitespace is the plain space |
| `BodyText.CollapsedBodyHasSingleSpaces` | fact_check_bot.py:369-372 | before noise removal the collapsed body text has no two whitespace characters in a row and no whitespace at either end |
| `BodyText.DenoisedSpaces` | fact_check_bot.py:372-373 | after whitespace collapsing and noise removal the only whitespace left is the plain space |
| `BodyText.NoNoiseFrom` | fact_check_bot.py:373 | no noise match starts at a letter other than s, f, c or n |
| `BodyText.SubscribeSentenceMatched` | fact_check_bot.py:373 | in "a Subscribe. b" the noise match runs from "Subscribe" through the full stop |
| `BodyText.NoiseRemovalCanLeaveDoubleSpace` | fact_check_bot.py:372-374 | noise removal turns "a Subscribe. b" into "a  b", with two spaces in a row |
| `Scraper.FirstMatch` | fact_check_bot.py:260-266 | the headline loop stops at the first selector that matched: none before it matched |
| `Scraper.HeadlineBlocks` | fact_check_bot.py:259-266 | defines the headline step: `"# "` and the stripped text of the first selector that matched, or no block |
| `Scraper.ContainerParagraph` | fact_check_bot.py:297-303 | defines the container filter: no skip word in the class string, stripped text non-empty, longer than 10 and not starting with "Share this" |
| `Scraper.MetadataLine` | fact_check_bot.py:326-330 | defines the metadata filter: stripped text non-empty and free of the lower-cased skip words, wrapped in asterisks |
| `Scraper.BbcParagraph` | fact_check_bot.py:338-342 | defines the BBC generic filter: stripped text non-empty, longer than 40 and free of the lower-cased noise words |
| `Scraper.MainParagraph` | fact_check_bot.py:352-355 | defines the main-content filter: stripped text non-empty and longer than 30 |
| `Scraper.PageParagraph` | fact_check_bot.py:361-364 | defines the whole-page filter: stripped text non-empty and longer than 50 |
| `Scraper.NonBlank` | fact_check_bot.py:378 | defines the join filter: a block is kept, stripped, when its stripped text is non-empty |
| `Scraper.ContainerParagraphKept` | fact_check_bot.py:298-303 | a container paragraph is kept only when its class names none of navigation, social, share, hidden; the block is its stripped text, longer than 10 characters, and does not start with "Share this" |
| `Scraper.MetadataLineKept` | fact_check_bot.py:326-330 | a metadata element is kept only when its stripped text is non-empty and its lower-cased text holds none of "share this", "follow us", "subscribe"; the block is that stripped text between asterisks |
| `Scraper.BbcParagraphKept` | fact_check_bot.py:338-342 | a kept BBC generic paragraph is stripped, longer than 40 characters, and free of the noise words in any case |
| `Scraper.MainParagraphKept` | fact_check_bot.py:352-355 | a kept main-content paragraph is stripped and longer than 30 characters |
| `Scraper.PageParagraphKept` | fact_check_bot.py:361-364 | a kept whole-page paragraph is stripped and longer than 50 characters |
| `Scraper.ContainerBlocks` | fact_check_bot.py:290-304 | every block of the container tier is the stripped text of a matched element whose class names none of the skip words; it is longer than 10 characters and does not start with "Share this" |
| `Scraper.ContainersConcatenate` | fact_check_bot.py:290-304 | the container tier concatenates the containers' blocks with no de-duplication, so an overlapping container repeats its paragraphs |
| `Scraper.MetadataBlocks` | fact_check_bot.py:322-330 | every metadata block is the stripped, non-empty text of a matched element, free of the skip words, between asterisks |
| `Scraper.BbcParagraphBlocks` | fact_check_bot.py:333-342 | every BBC generic block is stripped, longer than 40 characters, and free of cookie/subscribe/newsletter/share this in any case |
| `Scraper.MainBlocks` | fact_check_bot.py:348-355 | every main-content block is stripped and longer than 30 characters |
| `Scraper.PageBlocks` | fact_check_bot.py:356-364 | every whole-page block is stripped and longer than 50 characters |
| `Scraper.Extract` | fact_check_bot.py:247-375 | the tiers give at least one block. Whichever tier supplies the blocks, every earlier tier supplied none. The BBC tiers run only for BBC URLs. Every block meets its tier's filter. The whole-page tier is used only when there is no main-content element. The blocks are exactly that tier's blocks: the headline, container and metadata blocks in that order for the selector tier, the filtered paragraphs for the BBC paragraph tier, the main element's paragraphs, all the page's paragraphs, or the one body block of at most 8000 characters |
| `Scraper.SelectorTierFiltered` | fact_check_bot.py:259-330 | every block of the BBC selector tier is a headline starting with "# ", a stripped paragraph longer than 10 characters that does not start with "Share this", or a metadata text between asterisks |
| `Scraper.ArticleKeepsEveryBlock` | fact_check_bot.py:378 | the joined article text contains every non-blank block, stripped |
| `Scraper.ArticleText` | fact_check_bot.py:378 | defines the article text: the non-blank blocks of the chosen tier, stripped, joined with blank lines |
| `Scraper.FallbackText` | fact_check_bot.py:212-397 | the result is the joined article text, at least 100 characters long, exactly when the fetch returned 200, was not redirected to example.com, and that text is long enough; every other result starts with "Error" |
| `Scraper.Parsed` | fact_check_bot.py:238-241 | defines the parsing stage: the fetch succeeded with status 200 and the final URL, lower-cased, does not contain "example.com" |
| `Scraper.ParsedText` | fact_check_bot.py:384-389 | the length check: the article text itself when it has at least 100 characters, a message starting with "Error" otherwise |
| `Scraper.RedirectTargetOnlyGuards` | fact_check_bot.py:239-248 | the URL reached after redirects feeds only the example.com check; the tiers are chosen by the requested URL |
| `Scraper.FallbackScrape` | fact_check_bot.py:212-397 | the imperative scraper returns exactly `FallbackText` |
| `Scraper.ExtractBlocks` | fact_check_bot.py:245-375 | the tier sequence, with its emptiness tests, builds exactly `Extract`'s blocks |
| `Scraper.BbcTiers` | fact_check_bot.py:248-342 | for a BBC URL the headline, container and metadata tiers are built in that order, and the generic paragraph tier only when they gave nothing; for any other URL nothing |
| `Scraper.HeadlineLoop` | fact_check_bot.py:259-266 | the headline loop with its `break` gives the headline block of the first selector that matched, or none |
| `Scraper.ContainerLoop` | fact_check_bot.py:290-304 | the loop over containers builds exactly the container tier |
| `Scraper.GroupLoop` | fact_check_bot.py:292-304 | the loop over paragraph selectors in one container keeps what the filter keeps, in order |
| `Scraper.SelectorLoop` | fact_check_bot.py:296-304 | the paragraph loop with its `continue` keeps what the filter keeps, in order |
| `Scraper.MetadataLoop` | fact_check_bot.py:322-330 | the loop over metadata selectors builds exactly the metadata tier |
| `Scraper.MatchLoop` | fact_check_bot.py:326-330 | the loop over one selector's matches keeps what the metadata filter keeps, in order |
| `Scraper.BbcParagraphLoop` | fact_check_bot.py:335-342 | the BBC generic loop builds exactly the BBC generic tier |
| `Scraper.MainParagraphLoop` | fact_check_bot.py:349-355 | the main-content loop builds exactly the main-content tier |
| `Scraper.PageParagraphLoop` | fact_check_bot.py:358-364 | the whole-page loop builds exactly the whole-page tier |
| `Firecrawl.MarkdownElseHtml` | fact_check_bot.py:179 | the markdown member is used whenever it is present, whatever its value; otherwise the html member when present, otherwise ""; "" when there is no `data`; nothing when `data` is not an object |
| `Firecrawl.Acceptable` | fact_check_bot.py:180 | defines the acceptance test on API content: stripped length over 100 and no "Example Domain" in it |
| `Firecrawl.PrimaryContent` | fact_check_bot.py:174-184 | API content is accepted exactly when the status is 200, `success` holds, the selected member is a string, its stripped length is over 100, and it does not contain "Example Domain" |
| `Firecrawl.Run` | fact_check_bot.py:80-210 | an empty URL and a URL without an http(s) scheme get their error messages with no request made. Otherwise the API is asked exactly when the key is set. Accepted API content is returned with no direct scrape. Every other path returns the direct scrape's result, scraping exactly once |
| `Firecrawl.RunIsContentOrError` | fact_check_bot.py:117-210 | every result starts with "Error" or has at least 100 characters; at most one direct scrape happens; bad input makes no request |
| `Firecrawl.EmptyMarkdownHidesHtml` | fact_check_bot.py:179-189 | an empty markdown member hides a good html member, so the direct scraper runs |
| `Firecrawl.NoKeyIgnoresApi` | fact_check_bot.py:138-142 | with no API key the result does not depend on the API and no request is made |
| `FactCheck.FactCheckText` | fact_check_bot.py:756-775 | `fact_check_text` returns the last task output; a result that is not the task-output dict is returned as rendered; no output at all, or a crew fault, gives an "Error: " message |
| `FactCheck.ExtractionOutput` | fact_check_bot.py:707 | defines the extraction result: the first task output, or "No content extraction result" when there is none |
| `FactCheck.ExtractionFailed` | fact_check_bot.py:712 | defines the failure test: the extraction result contains "Error", with that case, and is shorter than 500 characters |
| `FactCheck.FinalSummary` | fact_check_bot.py:725 | defines the final summary: the last task output, or "No results available" when there is none |
| `FactCheck.BbcTemplate` | fact_check_bot.py:738-743 | defines the BBC report: the fixed text naming the URL, then the summary, the source and recommendation lines, and `**Real**` |
| `FactCheck.FactCheckUrl` | fact_check_bot.py:649-754 | at most two crew runs and one recovery scrape happen. No crew runs exactly when the input checks refuse the URL, and then the report is their message. A recovery scrape happens exactly for an admitted URL whose crew gave task outputs with a failed extraction, and only when the URL is a BBC URL. A second crew run happens exactly when that scrape gives more than 500 characters |
| `FactCheck.InvalidUrlRunsNothing` | fact_check_bot.py:660-663 | the invalid-format message with no crew run is returned exactly when the URL fails the regular expression |
| `FactCheck.FutureYearRunsNothing` | fact_check_bot.py:667-673 | a future first-segment year gives the future-date message with no crew run |
| `FactCheck.ExtractionFailureReported` | fact_check_bot.py:712-723 | a short extraction output containing "Error" gives "Failed to extract content from URL: …" ending with that output, unless a BBC re-scrape gives more than 500 characters, which are then fact-checked as text. The recovery scrape is made exactly when the URL is a BBC URL, whatever it returns |
| `FactCheck.RecoveryUsesScrapedText` | fact_check_bot.py:714-719 | a successful BBC re-scrape of more than 500 characters is fact-checked as text |
| `FactCheck.LongScrapeErrorIsFactChecked` | fact_check_bot.py:716-719 | the recovery test is length alone: a re-scrape that raised with a long enough message is fact-checked as if it were article text |
| `FactCheck.BbcTemplateShape` | fact_check_bot.py:739-744 | the BBC template contains the summary and ends with `**Real**` |
| `FactCheck.BbcSummaryLabelledReal` | fact_check_bot.py:725-745 | a BBC summary that lacks "verifiable claims" in any case is replaced by the fixed template. The template contains the summary and ends `**Real**` |
| `FactCheck.SummaryReturnedUnchanged` | fact_check_bot.py:725-749 | otherwise the last task output is returned unchanged |
| `FactCheck.UnstructuredReturnedAsIs` | fact_check_bot.py:703-751 | a crew result that is not the task-output dict is returned as rendered after one crew run, with no extraction test, no recovery scrape and no BBC template, even for a BBC URL |
| `FactCheck.CrewFaultSurfaced` | fact_check_bot.py:752-754 | an exception from the crew is returned as "Error: " followed by its message |

## Left out

Framework and ambient state:

- The agents, tasks, crew wiring and all prompt text (fact_check_bot.py:404-647). This includes the Real/Fake/Uncertain mapping and the BBC credibility floor. Those are instructions to the language model, not program behaviour.
- app.py, the Streamlit front end.
- The `Task.current()` context-URL override at the head of `FirecrawlTool._run`. It reads a framework global, and any failure there is caught and logged.
- All logging.
- The `isinstance(url, str)` check. URLs are strings in the model.
- The unused `article_title` computation in `fact_check_url`.
- The try/except around the BBC template. Formatting strings cannot raise there.

Parse errors and unreachable branches:

- The `Error validating URL date` branch. Its `int()` is applied to exactly four digits, so it cannot raise.
- Every way `response.json()` or a `.get` on a non-object can raise is folded into `NotJsonObject` or `DataNotObject`. The source reacts to all of these the same way: one fallback scrape.
- Every exception inside `_fallback_scrape` (network, parser, selector) is folded into `FetchRaised`, whose message stands for `str(e)`.

Abstracted inputs:

- SearchTool.Search: the backend is a total function, so a search that raises is not modelled. In `SearchTool._run` an exception from `self.search_tool.run` (fact_check_bot.py:60, 65, 68, 73) is not caught and reaches the caller; in the two-search branch a failure of the second search loses the first search's results.
- `fact_check_crew.kickoff` returns a framework object. The model takes it as task outputs, as another object rendered by `str`, or as an exception. Which of these the framework actually returns is not part of this model.
- BeautifulSoup's selector matching and `get_text()` are not modelled. The `Page` value gives, for each selector the scraper tries, the texts and class strings of the elements it matched.

ASCII-only string handling and the body-tier caveat:

- Text.Lower: only ASCII letters are lower-cased, and the same holds for the IGNORECASE comparison in `BodyText.NoiseWordAt`. Results can differ from Python's on non-ASCII input: `lower()` maps U+212A KELVIN SIGN to 'k', so "Coo\u212Aie" contains "cookie" there but not here; under IGNORECASE 'ſ' (U+017F) matches 's'; and 'İ' (U+0130) lower-cases to two characters, so Python's `lower()` does not always keep the length.
- UrlCheck.YearSegmentAt, SearchTool.DecadeYearAt, SearchTool.BoundaryBefore and SearchTool.BoundaryAfter accept ASCII digits and ASCII word characters only. Python's `\d` and `\w` also accept other Unicode digits and letters.
- BodyText.BodyBlock: this states only that the block has no whitespace other than plain spaces. It does not state that there are no two spaces in a row. Noise removal runs after whitespace collapsing and can leave two spaces next to each other (`BodyText.NoiseRemovalCanLeaveDoubleSpace`). The single-space property is proved for the text before noise removal (`BodyText.CollapsedBodyHasSingleSpaces`).
