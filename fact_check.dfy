/** The two entry points, `fact_check_url` and `fact_check_text`: the input
    checks, one crew run, and the choice of what to return from the crew's
    task outputs. The crew runs and the recovery scrape are inputs. */
module FactCheck {
  import opened Text
  import opened UrlCheck
  import opened Scraper

  /** What `fact_check_crew.kickoff(inputs=...)` gives back: a dict with the
      `raw` text of each task output in order, any other object (returned
      as `str(result)`), or an exception. */
  datatype CrewResult = TaskOutputs(raws: seq<string>) | Unstructured(rendered: string) | CrewRaised(message: string)

  /** The report returned, with the number of crew runs and of recovery
      scrapes it took. */
  datatype Outcome = Outcome(report: string, crewRuns: nat, rescrapes: nat)

  const ErrorThreshold: nat := 500
  const NoExtractionResult: string := "No content extraction result"
  const NoResults: string := "No results available"
  /** `str(e)` of the IndexError that `[-1]` raises on an empty list. */
  const EmptyOutputsMessage: string := "Error: list index out of range"

  const RealLabel: string := "**Real**"

  /** The lines of the BBC template after the summary. */
  const BbcTemplateTail: string :=
    "\n" + "2. Source: BBC News, " + "a generally reliable mainstream news source.\n"
    + "3. Recommendations: " + "Information from BBC News is generally reliable, "
    + "but for complete verification, " + "cross-reference with other reputable sources.\n"
    + "\n"

  /** The report for a BBC article whose summary does not mention
      verifiable claims. */
  function BbcTemplate(url: string, summary: string): string {
    BbcTemplateHead(url) + summary + BbcTemplateTail + RealLabel
  }

  function BbcTemplateHead(url: string): string {
    "Based on the provided content from " + url + ":\n" + "1. Overall Assessment: "
  }

  /** `fact_check_text(text)`: the last task output of one crew run on the
      text; a crew fault, or no output at all, becomes an "Error: " message. */
  function FactCheckText(text: string, textCrew: string -> CrewResult): (r: string)
    ensures textCrew(text).TaskOutputs? && textCrew(text).raws != [] ==>
      r == textCrew(text).raws[|textCrew(text).raws| - 1]
    ensures textCrew(text).TaskOutputs? && textCrew(text).raws == [] ==> StartsWith(r, "Error: ")
    ensures textCrew(text).Unstructured? ==> r == textCrew(text).rendered
    ensures textCrew(text).CrewRaised? ==> r == "Error: " + textCrew(text).message
  {
    match textCrew(text)
    case TaskOutputs(raws) => if raws == [] then EmptyOutputsMessage else raws[|raws| - 1]
    case Unstructured(rendered) => rendered
    case CrewRaised(message) => "Error: " + message
  }

  /** The extraction task's output, the first one. */
  function ExtractionOutput(raws: seq<string>): string {
    if |raws| > 0 then raws[0] else NoExtractionResult
  }

  /** The summary task's output, the last one. */
  function FinalSummary(raws: seq<string>): string {
    if raws != [] then raws[|raws| - 1] else NoResults
  }

  /** The extraction output reports a failure: it mentions "Error", with
      that exact case, and is short. */
  predicate ExtractionFailed(extraction: string) {
    Contains(extraction, "Error") && |extraction| < ErrorThreshold
  }

  /** `fact_check_url(url)` with the current year, the crew run on the URL,
      what a recovery scrape of the URL would fetch, and the crew run on a
      text. */
  function FactCheckUrl(url: string, currentYear: int, urlCrew: CrewResult, rescrape: Fetch,
                        textCrew: string -> CrewResult): (r: Outcome)
    ensures r.crewRuns <= 2 && r.rescrapes <= 1
    ensures r.crewRuns == 0 <==> AdmitUrl(url, currentYear).Rejected?
    ensures r.crewRuns == 0 ==> r.rescrapes == 0 && r.report == AdmitUrl(url, currentYear).message
    ensures r.rescrapes == 1 ==> IsBbcUrl(url)
    ensures r.rescrapes == 1 <==>
      AdmitUrl(url, currentYear).Admitted? && urlCrew.TaskOutputs?
      && ExtractionFailed(ExtractionOutput(urlCrew.raws)) && IsBbcUrl(url)
    ensures r.crewRuns == 2 <==> r.rescrapes == 1 && |FallbackText(url, rescrape)| > ErrorThreshold
  {
    match AdmitUrl(url, currentYear)
    case Rejected(message) => Outcome(message, 0, 0)
    case Admitted =>
      match urlCrew
      case CrewRaised(message) => Outcome("Error: " + message, 1, 0)
      case Unstructured(rendered) => Outcome(rendered, 1, 0)
      case TaskOutputs(raws) =>
        var extraction := ExtractionOutput(raws);
        if ExtractionFailed(extraction) then
          if IsBbcUrl(url) then
            var content := FallbackText(url, rescrape);
            if |content| > ErrorThreshold then Outcome(FactCheckText(content, textCrew), 2, 1)
            else Outcome("Failed to extract content from URL: " + url + ". " + extraction, 1, 1)
          else Outcome("Failed to extract content from URL: " + url + ". " + extraction, 1, 0)
        else
          var summary := FinalSummary(raws);
          if IsBbcUrl(url) && !Contains(Lower(summary), "verifiable claims") then
            Outcome(BbcTemplate(url, summary), 1, 0)
          else Outcome(summary, 1, 0)
  }

  /** The format gate: the invalid-format message comes back exactly when
      the URL fails the regular expression, and then nothing runs. */
  lemma InvalidUrlRunsNothing(url: string, currentYear: int, urlCrew: CrewResult, rescrape: Fetch,
                              textCrew: string -> CrewResult)
    ensures var r := FactCheckUrl(url, currentYear, urlCrew, rescrape, textCrew);
      !MatchesUrlPattern(url) <==> r == Outcome(InvalidUrlMessage, 0, 0)
  {
    if MatchesUrlPattern(url) && AdmitUrl(url, currentYear).Rejected? {
      FutureMessageDiffers(UrlYear(url).value);
    }
  }

  /** The future-year guard: a well-formed URL whose first `/dddd/` segment
      is after the current year is refused with that year named, before any
      crew run. */
  lemma FutureYearRunsNothing(url: string, currentYear: int, urlCrew: CrewResult, rescrape: Fetch,
                              textCrew: string -> CrewResult)
    requires MatchesUrlPattern(url)
    requires UrlYear(url).Some? && UrlYear(url).value > currentYear
    ensures FactCheckUrl(url, currentYear, urlCrew, rescrape, textCrew)
         == Outcome(FutureDateMessage(UrlYear(url).value), 0, 0)
  {
  }

  /** A short extraction output mentioning "Error" gives the failure report,
      unless the URL is a BBC one and a fresh scrape gives more than 500
      characters, which are then fact-checked as text. */
  lemma ExtractionFailureReported(url: string, currentYear: int, raws: seq<string>, rescrape: Fetch,
                                  textCrew: string -> CrewResult)
    requires AdmitUrl(url, currentYear).Admitted?
    requires ExtractionFailed(ExtractionOutput(raws))
    ensures var r := FactCheckUrl(url, currentYear, TaskOutputs(raws), rescrape, textCrew);
      if IsBbcUrl(url) && |FallbackText(url, rescrape)| > ErrorThreshold
      then r == Outcome(FactCheckText(FallbackText(url, rescrape), textCrew), 2, 1)
      else StartsWith(r.report, "Failed to extract content from URL: " + url)
           && EndsWith(r.report, ExtractionOutput(raws)) && r.crewRuns == 1
           && r.rescrapes == (if IsBbcUrl(url) then 1 else 0)
  {
    var r := FactCheckUrl(url, currentYear, TaskOutputs(raws), rescrape, textCrew);
    var e := ExtractionOutput(raws);
    if !(IsBbcUrl(url) && |FallbackText(url, rescrape)| > ErrorThreshold) {
      FailureReportShape(url, e);
      if IsBbcUrl(url) {
        assert r == Outcome("Failed to extract content from URL: " + url + ". " + e, 1, 1);
      } else {
        assert r == Outcome("Failed to extract content from URL: " + url + ". " + e, 1, 0);
      }
    }
  }

  /** The failure report starts with the fixed text and the URL, and ends
      with the extraction output. */
  lemma FailureReportShape(url: string, extraction: string)
    ensures var report := "Failed to extract content from URL: " + url + ". " + extraction;
      StartsWith(report, "Failed to extract content from URL: " + url) && EndsWith(report, extraction)
  {
    var prefix := "Failed to extract content from URL: " + url;
    assert prefix + ". " + extraction == prefix + (". " + extraction);
  }

  /** When the recovery scrape parses the page and its article text is over
      500 characters, that text is what gets fact-checked. */
  lemma RecoveryUsesScrapedText(url: string, currentYear: int, raws: seq<string>, rescrape: Fetch,
                                textCrew: string -> CrewResult)
    requires AdmitUrl(url, currentYear).Admitted? && IsBbcUrl(url)
    requires ExtractionFailed(ExtractionOutput(raws))
    requires Parsed(rescrape) && |ArticleText(url, rescrape.page)| > ErrorThreshold
    ensures FactCheckUrl(url, currentYear, TaskOutputs(raws), rescrape, textCrew).report
         == FactCheckText(ArticleText(url, rescrape.page), textCrew)
  {
  }

  /** The recovery test is on length alone: a scrape that raised with a
      message long enough is fact-checked as if it were article text. */
  lemma LongScrapeErrorIsFactChecked(url: string, currentYear: int, raws: seq<string>, message: string,
                                     textCrew: string -> CrewResult)
    requires AdmitUrl(url, currentYear).Admitted? && IsBbcUrl(url)
    requires ExtractionFailed(ExtractionOutput(raws))
    requires |message| > ErrorThreshold
    ensures var error := "Error scraping URL " + url + ": " + message;
      FactCheckUrl(url, currentYear, TaskOutputs(raws), FetchRaised(message), textCrew)
        == Outcome(FactCheckText(error, textCrew), 2, 1)
  {
  }

  /** The template names the summary and ends with the Real label. */
  lemma BbcTemplateShape(url: string, summary: string)
    ensures Contains(BbcTemplate(url, summary), summary)
    ensures EndsWith(BbcTemplate(url, summary), RealLabel)
  {
    var head := BbcTemplateHead(url);
    var t := BbcTemplate(url, summary);
    assert t == head + summary + (BbcTemplateTail + RealLabel);
    assert t[|head|..|head| + |summary|] == summary;
    assert OccursAt(t, summary, |head|);
    assert t == (head + summary + BbcTemplateTail) + RealLabel;
  }

  /** A BBC summary that does not mention verifiable claims, in any case,
      is replaced by the fixed template, which names the summary and ends
      with the Real label. */
  lemma BbcSummaryLabelledReal(url: string, currentYear: int, raws: seq<string>, rescrape: Fetch,
                               textCrew: string -> CrewResult)
    requires AdmitUrl(url, currentYear).Admitted? && IsBbcUrl(url)
    requires !ExtractionFailed(ExtractionOutput(raws))
    requires !Contains(Lower(FinalSummary(raws)), "verifiable claims")
    ensures var r := FactCheckUrl(url, currentYear, TaskOutputs(raws), rescrape, textCrew);
      r == Outcome(BbcTemplate(url, FinalSummary(raws)), 1, 0)
      && EndsWith(r.report, RealLabel)
      && Contains(r.report, FinalSummary(raws))
  {
    BbcTemplateShape(url, FinalSummary(raws));
  }

  /** Otherwise the last task output is returned as it is. */
  lemma SummaryReturnedUnchanged(url: string, currentYear: int, raws: seq<string>, rescrape: Fetch,
                                 textCrew: string -> CrewResult)
    requires AdmitUrl(url, currentYear).Admitted?
    requires !ExtractionFailed(ExtractionOutput(raws))
    requires !IsBbcUrl(url) || Contains(Lower(FinalSummary(raws)), "verifiable claims")
    ensures FactCheckUrl(url, currentYear, TaskOutputs(raws), rescrape, textCrew)
         == Outcome(FinalSummary(raws), 1, 0)
  {
  }

  /** A crew result that is not the task-output dict is returned as it is
      rendered: no extraction test, no recovery scrape and no BBC template,
      whatever the URL. */
  lemma UnstructuredReturnedAsIs(url: string, currentYear: int, rendered: string, rescrape: Fetch,
                                 textCrew: string -> CrewResult)
    requires AdmitUrl(url, currentYear).Admitted?
    ensures FactCheckUrl(url, currentYear, Unstructured(rendered), rescrape, textCrew)
         == Outcome(rendered, 1, 0)
  {
  }

  /** A crew fault on the URL is surfaced as "Error: " and its message. */
  lemma CrewFaultSurfaced(url: string, currentYear: int, message: string, rescrape: Fetch,
                          textCrew: string -> CrewResult)
    requires AdmitUrl(url, currentYear).Admitted?
    ensures FactCheckUrl(url, currentYear, CrewRaised(message), rescrape, textCrew)
         == Outcome("Error: " + message, 1, 0)
  {
  }
}
