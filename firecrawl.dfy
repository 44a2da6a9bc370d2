/** `FirecrawlTool._run`: validate the URL, ask the Firecrawl API for the
    page, accept its content only when it looks like a real article, and
    otherwise fall back to the direct scraper exactly once. The API reply
    and the direct fetch are inputs; the result records how often each was
    used. */
module Firecrawl {
  import opened Seqs
  import opened Text
  import opened UrlCheck
  import opened Scraper

  /** A JSON member: absent, present but not a string (null, a number, a
      list, ...), or a string. */
  datatype Field = Missing | NotText | Str(s: string)

  /** The reply's `data` member: absent, not an object, or an object with
      its `markdown` and `html` members. */
  datatype Payload = NoData | DataNotObject | DataObject(markdown: Field, html: Field)

  /** `response.json()`: not a JSON object (the parse or the first `.get`
      raises), or an object with the truthiness of `success` and its
      `data`. */
  datatype ApiBody = NotJsonObject | JsonObject(success: bool, data: Payload)

  /** `requests.post` to the scrape endpoint: raised, or answered. */
  datatype ApiReply = ApiRaised(message: string) | ApiResponded(status: nat, body: ApiBody)

  /** What one call of `_run` returns, with the number of API requests and
      of direct scrapes it made. */
  datatype ScrapeRun = ScrapeRun(text: string, apiCalls: nat, fallbackCalls: nat)

  const NoUrlMessage: string := "Error: No URL provided"
  const BadSchemeMessage: string :=
    "Error: Invalid URL format. " + "URL must start with " + "http:// or https://"

  /** `data.get("data", {}).get("markdown", data.get("data", {}).get("html", ""))`:
      the markdown member whenever it is present, whatever its value; the
      html member only when markdown is absent; "" when both are, or when
      there is no `data`. None when `data` is not an object, where `.get`
      raises. */
  function MarkdownElseHtml(p: Payload): (r: Option<Field>)
    ensures r.None? <==> p.DataNotObject?
    ensures p.NoData? ==> r == Some(Str(""))
    ensures p.DataObject? && p.markdown != Missing ==> r == Some(p.markdown)
    ensures p.DataObject? && p.markdown == Missing ==>
      r == Some(if p.html != Missing then p.html else Str(""))
    ensures r.Some? ==> r.value != Missing
  {
    match p
    case NoData => Some(Str(""))
    case DataNotObject => None
    case DataObject(markdown, html) =>
      if markdown != Missing then Some(markdown)
      else if html != Missing then Some(html)
      else Some(Str(""))
  }

  /** `content and len(content.strip()) > 100 and "Example Domain" not in content`. */
  predicate Acceptable(content: string) {
    |Strip(content)| > 100 && !Contains(content, "Example Domain")
  }

  /** The content `_run` returns from the API, when it accepts it. */
  function PrimaryContent(api: ApiReply): (r: Option<string>)
    ensures r.Some? <==>
      api.ApiResponded? && api.status == 200 && api.body.JsonObject? && api.body.success
      && MarkdownElseHtml(api.body.data).Some?
      && MarkdownElseHtml(api.body.data).value.Str?
      && Acceptable(MarkdownElseHtml(api.body.data).value.s)
    ensures r.Some? ==> Some(Str(r.value)) == MarkdownElseHtml(api.body.data)
  {
    match api
    case ApiRaised(_) => None
    case ApiResponded(status, body) =>
      if status != 200 || body.NotJsonObject? || !body.success then None
      else match MarkdownElseHtml(body.data)
        case Some(Str(content)) => if Acceptable(content) then Some(content) else None
        case _ => None
  }

  /** `FirecrawlTool._run(url)` with `keySet` for a non-empty
      `FIRECRAWL_API_KEY`, `api` for the API's reply and `page` for what the
      direct scraper would fetch. */
  function Run(url: string, keySet: bool, api: ApiReply, page: Fetch): (r: ScrapeRun)
    ensures url == [] ==> r == ScrapeRun(NoUrlMessage, 0, 0)
    ensures url != [] && !HasHttpScheme(url) ==> r == ScrapeRun(BadSchemeMessage, 0, 0)
    ensures HasHttpScheme(url) ==> (r.apiCalls == 1 <==> keySet) && r.apiCalls <= 1
    ensures HasHttpScheme(url) && keySet && PrimaryContent(api).Some? ==>
      r == ScrapeRun(PrimaryContent(api).value, 1, 0) && |r.text| > 100
    ensures HasHttpScheme(url) && !(keySet && PrimaryContent(api).Some?) ==>
      r.text == FallbackText(url, page) && r.fallbackCalls == 1
  {
    if url == [] then ScrapeRun(NoUrlMessage, 0, 0)
    else if !HasHttpScheme(url) then ScrapeRun(BadSchemeMessage, 0, 0)
    else if !keySet then ScrapeRun(FallbackText(url, page), 0, 1)
    else match PrimaryContent(api)
      case Some(content) => ScrapeRun(content, 1, 0)
      case None => ScrapeRun(FallbackText(url, page), 1, 1)
  }

  /** Every call either makes no request at all (bad input), or returns
      content of more than 100 characters, or returns an "Error" message; a
      direct scrape happens at most once. */
  lemma RunIsContentOrError(url: string, keySet: bool, api: ApiReply, page: Fetch)
    ensures var r := Run(url, keySet, api, page);
      r.fallbackCalls <= 1
      && (StartsWith(r.text, "Error") || |r.text| >= MinArticleLength)
      && (!HasHttpScheme(url) ==> r.apiCalls == 0 && r.fallbackCalls == 0 && StartsWith(r.text, "Error"))
  {
  }

  /** A markdown member that is present hides the html member even when it
      is empty: the API content is then refused and the direct scraper runs,
      however good the html is. */
  lemma EmptyMarkdownHidesHtml(url: string, html: string, page: Fetch)
    requires HasHttpScheme(url)
    ensures var api := ApiResponded(200, JsonObject(true, DataObject(Str(""), Str(html))));
      Run(url, true, api, page) == ScrapeRun(FallbackText(url, page), 1, 1)
  {
    var api := ApiResponded(200, JsonObject(true, DataObject(Str(""), Str(html))));
    assert MarkdownElseHtml(api.body.data) == Some(Str(""));
    assert !Acceptable("");
    assert PrimaryContent(api).None?;
  }

  /** With no API key the API is never asked: the result is the direct
      scrape whatever the API would have answered. */
  lemma NoKeyIgnoresApi(url: string, a1: ApiReply, a2: ApiReply, page: Fetch)
    requires HasHttpScheme(url)
    ensures Run(url, false, a1, page) == Run(url, false, a2, page)
    ensures Run(url, false, a1, page).apiCalls == 0
  {
  }
}
