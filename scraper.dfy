/** `FirecrawlTool._fallback_scrape`: fetch the page directly and pull
    readable text out of it, tier by tier. The parsed page is given as what
    each CSS selector of the scraper matched; the scraper's own logic (which
    tier runs, which element is kept, how blocks are joined) is modelled. */
module Scraper {
  import opened Seqs
  import opened Text
  import opened UrlCheck
  import opened BodyText

  /** One element a selector matched: its `get_text()` and its class
      attribute rendered as `str(p.get('class', []))`. */
  datatype Element = Element(text: string, classText: string)

  /** The page as the scraper's selectors see it. */
  datatype Page = Page(
    /** `select_one` of each headline selector, in the order tried: the
        matched element's text, None when nothing matched. */
    headlines: seq<Option<string>>,
    /** For each BBC content container: for each paragraph selector tried
        in it, the elements matched. Overlapping containers each list their
        own matches. */
    containers: seq<seq<seq<Element>>>,
    /** For each metadata selector: the texts of the elements matched. */
    metadata: seq<seq<string>>,
    /** `soup.select('p')`: the texts of every paragraph of the page. */
    paragraphs: seq<string>,
    /** `select_one('main, article, .content, ...')`: the texts of the
        paragraphs inside the first main-content element, None when the
        page has none. */
    mainContent: Option<seq<string>>,
    /** `soup.body.get_text()`, None when the page has no body. */
    body: Option<string>)

  /** What `requests.get(url, ..., allow_redirects=True)` and the parser
      produced: an exception, or a response with its status code, the URL
      after redirects and the parsed page. */
  datatype Fetch = FetchRaised(message: string) | Fetched(status: nat, finalUrl: string, page: Page)

  const ClassSkipWords: seq<string> := ["navigation", "social", "share", "hidden"]
  const MetadataSkipWords: seq<string> := ["share this", "follow us", "subscribe"]
  const ParagraphNoiseWords: seq<string> := ["cookie", "subscribe", "newsletter", "share this"]
  const MinArticleLength: nat := 100

  // ---- What each tier keeps of one element ----

  /** A paragraph inside a BBC container. */
  function ContainerParagraph(p: Element): Option<string> {
    if ContainsAny(p.classText, ClassSkipWords) then None
    else
      var t := Strip(p.text);
      if t != "" && |t| > 10 && !StartsWith(t, "Share this") then Some(t) else None
  }

  /** A BBC metadata element, wrapped in asterisks. */
  function MetadataLine(text: string): Option<string> {
    var t := Strip(text);
    if t != "" && !ContainsAny(Lower(t), MetadataSkipWords) then Some("*" + t + "*") else None
  }

  /** A page paragraph in the BBC generic tier. */
  function BbcParagraph(text: string): Option<string> {
    var t := Strip(text);
    if t != "" && |t| > 40 && !ContainsAny(Lower(t), ParagraphNoiseWords) then Some(t) else None
  }

  /** A paragraph of the main-content element. */
  function MainParagraph(text: string): Option<string> {
    var t := Strip(text);
    if t != "" && |t| > 30 then Some(t) else None
  }

  /** A paragraph of the whole page when there is no main-content element. */
  function PageParagraph(text: string): Option<string> {
    var t := Strip(text);
    if t != "" && |t| > 50 then Some(t) else None
  }

  /** The join step's `block.strip()` filter. */
  function NonBlank(block: string): Option<string> {
    var t := Strip(block);
    if t != "" then Some(t) else None
  }

  // ---- The tiers ----

  /** Index of the first headline selector that matched, `|hs|` when none
      did: where the headline loop breaks. */
  function FirstMatch(hs: seq<Option<string>>): (i: nat)
    ensures i <= |hs|
    ensures forall j :: 0 <= j < i ==> hs[j].None?
    ensures i < |hs| ==> hs[i].Some?
  {
    if hs == [] || hs[0].Some? then 0 else FirstMatch(hs[1..]) + 1
  }

  /** The first headline selector that matched gives the one headline
      block, even when its text is empty; none matched gives no block. */
  function HeadlineBlocks(hs: seq<Option<string>>): seq<string> {
    var i := FirstMatch(hs);
    if i < |hs| then ["# " + Strip(hs[i].value)] else []
  }

  /** `b` is the stripped text of `e`, and `e`'s class names none of the
      skip words. */
  predicate UnskippedText(e: Element, b: string) {
    !ContainsAny(e.classText, ClassSkipWords) && Strip(e.text) == b
  }

  lemma ContainerParagraphKept(p: Element)
    requires ContainerParagraph(p).Some?
    ensures var b := ContainerParagraph(p).value;
      b == Strip(p.text) && !ContainsAny(p.classText, ClassSkipWords)
      && Strip(b) == b && |b| > 10 && !StartsWith(b, "Share this")
  {
    StripIdempotent(p.text);
  }

  /** `b` is the stripped `text`, non-empty and free of the metadata skip
      words without regard to case, between asterisks. */
  predicate UnskippedMetadata(text: string, b: string) {
    var t := Strip(text);
    t != "" && !ContainsAny(Lower(t), MetadataSkipWords) && b == "*" + t + "*"
  }

  lemma MetadataLineKept(text: string)
    requires MetadataLine(text).Some?
    ensures var b := MetadataLine(text).value;
      UnskippedMetadata(text, b) && |b| >= 3 && b[0] == '*' && b[|b| - 1] == '*'
  {
  }

  lemma BbcParagraphKept(text: string)
    requires BbcParagraph(text).Some?
    ensures var b := BbcParagraph(text).value;
      Strip(b) == b && |b| > 40 && !ContainsAny(Lower(b), ParagraphNoiseWords)
  {
    StripIdempotent(text);
  }

  lemma MainParagraphKept(text: string)
    requires MainParagraph(text).Some?
    ensures var b := MainParagraph(text).value; Strip(b) == b && |b| > 30
  {
    StripIdempotent(text);
  }

  lemma PageParagraphKept(text: string)
    requires PageParagraph(text).Some?
    ensures var b := PageParagraph(text).value; Strip(b) == b && |b| > 50
  {
    StripIdempotent(text);
  }

  /** Paragraphs of every container, every paragraph selector, in order,
      with no de-duplication. Each block is stripped, longer than 10
      characters and does not start with "Share this", and is the text of
      an element whose class names none of the skip words. */
  function ContainerBlocks(cs: seq<seq<seq<Element>>>): (r: seq<string>)
    ensures forall b :: b in r ==> Strip(b) == b && |b| > 10 && !StartsWith(b, "Share this")
    ensures forall b :: b in r ==> exists e :: e in Flatten(Flatten(cs)) && UnskippedText(e, b)
  {
    var es := Flatten(Flatten(cs));
    var r := Collect(es, ContainerParagraph);
    forall b | b in r
      ensures Strip(b) == b && |b| > 10 && !StartsWith(b, "Share this")
      ensures exists e :: e in es && UnskippedText(e, b)
    {
      var e :| e in es && ContainerParagraph(e) == Some(b);
      ContainerParagraphKept(e);
      assert UnskippedText(e, b);
    }
    r
  }

  /** Metadata of every metadata selector, in order; each block is the
      stripped text of a matched element, non-empty and free of the skip
      words, between asterisks. */
  function MetadataBlocks(ms: seq<seq<string>>): (r: seq<string>)
    ensures forall b :: b in r ==> |b| >= 3 && b[0] == '*' && b[|b| - 1] == '*'
    ensures forall b :: b in r ==> exists t :: t in Flatten(ms) && UnskippedMetadata(t, b)
  {
    var ts := Flatten(ms);
    var r := Collect(ts, MetadataLine);
    forall b | b in r
      ensures |b| >= 3 && b[0] == '*' && b[|b| - 1] == '*'
      ensures exists t :: t in ts && UnskippedMetadata(t, b)
    {
      var t :| t in ts && MetadataLine(t) == Some(b);
      MetadataLineKept(t);
    }
    r
  }

  /** The BBC generic tier: each block is stripped, longer than 40
      characters and free of the noise words, compared without case. */
  function BbcParagraphBlocks(ps: seq<string>): (r: seq<string>)
    ensures forall b :: b in r ==> Strip(b) == b && |b| > 40 && !ContainsAny(Lower(b), ParagraphNoiseWords)
  {
    var r := Collect(ps, BbcParagraph);
    forall b | b in r ensures Strip(b) == b && |b| > 40 && !ContainsAny(Lower(b), ParagraphNoiseWords) {
      var p :| p in ps && BbcParagraph(p) == Some(b);
      BbcParagraphKept(p);
    }
    r
  }

  /** Main-content paragraphs: each block is stripped and longer than 30. */
  function MainBlocks(ps: seq<string>): (r: seq<string>)
    ensures forall b :: b in r ==> Strip(b) == b && |b| > 30
  {
    var r := Collect(ps, MainParagraph);
    forall b | b in r ensures Strip(b) == b && |b| > 30 {
      var p :| p in ps && MainParagraph(p) == Some(b);
      MainParagraphKept(p);
    }
    r
  }

  /** Whole-page paragraphs: each block is stripped and longer than 50. */
  function PageBlocks(ps: seq<string>): (r: seq<string>)
    ensures forall b :: b in r ==> Strip(b) == b && |b| > 50
  {
    var r := Collect(ps, PageParagraph);
    forall b | b in r ensures Strip(b) == b && |b| > 50 {
      var p :| p in ps && PageParagraph(p) == Some(b);
      PageParagraphKept(p);
    }
    r
  }

  /** The blocks the BBC-specific selectors give (headline, container
      paragraphs, metadata); none for other sites. */
  function BbcSelectorBlocks(url: string, page: Page): seq<string> {
    if IsBbcUrl(url) then
      HeadlineBlocks(page.headlines) + ContainerBlocks(page.containers) + MetadataBlocks(page.metadata)
    else []
  }

  function GenericBlocks(page: Page): seq<string> {
    match page.mainContent
    case Some(ps) => MainBlocks(ps)
    case None => PageBlocks(page.paragraphs)
  }

  datatype Tier = BbcSelectors | BbcParagraphs | MainContent | AllParagraphs | BodyOnly

  datatype Extraction = Extraction(tier: Tier, blocks: seq<string>)

  /** The tiers in order, each tried only while no block has been found.
      Whichever tier supplies the blocks, every earlier tier supplied none,
      and every block meets the filter of its tier. */
  function Extract(url: string, page: Page): (r: Extraction)
    ensures r.blocks != []
    ensures r.tier == BbcSelectors ==>
      IsBbcUrl(url)
      && r.blocks == HeadlineBlocks(page.headlines) + ContainerBlocks(page.containers) + MetadataBlocks(page.metadata)
    ensures r.tier == BbcParagraphs ==>
      IsBbcUrl(url) && BbcSelectorBlocks(url, page) == []
      && r.blocks == BbcParagraphBlocks(page.paragraphs)
      && forall b :: b in r.blocks ==> |b| > 40 && !ContainsAny(Lower(b), ParagraphNoiseWords)
    ensures r.tier == MainContent ==>
      BbcSelectorBlocks(url, page) == [] && page.mainContent.Some?
      && r.blocks == MainBlocks(page.mainContent.value)
      && (IsBbcUrl(url) ==> BbcParagraphBlocks(page.paragraphs) == [])
      && forall b :: b in r.blocks ==> |b| > 30
    ensures r.tier == AllParagraphs ==>
      BbcSelectorBlocks(url, page) == [] && page.mainContent.None?
      && r.blocks == PageBlocks(page.paragraphs)
      && (IsBbcUrl(url) ==> BbcParagraphBlocks(page.paragraphs) == [])
      && forall b :: b in r.blocks ==> |b| > 50
    ensures r.tier == BodyOnly ==>
      BbcSelectorBlocks(url, page) == [] && GenericBlocks(page) == []
      && (IsBbcUrl(url) ==> BbcParagraphBlocks(page.paragraphs) == [])
      && r.blocks == [BodyBlock(page.body)] && |r.blocks[0]| <= BodyLimit
  {
    var selected := BbcSelectorBlocks(url, page);
    if selected != [] then Extraction(BbcSelectors, selected)
    else
      var bbcParagraphs := if IsBbcUrl(url) then BbcParagraphBlocks(page.paragraphs) else [];
      if bbcParagraphs != [] then Extraction(BbcParagraphs, bbcParagraphs)
      else
        var generic := GenericBlocks(page);
        if generic != [] then
          Extraction(if page.mainContent.Some? then MainContent else AllParagraphs, generic)
        else Extraction(BodyOnly, [BodyBlock(page.body)])
  }

  /** The blocks of the BBC selector tier are the headline, then container
      paragraphs that pass their filter, then asterisk-wrapped metadata. */
  lemma SelectorTierFiltered(url: string, page: Page)
    requires Extract(url, page).tier == BbcSelectors
    ensures forall b :: b in Extract(url, page).blocks ==>
      StartsWith(b, "# ")
      || (Strip(b) == b && |b| > 10 && !StartsWith(b, "Share this"))
      || (|b| >= 3 && b[0] == '*' && b[|b| - 1] == '*')
  {
    SelectorBlocksFiltered(page.headlines, page.containers, page.metadata);
  }

  lemma SelectorBlocksFiltered(hs: seq<Option<string>>, cs: seq<seq<seq<Element>>>, ms: seq<seq<string>>)
    ensures forall b :: b in HeadlineBlocks(hs) + ContainerBlocks(cs) + MetadataBlocks(ms) ==>
      StartsWith(b, "# ")
      || (Strip(b) == b && |b| > 10 && !StartsWith(b, "Share this"))
      || (|b| >= 3 && b[0] == '*' && b[|b| - 1] == '*')
  {
    var h := HeadlineBlocks(hs);
    var c := ContainerBlocks(cs);
    var m := MetadataBlocks(ms);
    forall b | b in h + c + m
      ensures StartsWith(b, "# ")
        || (Strip(b) == b && |b| > 10 && !StartsWith(b, "Share this"))
        || (|b| >= 3 && b[0] == '*' && b[|b| - 1] == '*')
    {
      if b in h {
        var i := FirstMatch(hs);
        assert b == "# " + Strip(hs[i].value);
        assert b[..2] == "# ";
      } else if b in c {
      } else {
        assert b in m;
      }
    }
  }

  /** What the two BBC tiers give together. */
  function BbcTierBlocks(url: string, page: Page): seq<string> {
    var selected := BbcSelectorBlocks(url, page);
    if selected != [] then selected
    else if IsBbcUrl(url) then BbcParagraphBlocks(page.paragraphs)
    else []
  }

  /** `Extract`'s blocks, tier group by tier group. */
  lemma ExtractByTier(url: string, page: Page)
    ensures var bbc := BbcTierBlocks(url, page);
      Extract(url, page).blocks
        == if bbc != [] then bbc
           else if GenericBlocks(page) != [] then GenericBlocks(page)
           else [BodyBlock(page.body)]
  {
  }

  /** `"\n\n".join(block.strip() for block in content_blocks if block.strip())`. */
  function ArticleText(url: string, page: Page): string {
    Join(Collect(Extract(url, page).blocks, NonBlank), "\n\n")
  }

  /** The join keeps every block that is not blank, stripped. */
  lemma ArticleKeepsEveryBlock(url: string, page: Page, i: nat)
    requires i < |Extract(url, page).blocks|
    requires Strip(Extract(url, page).blocks[i]) != ""
    ensures Contains(ArticleText(url, page), Strip(Extract(url, page).blocks[i]))
  {
    var blocks := Extract(url, page).blocks;
    var kept := Collect(blocks, NonBlank);
    CollectKeeps(blocks, i, NonBlank);
    var j :| 0 <= j < |kept| && kept[j] == Strip(blocks[i]);
    JoinContains(kept, "\n\n", j);
  }

  /** The scraper reached the parsing stage: status 200 and no redirect to
      a URL containing example.com. */
  predicate Parsed(fetch: Fetch) {
    fetch.Fetched? && fetch.status == 200 && !Contains(Lower(fetch.finalUrl), "example.com")
  }

  /** What `_fallback_scrape(url)` returns. It is the joined article text,
      at least 100 characters long, exactly when the page was fetched and
      parsed and that text is long enough; every other outcome is a
      message that starts with "Error". */
  function FallbackText(url: string, fetch: Fetch): (r: string)
    ensures Parsed(fetch) && |ArticleText(url, fetch.page)| >= MinArticleLength ==>
      r == ArticleText(url, fetch.page) && |r| >= MinArticleLength
    ensures !(Parsed(fetch) && |ArticleText(url, fetch.page)| >= MinArticleLength) ==>
      StartsWith(r, "Error")
  {
    match fetch
    case FetchRaised(message) => "Error scraping URL " + url + ": " + message
    case Fetched(status, finalUrl, page) =>
      if status != 200 then "Error: " + "Failed to retrieve content. " + "Status code: " + NatToString(status)
      else if Contains(Lower(finalUrl), "example.com") then
        "Error: " + "Redirected to example.com while scraping " + url + "."
      else ParsedText(url, ArticleText(url, page))
  }

  /** The length check on the joined article text: the text itself when it
      has at least 100 characters, an error otherwise. */
  function ParsedText(url: string, text: string): (r: string)
    ensures |text| >= MinArticleLength ==> r == text
    ensures |text| < MinArticleLength ==> StartsWith(r, "Error")
  {
    if |text| < MinArticleLength then "Error: " + "Could not extract meaningful content from " + url + "."
    else text
  }

  /** Which tiers run is decided by the requested URL: the URL reached
      after redirects only feeds the example.com check. */
  lemma RedirectTargetOnlyGuards(url: string, status: nat, u1: string, u2: string, page: Page)
    requires !Contains(Lower(u1), "example.com") && !Contains(Lower(u2), "example.com")
    ensures FallbackText(url, Fetched(status, u1, page)) == FallbackText(url, Fetched(status, u2, page))
  {
  }

  /** The container tier concatenates what each container gives, with no
      de-duplication: a paragraph matched in two overlapping containers
      appears once for each. */
  lemma ContainersConcatenate(a: seq<seq<seq<Element>>>, b: seq<seq<seq<Element>>>)
    ensures ContainerBlocks(a + b) == ContainerBlocks(a) + ContainerBlocks(b)
  {
    FlattenAppend(a, b);
    FlattenAppend(Flatten(a), Flatten(b));
    CollectAppend(Flatten(Flatten(a)), Flatten(Flatten(b)), ContainerParagraph);
  }

  // ---- The scraper itself ----

  /** `_fallback_scrape(url)`: the fetch checks, the tiers, the join and
      the length check, in the order the source runs them. */
  method FallbackScrape(url: string, fetch: Fetch) returns (text: string)
    ensures text == FallbackText(url, fetch)
  {
    if fetch.FetchRaised? {
      return "Error scraping URL " + url + ": " + fetch.message;
    }
    if fetch.status != 200 {
      return "Error: " + "Failed to retrieve content. " + "Status code: " + NatToString(fetch.status);
    }
    if Contains(Lower(fetch.finalUrl), "example.com") {
      return "Error: " + "Redirected to example.com while scraping " + url + ".";
    }
    var blocks := ExtractBlocks(url, fetch.page);
    text := Join(Collect(blocks, NonBlank), "\n\n");
    if |text| < MinArticleLength {
      text := "Error: " + "Could not extract meaningful content from " + url + ".";
    }
  }

  /** `content_blocks` as the tiers fill it: each later tier runs only
      while the list is still empty. */
  method ExtractBlocks(url: string, page: Page) returns (blocks: seq<string>)
    ensures blocks == Extract(url, page).blocks
  {
    blocks := BbcTiers(url, page);
    if blocks == [] {
      if page.mainContent.Some? {
        blocks := MainParagraphLoop(page.mainContent.value);
      } else {
        blocks := PageParagraphLoop(page.paragraphs);
      }
    }
    if blocks == [] {
      blocks := [BodyBlock(page.body)];
    }
    ExtractByTier(url, page);
  }

  /** The BBC-specific selectors, then the BBC generic paragraphs while
      nothing was found; nothing for other sites. */
  method BbcTiers(url: string, page: Page) returns (blocks: seq<string>)
    ensures blocks == BbcTierBlocks(url, page)
  {
    blocks := [];
    if IsBbcUrl(url) {
      var headline := HeadlineLoop(page.headlines);
      var paragraphs := ContainerLoop(page.containers);
      var metadata := MetadataLoop(page.metadata);
      blocks := headline + paragraphs + metadata;
      if blocks == [] {
        blocks := BbcParagraphLoop(page.paragraphs);
      }
    }
  }

  /** The headline loop: the first selector that matches gives the block
      and ends the loop. */
  method HeadlineLoop(hs: seq<Option<string>>) returns (blocks: seq<string>)
    ensures blocks == HeadlineBlocks(hs)
  {
    blocks := [];
    for i := 0 to |hs|
      invariant blocks == [] && forall j :: 0 <= j < i ==> hs[j].None?
    {
      if hs[i].Some? {
        blocks := ["# " + Strip(hs[i].value)];
        assert FirstMatch(hs) == i;
        break;
      }
    }
  }

  /** For every container, for every paragraph selector, the paragraphs
      kept. */
  method ContainerLoop(cs: seq<seq<seq<Element>>>) returns (blocks: seq<string>)
    ensures blocks == ContainerBlocks(cs)
  {
    blocks := [];
    for i := 0 to |cs|
      invariant blocks == Collect(Flatten(Flatten(cs[..i])), ContainerParagraph)
    {
      var kept := GroupLoop(cs[i]);
      FlattenStep(cs, i);
      FlattenAppend(Flatten(cs[..i]), cs[i]);
      CollectAppend(Flatten(Flatten(cs[..i])), Flatten(cs[i]), ContainerParagraph);
      blocks := blocks + kept;
    }
    assert cs[..|cs|] == cs;
  }

  /** The paragraph selectors tried inside one container, in order. */
  method GroupLoop(groups: seq<seq<Element>>) returns (kept: seq<string>)
    ensures kept == Collect(Flatten(groups), ContainerParagraph)
  {
    kept := [];
    for j := 0 to |groups|
      invariant kept == Collect(Flatten(groups[..j]), ContainerParagraph)
    {
      var more := SelectorLoop(groups[j]);
      FlattenStep(groups, j);
      CollectAppend(Flatten(groups[..j]), groups[j], ContainerParagraph);
      kept := kept + more;
    }
    assert groups[..|groups|] == groups;
  }

  /** The paragraphs one selector matched inside one container: an element
      whose class names navigation, social, share or hidden is skipped
      (`continue`), the rest are kept when their stripped text passes. */
  method SelectorLoop(ps: seq<Element>) returns (kept: seq<string>)
    ensures kept == Collect(ps, ContainerParagraph)
  {
    kept := [];
    for k := 0 to |ps|
      invariant kept == Collect(ps[..k], ContainerParagraph)
    {
      CollectStep(ps, k, ContainerParagraph);
      var p := ps[k];
      if ContainsAny(p.classText, ClassSkipWords) {
        continue;
      }
      var t := Strip(p.text);
      if t != "" && |t| > 10 && !StartsWith(t, "Share this") {
        kept := kept + [t];
      }
    }
    assert ps[..|ps|] == ps;
  }

  /** For every metadata selector, the matches kept, wrapped in asterisks. */
  method MetadataLoop(ms: seq<seq<string>>) returns (blocks: seq<string>)
    ensures blocks == MetadataBlocks(ms)
  {
    blocks := [];
    for i := 0 to |ms|
      invariant blocks == Collect(Flatten(ms[..i]), MetadataLine)
    {
      var kept := MatchLoop(ms[i]);
      FlattenStep(ms, i);
      CollectAppend(Flatten(ms[..i]), ms[i], MetadataLine);
      blocks := blocks + kept;
    }
    assert ms[..|ms|] == ms;
  }

  /** The elements one metadata selector matched: kept when the stripped
      text is non-empty and names none of share this, follow us,
      subscribe. */
  method MatchLoop(matches: seq<string>) returns (kept: seq<string>)
    ensures kept == Collect(matches, MetadataLine)
  {
    kept := [];
    for k := 0 to |matches|
      invariant kept == Collect(matches[..k], MetadataLine)
    {
      CollectStep(matches, k, MetadataLine);
      var t := Strip(matches[k]);
      if t != "" && !ContainsAny(Lower(t), MetadataSkipWords) {
        kept := kept + ["*" + t + "*"];
      }
    }
    assert matches[..|matches|] == matches;
  }

  method BbcParagraphLoop(ps: seq<string>) returns (blocks: seq<string>)
    ensures blocks == BbcParagraphBlocks(ps)
  {
    blocks := [];
    for k := 0 to |ps|
      invariant blocks == Collect(ps[..k], BbcParagraph)
    {
      CollectStep(ps, k, BbcParagraph);
      var t := Strip(ps[k]);
      if t != "" && |t| > 40 && !ContainsAny(Lower(t), ParagraphNoiseWords) {
        blocks := blocks + [t];
      }
    }
    assert ps[..|ps|] == ps;
  }

  method MainParagraphLoop(ps: seq<string>) returns (blocks: seq<string>)
    ensures blocks == MainBlocks(ps)
  {
    blocks := [];
    for k := 0 to |ps|
      invariant blocks == Collect(ps[..k], MainParagraph)
    {
      CollectStep(ps, k, MainParagraph);
      var t := Strip(ps[k]);
      if t != "" && |t| > 30 {
        blocks := blocks + [t];
      }
    }
    assert ps[..|ps|] == ps;
  }

  method PageParagraphLoop(ps: seq<string>) returns (blocks: seq<string>)
    ensures blocks == PageBlocks(ps)
  {
    blocks := [];
    for k := 0 to |ps|
      invariant blocks == Collect(ps[..k], PageParagraph)
    {
      CollectStep(ps, k, PageParagraph);
      var t := Strip(ps[k]);
      if t != "" && |t| > 50 {
        blocks := blocks + [t];
      }
    }
    assert ps[..|ps|] == ps;
  }
}
