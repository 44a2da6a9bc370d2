/** The checks `fact_check_url` makes on its input before any crew run:
    the URL-format regular expression, the future-year guard on the first
    `/dddd/` path segment, and the BBC test. */
module UrlCheck {
  import opened Seqs
  import opened Text

  const InvalidUrlMessage: string :=
    "Error: Invalid URL format. " + "Please provide a valid URL starting with " + "http:// or https://."

  function FutureDateMessage(year: nat): string {
    "Error: URL contains a future date (" + NatToString(year) + ")" + FutureDateAdvice
  }

  const FutureDateAdvice: string := ", which may not be valid. " + "Please check the URL."

  /** What `url.startswith(('http://', 'https://'))` tests. */
  predicate HasHttpScheme(url: string) {
    StartsWith(url, "http://") || StartsWith(url, "https://")
  }

  /** Length of the part `^https?://` consumes, 0 when it does not match. */
  function SchemeLength(url: string): (n: nat)
    ensures n == 0 || n == 7 || n == 8
    ensures n > 0 <==> HasHttpScheme(url)
  {
    if StartsWith(url, "https://") then 8
    else if StartsWith(url, "http://") then 7
    else 0
  }

  /** The class `[^\s/$.?#]` of the first host character. */
  predicate HostStartChar(c: char) {
    !IsSpace(c) && c !in "/$.?#"
  }

  /** `[^\s]*$` in a non-MULTILINE pattern: `$` also matches just before a
      final newline, so the tail is non-space characters optionally followed
      by one '\n'. */
  predicate PatternTail(t: string) {
    NoSpace(t) || (t != [] && t[|t| - 1] == '\n' && NoSpace(t[..|t| - 1]))
  }

  /** `re.match(r'^https?://[^\s/$.?#].[^\s]*$', url)`: after the scheme,
      one host-start character, then any one character but '\n' (a space is
      accepted there), then the tail. */
  predicate MatchesUrlPattern(url: string) {
    var n := SchemeLength(url);
    n > 0 && n + 2 <= |url| && HostStartChar(url[n]) && url[n + 1] != '\n'
    && PatternTail(url[n + 2..])
  }

  /** A URL the regular expression admits also passes the scraper tool's own
      emptiness and `startswith` checks. */
  lemma AdmittedUrlHasHttpScheme(url: string)
    requires MatchesUrlPattern(url)
    ensures url != [] && HasHttpScheme(url)
  {
  }

  /** The only whitespace an admitted URL can hold is the character right
      after the first host character, and one final newline. */
  lemma AdmittedUrlWhitespace(url: string, k: nat)
    requires MatchesUrlPattern(url)
    requires k < |url| && IsSpace(url[k])
    ensures k == SchemeLength(url) + 1 || (k == |url| - 1 && url[k] == '\n')
  {
    var n := SchemeLength(url);
    if k >= n + 2 {
      var t := url[n + 2..];
      assert t[k - (n + 2)] == url[k];
      assert forall m :: 0 <= m < |t| - 1 ==> t[..|t| - 1][m] == t[m];
    }
  }

  /** `/(\d{4})/` matches at index `i`. */
  predicate YearSegmentAt(url: string, i: int) {
    0 <= i && i + 6 <= |url| && url[i] == '/' && url[i + 5] == '/'
    && forall k :: i + 1 <= k <= i + 4 ==> IsAsciiDigit(url[k])
  }

  /** Leftmost index at or after `from` where `/(\d{4})/` matches, which is
      where `re.search` finds its match. */
  function FirstYearSegmentFrom(url: string, from: nat): (r: Option<nat>)
    requires from <= |url|
    ensures r.Some? ==> from <= r.value && YearSegmentAt(url, r.value)
    ensures r.Some? ==> forall j :: from <= j < r.value ==> !YearSegmentAt(url, j)
    ensures r.None? ==> forall j :: from <= j ==> !YearSegmentAt(url, j)
    decreases |url| - from
  {
    if from + 6 > |url| then None
    else if YearSegmentAt(url, from) then Some(from)
    else FirstYearSegmentFrom(url, from + 1)
  }

  /** `int(year_match.group(1))` of the first match, if any. */
  function UrlYear(url: string): (r: Option<nat>)
    ensures r.Some? ==> r.value <= 9999
  {
    match FirstYearSegmentFrom(url, 0)
    case None => None
    case Some(i) => Some(SegmentYear(url, i))
  }

  function SegmentYear(url: string, i: nat): (y: nat)
    requires YearSegmentAt(url, i)
    ensures y <= 9999
  {
    var digits := url[i + 1..i + 5];
    assert forall k :: 0 <= k < |digits| ==> digits[k] == url[i + 1 + k];
    DecimalBound(digits);
    assert Pow10(4) == 10000;
    DecimalValue(digits)
  }

  lemma {:induction false} DecimalBound(s: string)
    requires forall k :: 0 <= k < |s| ==> IsAsciiDigit(s[k])
    ensures DecimalValue(s) < Pow10(|s|)
  {
    if s != [] {
      DecimalBound(s[..|s| - 1]);
    }
  }

  function Pow10(n: nat): nat {
    if n == 0 then 1 else 10 * Pow10(n - 1)
  }

  /** `"bbc.com" in url or "bbc.co.uk" in url`. */
  predicate IsBbcUrl(url: string) {
    Contains(url, "bbc.com") || Contains(url, "bbc.co.uk")
  }

  datatype Admission = Admitted | Rejected(message: string)

  /** The input checks at the head of `fact_check_url`: the format gate,
      then the future-year guard, which reads only the first `/dddd/`
      segment. */
  function AdmitUrl(url: string, currentYear: int): (r: Admission)
    ensures !MatchesUrlPattern(url) <==> r == Rejected(InvalidUrlMessage)
    ensures MatchesUrlPattern(url) ==>
      (r.Rejected? <==> UrlYear(url).Some? && UrlYear(url).value > currentYear)
    ensures MatchesUrlPattern(url) && r.Rejected? ==>
      r.message == FutureDateMessage(UrlYear(url).value)
  {
    if !MatchesUrlPattern(url) then Rejected(InvalidUrlMessage)
    else match UrlYear(url)
      case Some(year) =>
        if year > currentYear then
          FutureMessageDiffers(year);
          Rejected(FutureDateMessage(year))
        else Admitted
      case None => Admitted
  }

  lemma FutureMessageDiffers(year: nat)
    ensures FutureDateMessage(year) != InvalidUrlMessage
  {
    assert FutureDateMessage(year)[7] == 'U';
    assert InvalidUrlMessage[7] == 'I';
  }

  /** A later `/dddd/` segment holding a future year is ignored once the
      first segment holds a year that is not in the future. */
  lemma LaterYearSegmentsIgnored(url: string, currentYear: int, i: nat, j: nat)
    requires MatchesUrlPattern(url)
    requires FirstYearSegmentFrom(url, 0) == Some(i)
    requires SegmentYear(url, i) <= currentYear
    requires YearSegmentAt(url, j) && SegmentYear(url, j) > currentYear
    ensures i < j
    ensures AdmitUrl(url, currentYear) == Admitted
  {
  }

  /** The future-date message names the year, with its digits read back by
      `int` giving that year. */
  lemma FutureDateMessageNamesYear(year: nat)
    ensures var digits := NatToString(year);
      FutureDateMessage(year)
        == "Error: URL contains a future date (" + digits + ")" + FutureDateAdvice
      && DecimalValue(digits) == year
  {
    DecimalRoundTrip(year);
  }
}
