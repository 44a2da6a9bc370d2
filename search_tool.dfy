/** `SearchTool._run`: which queries go to the search backend for one query
    from the research agent, and how their results are combined. The
    backend (DuckDuckGo) is a function parameter. */
module SearchTool {
  import opened Text

  const NewsTerms: seq<string> := ["bbc", "reuters", "news", "reported"]

  const MonthNames: seq<string> := ["january", "february", "march", "april", "may", "june",
                                    "july", "august", "september", "october", "november", "december"]

  const RecencySuffix: string := " recent news"

  const VerificationSuffix: string := " confirmed OR verified by multiple sources"

  /** `\b` in front of a word character at `i`. */
  predicate BoundaryBefore(s: string, i: int)
    requires 0 <= i <= |s|
  {
    i == 0 || !IsWordChar(s[i - 1])
  }

  /** `\b` after a word character that ends at `j`. */
  predicate BoundaryAfter(s: string, j: int)
    requires 0 <= j <= |s|
  {
    j == |s| || !IsWordChar(s[j])
  }

  /** `202\d` at `i`. */
  predicate DecadeYearAt(s: string, i: int) {
    0 <= i && i + 4 <= |s| && s[i..i + 3] == "202" && IsAsciiDigit(s[i + 3])
  }

  predicate MonthAt(s: string, i: int, m: int) {
    0 <= m < |MonthNames| && OccursAt(s, MonthNames[m], i)
  }

  /** `\b(202\d|january|...|december)\b` matches at `i`. */
  predicate DateTermAt(s: string, i: int) {
    0 <= i <= |s| && BoundaryBefore(s, i)
    && ((DecadeYearAt(s, i) && BoundaryAfter(s, i + 4))
        || exists m :: 0 <= m < |MonthNames| && MonthAt(s, i, m) && BoundaryAfter(s, i + |MonthNames[m]|))
  }

  /** `re.search(r'\b(202\d|january|...|december)\b', s)` finds a match. */
  predicate HasDateTerm(s: string) {
    exists i :: 0 <= i <= |s| && DateTermAt(s, i)
  }

  /** The query names a news outlet or news vocabulary. */
  predicate IsNewsQuery(query: string) {
    ContainsAny(Lower(query), NewsTerms)
  }

  /** The query already carries a date or a recency word. */
  predicate IsDated(query: string) {
    HasDateTerm(Lower(query)) || Contains(Lower(query), "recent")
  }

  predicate IsVerifyQuery(query: string) {
    Contains(Lower(query), "verify") || Contains(Lower(query), "fact check")
  }

  /** The news branch wins: it is tested first and returns early. */
  predicate TakesNewsBranch(query: string) {
    IsNewsQuery(query) && !IsDated(query)
  }

  datatype SearchPlan = Single(query: string) | Paired(plain: string, verification: string)

  /** The queries a plan sends to the backend, in order. */
  function Issued(p: SearchPlan): (qs: seq<string>)
    ensures 1 <= |qs| <= 2
  {
    match p
    case Single(q) => [q]
    case Paired(a, b) => [a, b]
  }

  /** The branch structure of `_run`. Every query sent extends the agent's
      query, the first is the agent's query unless the news branch rewrote
      it, and two queries are never the same. */
  function Plan(query: string): (p: SearchPlan)
    ensures forall q :: q in Issued(p) ==> StartsWith(q, query)
    ensures Issued(p)[0] == query || TakesNewsBranch(query)
    ensures p.Paired? ==> p.plain != p.verification && IsVerifyQuery(query)
  {
    if TakesNewsBranch(query) then Single(query + RecencySuffix)
    else if IsVerifyQuery(query) then
      var v := query + VerificationSuffix;
      assert |v| > |query|;
      Paired(query, v)
    else Single(query)
  }

  /** `SearchTool._run(query)` with `backend` standing for
      `DuckDuckGoSearchRun.run`. A single search passes the backend's text
      through; two searches keep both texts, the plain one first. */
  function Search(query: string, backend: string -> string): (r: string)
    ensures Plan(query).Single? ==> r == backend(Issued(Plan(query))[0])
    ensures Plan(query).Paired? ==>
      r == "Regular search results:\n" + backend(query)
           + "\n\nVerification search results:\n" + backend(query + VerificationSuffix)
  {
    match Plan(query)
    case Single(q) => backend(q)
    case Paired(a, b) =>
      "Regular search results:\n" + backend(a) + "\n\nVerification search results:\n" + backend(b)
  }

  /** A news query with no date and no "recent" gets exactly one search,
      with the recency suffix, even when it also asks to verify. */
  lemma NewsQuerySearchedOnce(query: string)
    requires IsNewsQuery(query) && !IsDated(query)
    ensures Issued(Plan(query)) == [query + " recent news"]
  {
  }

  /** Any other query asking to verify or fact check gets exactly two
      searches: itself, then itself with the verification suffix. */
  lemma VerifyQuerySearchedTwice(query: string)
    requires !TakesNewsBranch(query) && IsVerifyQuery(query)
    ensures Issued(Plan(query)) == [query, query + " confirmed OR verified by multiple sources"]
  {
  }

  /** Every remaining query is searched once, unchanged. */
  lemma OtherQuerySearchedUnchanged(query: string)
    requires !TakesNewsBranch(query) && !IsVerifyQuery(query)
    ensures Issued(Plan(query)) == [query]
  {
  }

  /** The recency suffix makes a query dated, so a rewritten query sent
      through the tool again is never rewritten a second time. */
  lemma RecencyAppendedOnce(query: string)
    ensures IsDated(query + RecencySuffix)
    ensures !TakesNewsBranch(query + RecencySuffix)
  {
    var e := Lower(query + RecencySuffix);
    var at := |query| + 1;
    assert e[at..at + 6] == "recent";
    assert OccursAt(e, "recent", at);
  }
}
