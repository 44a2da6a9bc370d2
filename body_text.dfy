/** The last tier of the fallback scraper: the page body's text, stripped,
    with whitespace runs collapsed, noise sentences removed by
    `re.sub(r'(Share this|Follow us|Subscribe|Cookie|Newsletter).*?(\.|$)', '', text, flags=re.IGNORECASE)`,
    and cut to 8000 characters. */
module BodyText {
  import opened Seqs
  import opened Text

  const BodyLimit: nat := 8000

  /** The alternatives of the noise group, lower-cased for the
      case-insensitive comparison. */
  const NoiseWords: seq<string> := ["share this", "follow us", "subscribe", "cookie", "newsletter"]

  /** Length of the noise word that starts at `i`, compared without case;
      no two noise words start with the same two letters, so at most one
      alternative can match. */
  function NoiseWordAt(s: string, i: nat): (r: Option<nat>)
    requires i <= |s|
    ensures r.Some? ==> 0 < r.value && i + r.value <= |s|
  {
    NoiseWordFrom(s, i, 0)
  }

  function NoiseWordFrom(s: string, i: nat, w: nat): (r: Option<nat>)
    requires i <= |s| && w <= |NoiseWords|
    ensures r.Some? ==> 0 < r.value && i + r.value <= |s|
    decreases |NoiseWords| - w
  {
    if w == |NoiseWords| then None
    else
      var word := NoiseWords[w];
      if i + |word| <= |s| && Lower(s[i..i + |word|]) == word then Some(|word|)
      else NoiseWordFrom(s, i, w + 1)
  }

  /** Where the lazy `.*?(\.|$)` that follows a noise word ends, when it is
      tried from `p`: through the first '.', at the end of the text, or just
      before a final '\n'; `.` cannot cross any other '\n', so the match
      fails there. */
  function LazyEnd(s: string, p: nat): (r: Option<nat>)
    requires p <= |s|
    ensures r.Some? ==> p <= r.value <= |s|
    ensures r.Some? ==>
      r.value == |s| || (p < r.value && s[r.value - 1] == '.') || (r.value == |s| - 1 && s[r.value] == '\n')
    ensures r.Some? ==> forall k :: p <= k < r.value && (s[k] == '.' || s[k] == '\n') ==>
      k == r.value - 1 && s[k] == '.'
    ensures r.None? ==> exists k :: p <= k < |s| - 1 && s[k] == '\n' && forall j :: p <= j < k ==> s[j] != '.'
    decreases |s| - p
  {
    if p == |s| then Some(p)
    else if s[p] == '.' then Some(p + 1)
    else if s[p] == '\n' then (if p == |s| - 1 then Some(p) else None)
    else LazyEnd(s, p + 1)
  }

  /** End of the noise match that starts at `i`, if one does. */
  function NoiseMatch(s: string, i: nat): (r: Option<nat>)
    requires i <= |s|
    ensures r.Some? ==> i < r.value <= |s|
  {
    match NoiseWordAt(s, i)
    case None => None
    case Some(n) => LazyEnd(s, i + n)
  }

  /** `re.sub` of the noise pattern on `s[i..]`: scanning left to right,
      each match is dropped and scanning resumes where it ended. The result
      keeps characters of the input, in order, and is never longer. */
  function DenoiseFrom(s: string, i: nat): (r: string)
    requires i <= |s|
    ensures |r| <= |s| - i
    ensures forall c :: c in r ==> c in s[i..]
    decreases |s| - i
  {
    if i == |s| then []
    else match NoiseMatch(s, i)
      case Some(e) =>
        var rest := DenoiseFrom(s, e);
        assert forall c :: c in s[e..] ==> c in s[i..] by {
          assert s[e..] == s[i..][e - i..];
        }
        rest
      case None =>
        var rest := DenoiseFrom(s, i + 1);
        assert s[i..] == [s[i]] + s[i + 1..];
        [s[i]] + rest
  }

  function Denoise(s: string): (r: string)
    ensures |r| <= |s|
    ensures forall c :: c in r ==> c in s
  {
    DenoiseFrom(s, 0)
  }

  /** A text that holds no noise word anywhere comes back unchanged. */
  lemma {:induction false} DenoiseWithoutNoise(s: string, i: nat)
    requires i <= |s|
    requires forall j :: i <= j <= |s| ==> NoiseWordAt(s, j).None?
    ensures DenoiseFrom(s, i) == s[i..]
    decreases |s| - i
  {
    if i < |s| {
      DenoiseWithoutNoise(s, i + 1);
      assert s[i..] == [s[i]] + s[i + 1..];
    }
  }

  /** The text of the body tier's single block: `soup.body.get_text()`
      (None when the page has no body element), stripped, whitespace runs
      collapsed, noise removed, first 8000 characters. It holds no
      whitespace other than the plain space. */
  function BodyBlock(body: Option<string>): (r: string)
    ensures |r| <= BodyLimit
    ensures forall k :: 0 <= k < |r| && IsSpace(r[k]) ==> r[k] == ' '
  {
    var text := if body.Some? then Strip(body.value) else "";
    var cleaned := Denoise(CollapseSpaces(text));
    DenoisedSpaces(text);
    if |cleaned| <= BodyLimit then cleaned else cleaned[..BodyLimit]
  }

  /** Noise removal after collapsing keeps only plain spaces. */
  lemma DenoisedSpaces(text: string)
    ensures forall c :: c in Denoise(CollapseSpaces(text)) && IsSpace(c) ==> c == ' '
  {
    var collapsed := CollapseSpaces(text);
    CollapsedSpacing(text);
    forall c | c in Denoise(collapsed) && IsSpace(c) ensures c == ' ' {
      assert c in collapsed;
      var k :| 0 <= k < |collapsed| && collapsed[k] == c;
      assert IsSpace(collapsed[k]);
    }
  }

  /** Before noise removal the collapsed body text has no two whitespace
      characters in a row and no whitespace at either end. */
  lemma CollapsedBodyHasSingleSpaces(body: string)
    ensures var c := CollapseSpaces(Strip(body));
      (forall k :: 0 <= k < |c| - 1 ==> !(IsSpace(c[k]) && IsSpace(c[k + 1])))
      && (c != [] ==> !IsSpace(c[0]) && !IsSpace(c[|c| - 1]))
  {
    StripEnds(body);
    CollapsedSpacing(Strip(body));
    CollapsedEnd(Strip(body));
  }

  /** Every noise word starts with 's', 'f', 'c' or 'n': no match can start
      at any other letter. */
  lemma {:induction false} NoNoiseFrom(s: string, i: nat, w: nat)
    requires i < |s| && w <= |NoiseWords|
    requires LowerChar(s[i]) !in "sfcn"
    ensures NoiseWordFrom(s, i, w).None?
    decreases |NoiseWords| - w
  {
    if w < |NoiseWords| {
      var word := NoiseWords[w];
      if i + |word| <= |s| {
        assert Lower(s[i..i + |word|])[0] == LowerChar(s[i]);
      }
      NoNoiseFrom(s, i, w + 1);
    }
  }

  /** "Subscribe" is the noise word "subscribe" without regard to case. */
  lemma SubscribeLowered()
    ensures Lower("Subscribe") == NoiseWords[2]
  {
    var w := "Subscribe";
    assert LowerChar(w[0]) == 's';
    assert forall k :: 1 <= k < |w| ==> 'a' <= w[k] <= 'z';
  }

  /** In "a Subscribe. b" the noise word at index 2 is "Subscribe": the
      first two alternatives differ in their first two letters. */
  lemma SubscribeWordAt()
    ensures NoiseWordAt("a Subscribe. b", 2) == Some(9)
  {
    var s := "a Subscribe. b";
    assert Lower(s[2..12])[1] == 'u';
    assert NoiseWordFrom(s, 2, 0) == NoiseWordFrom(s, 2, 1);
    assert Lower(s[2..11])[0] == 's';
    assert NoiseWordFrom(s, 2, 1) == NoiseWordFrom(s, 2, 2);
    assert s[2..11] == "Subscribe";
    SubscribeLowered();
  }

  /** In "a Subscribe. b" the noise match runs from the 'S' through the
      full stop. */
  lemma SubscribeSentenceMatched()
    ensures NoiseMatch("a Subscribe. b", 2) == Some(12)
  {
    SubscribeWordAt();
    assert "a Subscribe. b"[11] == '.';
  }

  /** The text after the noise sentence, " b", holds no noise. */
  lemma DoubleSpaceTail()
    ensures DenoiseFrom("a Subscribe. b", 12) == " b"
  {
    var s := "a Subscribe. b";
    assert s[12] == ' ' && s[13] == 'b';
    assert DenoiseFrom(s, 14) == [];
    NoNoiseFrom(s, 13, 0);
    assert DenoiseFrom(s, 13) == "b";
    NoNoiseFrom(s, 12, 0);
  }

  /** Removing a noise sentence that sits between two spaces leaves both
      spaces, so the body block can hold two spaces in a row. */
  lemma NoiseRemovalCanLeaveDoubleSpace()
    ensures Denoise("a Subscribe. b") == "a  b"
  {
    var s := "a Subscribe. b";
    assert s[0] == 'a' && s[1] == ' ';
    DoubleSpaceTail();
    SubscribeSentenceMatched();
    assert DenoiseFrom(s, 2) == " b";
    NoNoiseFrom(s, 1, 0);
    assert DenoiseFrom(s, 1) == "  b";
    NoNoiseFrom(s, 0, 0);
  }
}
