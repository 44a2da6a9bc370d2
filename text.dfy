/** The Python string operations the fact-check bot relies on: `str.isspace`
    (which is also the `\s` of a `str` regular expression and what
    `str.strip()` removes), `str.lower` on ASCII letters, `in`, `startswith`,
    `strip`, `"sep".join`, `re.sub(r'\s+', ' ', s)`, and decimal `int` <-> `str`
    conversion. */
module Text {

  /** Python's `str.isspace()`. */
  predicate IsSpace(c: char) {
    ('\t' <= c <= '\r') || ('\U{001C}' <= c <= '\U{001F}') || c == ' '
    || c == '\U{0085}' || c == '\U{00A0}' || c == '\U{1680}'
    || ('\U{2000}' <= c <= '\U{200A}') || c == '\U{2028}' || c == '\U{2029}'
    || c == '\U{202F}' || c == '\U{205F}' || c == '\U{3000}'
  }

  predicate IsAsciiDigit(c: char) { '0' <= c <= '9' }

  /** A character `\w` accepts, restricted to ASCII. */
  predicate IsWordChar(c: char) {
    ('a' <= c <= 'z') || ('A' <= c <= 'Z') || IsAsciiDigit(c) || c == '_'
  }

  predicate NoSpace(s: string) {
    forall k :: 0 <= k < |s| ==> !IsSpace(s[k])
  }

  function LowerChar(c: char): char {
    if 'A' <= c <= 'Z' then (c as int + 32) as char else c
  }

  /** `s.lower()` for ASCII letters; every other character is kept. */
  function Lower(s: string): (r: string)
    ensures |r| == |s|
    ensures forall k :: 0 <= k < |s| ==> r[k] == LowerChar(s[k])
  {
    seq(|s|, k requires 0 <= k < |s| => LowerChar(s[k]))
  }

  /** `sub` occurs in `s` starting at index `k`. */
  predicate OccursAt(s: string, sub: string, k: int) {
    0 <= k <= |s| - |sub| && s[k..k + |sub|] == sub
  }

  /** `sub in s`. */
  predicate Contains(s: string, sub: string) {
    exists k :: 0 <= k <= |s| - |sub| && OccursAt(s, sub, k)
  }

  /** `any(w in s for w in words)`. */
  predicate ContainsAny(s: string, words: seq<string>) {
    exists i :: 0 <= i < |words| && Contains(s, words[i])
  }

  predicate StartsWith(s: string, prefix: string) {
    |prefix| <= |s| && s[..|prefix|] == prefix
  }

  predicate EndsWith(s: string, suffix: string) {
    |suffix| <= |s| && s[|s| - |suffix|..] == suffix
  }

  lemma ContainsPrefix(s: string, sub: string)
    requires StartsWith(s, sub)
    ensures Contains(s, sub)
  {
    assert OccursAt(s, sub, 0);
  }

  lemma ContainsInPrefix(a: string, b: string, sub: string)
    requires Contains(a, sub)
    ensures Contains(a + b, sub)
  {
    var k :| 0 <= k <= |a| - |sub| && OccursAt(a, sub, k);
    assert (a + b)[k..k + |sub|] == a[k..k + |sub|];
    assert OccursAt(a + b, sub, k);
  }

  /** Leading whitespace removed. */
  function TrimStart(s: string): (r: string)
    ensures |r| <= |s| && r == s[|s| - |r|..]
    ensures forall k :: 0 <= k < |s| - |r| ==> IsSpace(s[k])
    ensures r != [] ==> !IsSpace(r[0])
  {
    if s != [] && IsSpace(s[0]) then
      var r := TrimStart(s[1..]);
      TrimStartStep(s, s[1..], r);
      r
    else s
  }

  lemma TrimStartStep(s: string, t: string, r: string)
    requires s != [] && IsSpace(s[0]) && t == s[1..]
    requires |r| <= |t| && r == t[|t| - |r|..]
    requires forall k :: 0 <= k < |t| - |r| ==> IsSpace(t[k])
    ensures r == s[|s| - |r|..]
    ensures forall k :: 0 <= k < |s| - |r| ==> IsSpace(s[k])
  {
    forall k | 0 <= k < |s| - |r|
      ensures IsSpace(s[k])
    {
      if k > 0 {
        assert s[k] == t[k - 1];
      }
    }
  }

  /** Trailing whitespace removed. */
  function TrimEnd(s: string): (r: string)
    ensures |r| <= |s| && r == s[..|r|]
    ensures forall k :: |r| <= k < |s| ==> IsSpace(s[k])
    ensures r != [] ==> !IsSpace(r[|r| - 1])
  {
    if s != [] && IsSpace(s[|s| - 1]) then
      var r := TrimEnd(s[..|s| - 1]);
      TrimEndStep(s, s[..|s| - 1], r);
      r
    else s
  }

  lemma TrimEndStep(s: string, t: string, r: string)
    requires s != [] && IsSpace(s[|s| - 1]) && t == s[..|s| - 1]
    requires |r| <= |t| && r == t[..|r|]
    requires forall k :: |r| <= k < |t| ==> IsSpace(t[k])
    ensures r == s[..|r|]
    ensures forall k :: |r| <= k < |s| ==> IsSpace(s[k])
  {
    forall k | |r| <= k < |s|
      ensures IsSpace(s[k])
    {
      if k < |t| {
        assert s[k] == t[k];
      }
    }
  }

  /** `r` is the slice of `s` at `i`, and everything before and after the
      slice is whitespace. */
  predicate TrimmedAt(s: string, r: string, i: int) {
    0 <= i <= |s| - |r| && s[i..i + |r|] == r
    && (forall k :: 0 <= k < i ==> IsSpace(s[k]))
    && (forall k :: i + |r| <= k < |s| ==> IsSpace(s[k]))
  }

  /** `s.strip()`: the longest slice of `s` that starts and ends with a
      non-whitespace character, or "" when `s` is all whitespace. */
  function Strip(s: string): (r: string)
    ensures |r| <= |s|
    ensures Contains(s, r)
    ensures exists i :: TrimmedAt(s, r, i)
    ensures r == [] <==> forall k :: 0 <= k < |s| ==> IsSpace(s[k])
  {
    TrimBoth(s);
    TrimEnd(TrimStart(s))
  }

  /** A stripped text starts and ends with non-whitespace. */
  lemma StripEnds(s: string)
    ensures var r := Strip(s); r != [] ==> !IsSpace(r[0]) && !IsSpace(r[|r| - 1])
  {
    var t := TrimStart(s);
    var r := TrimEnd(t);
    if r != [] {
      PrefixFirst(t, r);
    }
  }

  lemma TrimBoth(s: string)
    ensures var r := TrimEnd(TrimStart(s));
      |r| <= |s| && Contains(s, r) && (exists i :: TrimmedAt(s, r, i))
      && (r == [] <==> forall k :: 0 <= k < |s| ==> IsSpace(s[k]))
  {
    TrimBothSlice(s);
    TrimBothEmpty(s);
  }

  lemma TrimBothSlice(s: string)
    ensures Contains(s, TrimEnd(TrimStart(s)))
    ensures exists i :: TrimmedAt(s, TrimEnd(TrimStart(s)), i)
  {
    TrimBothTrimmed(s, TrimStart(s), TrimEnd(TrimStart(s)));
  }

  lemma PrefixFirst(t: string, r: string)
    requires r != [] && |r| <= |t| && r == t[..|r|]
    ensures r[0] == t[0]
  {
  }

  lemma TrimmedContains(s: string, r: string, i: int)
    requires TrimmedAt(s, r, i)
    ensures Contains(s, r)
  {
    assert OccursAt(s, r, i);
  }

  lemma TrimBothTrimmed(s: string, t: string, r: string)
    requires |t| <= |s| && t == s[|s| - |t|..] && |r| <= |t| && r == t[..|r|]
    requires forall k :: 0 <= k < |s| - |t| ==> IsSpace(s[k])
    requires forall k :: |r| <= k < |t| ==> IsSpace(t[k])
    ensures Contains(s, r) && exists i :: TrimmedAt(s, r, i)
  {
    var i := |s| - |t|;
    assert s[i..][..|r|] == s[i..i + |r|];
    forall k | i + |r| <= k < |s| ensures IsSpace(s[k]) {
      assert s[k] == t[k - i];
    }
    TrimmedContains(s, r, i);
  }

  lemma TrimBothEmpty(s: string)
    ensures TrimEnd(TrimStart(s)) == [] <==> forall k :: 0 <= k < |s| ==> IsSpace(s[k])
  {
    var t := TrimStart(s);
    var r := TrimEnd(t);
    var i := |s| - |t|;
    if r == [] {
      assert t == [];
    } else {
      assert t == s[i..];
      assert r == t[..|r|];
      assert s[i] == r[0];
    }
  }

  /** Stripping a stripped string changes nothing, so the join step's second
      `block.strip()` leaves every paragraph block as the tier appended it. */
  lemma StripIdempotent(s: string)
    ensures Strip(Strip(s)) == Strip(s)
  {
    var r := Strip(s);
    if r != [] {
      assert TrimStart(r) == r;
      assert TrimEnd(r) == r;
    }
  }

  /** `sep.join(xs)`. */
  function Join(xs: seq<string>, sep: string): string
  {
    if xs == [] then ""
    else if |xs| == 1 then xs[0]
    else Join(xs[..|xs| - 1], sep) + sep + xs[|xs| - 1]
  }

  /** Every joined piece appears in the joined text. */
  lemma {:induction false} JoinContains(xs: seq<string>, sep: string, i: nat)
    requires i < |xs|
    ensures Contains(Join(xs, sep), xs[i])
  {
    if |xs| == 1 {
      assert OccursAt(Join(xs, sep), xs[0], 0);
    } else {
      var init := Join(xs[..|xs| - 1], sep);
      var r := Join(xs, sep);
      if i == |xs| - 1 {
        assert r[|init + sep|..|init + sep| + |xs[i]|] == xs[i];
        assert OccursAt(r, xs[i], |init + sep|);
      } else {
        JoinContains(xs[..|xs| - 1], sep, i);
        assert xs[..|xs| - 1][i] == xs[i];
        assert r == init + (sep + xs[|xs| - 1]);
        ContainsInPrefix(init, sep + xs[|xs| - 1], xs[i]);
      }
    }
  }

  /** `re.sub(r'\s+', ' ', s)`: every maximal run of whitespace becomes one
      space. */
  function CollapseSpaces(s: string): (r: string)
    ensures |r| <= |s|
    ensures r == [] <==> s == []
    ensures r != [] ==> (IsSpace(r[0]) <==> IsSpace(s[0]))
    decreases |s|
  {
    if s == [] then []
    else if IsSpace(s[0]) then [' '] + CollapseSpaces(TrimStart(s[1..]))
    else [s[0]] + CollapseSpaces(s[1..])
  }

  /** Every whitespace character of `r` is a plain space and no two
      whitespace characters are adjacent. */
  predicate SingleSpaced(r: string) {
    (forall k :: 0 <= k < |r| && IsSpace(r[k]) ==> r[k] == ' ')
    && (forall k :: 0 <= k < |r| - 1 ==> !(IsSpace(r[k]) && IsSpace(r[k + 1])))
  }

  /** Putting a character in front of a single-spaced text keeps it single
      spaced, unless both the character and the text's first one are
      whitespace, or the character is whitespace other than a space. */
  lemma SingleSpacedCons(c: char, tail: string)
    requires SingleSpaced(tail)
    requires IsSpace(c) ==> c == ' ' && (tail == [] || !IsSpace(tail[0]))
    ensures SingleSpaced([c] + tail)
  {
    var r := [c] + tail;
    forall k | 0 <= k < |r| && IsSpace(r[k]) ensures r[k] == ' ' {
      if k > 0 { assert r[k] == tail[k - 1]; }
    }
    forall k | 0 <= k < |r| - 1 ensures !(IsSpace(r[k]) && IsSpace(r[k + 1])) {
      assert r[k + 1] == tail[k];
      if k > 0 { assert r[k] == tail[k - 1]; }
    }
  }

  /** After collapsing, every whitespace character is a plain space and no
      two whitespace characters are adjacent. */
  lemma {:induction false} CollapsedSpacing(s: string)
    ensures SingleSpaced(CollapseSpaces(s))
    decreases |s|
  {
    if s != [] {
      if IsSpace(s[0]) {
        var rest := TrimStart(s[1..]);
        CollapsedSpacing(rest);
        SingleSpacedCons(' ', CollapseSpaces(rest));
      } else {
        CollapsedSpacing(s[1..]);
        SingleSpacedCons(s[0], CollapseSpaces(s[1..]));
      }
    }
  }

  /** Collapsing whitespace brings in no other character. */
  lemma {:induction false} CollapseKeepsCharacters(s: string)
    ensures forall c :: c in CollapseSpaces(s) && !IsSpace(c) ==> c in s
    decreases |s|
  {
    if s != [] {
      var r := CollapseSpaces(s);
      if IsSpace(s[0]) {
        var rest := TrimStart(s[1..]);
        CollapseKeepsCharacters(rest);
        assert r == [' '] + CollapseSpaces(rest);
        assert forall c :: c in rest ==> c in s;
      } else {
        CollapseKeepsCharacters(s[1..]);
        assert r == [s[0]] + CollapseSpaces(s[1..]);
        assert forall c :: c in s[1..] ==> c in s;
      }
    }
  }

  /** The non-whitespace characters of `s`, in order. */
  function NonSpace(s: string): string
    decreases |s|
  {
    if s == [] then [] else (if IsSpace(s[0]) then [] else [s[0]]) + NonSpace(s[1..])
  }

  lemma {:induction false} NonSpaceTrimStart(s: string)
    ensures NonSpace(TrimStart(s)) == NonSpace(s)
    decreases |s|
  {
    if s != [] && IsSpace(s[0]) {
      NonSpaceTrimStart(s[1..]);
    }
  }

  /** Collapsing whitespace keeps every other character, in order: only
      whitespace runs are rewritten. */
  lemma {:induction false} CollapseKeepsText(s: string)
    ensures NonSpace(CollapseSpaces(s)) == NonSpace(s)
    decreases |s|
  {
    if s != [] {
      if IsSpace(s[0]) {
        var rest := TrimStart(s[1..]);
        CollapseKeepsText(rest);
        NonSpaceTrimStart(s[1..]);
        var r := [' '] + CollapseSpaces(rest);
        assert r[1..] == CollapseSpaces(rest);
      } else {
        CollapseKeepsText(s[1..]);
        var r := [s[0]] + CollapseSpaces(s[1..]);
        assert r[1..] == CollapseSpaces(s[1..]);
      }
    }
  }

  /** Leading whitespace in front of a text that does not start with
      whitespace is removed entirely. */
  lemma {:induction false} TrimStartSpaces(w: string, b: string)
    requires forall k :: 0 <= k < |w| ==> IsSpace(w[k])
    requires b == [] || !IsSpace(b[0])
    ensures TrimStart(w + b) == b
    decreases |w|
  {
    if w == [] {
      assert w + b == b;
    } else {
      assert (w + b)[1..] == w[1..] + b;
      TrimStartSpaces(w[1..], b);
    }
  }

  /** Trimming the front of a text that ends in non-whitespace never
      reaches what follows it. */
  lemma {:induction false} TrimStartAppend(x: string, y: string)
    requires x != [] && !IsSpace(x[|x| - 1])
    ensures TrimStart(x + y) == TrimStart(x) + y
    decreases |x|
  {
    if IsSpace(x[0]) {
      assert (x + y)[1..] == x[1..] + y;
      TrimStartAppend(x[1..], y);
    } else {
      assert (x + y)[0] == x[0];
    }
  }

  /** A text that ends in non-whitespace collapses on its own: no whitespace
      run crosses its end. */
  lemma {:induction false} CollapseAppend(a: string, t: string)
    requires a == [] || !IsSpace(a[|a| - 1])
    ensures CollapseSpaces(a + t) == CollapseSpaces(a) + CollapseSpaces(t)
    decreases |a|
  {
    if a == [] {
      assert a + t == t;
    } else if IsSpace(a[0]) {
      var a' := TrimStart(a[1..]);
      TrimmedKeepsLast(a[1..]);
      CollapseAppend(a', t);
      AppendSpaceCase(a, t, a');
    } else {
      CollapseAppend(a[1..], t);
      AppendWordCase(a, t);
    }
  }

  /** Trimming the front of a text that ends in non-whitespace keeps that
      last character. */
  lemma TrimmedKeepsLast(x: string)
    requires x != [] && !IsSpace(x[|x| - 1])
    ensures TrimStart(x) != [] && TrimStart(x)[|TrimStart(x)| - 1] == x[|x| - 1]
  {
  }

  lemma AppendSpaceCase(a: string, t: string, a': string)
    requires a != [] && IsSpace(a[0]) && !IsSpace(a[|a| - 1]) && a' == TrimStart(a[1..])
    requires CollapseSpaces(a' + t) == CollapseSpaces(a') + CollapseSpaces(t)
    ensures CollapseSpaces(a + t) == CollapseSpaces(a) + CollapseSpaces(t)
  {
    var s := a + t;
    var x := a[1..];
    assert s[0] == a[0];
    assert |a| >= 2 && x[|x| - 1] == a[|a| - 1];
    DropFirst(a, t);
    TrimStartAppend(x, t);
    CollapseCons(s);
    CollapseCons(a);
    Assoc([' '], CollapseSpaces(a'), CollapseSpaces(t));
  }

  lemma AppendWordCase(a: string, t: string)
    requires a != [] && !IsSpace(a[0])
    requires CollapseSpaces(a[1..] + t) == CollapseSpaces(a[1..]) + CollapseSpaces(t)
    ensures CollapseSpaces(a + t) == CollapseSpaces(a) + CollapseSpaces(t)
  {
    var s := a + t;
    assert s[0] == a[0];
    DropFirst(a, t);
    CollapseCons(s);
    CollapseCons(a);
    Assoc([a[0]], CollapseSpaces(a[1..]), CollapseSpaces(t));
  }

  /** One step of `CollapseSpaces` on a non-empty text. */
  lemma CollapseCons(a: string)
    requires a != []
    ensures CollapseSpaces(a)
         == if IsSpace(a[0]) then [' '] + CollapseSpaces(TrimStart(a[1..])) else [a[0]] + CollapseSpaces(a[1..])
  {
  }

  lemma DropFirst(a: string, t: string)
    requires a != []
    ensures (a + t)[1..] == a[1..] + t
  {
  }

  lemma Assoc(p: string, q: string, r: string)
    ensures p + (q + r) == p + q + r
  {
  }

  /** A whitespace run in front of a text that starts with non-whitespace
      becomes one space. */
  lemma CollapseRunFirst(w: string, b: string)
    requires w != [] && forall k :: 0 <= k < |w| ==> IsSpace(w[k])
    requires b == [] || !IsSpace(b[0])
    ensures CollapseSpaces(w + b) == [' '] + CollapseSpaces(b)
  {
    var s := w + b;
    assert s[0] == w[0];
    assert s[1..] == w[1..] + b;
    TrimStartSpaces(w[1..], b);
  }

  /** A whitespace run between two words, or at either end of the text,
      becomes exactly one space; the texts on either side collapse on their
      own. */
  lemma CollapseRun(a: string, w: string, b: string)
    requires a == [] || !IsSpace(a[|a| - 1])
    requires w != [] && forall k :: 0 <= k < |w| ==> IsSpace(w[k])
    requires b == [] || !IsSpace(b[0])
    ensures CollapseSpaces(a + w + b) == CollapseSpaces(a) + " " + CollapseSpaces(b)
  {
    CollapseAppend(a, w + b);
    CollapseRunFirst(w, b);
    Assoc(a, w, b);
    Assoc(CollapseSpaces(a), " ", CollapseSpaces(b));
  }

  /** The collapsed text ends in whitespace exactly when the input does. */
  lemma CollapsedEnd(s: string)
    ensures var r := CollapseSpaces(s);
      r != [] ==> (IsSpace(r[|r| - 1]) <==> IsSpace(s[|s| - 1]))
  {
    if s != [] {
      if IsSpace(s[|s| - 1]) {
        CollapsedEndsInSpace(s);
      } else {
        CollapsedKeepsLast(s);
      }
    }
  }

  /** A text ending in whitespace collapses to one ending in a plain space. */
  lemma {:induction false} CollapsedEndsInSpace(s: string)
    requires s != [] && IsSpace(s[|s| - 1])
    ensures var r := CollapseSpaces(s); r != [] && r[|r| - 1] == ' '
    decreases |s|
  {
    if IsSpace(s[0]) {
      var rest := TrimStart(s[1..]);
      if rest != [] {
        TailKeepsEnd(s, rest);
        CollapsedEndsInSpace(rest);
      }
      EndsInSpaceAfterSpace(s, rest);
    } else {
      TailKeepsEnd(s, s[1..]);
      CollapsedEndsInSpace(s[1..]);
      EndsInSpaceAfterWord(s);
    }
  }

  lemma EndsInSpaceAfterSpace(s: string, rest: string)
    requires s != [] && IsSpace(s[0]) && rest == TrimStart(s[1..])
    requires rest != [] ==> var t := CollapseSpaces(rest); t != [] && t[|t| - 1] == ' '
    ensures var r := CollapseSpaces(s); r != [] && r[|r| - 1] == ' '
  {
    CollapseCons(s);
    ConsLast(' ', CollapseSpaces(rest), CollapseSpaces(s));
  }

  lemma EndsInSpaceAfterWord(s: string)
    requires s != [] && !IsSpace(s[0]) && s[1..] != []
    requires var t := CollapseSpaces(s[1..]); t != [] && t[|t| - 1] == ' '
    ensures var r := CollapseSpaces(s); r != [] && r[|r| - 1] == ' '
  {
    CollapseCons(s);
    ConsLast(s[0], CollapseSpaces(s[1..]), CollapseSpaces(s));
  }

  /** A text ending in non-whitespace collapses to one ending in that same
      character. */
  lemma {:induction false} CollapsedKeepsLast(s: string)
    requires s != [] && !IsSpace(s[|s| - 1])
    ensures var r := CollapseSpaces(s); r != [] && r[|r| - 1] == s[|s| - 1]
    decreases |s|
  {
    if IsSpace(s[0]) {
      var rest := TrimStart(s[1..]);
      TrimmedKeepsLast(s[1..]);
      TailKeepsEnd(s, rest);
      CollapsedKeepsLast(rest);
      KeepsLastAfterSpace(s, rest);
    } else if |s| > 1 {
      TailKeepsEnd(s, s[1..]);
      CollapsedKeepsLast(s[1..]);
      KeepsLastAfterWord(s);
    } else {
      KeepsLastAfterWord(s);
    }
  }

  lemma KeepsLastAfterSpace(s: string, rest: string)
    requires s != [] && IsSpace(s[0]) && rest == TrimStart(s[1..]) && rest != []
    requires var t := CollapseSpaces(rest); t != [] && t[|t| - 1] == s[|s| - 1]
    ensures var r := CollapseSpaces(s); r != [] && r[|r| - 1] == s[|s| - 1]
  {
    CollapseCons(s);
    ConsLast(' ', CollapseSpaces(rest), CollapseSpaces(s));
  }

  lemma KeepsLastAfterWord(s: string)
    requires s != [] && !IsSpace(s[0])
    requires s[1..] != [] ==> var t := CollapseSpaces(s[1..]); t != [] && t[|t| - 1] == s[|s| - 1]
    ensures var r := CollapseSpaces(s); r != [] && r[|r| - 1] == s[|s| - 1]
  {
    CollapseCons(s);
    ConsLast(s[0], CollapseSpaces(s[1..]), CollapseSpaces(s));
  }

  /** The tail of a text, trimmed at the front or not, ends where the text
      does, unless nothing is left. */
  lemma TailKeepsEnd(s: string, rest: string)
    requires s != [] && (rest == s[1..] || rest == TrimStart(s[1..])) && rest != []
    ensures rest[|rest| - 1] == s[|s| - 1]
  {
    var t := s[1..];
    assert t[|t| - 1] == s[|s| - 1];
  }

  lemma ConsLast(c: char, tail: string, r: string)
    requires r == [c] + tail
    ensures r != [] && r[|r| - 1] == if tail == [] then c else tail[|tail| - 1]
  {
  }

  function DigitValue(c: char): nat
    requires IsAsciiDigit(c)
  {
    c as int - '0' as int
  }

  function DigitChar(d: nat): (c: char)
    requires d < 10
    ensures IsAsciiDigit(c) && DigitValue(c) == d
  {
    ('0' as int + d) as char
  }

  /** `int(s)` for a string of ASCII digits. */
  function DecimalValue(s: string): nat
    requires forall k :: 0 <= k < |s| ==> IsAsciiDigit(s[k])
  {
    if s == [] then 0
    else DecimalValue(s[..|s| - 1]) * 10 + DigitValue(s[|s| - 1])
  }

  /** `str(n)` for a non-negative integer: no leading zeros. */
  function NatToString(n: nat): (r: string)
    ensures r != []
    ensures forall k :: 0 <= k < |r| ==> IsAsciiDigit(r[k])
    ensures |r| > 1 ==> r[0] != '0'
  {
    if n < 10 then [DigitChar(n)]
    else NatToString(n / 10) + [DigitChar(n % 10)]
  }

  /** `int(str(n)) == n`. */
  lemma {:induction false} DecimalRoundTrip(n: nat)
    ensures DecimalValue(NatToString(n)) == n
  {
    var r := NatToString(n);
    if n >= 10 {
      DecimalRoundTrip(n / 10);
      assert r[..|r| - 1] == NatToString(n / 10);
    }
  }
}
