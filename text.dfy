/** The string operations the scrapers rely on, with Python's semantics:
    `str.strip()`, `in` on strings, `str.replace`, `re.sub(r"\s+", " ", s)`
    and `str.split(" ")`. */
module Text {

  /** Python's `str.isspace()`; it is also the class `\s` matches in a str
      pattern and the set of characters `str.strip()` removes. */
  predicate IsSpace(c: char) {
    c == ' ' || ('\t' <= c <= '\r') || ('\U{1C}' <= c <= '\U{1F}')
    || c == '\U{85}' || c == '\U{A0}' || c == '\U{1680}'
    || ('\U{2000}' <= c <= '\U{200A}')
    || c == '\U{2028}' || c == '\U{2029}' || c == '\U{202F}' || c == '\U{205F}' || c == '\U{3000}'
  }

  /** An ASCII decimal digit. */
  predicate IsDigit(c: char) {
    '0' <= c <= '9'
  }

  predicate AllDigits(s: string) {
    forall i :: 0 <= i < |s| ==> IsDigit(s[i])
  }

  predicate NoSpace(s: string) {
    forall i :: 0 <= i < |s| ==> !IsSpace(s[i])
  }

  /** Neither end of `s` is whitespace (vacuously true of ""). */
  predicate TrimmedEnds(s: string) {
    s == [] || (!IsSpace(s[0]) && !IsSpace(s[|s| - 1]))
  }

  // ---------------------------------------------------------------- strip

  /** The number of whitespace characters `s` starts with. */
  function LeadingSpaces(s: string): (n: nat)
    ensures n <= |s|
    ensures forall i :: 0 <= i < n ==> IsSpace(s[i])
    ensures n < |s| ==> !IsSpace(s[n])
  {
    if s != [] && IsSpace(s[0]) then 1 + LeadingSpaces(s[1..]) else 0
  }

  predicate AllSpace(s: string) {
    forall i :: 0 <= i < |s| ==> IsSpace(s[i])
  }

  /** The leading run `LeadingSpaces` counts is all whitespace. */
  lemma LeadingAllSpace(s: string)
    ensures AllSpace(s[..LeadingSpaces(s)])
  {
    var h := s[..LeadingSpaces(s)];
    forall i | 0 <= i < |h| ensures IsSpace(h[i]) {
      assert h[i] == s[i];
    }
  }

  /** `s.strip()`: `s` without its leading and trailing whitespace, taken
      off one character at a time from either end. */
  function Strip(s: string): (r: string)
    ensures TrimmedEnds(r)
    ensures |r| <= |s|
    ensures TrimmedEnds(s) ==> r == s
    ensures forall c :: c in r ==> c in s
    decreases |s|
  {
    if s == [] then []
    else if IsSpace(s[0]) then
      assert forall c :: c in s[1..] ==> c in s;
      Strip(s[1..])
    else if IsSpace(s[|s| - 1]) then
      assert forall c :: c in s[..|s| - 1] ==> c in s;
      Strip(s[..|s| - 1])
    else s
  }

  /** `strip()` removes whitespace only, and only at the ends: the text is
      the stripped text with all-white text before and after it. */
  lemma StripParts(s: string)
    ensures exists a, b :: s == a + Strip(s) + b && AllSpace(a) && AllSpace(b)
  {
    var a, b := StripFrame(s);
  }

  /** The whitespace `strip()` removes from the front and from the back. */
  lemma {:induction false} StripFrame(s: string) returns (a: string, b: string)
    ensures s == a + Strip(s) + b && AllSpace(a) && AllSpace(b)
    decreases |s|
  {
    if s == [] {
      a, b := [], [];
    } else if IsSpace(s[0]) {
      var a0, b0 := StripFrame(s[1..]);
      assert Strip(s) == Strip(s[1..]);
      a, b := SpaceBefore(s, a0, Strip(s), b0);
    } else if IsSpace(s[|s| - 1]) {
      var a0, b0 := StripFrame(s[..|s| - 1]);
      assert Strip(s) == Strip(s[..|s| - 1]);
      a, b := SpaceAfter(s, a0, Strip(s), b0);
    } else {
      a, b := [], [];
      assert s == a + Strip(s) + b;
    }
  }

  /** A white first character joins the whitespace in front. */
  lemma SpaceBefore(s: string, a0: string, m: string, b0: string) returns (a: string, b: string)
    requires s != [] && IsSpace(s[0])
    requires s[1..] == a0 + m + b0 && AllSpace(a0) && AllSpace(b0)
    ensures s == a + m + b && AllSpace(a) && AllSpace(b)
  {
    a, b := [s[0]] + a0, b0;
    AllSpaceJoin([s[0]], a0);
    assert s == [s[0]] + s[1..];
  }

  /** A white last character joins the whitespace behind. */
  lemma SpaceAfter(s: string, a0: string, m: string, b0: string) returns (a: string, b: string)
    requires s != [] && IsSpace(s[|s| - 1])
    requires s[..|s| - 1] == a0 + m + b0 && AllSpace(a0) && AllSpace(b0)
    ensures s == a + m + b && AllSpace(a) && AllSpace(b)
  {
    a, b := a0, b0 + [s[|s| - 1]];
    AllSpaceJoin(b0, [s[|s| - 1]]);
    assert s == s[..|s| - 1] + [s[|s| - 1]];
  }

  lemma AllSpaceJoin(x: string, y: string)
    requires AllSpace(x) && AllSpace(y)
    ensures AllSpace(x + y)
  {
    var z := x + y;
    forall i | 0 <= i < |z| ensures IsSpace(z[i]) {
      if i < |x| {
        assert z[i] == x[i];
      } else {
        assert z[i] == y[i - |x|];
      }
    }
  }

  /** Whitespace around text with non-white ends is exactly what `strip()`
      removes. */
  lemma {:induction false} StripOf(a: string, m: string, b: string)
    requires AllSpace(a) && AllSpace(b) && TrimmedEnds(m)
    ensures Strip(a + m + b) == m
    decreases |a|
  {
    if a != [] {
      StripDropFront(a, m, b);
      StripOf(a[1..], m, b);
    } else {
      assert a + m + b == m + b;
      StripOfRight(m, b);
    }
  }

  /** Whitespace behind text with non-white ends is what `strip()` removes. */
  lemma {:induction false} StripOfRight(m: string, b: string)
    requires AllSpace(b) && TrimmedEnds(m)
    ensures Strip(m + b) == m
    decreases |b|
  {
    if b == [] {
      assert m + b == m;
    } else if m == [] {
      assert m + b == b;
      StripAllSpace(b);
    } else {
      StripDropBack(m, b);
      StripOfRight(m, b[..|b| - 1]);
    }
  }

  /** All-white text strips to nothing. */
  lemma {:induction false} StripAllSpace(b: string)
    requires AllSpace(b)
    ensures Strip(b) == []
    decreases |b|
  {
    if b != [] {
      StripDropFront(b, [], []);
      assert b + [] + [] == b && b[1..] + [] + [] == b[1..];
      StripAllSpace(b[1..]);
    }
  }

  /** A white first character is dropped. */
  lemma StripDropFront(a: string, m: string, b: string)
    requires a != [] && AllSpace(a)
    ensures Strip(a + m + b) == Strip(a[1..] + m + b) && AllSpace(a[1..])
  {
    var s := a + m + b;
    assert s[0] == a[0];
    assert s[1..] == a[1..] + m + b;
    var t := a[1..];
    forall i | 0 <= i < |t| ensures IsSpace(t[i]) {
      assert t[i] == a[i + 1];
    }
  }

  /** Behind text with a non-white first character, a white last character
      is dropped. */
  lemma StripDropBack(m: string, b: string)
    requires m != [] && !IsSpace(m[0]) && b != [] && AllSpace(b)
    ensures Strip(m + b) == Strip(m + b[..|b| - 1]) && AllSpace(b[..|b| - 1])
  {
    JoinEnds(m, b);
    StripBackStep(m + b);
    AllSpaceInit(b);
  }

  lemma StripBackStep(s: string)
    requires s != [] && !IsSpace(s[0]) && IsSpace(s[|s| - 1])
    ensures Strip(s) == Strip(s[..|s| - 1])
  {
  }

  lemma JoinEnds(m: string, b: string)
    requires m != [] && b != []
    ensures var s := m + b;
            s[0] == m[0] && s[|s| - 1] == b[|b| - 1] && s[..|s| - 1] == m + b[..|b| - 1]
  {
    var s := m + b;
    assert s[..|s| - 1] == m + b[..|b| - 1];
  }

  lemma AllSpaceInit(b: string)
    requires b != [] && AllSpace(b)
    ensures AllSpace(b[..|b| - 1]) && IsSpace(b[|b| - 1])
  {
    var t := b[..|b| - 1];
    forall i | 0 <= i < |t| ensures IsSpace(t[i]) {
      assert t[i] == b[i];
    }
  }

  // ------------------------------------------------------------- substring

  predicate IsPrefix(p: string, s: string) {
    |p| <= |s| && s[..|p|] == p
  }

  /** Python's `p in s` on strings: `p` occurs in `s` at some position. */
  predicate Contains(s: string, p: string) {
    exists i :: 0 <= i <= |s| && IsPrefix(p, s[i..])
  }

  lemma ContainsAt(s: string, p: string, i: nat)
    requires i <= |s| && IsPrefix(p, s[i..])
    ensures Contains(s, p)
  {
  }

  /** A string of which the first character of `p` is no part cannot contain `p`. */
  lemma NotContainsFirst(s: string, p: string)
    requires p != [] && p[0] !in s
    ensures !Contains(s, p)
  {
    forall i | 0 <= i <= |s| ensures !IsPrefix(p, s[i..]) {
      if i < |s| {
        assert s[i..][0] == s[i] != p[0];
      }
    }
  }

  // --------------------------------------------------------------- replace

  /** `s.replace(p, q)`: every occurrence of `p`, found left to right and
      without overlap, replaced by `q`. */
  function Replace(s: string, p: string, q: string): (r: string)
    requires p != []
    ensures forall c :: c in r ==> c in s || c in q
    ensures |p| == 1 && p[0] !in q ==> p[0] !in r
    decreases |s|
  {
    if IsPrefix(p, s) then q + Replace(s[|p|..], p, q)
    else if s == [] then []
    else [s[0]] + Replace(s[1..], p, q)
  }

  /** Text without the first character of the pattern is left as it is. */
  lemma {:induction false} ReplaceAbsent(s: string, p: string, q: string)
    requires p != [] && p[0] !in s
    ensures Replace(s, p, q) == s
    decreases |s|
  {
    if s != [] {
      assert !IsPrefix(p, s) by { assert s[0] != p[0]; }
      ReplaceAbsent(s[1..], p, q);
      assert s == [s[0]] + s[1..];
    }
  }

  /** A prefix without the first character of the pattern is copied, and
      replacing continues on the rest. */
  lemma {:induction false} ReplaceSkip(x: string, y: string, p: string, q: string)
    requires p != [] && p[0] !in x
    ensures Replace(x + y, p, q) == x + Replace(y, p, q)
    decreases |x|
  {
    if x != [] {
      var s := x + y;
      assert s[0] == x[0] != p[0];
      assert !IsPrefix(p, s);
      assert s[1..] == x[1..] + y;
      assert Replace(s, p, q) == [s[0]] + Replace(s[1..], p, q);
      ReplaceSkip(x[1..], y, p, q);
      assert x == [x[0]] + x[1..];
    } else {
      assert x + y == y;
    }
  }

  /** Text that does not contain the pattern is left as it is. */
  lemma {:induction false} ReplaceNone(s: string, p: string, q: string)
    requires p != [] && !Contains(s, p)
    ensures Replace(s, p, q) == s
    decreases |s|
  {
    if s != [] {
      assert !IsPrefix(p, s[0..]);
      assert s[0..] == s;
      assert !Contains(s[1..], p) by {
        forall i | 0 <= i <= |s[1..]| ensures !IsPrefix(p, s[1..][i..]) {
          assert s[1..][i..] == s[i + 1..];
        }
      }
      ReplaceNone(s[1..], p, q);
      assert s == [s[0]] + s[1..];
    }
  }

  /** The first occurrence of the pattern is replaced and the text before
      it copied: `a` followed by `p` with no earlier occurrence, including
      one that would overlap the start of this one. */
  lemma {:induction false} ReplaceFirst(a: string, b: string, p: string, q: string)
    requires p != [] && !Contains(a + p[..|p| - 1], p)
    ensures Replace(a + p + b, p, q) == a + q + Replace(b, p, q)
    decreases |a|
  {
    if a == [] {
      assert a + p + b == p + b;
      ReplaceHit(b, p, q);
    } else {
      var s := a + p + b;
      NotFirstYet(a, b, p);
      ReplaceMiss(s, p, q);
      assert s[1..] == a[1..] + p + b;
      ReplaceFirst(a[1..], b, p, q);
      assert a + q + Replace(b, p, q) == [a[0]] + (a[1..] + q + Replace(b, p, q));
    }
  }

  /** A text that does not start with the pattern keeps its first character. */
  lemma ReplaceMiss(s: string, p: string, q: string)
    requires p != [] && s != [] && !IsPrefix(p, s)
    ensures Replace(s, p, q) == [s[0]] + Replace(s[1..], p, q)
  {
  }

  /** Before the first occurrence the text does not start with the pattern,
      and the first occurrence is still the first one a character later. */
  lemma NotFirstYet(a: string, b: string, p: string)
    requires p != [] && a != [] && !Contains(a + p[..|p| - 1], p)
    ensures !IsPrefix(p, a + p + b)
    ensures !Contains(a[1..] + p[..|p| - 1], p)
  {
    var s, w, v := a + p + b, a + p[..|p| - 1], a[1..] + p[..|p| - 1];
    if IsPrefix(p, s) {
      assert s[..|p|] == w[..|p|];
      assert IsPrefix(p, w[0..]);
    }
    forall i | 0 <= i <= |v| ensures !IsPrefix(p, v[i..]) {
      assert v[i..] == w[i + 1..];
    }
  }

  /** A one-character pattern can be replaced piece by piece. */
  lemma {:induction false} ReplaceConcat(x: string, y: string, p: string, q: string)
    requires |p| == 1
    ensures Replace(x + y, p, q) == Replace(x, p, q) + Replace(y, p, q)
    decreases |x|
  {
    if x == [] {
      assert x + y == y;
    } else {
      assert (x + y)[1..] == x[1..] + y;
      assert (x + y)[..1] == x[..1];
      ReplaceConcat(x[1..], y, p, q);
    }
  }

  /** Replacing one character by one character maps each position on its own. */
  lemma {:induction false} ReplaceChar(s: string, p: string, q: string)
    requires |p| == 1 && |q| == 1
    ensures |Replace(s, p, q)| == |s|
    ensures forall i :: 0 <= i < |s| ==> Replace(s, p, q)[i] == (if s[i] == p[0] then q[0] else s[i])
    decreases |s|
  {
    if s != [] {
      ReplaceChar(s[1..], p, q);
      if IsPrefix(p, s) {
        assert s[|p|..] == s[1..];
      }
    }
  }

  /** An occurrence of the pattern at the front is replaced. */
  lemma ReplaceHit(y: string, p: string, q: string)
    requires p != []
    ensures Replace(p + y, p, q) == q + Replace(y, p, q)
  {
    assert IsPrefix(p, p + y);
    assert (p + y)[|p|..] == y;
  }

  // ------------------------------------------------------- collapse spaces

  /** A string in "normal form": its only whitespace is the plain space,
      never two in a row and never at either end. */
  predicate Normal(s: string) {
    && TrimmedEnds(s)
    && (forall i :: 0 <= i < |s| && IsSpace(s[i]) ==> s[i] == ' ')
    && (forall i :: 0 <= i < |s| - 1 ==> !(IsSpace(s[i]) && IsSpace(s[i + 1])))
  }

  /** The number of non-whitespace characters `s` starts with. */
  function WordLength(s: string): (n: nat)
    ensures n <= |s|
    ensures s != [] && !IsSpace(s[0]) ==> n >= 1
  {
    if s != [] && !IsSpace(s[0]) then 1 + WordLength(s[1..]) else 0
  }

  /** The words of `s`: its maximal runs of non-whitespace, in order. */
  function Words(s: string): seq<string>
    decreases |s|
  {
    if s == [] then []
    else if IsSpace(s[0]) then Words(s[1..])
    else
      var n := WordLength(s);
      [s[..n]] + Words(s[n..])
  }

  /** Leading whitespace holds no word. */
  lemma {:induction false} WordsSkip(w: string, x: string)
    requires AllSpace(w)
    ensures Words(w + x) == Words(x)
    decreases |w|
  {
    if w != [] {
      assert (w + x)[1..] == w[1..] + x;
      WordsSkip(w[1..], x);
    } else {
      assert w + x == x;
    }
  }

  /** A non-white character in front of a text begins its first word when
      the text starts with one, and is a word of its own otherwise. */
  lemma WordsCons(c: char, x: string)
    requires !IsSpace(c)
    ensures x != [] && !IsSpace(x[0]) ==> Words(x) != [] && Words([c] + x) == [[c] + Words(x)[0]] + Words(x)[1..]
    ensures x == [] || IsSpace(x[0]) ==> Words([c] + x) == [[c]] + Words(x)
  {
    var s := [c] + x;
    var m := WordLength(x);
    assert s[1..] == x;
    assert WordLength(s) == 1 + m;
    assert s[..1 + m] == [c] + x[..m];
    assert s[1 + m..] == x[m..];
  }

  /** Trailing whitespace holds no word. */
  lemma {:induction false} WordsTrail(r: string, b: string)
    requires AllSpace(b)
    ensures Words(r + b) == Words(r)
    decreases |r|
  {
    if r == [] {
      assert r + b == b + [];
      WordsSkip(b, []);
    } else {
      WordsTrail(r[1..], b);
      WordsTrailStep(r, b);
    }
  }

  /** One more character in front keeps trailing whitespace wordless. */
  lemma WordsTrailStep(r: string, b: string)
    requires r != [] && AllSpace(b) && Words(r[1..] + b) == Words(r[1..])
    ensures Words(r + b) == Words(r)
  {
    var t := r[1..];
    ConsJoin(r, b);
    if IsSpace(r[0]) {
      WordsSkip([r[0]], t + b);
      WordsSkip([r[0]], t);
    } else if t == [] {
      assert t + b == b;
      WordsCons(r[0], b);
      WordsCons(r[0], t);
    } else {
      WordsCons(r[0], t + b);
      WordsCons(r[0], t);
    }
  }

  lemma ConsJoin(r: string, b: string)
    requires r != []
    ensures r == [r[0]] + r[1..] && r + b == [r[0]] + (r[1..] + b)
  {
  }

  /** Stripping keeps the words. */
  lemma {:induction false} StripKeepsWords(s: string)
    ensures Words(Strip(s)) == Words(s)
    decreases |s|
  {
    if s == [] {
    } else if IsSpace(s[0]) {
      StripKeepsWords(s[1..]);
    } else if IsSpace(s[|s| - 1]) {
      var init := s[..|s| - 1];
      StripKeepsWords(init);
      assert s == init + [s[|s| - 1]];
      WordsTrail(init, [s[|s| - 1]]);
    }
  }

  /** A space-free, non-empty text followed by whitespace or nothing is the
      first word. */
  lemma {:induction false} WordsFirst(a: string, b: string)
    requires a != [] && NoSpace(a) && (b == [] || IsSpace(b[0]))
    ensures Words(a + b) == [a] + Words(b)
    decreases |a|
  {
    var t := a[1..];
    assert a == [a[0]] + t && a + b == [a[0]] + (t + b);
    if t == [] {
      assert t + b == b;
      WordsCons(a[0], b);
    } else {
      WordsFirst(t, b);
      WordsCons(a[0], t + b);
    }
  }

  /** A normal text splits at its spaces into its words. */
  lemma {:induction false} SplitWords(s: string)
    requires Normal(s) && s != []
    ensures Split(s, ' ') == Words(s)
    decreases |s|
  {
    if ' ' !in s {
      assert NoSpace(s);
      WordsFirst(s, []);
      assert s + [] == s;
    } else {
      var j := IndexOf(s, ' ');
      var a, b := s[..j], s[j + 1..];
      FirstSpace(s);
      SplitAt(a, ' ', b);
      SplitWords(b);
      WordsAtSpace(a, b);
    }
  }

  /** Around the first space of a normal text: a space-free word before it
      and a non-empty normal text after it. */
  lemma FirstSpace(s: string)
    requires Normal(s) && ' ' in s
    ensures var j := IndexOf(s, ' ');
            && s == s[..j] + [' '] + s[j + 1..] && s[..j] != [] && NoSpace(s[..j])
            && s[j + 1..] != [] && Normal(s[j + 1..])
  {
    var j := IndexOf(s, ' ');
    var a := s[..j];
    assert s == a + [' '] + s[j + 1..];
    forall i | 0 <= i < j ensures !IsSpace(a[i]) {
      assert a[i] in s[..j];
    }
    NormalAfterSpace(s, j);
  }

  /** A word, a space and the rest: the word, then the words of the rest. */
  lemma WordsAtSpace(a: string, b: string)
    requires a != [] && NoSpace(a)
    ensures Words(a + [' '] + b) == [a] + Words(b)
  {
    assert a + [' '] + b == a + ([' '] + b);
    WordsFirst(a, [' '] + b);
    WordsSkip([' '], b);
  }


  /** `re.sub(r"\s+", " ", s)`: each maximal run of whitespace becomes one space. */
  function CollapseSpaces(s: string): (r: string)
    ensures |r| <= |s|
    ensures (r == []) == (s == [])
    ensures s != [] ==> (IsSpace(r[0]) <==> IsSpace(s[0]))
    ensures s != [] ==> (IsSpace(r[|r| - 1]) <==> IsSpace(s[|s| - 1]))
    ensures forall i :: 0 <= i < |r| && IsSpace(r[i]) ==> r[i] == ' '
    ensures forall i :: 0 <= i < |r| - 1 ==> !(IsSpace(r[i]) && IsSpace(r[i + 1]))
    ensures forall c :: c in r ==> c == ' ' || c in s
    decreases |s|
  {
    if s == [] then []
    else if IsSpace(s[0]) then
      var n := LeadingSpaces(s);
      var rest := s[n..];
      assert forall c :: c in rest ==> c in s;
      [' '] + CollapseSpaces(rest)
    else
      [s[0]] + CollapseSpaces(s[1..])
  }

  /** Collapsing keeps the words, in order: only whitespace is rewritten. */
  lemma {:induction false} CollapseKeepsWords(s: string)
    ensures Words(CollapseSpaces(s)) == Words(s)
    decreases |s|
  {
    if s == [] {
    } else if IsSpace(s[0]) {
      CollapseKeepsWords(s[LeadingSpaces(s)..]);
      SpaceRunWords(s);
    } else {
      CollapseKeepsWords(s[1..]);
      WordCharWords(s);
    }
  }

  /** A leading run of whitespace, collapsed or not, holds no word. */
  lemma SpaceRunWords(s: string)
    requires s != [] && IsSpace(s[0])
    ensures var rest := s[LeadingSpaces(s)..];
            Words(CollapseSpaces(s)) == Words(CollapseSpaces(rest)) && Words(s) == Words(rest)
  {
    var rest := s[LeadingSpaces(s)..];
    RunWords(s);
    CollapseRunFront(s);
    WordsSkip([' '], CollapseSpaces(rest));
  }

  /** A leading run of whitespace holds no word. */
  lemma RunWords(s: string)
    ensures Words(s) == Words(s[LeadingSpaces(s)..])
  {
    var n := LeadingSpaces(s);
    assert s == s[..n] + s[n..];
    LeadingAllSpace(s);
    WordsSkip(s[..n], s[n..]);
  }

  /** A leading run of whitespace collapses to one space. */
  lemma CollapseRunFront(s: string)
    requires s != [] && IsSpace(s[0])
    ensures CollapseSpaces(s) == [' '] + CollapseSpaces(s[LeadingSpaces(s)..])
  {
  }

  /** A leading non-white character is kept in front of the collapsed rest. */
  lemma WordCharWords(s: string)
    requires s != [] && !IsSpace(s[0]) && Words(CollapseSpaces(s[1..])) == Words(s[1..])
    ensures Words(CollapseSpaces(s)) == Words(s)
  {
    var t := s[1..];
    CollapseCharFront(s);
    assert s == [s[0]] + t;
    SameWordsCons(s[0], t, CollapseSpaces(t));
  }

  /** A leading non-white character is kept. */
  lemma CollapseCharFront(s: string)
    requires s != [] && !IsSpace(s[0])
    ensures CollapseSpaces(s) == [s[0]] + CollapseSpaces(s[1..])
  {
  }

  /** Two texts with the same words that start alike keep the same words
      behind the same non-white character. */
  lemma SameWordsCons(c: char, t: string, u: string)
    requires !IsSpace(c) && Words(u) == Words(t)
    requires (u == []) == (t == [])
    requires t != [] ==> (IsSpace(u[0]) <==> IsSpace(t[0]))
    ensures Words([c] + u) == Words([c] + t)
  {
    WordsCons(c, t);
    WordsCons(c, u);
  }

  /** Collapsing after stripping yields the normal form. */
  lemma CollapseStripped(s: string)
    requires TrimmedEnds(s)
    ensures Normal(CollapseSpaces(s))
  {
  }

  /** A normal string is its own collapse. */
  lemma {:induction false} CollapseNoSpace(s: string)
    requires NoSpace(s)
    ensures CollapseSpaces(s) == s
    decreases |s|
  {
    if s != [] {
      CollapseNoSpace(s[1..]);
      assert s == [s[0]] + s[1..];
    }
  }

  /** Text whose only whitespace is single plain spaces, none at the end,
      is its own collapse. */
  lemma {:induction false} CollapseSingleSpaces(s: string)
    requires forall i :: 0 <= i < |s| && IsSpace(s[i]) ==> s[i] == ' '
    requires forall i :: 0 <= i < |s| - 1 ==> !(IsSpace(s[i]) && IsSpace(s[i + 1]))
    requires s != [] ==> !IsSpace(s[|s| - 1])
    ensures CollapseSpaces(s) == s
    decreases |s|
  {
    if s != [] {
      var t := s[1..];
      assert forall i :: 0 <= i < |t| ==> t[i] == s[i + 1];
      CollapseSingleSpaces(t);
      assert s == [s[0]] + t;
      if IsSpace(s[0]) {
        assert |s| >= 2 && !IsSpace(t[0]);
        assert LeadingSpaces(t) == 0;
        assert LeadingSpaces(s) == 1;
        assert s[1..] == t;
        assert CollapseSpaces(s) == [' '] + CollapseSpaces(t);
      } else {
        assert CollapseSpaces(s) == [s[0]] + CollapseSpaces(t);
      }
    }
  }

  /** A run of whitespace between two space-free words collapses to one space. */
  lemma {:induction false} CollapseGap(a: string, w: string, b: string)
    requires NoSpace(a) && NoSpace(b) && b != []
    requires w != [] && forall i :: 0 <= i < |w| ==> IsSpace(w[i])
    ensures CollapseSpaces(a + w + b) == a + " " + b
    decreases |a|
  {
    if a == [] {
      assert a + w + b == w + b;
      CollapseRun(w, b);
    } else {
      var s := a + w + b;
      assert s[0] == a[0];
      assert s[1..] == a[1..] + w + b;
      CollapseGap(a[1..], w, b);
      assert a + " " + b == [a[0]] + (a[1..] + " " + b);
    }
  }

  lemma CollapseRun(w: string, b: string)
    requires NoSpace(b) && b != []
    requires w != [] && forall i :: 0 <= i < |w| ==> IsSpace(w[i])
    ensures CollapseSpaces(w + b) == " " + b
  {
    var s := w + b;
    LeadingSpacesOf(w, b);
    assert s[|w|..] == b;
    CollapseNoSpace(b);
  }

  lemma {:induction false} LeadingSpacesOf(w: string, b: string)
    requires forall i :: 0 <= i < |w| ==> IsSpace(w[i])
    requires b != [] && !IsSpace(b[0])
    ensures LeadingSpaces(w + b) == |w|
    decreases |w|
  {
    if w != [] {
      assert (w + b)[1..] == w[1..] + b;
      LeadingSpacesOf(w[1..], b);
    }
  }

  // ------------------------------------------------------------------ split

  /** `s.split(sep)` with an explicit one-character separator: always at least
      one piece; adjacent separators give empty pieces. */
  function Split(s: string, sep: char): (r: seq<string>)
    ensures |r| >= 1
    ensures sep !in s ==> r == [s]
    ensures forall k :: 0 <= k < |r| ==> sep !in r[k]
    ensures forall k, c :: 0 <= k < |r| && c in r[k] ==> c in s
    decreases |s|
  {
    if s == [] then [""]
    else
      assert s == [s[0]] + s[1..];
      assert forall c :: c in s[1..] ==> c in s;
      var rest := Split(s[1..], sep);
      if s[0] == sep then [""] + rest
      else [[s[0]] + rest[0]] + rest[1..]
  }

  /** Splitting at the first separator. */
  lemma {:induction false} SplitAt(a: string, sep: char, b: string)
    requires sep !in a
    ensures Split(a + [sep] + b, sep) == [a] + Split(b, sep)
    decreases |a|
  {
    if a != [] {
      assert (a + [sep] + b)[1..] == a[1..] + [sep] + b;
      SplitAt(a[1..], sep, b);
      assert a == [a[0]] + a[1..];
    } else {
      assert a + [sep] + b == [sep] + b;
    }
  }

  /** The pieces of a normal string split at its spaces are non-empty words
      without whitespace, and there are at least two exactly when it has a space. */
  lemma {:induction false} SplitNormal(s: string)
    requires Normal(s) && s != []
    ensures forall k :: 0 <= k < |Split(s, ' ')| ==> Split(s, ' ')[k] != [] && NoSpace(Split(s, ' ')[k])
    ensures |Split(s, ' ')| >= 2 <==> ' ' in s
    decreases |s|
  {
    if ' ' !in s {
      assert NoSpace(s);
    } else {
      var j := IndexOf(s, ' ');
      var a, b := s[..j], s[j + 1..];
      assert s == a + [' '] + b;
      assert NoSpace(a) by {
        forall i | 0 <= i < j ensures !IsSpace(a[i]) {
          assert a[i] in s[..j];
        }
      }
      NormalAfterSpace(s, j);
      SplitAt(a, ' ', b);
      SplitNormal(b);
    }
  }

  /** What follows a space of a normal string is a non-empty normal string,
      and what precedes it is non-empty. */
  lemma NormalAfterSpace(s: string, j: nat)
    requires Normal(s) && j < |s| && s[j] == ' '
    ensures 0 < j < |s| - 1
    ensures Normal(s[j + 1..])
  {
    var b := s[j + 1..];
    assert b[0] == s[j + 1];
    forall k | 0 <= k < |b| - 1 ensures !(IsSpace(b[k]) && IsSpace(b[k + 1])) {
      assert b[k] == s[j + 1 + k] && b[k + 1] == s[j + 1 + k + 1];
    }
  }

  /** Index of the first occurrence of `c` in a string that has one. */
  function IndexOf(s: string, c: char): (j: nat)
    requires c in s
    ensures j < |s| && s[j] == c && c !in s[..j]
  {
    if s[0] == c then 0
    else
      assert s == [s[0]] + s[1..];
      var j := 1 + IndexOf(s[1..], c);
      assert s[..j] == [s[0]] + s[1..][..j - 1];
      j
  }

  // ---------------------------------------------------------------- numbers

  function Pow10(n: nat): (r: nat)
    ensures r >= 1
  {
    if n == 0 then 1 else 10 * Pow10(n - 1)
  }

  function DigitValue(c: char): (v: nat)
    requires IsDigit(c)
    ensures v < 10
  {
    c as int - '0' as int
  }

  function DigitChar(v: nat): (c: char)
    requires v < 10
    ensures IsDigit(c) && DigitValue(c) == v
  {
    ('0' as int + v) as char
  }

  /** The value of a string of decimal digits, most significant first. */
  function DigitsValue(s: string): (v: nat)
    requires AllDigits(s)
    ensures v < Pow10(|s|)
  {
    if s == [] then 0
    else DigitsValue(s[..|s| - 1]) * 10 + DigitValue(s[|s| - 1])
  }

  /** `n` written in exactly `width` digits, zero-padded on the left. */
  function Padded(n: nat, width: nat): (s: string)
    ensures |s| == width && AllDigits(s)
  {
    if width == 0 then "" else Padded(n / 10, width - 1) + [DigitChar(n % 10)]
  }

  /** Reading a padded number gives the number back. */
  lemma {:induction false} PaddedValue(n: nat, width: nat)
    requires n < Pow10(width)
    ensures DigitsValue(Padded(n, width)) == n
  {
    if width > 0 {
      var s := Padded(n, width);
      assert n < 10 * Pow10(width - 1);
      assert n / 10 < Pow10(width - 1);
      assert s[..|s| - 1] == Padded(n / 10, width - 1);
      PaddedValue(n / 10, width - 1);
      assert s[|s| - 1] == DigitChar(n % 10);
      assert DigitsValue(s) == (n / 10) * 10 + n % 10;
    }
  }

  /** Writing a string of digits back at its own width gives the string. */
  lemma {:induction false} ValuePadded(s: string)
    requires AllDigits(s)
    ensures Padded(DigitsValue(s), |s|) == s
  {
    if s != [] {
      var init := s[..|s| - 1];
      var v := DigitsValue(s);
      DivTen(DigitsValue(init), DigitValue(s[|s| - 1]));
      assert v / 10 == DigitsValue(init) && v % 10 == DigitValue(s[|s| - 1]);
      ValuePadded(init);
      assert s == init + [s[|s| - 1]];
    }
  }

  lemma DivTen(q: nat, d: nat)
    requires d < 10
    ensures (q * 10 + d) / 10 == q && (q * 10 + d) % 10 == d
  {
  }
}
