/** The coordinate text normaliser of the manor-house scraper: separators
    become spaces, degree marks go, whitespace is trimmed and collapsed, and
    the first two words are latitude and longitude. */
module Coordinates {
  import opened Outcomes
  import opened Text

  /** The replace chain: `,` and `;` to a space, then `°N`, `°E` and any
      other `°` removed, in that order. */
  function Unmark(v: string): (r: string)
    ensures ',' !in r && ';' !in r && '°' !in r
    ensures forall c :: c in r ==> c in v || c == ' '
  {
    var s1 := Replace(v, ",", " ");
    var s2 := Replace(s1, ";", " ");
    var s3 := Replace(s2, "°N", "");
    var s4 := Replace(s3, "°E", "");
    var s5 := Replace(s4, "°", "");
    assert ',' !in s2 && ',' !in s3 && ',' !in s4;
    assert ';' !in s3 && ';' !in s4;
    s5
  }

  /** `RE_WHITESPACE.sub(" ", unmarked.strip())`. */
  function Normalise(v: string): (r: string)
    ensures Normal(r)
    ensures Words(r) == Words(Unmark(v))
    ensures ',' !in r && ';' !in r && '°' !in r
  {
    var s := Strip(Unmark(v));
    CollapseStripped(s);
    StripKeepsWords(Unmark(v));
    CollapseKeepsWords(s);
    CollapseSpaces(s)
  }

  /** A word the normaliser leaves alone: non-empty, no whitespace, no
      separator and no degree mark. */
  predicate Word(t: string) {
    t != [] && NoSpace(t) && ',' !in t && ';' !in t && '°' !in t
  }

  /** `lat, lon = ….split(" ")[:2]`: the first two words, an error when
      there are fewer than two. */
  function CoordTokens(v: string): (r: Result<(string, string)>)
    ensures r.Ok? <==> ' ' in Normalise(v)
    ensures r.Ok? <==> |Words(Unmark(v))| >= 2
    ensures r.Ok? ==> r.value == (Words(Unmark(v))[0], Words(Unmark(v))[1])
    ensures r.Err? ==> r.error == BadCoordinates
    ensures r.Ok? ==> Word(r.value.0) && Word(r.value.1)
  {
    var n := Normalise(v);
    var parts := Split(n, ' ');
    if n == [] then Err(BadCoordinates)
    else if (SplitNormal(n); SplitWords(n); |parts| < 2) then Err(BadCoordinates)
    else
      assert forall c :: c in parts[0] ==> c in n;
      assert forall c :: c in parts[1] ==> c in n;
      Ok((parts[0], parts[1]))
  }

  /** Without degree marks, the replace chain turns each `,` and `;` into
      a space and keeps every other character in its place. */
  lemma SeparatorsToSpaces(v: string)
    requires '°' !in v
    ensures |Unmark(v)| == |v|
    ensures forall i :: 0 <= i < |v| ==> Unmark(v)[i] == (if v[i] == ',' || v[i] == ';' then ' ' else v[i])
  {
    var s1 := Replace(v, ",", " ");
    ReplaceChar(v, ",", " ");
    ReplaceChar(s1, ";", " ");
    var s2 := Replace(s1, ";", " ");
    ReplaceAbsent(s2, "°N", "");
    ReplaceAbsent(s2, "°E", "");
    ReplaceAbsent(s2, "°", "");
  }

  /** The separator steps of the chain, on text without degree marks. */
  function Separate(x: string): (r: string)
    ensures '°' !in x ==> '°' !in r
  {
    Replace(Replace(x, ",", " "), ";", " ")
  }

  /** Without degree marks, the chain is the separator steps alone. */
  lemma UnmarkUnmarked(x: string)
    requires '°' !in x
    ensures Unmark(x) == Separate(x)
  {
    var y := Separate(x);
    ReplaceAbsent(y, "°N", "");
    ReplaceAbsent(y, "°E", "");
    ReplaceAbsent(y, "°", "");
  }

  /** The separator steps work on a text piece by piece. */
  lemma SeparateConcat(x: string, y: string)
    ensures Separate(x + y) == Separate(x) + Separate(y)
  {
    ReplaceConcat(x, y, ",", " ");
    ReplaceConcat(Replace(x, ",", " "), Replace(y, ",", " "), ";", " ");
  }

  /** The chain is the separator steps followed by the three removals. */
  lemma UnmarkChain(v: string)
    ensures Unmark(v) == Replace(Replace(Replace(Separate(v), "°N", ""), "°E", ""), "°", "")
  {
  }

  /** The separator steps leave a mark without separators alone and work on
      either side of it. */
  lemma SeparateAround(x: string, m: string, y: string)
    requires ',' !in m && ';' !in m
    ensures Separate(x + m + y) == Separate(x) + m + Separate(y)
  {
    SeparateConcat(x + m, y);
    SeparateConcat(x, m);
    ReplaceAbsent(m, ",", " ");
    ReplaceAbsent(m, ";", " ");
  }

  /** Removing `°N` from text whose only degree sign is that of one `°N`. */
  lemma NorthDrop(x: string, y: string)
    requires '°' !in x && '°' !in y
    ensures Replace(x + "°N" + y, "°N", "") == x + y
  {
    var mark := "°N";
    var tail := mark + y;
    assert x + mark + y == x + tail;
    ReplaceSkip(x, tail, mark, "");
    ReplaceHit(y, mark, "");
    ReplaceAbsent(y, mark, "");
    assert Replace(tail, mark, "") == y;
  }

  /** Removing `°E` from text whose only degree sign is that of one `°E`. */
  lemma EastDrop(x: string, y: string)
    requires '°' !in x && '°' !in y
    ensures Replace(x + "°E" + y, "°E", "") == x + y
  {
    var mark := "°E";
    var tail := mark + y;
    assert x + mark + y == x + tail;
    ReplaceSkip(x, tail, mark, "");
    ReplaceHit(y, mark, "");
    ReplaceAbsent(y, mark, "");
    assert Replace(tail, mark, "") == y;
  }

  /** `°E` is not `°N`: removing `°N` leaves a `°E` mark alone. */
  lemma EastKept(x: string, y: string)
    requires '°' !in x && '°' !in y
    ensures Replace(x + "°E" + y, "°N", "") == x + "°E" + y
  {
    var e := "E" + y;
    assert x + "°E" + y == x + (['°'] + e);
    ReplaceSkip(x, ['°'] + e, "°N", "");
    var t := ['°'] + e;
    assert !IsPrefix("°N", t) by { assert t[1] == 'E'; }
    assert t[1..] == e;
    ReplaceAbsent(e, "°N", "");
  }

  /** A `°N` mark between two pieces without degree marks goes whole: the
      `N` goes with the degree sign, and each piece is unmarked as if alone. */
  lemma NorthMarkRemoved(x: string, y: string)
    requires '°' !in x && '°' !in y
    ensures Unmark(x + "°N" + y) == Unmark(x) + Unmark(y)
  {
    var sx, sy := Separate(x), Separate(y);
    UnmarkChain(x + "°N" + y);
    SeparateAround(x, "°N", y);
    NorthDrop(sx, sy);
    ReplaceAbsent(sx + sy, "°E", "");
    ReplaceAbsent(sx + sy, "°", "");
    UnmarkUnmarked(x);
    UnmarkUnmarked(y);
  }

  /** A `°E` mark between two pieces without degree marks goes whole. */
  lemma EastMarkRemoved(x: string, y: string)
    requires '°' !in x && '°' !in y
    ensures Unmark(x + "°E" + y) == Unmark(x) + Unmark(y)
  {
    var sx, sy := Separate(x), Separate(y);
    UnmarkChain(x + "°E" + y);
    SeparateAround(x, "°E", y);
    EastKept(sx, sy);
    EastDrop(sx, sy);
    ReplaceAbsent(sx + sy, "°", "");
    UnmarkUnmarked(x);
    UnmarkUnmarked(y);
  }

  /** Two words with whitespace between them normalise and split to those
      two words. */
  lemma Gap(a: string, w: string, b: string)
    requires Word(a) && Word(b)
    requires w != [] && forall i :: 0 <= i < |w| ==> IsSpace(w[i])
    ensures Split(CollapseSpaces(Strip(a + w + b)), ' ') == [a, b]
  {
    GapNormal(a, w, b);
    SplitTwo(a, b);
  }

  /** Two words joined by one space split into those words. */
  lemma SplitTwo(a: string, b: string)
    requires Word(a) && Word(b)
    ensures Split(a + " " + b, ' ') == [a, b]
  {
    NoSpaceChars(a);
    NoSpaceChars(b);
    SplitAt(a, ' ', b);
  }

  /** Two words around a run of whitespace normalise to the words joined by one space. */
  lemma GapNormal(a: string, w: string, b: string)
    requires Word(a) && Word(b)
    requires w != [] && forall i :: 0 <= i < |w| ==> IsSpace(w[i])
    ensures CollapseSpaces(Strip(a + w + b)) == a + " " + b
  {
    var s := a + w + b;
    assert s[0] == a[0] && s[|s| - 1] == b[|b| - 1];
    assert TrimmedEnds(s);
    CollapseGap(a, w, b);
  }

  /** Text without any separator or degree mark goes through the replace
      chain unchanged. */
  lemma UnmarkPlain(s: string)
    requires ',' !in s && ';' !in s && '°' !in s
    ensures Unmark(s) == s
  {
    ReplaceAbsent(s, ",", " ");
    ReplaceAbsent(s, ";", " ");
    ReplaceAbsent(s, "°N", "");
    ReplaceAbsent(s, "°E", "");
    ReplaceAbsent(s, "°", "");
  }

  /** `"52.1 21.0"`: two words separated by a space. */
  lemma SpaceSeparated(a: string, b: string)
    requires Word(a) && Word(b)
    ensures CoordTokens(a + " " + b) == Ok((a, b))
  {
    var s := a + " " + b;
    UnmarkPlain(s);
    Gap(a, " ", b);
  }

  /** `"52.1, 21.0"`: two words separated by a comma and a space. */
  lemma CommaSeparated(a: string, b: string)
    requires Word(a) && Word(b)
    ensures CoordTokens(a + ", " + b) == Ok((a, b))
  {
    var s := a + ", " + b;
    var s1 := a + "  " + b;
    assert Unmark(s) == s1 by {
      assert Replace(s, ",", " ") == s1 by {
        assert s == a + (", " + b);
        ReplaceSkip(a, ", " + b, ",", " ");
        assert ", " + b == "," + (" " + b);
        ReplaceHit(" " + b, ",", " ");
        ReplaceAbsent(" " + b, ",", " ");
      }
      UnmarkPlainAfterComma(s1);
    }
    Gap(a, "  ", b);
  }

  /** The rest of the replace chain on text without separators or degree marks. */
  lemma UnmarkPlainAfterComma(s: string)
    requires ',' !in s && ';' !in s && '°' !in s
    ensures Replace(Replace(Replace(Replace(s, ";", " "), "°N", ""), "°E", ""), "°", "") == s
  {
    ReplaceAbsent(s, ";", " ");
    ReplaceAbsent(s, "°N", "");
    ReplaceAbsent(s, "°E", "");
    ReplaceAbsent(s, "°", "");
  }

  /** `"52.1,21.0"` and `"52.1;21.0"`: two words separated by a bare comma
      or semicolon. */
  lemma BareSeparator(a: string, c: char, b: string)
    requires Word(a) && Word(b) && (c == ',' || c == ';')
    ensures CoordTokens(a + [c] + b) == Ok((a, b))
  {
    UnmarkBare(a, c, b);
    TwoWords(a, b);
  }

  /** The separator between two words becomes a space. */
  lemma UnmarkBare(a: string, c: char, b: string)
    requires Word(a) && Word(b) && (c == ',' || c == ';')
    ensures Unmark(a + [c] + b) == a + " " + b
  {
    var v, u := a + [c] + b, a + " " + b;
    SeparatorsToSpaces(v);
    forall i | 0 <= i < |v| ensures Unmark(v)[i] == u[i] {
      if i < |a| {
        assert v[i] == a[i] && u[i] == a[i];
      } else if i > |a| {
        assert v[i] == b[i - |a| - 1] && u[i] == b[i - |a| - 1];
      }
    }
  }

  /** Two words joined by one space are the text's two words. */
  lemma TwoWords(a: string, b: string)
    requires Word(a) && Word(b)
    ensures Words(a + " " + b) == [a, b]
  {
    assert a + " " + b == a + (" " + b);
    WordsFirst(a, " " + b);
    WordsSkip(" ", b);
    WordsFirst(b, []);
    assert b + [] == b;
  }

  /** `"52.1°N; 21.0°E"`: hemisphere-marked words separated by a semicolon
      and a space. */
  lemma HemisphereMarked(a: string, b: string)
    requires Word(a) && Word(b)
    ensures CoordTokens(a + "°N; " + b + "°E") == Ok((a, b))
  {
    var s := a + "°N; " + b + "°E";
    assert Unmark(s) == a + "  " + b by {
      assert ',' !in s;
      ReplaceAbsent(s, ",", " ");
      SemicolonStep(a, b);
      NorthStep(a, b);
      EastStep(a, b);
      ReplaceAbsent(a + "  " + b, "°", "");
    }
    Gap(a, "  ", b);
  }

  lemma SemicolonStep(a: string, b: string)
    requires Word(a) && Word(b)
    ensures Replace(a + "°N; " + b + "°E", ";", " ") == a + "°N  " + b + "°E"
  {
    var tail := " " + b + "°E";
    SemicolonRegroup(a, b);
    ReplaceSkip(a + "°N", ";" + tail, ";", " ");
    ReplaceHit(tail, ";", " ");
    ReplaceAbsent(tail, ";", " ");
  }

  lemma SemicolonRegroup(a: string, b: string)
    ensures a + "°N; " + b + "°E" == (a + "°N") + (";" + (" " + b + "°E"))
    ensures (a + "°N") + (" " + (" " + b + "°E")) == a + "°N  " + b + "°E"
  {
  }

  lemma NorthStep(a: string, b: string)
    requires Word(a) && Word(b)
    ensures Replace(a + "°N  " + b + "°E", "°N", "") == a + "  " + b + "°E"
  {
    var north, east := "°N", "°E";
    var tail := "  " + b;
    var x := tail + east;
    ReplaceSkip(a, north + x, north, "");
    ReplaceHit(x, north, "");
    assert '°' !in tail;
    ReplaceSkip(tail, east, north, "");
    EastIsNotNorth();
    var r1 := Replace(x, north, "");
    assert r1 == tail + east;
    var r2 := Replace(north + x, north, "");
    assert r2 == "" + r1 == r1;
    assert Replace(a + (north + x), north, "") == a + r2;
    NorthRegroup(a, b);
  }

  lemma NorthRegroup(a: string, b: string)
    ensures a + "°N  " + b + "°E" == a + ("°N" + (("  " + b) + "°E"))
    ensures a + (("  " + b) + "°E") == a + "  " + b + "°E"
  {
  }

  /** `"°E"` does not contain `"°N"`. */
  lemma EastIsNotNorth()
    ensures Replace("°E", "°N", "") == "°E"
  {
    var s := "°E";
    assert s[..2] != "°N" by { assert s[1] == 'E'; }
    assert !IsPrefix("°N", s);
    assert s[1..] == "E";
    ReplaceAbsent("E", "°N", "");
    assert s == ['°'] + "E";
  }

  lemma EastStep(a: string, b: string)
    requires Word(a) && Word(b)
    ensures Replace(a + "  " + b + "°E", "°E", "") == a + "  " + b
  {
    ReplaceSkip(a + "  " + b, "°E", "°E", "");
    assert "°E" == "°E" + "";
    ReplaceHit("", "°E", "");
  }

  /** Words after the second are ignored. */
  lemma ExtraWordsIgnored(a: string, b: string, c: string)
    requires Word(a) && Word(b) && Word(c)
    ensures CoordTokens(a + " " + b + " " + c) == Ok((a, b))
  {
    NormalThree(a, b, c);
    SplitThree(a, b, c);
  }

  /** Splitting three words joined by single spaces gives the first two
      words first. */
  lemma SplitThree(a: string, b: string, c: string)
    requires Word(a) && Word(b)
    ensures var parts := Split(a + " " + b + " " + c, ' ');
            |parts| >= 2 && parts[0] == a && parts[1] == b
  {
    NoSpaceChars(a);
    NoSpaceChars(b);
    var tail := b + [' '] + c;
    assert a + " " + b + " " + c == a + [' '] + tail;
    SplitAt(a, ' ', tail);
    SplitAt(b, ' ', c);
  }

  /** Three words joined by single spaces are already normalised. */
  lemma NormalThree(a: string, b: string, c: string)
    requires Word(a) && Word(b) && Word(c)
    ensures Normalise(a + " " + b + " " + c) == a + " " + b + " " + c
  {
    var s := a + " " + b + " " + c;
    UnmarkPlain(s);
    assert s[0] == a[0] && s[|s| - 1] == c[|c| - 1];
    assert TrimmedEnds(s);
    SingleSpaced(a, b, c);
    CollapseSingleSpaces(s);
  }

  /** Three words joined by single spaces have only single plain spaces. */
  lemma SingleSpaced(a: string, b: string, c: string)
    requires Word(a) && Word(b) && Word(c)
    ensures var s := a + " " + b + " " + c;
            (forall i :: 0 <= i < |s| && IsSpace(s[i]) ==> s[i] == ' ')
            && (forall i :: 0 <= i < |s| - 1 ==> !(IsSpace(s[i]) && IsSpace(s[i + 1])))
            && !IsSpace(s[|s| - 1])
  {
    var s := a + " " + b + " " + c;
    var p, q := |a|, |a| + 1 + |b|;
    assert forall i :: 0 <= i < p ==> s[i] == a[i];
    assert s[p] == ' ';
    assert forall i :: p < i < q ==> s[i] == b[i - p - 1];
    assert s[q] == ' ';
    assert forall i :: q < i < |s| ==> s[i] == c[i - q - 1];
  }

  /** A word has no plain space. */
  lemma NoSpaceChars(a: string)
    requires NoSpace(a)
    ensures ' ' !in a
  {
    forall i | 0 <= i < |a| ensures a[i] != ' ' {
      assert !IsSpace(a[i]);
    }
  }

  /** A single word is not a coordinate pair. */
  lemma SingleWord(a: string)
    requires Word(a)
    ensures CoordTokens(a) == Err(BadCoordinates)
  {
    UnmarkPlain(a);
    assert TrimmedEnds(a);
    CollapseNoSpace(a);
    NoSpaceChars(a);
  }
}
