/** The zamki.net.pl scraper: the alphabetical list of castle pages, the two
    requests made for each castle page (its description and its location),
    the batch of all pages, and the GeoJSON projection that keeps only the
    castles with coordinates. */
module Zamkinet {
  import opened Outcomes
  import opened Text
  import opened Numbers
  import opened Html
  import opened Paging
  import opened GeoJson

  /** The `div` of class `srodek-zp-srodek`: the castle links of the list
      page and the detail table of a description page. */
  const Body := "srodek-zp-srodek"
  /** The `div` of class `srodek-zp-gorap`, whose `<h1>` is the castle's name. */
  const TitleBox := "srodek-zp-gorap"
  /** The element of id `licznik`, whose text holds the coordinates. */
  const Counter := "licznik"
  /** The `z` query parameter of the two requests made for one castle. */
  const DescriptionPart := 1
  const LocationPart := 2

  /** `CastleInfo`. The annotations say `str` and `int`, but every field
      except the name and the url starts as None and keeps None when the
      page does not set it, so those fields are optional here. */
  datatype CastleInfo = CastleInfo(
    name: string,
    latitude: Option<real>,
    longitude: Option<real>,
    url: string,
    stateText: Option<string>,
    stateDescription: Option<string>,
    entry: Option<string>,
    parking: Option<string>,
    findingNumeric: Option<real>,
    findingText: Option<string>,
    findingDescription: Option<string>,
    lastMileNumeric: Option<real>,
    lastMileText: Option<string>,
    lastMileDescription: Option<string>,
    ratingNumeric: Option<real>,
    ratingText: Option<string>,
    ratingDescription: Option<string>)

  /** The locals of `get_page_data` before the row loop: the name and the
      url, nothing else. */
  function Blank(name: string, url: string): (c: CastleInfo)
    ensures c.name == name && c.url == url && c.latitude.None? && c.longitude.None?
    ensures forall l :: SlotOf(c, l) == Unset
  {
    CastleInfo(name, None, None, url, None, None, None, None, None, None, None, None, None, None, None, None, None)
  }

  // ------------------------------------------------------ coordinate tokens

  /** The two patterns `\(([4-5]\d\.\d+)\)` and `\(([1-2]\d\.\d+)\)`, which
      differ only in the class of their leading digit. */
  datatype Axis = Latitude | Longitude

  predicate Lead(axis: Axis, c: char) {
    match axis
    case Latitude => c == '4' || c == '5'
    case Longitude => c == '1' || c == '2'
  }

  /** What a pattern's group captures: the leading digit, a digit, a point
      and at least one digit. */
  predicate Token(axis: Axis, t: string) {
    |t| >= 4 && Lead(axis, t[0]) && IsDigit(t[1]) && t[2] == '.' && AllDigits(t[3..])
  }

  /** The length of the run of digits `s[i..]` starts with. */
  function DigitRun(s: string, i: nat): (n: nat)
    requires i <= |s|
    ensures i + n <= |s|
    ensures forall k :: i <= k < i + n ==> IsDigit(s[k])
    ensures i + n < |s| ==> !IsDigit(s[i + n])
    decreases |s| - i
  {
    if i < |s| && IsDigit(s[i]) then 1 + DigitRun(s, i + 1) else 0
  }

  /** Where a match of the pattern that starts at `i` ends (exclusively).
      The greedy `\d+` has to be followed by `)`, so a match takes the whole
      run of digits after the point and there is at most one. */
  function MatchAt(axis: Axis, s: string, i: nat): (end: Option<nat>)
    requires i <= |s|
    ensures end.Some? ==> i + 6 <= end.value <= |s| && s[i] == '(' && s[end.value - 1] == ')'
    ensures end.Some? ==> Token(axis, s[i + 1..end.value - 1])
  {
    if i + 4 < |s| && s[i] == '(' && Lead(axis, s[i + 1]) && IsDigit(s[i + 2]) && s[i + 3] == '.' then
      var n := DigitRun(s, i + 4);
      if 1 <= n && i + 4 + n < |s| && s[i + 4 + n] == ')' then
        var t := s[i + 1..i + 4 + n];
        assert t[3..] == s[i + 4..i + 4 + n];
        Some(i + 5 + n)
      else None
    else None
  }

  /** `findall` from position `i` on: the group of every match, left to
      right and without overlaps; the scan goes on after a match and one
      character further after a miss. */
  function FindFrom(axis: Axis, s: string, i: nat): (found: seq<string>)
    requires i <= |s|
    ensures forall k :: 0 <= k < |found| ==> Token(axis, found[k])
    decreases |s| - i
  {
    if i == |s| then []
    else match MatchAt(axis, s, i)
      case Some(j) => [s[i + 1..j - 1]] + FindFrom(axis, s, j)
      case None => FindFrom(axis, s, i + 1)
  }

  /** `RE_LATITUDE.findall(text)` and `RE_LONGITUDE.findall(text)`. */
  function FindAll(axis: Axis, s: string): (found: seq<string>)
    ensures forall k :: 0 <= k < |found| ==> Token(axis, found[k])
  {
    FindFrom(axis, s, 0)
  }

  /** The leading-digit classes are disjoint: nothing either pattern finds
      is found by the other. */
  lemma NoTokenOnBothAxes(s: string)
    ensures forall t :: t in FindAll(Latitude, s) ==> t !in FindAll(Longitude, s)
  {
    forall t | t in FindAll(Latitude, s)
      ensures t !in FindAll(Longitude, s)
    {
      assert Token(Latitude, t);
    }
  }

  /** A stretch without an opening parenthesis holds no match. */
  lemma {:induction false} SkipPlain(axis: Axis, s: string, i: nat, j: nat)
    requires i <= j <= |s|
    requires forall k :: i <= k < j ==> s[k] != '('
    ensures FindFrom(axis, s, i) == FindFrom(axis, s, j)
    decreases j - i
  {
    if i < j {
      SkipPlain(axis, s, i + 1, j);
    }
  }

  /** A token in parentheses is a match that ends right after it. */
  lemma Bracketed(axis: Axis, s: string, i: nat, t: string)
    requires Token(axis, t)
    requires i + |t| + 2 <= |s| && s[i..i + |t| + 2] == "(" + t + ")"
    ensures MatchAt(axis, s, i) == Some(i + |t| + 2)
  {
    var close := i + |t| + 1;
    assert forall k :: i + 1 <= k < close ==> s[k] == t[k - i - 1] by {
      forall k | i + 1 <= k < close ensures s[k] == t[k - i - 1] {
        assert s[k] == s[i..i + |t| + 2][k - i];
      }
    }
    assert s[close] == s[i..i + |t| + 2][|t| + 1] == ')';
    assert forall k :: i + 4 <= k < close ==> IsDigit(s[k]) by {
      forall k | i + 4 <= k < close ensures IsDigit(s[k]) {
        assert t[k - i - 1] == t[3..][k - i - 4];
      }
    }
    var n := DigitRun(s, i + 4);
    assert n <= |t| - 3 by {
      assert !IsDigit(s[close]);
    }
    assert n >= |t| - 3 by {
      assert i + 4 + n <= close;
    }
  }

  /** No token holds an opening parenthesis. */
  lemma TokenPlain(axis: Axis, t: string)
    requires Token(axis, t)
    ensures forall k :: 0 <= k < |t| ==> t[k] != '('
  {
    forall k | 3 <= k < |t| ensures t[k] != '(' {
      assert t[k] == t[3..][k - 3];
    }
  }

  /** No opening parenthesis lies inside a match, so no other match starts there. */
  lemma MatchInterior(axis: Axis, s: string, i: nat)
    requires i <= |s| && MatchAt(axis, s, i).Some?
    ensures forall k :: i < k < MatchAt(axis, s, i).value ==> s[k] != '('
  {
    var e := MatchAt(axis, s, i).value;
    var t := s[i + 1..e - 1];
    TokenPlain(axis, t);
    forall k | i < k < e ensures s[k] != '(' {
      if k < e - 1 {
        assert s[k] == t[k - i - 1];
      }
    }
  }

  /** The number of positions from `i` on where a match starts. */
  function Starts(axis: Axis, s: string, i: nat): nat
    requires i <= |s|
    decreases |s| - i
  {
    if i == |s| then 0
    else (if MatchAt(axis, s, i).Some? then 1 else 0) + Starts(axis, s, i + 1)
  }

  /** A stretch without an opening parenthesis starts no match. */
  lemma {:induction false} StartsSkip(axis: Axis, s: string, i: nat, j: nat)
    requires i <= j <= |s|
    requires forall k :: i <= k < j ==> s[k] != '('
    ensures Starts(axis, s, i) == Starts(axis, s, j)
    decreases j - i
  {
    if i < j {
      StartsSkip(axis, s, i + 1, j);
    }
  }

  /** `findall` returns one group for every position where a match starts:
      no match is skipped and none is counted twice. */
  lemma {:induction false} FindCountsStarts(axis: Axis, s: string, i: nat)
    requires i <= |s|
    ensures |FindFrom(axis, s, i)| == Starts(axis, s, i)
    decreases |s| - i
  {
    if i < |s| {
      match MatchAt(axis, s, i)
      case None =>
        FindCountsStarts(axis, s, i + 1);
      case Some(e) =>
        FindCountsStarts(axis, s, e);
        MatchInterior(axis, s, i);
        StartsSkip(axis, s, i + 1, e);
    }
  }

  /** Every token in parentheses at or after `j` is found by the scan from `j`:
      a match before it ends before its opening parenthesis. */
  lemma {:induction false} FoundFrom(axis: Axis, s: string, j: nat, i: nat, t: string)
    requires Token(axis, t) && j <= i
    requires i + |t| + 2 <= |s| && s[i..i + |t| + 2] == "(" + t + ")"
    ensures t in FindFrom(axis, s, j)
    decreases i - j
  {
    if j == i {
      FoundHere(axis, s, i, t);
    } else {
      match MatchAt(axis, s, j)
      case None =>
        FoundFrom(axis, s, j + 1, i, t);
      case Some(e) =>
        assert e <= i by {
          MatchInterior(axis, s, j);
          assert s[i] == '(';
        }
        FoundFrom(axis, s, e, i, t);
    }
  }

  /** A token in parentheses where the scan stands is the first group found. */
  lemma FoundHere(axis: Axis, s: string, i: nat, t: string)
    requires Token(axis, t)
    requires i + |t| + 2 <= |s| && s[i..i + |t| + 2] == "(" + t + ")"
    ensures FindFrom(axis, s, i) != [] && FindFrom(axis, s, i)[0] == t
  {
    Bracketed(axis, s, i, t);
    var w, found := s[i..i + |t| + 2], s[i + 1..i + |t| + 1];
    forall k | 0 <= k < |t| ensures found[k] == t[k] {
      assert found[k] == w[k + 1] == ("(" + t + ")")[k + 1];
    }
    assert found == t;
  }

  /** Every token in parentheses in the text is in `findall`'s result. */
  lemma FindAllComplete(axis: Axis, s: string, i: nat, t: string)
    requires Token(axis, t)
    requires i + |t| + 2 <= |s| && s[i..i + |t| + 2] == "(" + t + ")"
    ensures t in FindAll(axis, s)
  {
    FoundFrom(axis, s, 0, i, t);
  }

  /** The usual location text: a latitude and a longitude in parentheses,
      with a space between them. */
  function Pair(lat: string, lon: string): string {
    "(" + lat + ") (" + lon + ")"
  }

  /** Where the parts of a pair text lie: the only opening parentheses are
      those before the two tokens. */
  lemma PairLayout(lat: string, lon: string)
    requires Token(Latitude, lat) && Token(Longitude, lon)
    ensures var s, p := Pair(lat, lon), |lat| + 3;
            && |s| == p + |lon| + 2
            && s[0..|lat| + 2] == "(" + lat + ")" && s[1..|lat| + 1] == lat && s[1] == lat[0]
            && s[p..p + |lon| + 2] == "(" + lon + ")" && s[p + 1..p + |lon| + 1] == lon && s[p + 1] == lon[0]
            && (forall k :: 1 <= k < p ==> s[k] != '(')
            && (forall k :: p + 1 <= k < |s| ==> s[k] != '(')
  {
    var s, p := Pair(lat, lon), |lat| + 3;
    TokenPlain(Latitude, lat);
    TokenPlain(Longitude, lon);
    assert s == "(" + lat + ") " + ("(" + lon + ")");
    assert forall k :: 1 <= k < |lat| + 1 ==> s[k] == lat[k - 1];
    assert forall k :: p + 1 <= k < |s| - 1 ==> s[k] == lon[k - p - 1];
  }

  /** The latitude pattern finds only the latitude token of a pair. */
  lemma PairLatitude(lat: string, lon: string)
    requires Token(Latitude, lat) && Token(Longitude, lon)
    ensures FindAll(Latitude, Pair(lat, lon)) == [lat]
  {
    var s, p := Pair(lat, lon), |lat| + 3;
    PairLayout(lat, lon);
    Bracketed(Latitude, s, 0, lat);
    assert FindFrom(Latitude, s, 0) == [lat] + FindFrom(Latitude, s, |lat| + 2);
    SkipPlain(Latitude, s, |lat| + 2, p);
    assert !Lead(Latitude, s[p + 1]);
    assert FindFrom(Latitude, s, p) == FindFrom(Latitude, s, p + 1);
    SkipPlain(Latitude, s, p + 1, |s|);
  }

  /** The longitude pattern finds only the longitude token of a pair. */
  lemma PairLongitude(lat: string, lon: string)
    requires Token(Latitude, lat) && Token(Longitude, lon)
    ensures FindAll(Longitude, Pair(lat, lon)) == [lon]
  {
    var s, p := Pair(lat, lon), |lat| + 3;
    PairLayout(lat, lon);
    assert MatchAt(Longitude, s, 0) == None;
    SkipPlain(Longitude, s, 1, p);
    Bracketed(Longitude, s, p, lon);
  }

  /** A token reads as a number, and its leading digit bounds it: a
      latitude token lies in [40, 60) and a longitude token in [10, 30). */
  lemma TokenValue(axis: Axis, t: string)
    requires Token(axis, t)
    ensures ParseFloat(t).Some?
    ensures axis == Latitude ==> 40.0 <= ParseFloat(t).value < 60.0
    ensures axis == Longitude ==> 10.0 <= ParseFloat(t).value < 30.0
  {
    TwoDigitDecimal(t);
  }

  /** Whether a location text yields coordinates: exactly one match of
      each pattern. */
  predicate Located(text: string) {
    |FindAll(Latitude, text)| == 1 && |FindAll(Longitude, text)| == 1
  }

  /** The `licznik` part of `get_page_data`: both coordinates are read when
      the text has exactly one latitude match and exactly one longitude
      match, and both stay None otherwise; the values are the matched
      tokens read as numbers, which their leading digits bound. */
  function Coordinates(text: string): (r: (Option<real>, Option<real>))
    ensures r.0.Some? <==> Located(text)
    ensures r.0.Some? <==> r.1.Some?
    ensures r.0.Some? ==> r.0 == ParseFloat(FindAll(Latitude, text)[0]) && r.1 == ParseFloat(FindAll(Longitude, text)[0])
    ensures r.0.Some? ==> 40.0 <= r.0.value < 60.0 && 10.0 <= r.1.value < 30.0
  {
    var lats, lons := FindAll(Latitude, text), FindAll(Longitude, text);
    if |lats| == 1 && |lons| == 1 then
      TokenValue(Latitude, lats[0]);
      TokenValue(Longitude, lons[0]);
      (ParseFloat(lats[0]), ParseFloat(lons[0]))
    else (None, None)
  }

  /** The location text of the usual form gives its two numbers. */
  lemma UsualLocation(lat: string, lon: string)
    requires Token(Latitude, lat) && Token(Longitude, lon)
    ensures Coordinates(Pair(lat, lon)) == (ParseFloat(lat), ParseFloat(lon))
  {
    PairLatitude(lat, lon);
    PairLongitude(lat, lon);
  }

  // -------------------------------------------------------- the image digit

  /** `img_url[-5:-4]`: the fifth character from the end, or "" when the
      text is shorter than five characters. */
  function FifthFromEnd(src: string): (piece: string)
    ensures |src| >= 5 ==> piece == [src[|src| - 5]]
    ensures |src| < 5 ==> piece == ""
  {
    if |src| >= 5 then src[|src| - 5..|src| - 4] else ""
  }

  /** `float` of one character succeeds exactly on a digit, and `float("")` fails. */
  lemma OneCharFloat(c: char)
    ensures ParseFloat([c]).Some? <==> IsDigit(c)
    ensures ParseFloat("") == None
  {
    var s := [c];
    if c == '-' || c == '+' {
      assert s[1..] == [];
    } else if c == '.' {
      assert IndexOf(s, '.') == 0;
      assert s[..0] == [] && s[1..] == [];
    } else if !IsDigit(c) {
      assert !AllDigits(s);
    }
  }

  /** `float(img_url[-5:-4])`: the digit five characters from the end of an
      image address such as `…/ocena4.gif`; anything else there, or an
      address too short to have it, is a ValueError. */
  function ImageDigit(src: string): (r: Result<real>)
    ensures r.Ok? <==> |src| >= 5 && IsDigit(src[|src| - 5])
    ensures r.Ok? ==> r.value == DigitValue(src[|src| - 5]) as real && 0.0 <= r.value <= 9.0
    ensures r.Err? ==> r.error == BadNumber
  {
    var piece := FifthFromEnd(src);
    OneCharFloat(if |src| >= 5 then src[|src| - 5] else ' ');
    match ParseFloat(piece)
    case None => Err(BadNumber)
    case Some(v) => Ok(v)
  }

  // ----------------------------------------------------------- detail rows

  /** The branches of `match col1`. */
  datatype Label = State | Entry | Parking | Finding | LastMile | Rating

  /** The caption each branch compares `col1` with. */
  function Caption(l: Label): string {
    match l
    case State => "Stan zachowania:"
    case Entry => "Wstęp:"
    case Parking => "Parking:"
    case Finding => "Trudność odnalezienia:"
    case LastMile => "Trudność dojścia:"
    case Rating => "Subiektywna ocena:"
  }

  /** `match col1`: the branch whose caption equals the whole text; no
      stripping and no substring search. */
  function LabelOf(text: string): (l: Option<Label>)
    ensures l.Some? ==> Caption(l.value) == text
    ensures l.None? <==> forall m: Label :: Caption(m) != text
  {
    if text == Caption(State) then Some(State)
    else if text == Caption(Entry) then Some(Entry)
    else if text == Caption(Parking) then Some(Parking)
    else if text == Caption(Finding) then Some(Finding)
    else if text == Caption(LastMile) then Some(LastMile)
    else if text == Caption(Rating) then Some(Rating)
    else None
  }

  /** Every caption selects its own branch. */
  lemma CaptionRoundTrip(l: Label)
    ensures LabelOf(Caption(l)) == Some(l)
  {
    var n := |Caption(l)|;
    assert |Caption(State)| == 16 && |Caption(Entry)| == 6 && |Caption(Parking)| == 8;
    assert |Caption(Finding)| == 22 && |Caption(LastMile)| == 17 && |Caption(Rating)| == 18;
  }

  /** The branches that read a number from the image address. */
  predicate Numeric(l: Label) {
    l == Finding || l == LastMile || l == Rating
  }

  /** The three values a branch may set: a number read from the image, the
      image's `alt` text and the `opis3` text. */
  datatype Slot = Slot(numeric: Option<real>, text: Option<string>, description: Option<string>)

  const Unset := Slot(None, None, None)

  /** What a branch can set: the state has no number, the entry and the
      parking only a description. */
  predicate Fits(l: Label, v: Slot) {
    match l
    case State => v.numeric.None?
    case Entry => v.numeric.None? && v.text.None?
    case Parking => v.numeric.None? && v.text.None?
    case _ => true
  }

  /** The fields of a record that the branch for `l` sets. */
  function SlotOf(c: CastleInfo, l: Label): (v: Slot)
    ensures Fits(l, v)
  {
    match l
    case State => Slot(None, c.stateText, c.stateDescription)
    case Entry => Slot(None, None, c.entry)
    case Parking => Slot(None, None, c.parking)
    case Finding => Slot(c.findingNumeric, c.findingText, c.findingDescription)
    case LastMile => Slot(c.lastMileNumeric, c.lastMileText, c.lastMileDescription)
    case Rating => Slot(c.ratingNumeric, c.ratingText, c.ratingDescription)
  }

  /** The assignments of the branch for `l`: its own fields take the new
      values and every other field keeps its value. */
  function Put(c: CastleInfo, l: Label, v: Slot): (r: CastleInfo)
    requires Fits(l, v)
    ensures SlotOf(r, l) == v
    ensures forall m :: m != l ==> SlotOf(r, m) == SlotOf(c, m)
    ensures r.name == c.name && r.url == c.url && r.latitude == c.latitude && r.longitude == c.longitude
  {
    match l
    case State => c.(stateText := v.text, stateDescription := v.description)
    case Entry => c.(entry := v.description)
    case Parking => c.(parking := v.description)
    case Finding => c.(findingNumeric := v.numeric, findingText := v.text, findingDescription := v.description)
    case LastMile => c.(lastMileNumeric := v.numeric, lastMileText := v.text, lastMileDescription := v.description)
    case Rating => c.(ratingNumeric := v.numeric, ratingText := v.text, ratingDescription := v.description)
  }

  /** `col1`, `col2` and `col3` of a row: the `opis1` text, the `<img>` of
      the `opis2` cell and the `opis3` text. */
  datatype DetailCells = DetailCells(caption: string, image: Option<Image>, note: string)

  /** Reading the three cells: a missing cell fails on the attribute lookup
      of None, whichever of the three it is. */
  function CellsOf(row: Row): (r: Result<DetailCells>)
    ensures r.Ok? <==> FindByClass(row, "opis1").Some? && FindByClass(row, "opis2").Some?
                       && FindByClass(row, "opis3").Some?
    ensures r.Ok? ==> r.value.caption == FindByClass(row, "opis1").value.text
                      && r.value.image == FindByClass(row, "opis2").value.img
                      && r.value.note == FindByClass(row, "opis3").value.text
    ensures r.Err? ==> r.error == MissingElement
  {
    match (FindByClass(row, "opis1"), FindByClass(row, "opis2"), FindByClass(row, "opis3"))
    case (Some(c1), Some(c2), Some(c3)) => Ok(DetailCells(c1.text, c2.img, c3.text))
    case _ => Err(MissingElement)
  }

  /** What the branch for `l` sets, from the row's image and `opis3` text.
      `col2["alt"]` and `col2["src"]` are KeyErrors when the attribute is
      missing; the address is looked up before the alt text, and both
      before the digit is read. */
  function Branch(l: Label, img: Image, note: string): (r: Result<Slot>)
    ensures r.Ok? ==> Fits(l, r.value) && r.value.description == Some(note)
    ensures l == State ==> (r.Ok? <==> img.alt.Some?)
    ensures Numeric(l) ==> (r.Ok? <==> img.src.Some? && img.alt.Some? && ImageDigit(img.src.value).Ok?)
    ensures Numeric(l) && r.Ok? ==> r.value.numeric == Some(ImageDigit(img.src.value).value)
    ensures (l == State || Numeric(l)) && r.Ok? ==> r.value.text == img.alt
    ensures (l == Entry || l == Parking) ==> r == Ok(Slot(None, None, Some(note)))
    ensures r.Err? ==> r.error == (if img.src.Some? && img.alt.Some? then BadNumber else MissingElement)
  {
    match l
    case State =>
      if img.alt.None? then Err(MissingElement) else Ok(Slot(None, img.alt, Some(note)))
    case Entry => Ok(Slot(None, None, Some(note)))
    case Parking => Ok(Slot(None, None, Some(note)))
    case _ =>
      if img.src.None? || img.alt.None? then Err(MissingElement)
      else
        var digit :- ImageDigit(img.src.value);
        Ok(Slot(Some(digit), img.alt, Some(note)))
  }

  /** What one row of the description table does: fail, set nothing (an
      unknown caption), or set the fields of one label. */
  function RowWrite(row: Row): (r: Result<Option<(Label, Slot)>>)
    ensures r.Ok? ==> CellsOf(row).Ok? && CellsOf(row).value.image.Some?
    ensures CellsOf(row).Ok? && CellsOf(row).value.image.None? ==> r == Err(AssertionFailed)
    ensures CellsOf(row).Ok? && CellsOf(row).value.image.Some? && LabelOf(CellsOf(row).value.caption).None?
            ==> r == Ok(None)
    ensures r.Ok? && r.value.Some? ==> LabelOf(CellsOf(row).value.caption) == Some(r.value.value.0)
                                       && Fits(r.value.value.0, r.value.value.1)
  {
    var cells :- CellsOf(row);
    if cells.image.None? then Err(AssertionFailed)
    else match LabelOf(cells.caption)
      case None => Ok(None)
      case Some(l) =>
        var v :- Branch(l, cells.image.value, cells.note);
        Ok(Some((l, v)))
  }

  /** The slot of label `l` after a row that writes `w`. */
  function After(w: Option<(Label, Slot)>, l: Label, before: Slot): Slot {
    if w.Some? && w.value.0 == l then w.value.1 else before
  }

  /** One pass of the row loop of `get_page_data`; the unit argument is the
      row loop's context, which this loop does not need. */
  function InfoStep(u: (), c: CastleInfo, row: Row): (r: Result<CastleInfo>)
    ensures r.Ok? <==> RowWrite(row).Ok?
    ensures r.Err? ==> r.error == RowWrite(row).error
    ensures r.Ok? ==> forall l :: SlotOf(r.value, l) == After(RowWrite(row).value, l, SlotOf(c, l))
    ensures r.Ok? ==> r.value.name == c.name && r.value.url == c.url
                      && r.value.latitude == c.latitude && r.value.longitude == c.longitude
  {
    match RowWrite(row)
    case Err(e) => Err(e)
    case Ok(None) => Ok(c)
    case Ok(Some((l, v))) => Ok(Put(c, l, v))
  }

  /** The body of the row loop, with the assignments of each branch. */
  method ReadInfoRow(c: CastleInfo, row: Row) returns (r: Result<CastleInfo>)
    ensures r == InfoStep((), c, row)
  {
    var cells := CellsOf(row);
    if cells.Err? {
      return Err(cells.error);
    }
    var col1, col2, col3 := cells.value.caption, cells.value.image, cells.value.note;
    if col2.None? {
      return Err(AssertionFailed);
    }
    var img := col2.value;
    var branch := LabelOf(col1);
    if branch.None? {
      return Ok(c);
    }
    match branch.value
    case State =>
      if img.alt.None? {
        return Err(MissingElement);
      }
      r := Ok(c.(stateText := img.alt, stateDescription := Some(col3)));
    case Entry =>
      r := Ok(c.(entry := Some(col3)));
    case Parking =>
      r := Ok(c.(parking := Some(col3)));
    case Finding =>
      if img.src.None? || img.alt.None? {
        return Err(MissingElement);
      }
      var digit := ImageDigit(img.src.value);
      if digit.Err? {
        return Err(digit.error);
      }
      r := Ok(c.(findingNumeric := Some(digit.value), findingText := img.alt, findingDescription := Some(col3)));
    case LastMile =>
      if img.src.None? || img.alt.None? {
        return Err(MissingElement);
      }
      var digit := ImageDigit(img.src.value);
      if digit.Err? {
        return Err(digit.error);
      }
      r := Ok(c.(lastMileNumeric := Some(digit.value), lastMileText := img.alt, lastMileDescription := Some(col3)));
    case Rating =>
      if img.src.None? || img.alt.None? {
        return Err(MissingElement);
      }
      var digit := ImageDigit(img.src.value);
      if digit.Err? {
        return Err(digit.error);
      }
      r := Ok(c.(ratingNumeric := Some(digit.value), ratingText := img.alt, ratingDescription := Some(col3)));
  }

  /** The slot of label `l` after `rows`: what the last row with the
      caption of `l` sets, or `before` when no row has that caption. */
  function LastSlot(rows: seq<Row>, l: Label, before: Slot): Slot
    decreases |rows|
  {
    if rows == [] then before
    else
      var w := RowWrite(rows[|rows| - 1]);
      if w.Ok? && w.value.Some? && w.value.value.0 == l then w.value.value.1
      else LastSlot(rows[..|rows| - 1], l, before)
  }

  /** After the row loop, the fields of each label hold what the last row
      with that caption set, and the name, the url and the coordinates are
      as before. */
  lemma {:induction false} LastRowWins(c: CastleInfo, rows: seq<Row>, final: CastleInfo)
    requires FoldRows((), InfoStep, c, rows) == Ok(final)
    ensures forall l :: SlotOf(final, l) == LastSlot(rows, l, SlotOf(c, l))
    ensures final.name == c.name && final.url == c.url
    ensures final.latitude == c.latitude && final.longitude == c.longitude
    decreases |rows|
  {
    if rows != [] {
      var init := rows[..|rows| - 1];
      match FoldRows((), InfoStep, c, init)
      case Ok(mid) =>
        LastRowWins(c, init, mid);
        assert InfoStep((), mid, rows[|rows| - 1]) == Ok(final);
      case Err(_) =>
    }
  }

  /** A label whose caption no row has keeps its fields. */
  lemma {:induction false} UncaptionedKept(rows: seq<Row>, l: Label, before: Slot)
    requires forall i :: 0 <= i < |rows| && CellsOf(rows[i]).Ok? ==> CellsOf(rows[i]).value.caption != Caption(l)
    ensures LastSlot(rows, l, before) == before
    decreases |rows|
  {
    if rows != [] {
      var w := RowWrite(rows[|rows| - 1]);
      if w.Ok? && w.value.Some? {
        assert LabelOf(CellsOf(rows[|rows| - 1]).value.caption) == Some(w.value.value.0);
      }
      UncaptionedKept(rows[..|rows| - 1], l, before);
    }
  }

  // ------------------------------------------------------------ one castle

  /** Setting the coordinates changes no label's fields. */
  lemma SlotsBesideCoordinates(c: CastleInfo, latitude: Option<real>, longitude: Option<real>)
    ensures forall l :: SlotOf(c.(latitude := latitude, longitude := longitude), l) == SlotOf(c, l)
  {
    forall l ensures SlotOf(c.(latitude := latitude, longitude := longitude), l) == SlotOf(c, l) {
      match l
      case State => case Entry => case Parking => case Finding => case LastMile => case Rating =>
    }
  }

  /** The description part (`z=1`) of `get_page_data`: the name is the
      heading's text, then the row loop sets, for each label, what the last
      row with its caption holds; the coordinates are not read yet. */
  function Describe(page: Page, url: string): (r: Result<CastleInfo>)
    ensures r.Ok? ==> TitleBox in page.headings && page.headings[TitleBox] == Some(r.value.name)
                      && Body in page.sections
    ensures r.Ok? ==> r.value.url == url && r.value.latitude.None? && r.value.longitude.None?
    ensures r.Ok? ==> forall l :: SlotOf(r.value, l) == LastSlot(AllRows(page.sections[Body]), l, Unset)
  {
    if TitleBox !in page.headings || page.headings[TitleBox].None? then Err(MissingElement)
    else if Body !in page.sections then Err(AssertionFailed)
    else
      var start := Blank(page.headings[TitleBox].value, url);
      var rows := AllRows(page.sections[Body]);
      match FoldRows((), InfoStep, start, rows)
      case Err(e) => Err(e)
      case Ok(described) =>
        LastRowWins(start, rows, described);
        Ok(described)
  }

  /** The location part (`z=2`): the coordinates read from the `licznik`
      text, none when the page has no such element. */
  function Locate(location: Page): (r: (Option<real>, Option<real>))
    ensures r.0.Some? <==> Counter in location.texts && Located(location.texts[Counter])
    ensures r.0.Some? <==> r.1.Some?
    ensures r.0.Some? ==> 40.0 <= r.0.value < 60.0 && 10.0 <= r.1.value < 30.0
  {
    if Counter in location.texts then Coordinates(location.texts[Counter]) else (None, None)
  }

  /** `get_page_data` for one castle page, where a request is `fetch(url, z)`,
      None for a response that is not a success. A record holds the url
      asked for, the heading as its name, for each label what the last row
      with its caption set, and coordinates exactly when the location text
      has one match of each pattern. */
  function PageData(fetch: (string, int) -> Option<Page>, url: string): (r: Result<CastleInfo>)
    ensures r.Ok? ==> fetch(url, DescriptionPart).Some? && fetch(url, LocationPart).Some?
    ensures r.Ok? ==> var page := fetch(url, DescriptionPart).value;
                      && r.value.url == url
                      && TitleBox in page.headings && page.headings[TitleBox] == Some(r.value.name)
                      && Body in page.sections
                      && forall l :: SlotOf(r.value, l) == LastSlot(AllRows(page.sections[Body]), l, Unset)
    ensures r.Ok? ==> var location := fetch(url, LocationPart).value;
                      && (r.value.latitude.Some? <==> r.value.longitude.Some?)
                      && (r.value.latitude.Some? <==> Counter in location.texts && Located(location.texts[Counter]))
                      && (r.value.latitude.Some? ==> 40.0 <= r.value.latitude.value < 60.0
                                                     && 10.0 <= r.value.longitude.value < 30.0)
  {
    match fetch(url, DescriptionPart)
    case None => Err(HttpStatus)
    case Some(page) =>
      var described :- Describe(page, url);
      match fetch(url, LocationPart)
      case None => Err(HttpStatus)
      case Some(location) =>
        var coordinates := Locate(location);
        var c := described.(latitude := coordinates.0, longitude := coordinates.1);
        SlotsBesideCoordinates(described, coordinates.0, coordinates.1);
        Ok(c)
  }

  method GetPageData(fetch: (string, int) -> Option<Page>, url: string) returns (r: Result<CastleInfo>)
    ensures r == PageData(fetch, url)
  {
    var description := fetch(url, DescriptionPart);
    if description.None? {
      return Err(HttpStatus);
    }
    var page := description.value;
    if TitleBox !in page.headings || page.headings[TitleBox].None? {
      return Err(MissingElement);
    }
    var name := page.headings[TitleBox].value;
    if Body !in page.sections {
      return Err(AssertionFailed);
    }
    var rows := AllRows(page.sections[Body]);
    var info := Blank(name, url);
    for i := 0 to |rows|
      invariant FoldRows((), InfoStep, Blank(name, url), rows[..i]) == Ok(info)
    {
      FoldRowsNext((), InfoStep, Blank(name, url), rows, i, info);
      var next := ReadInfoRow(info, rows[i]);
      if next.Err? {
        FoldRowsFailed((), InfoStep, Blank(name, url), rows, i + 1, next.error);
        return Err(next.error);
      }
      info := next.value;
    }
    assert rows[..|rows|] == rows;
    var location := fetch(url, LocationPart);
    if location.None? {
      return Err(HttpStatus);
    }
    var latitude, longitude := None, None;
    if Counter in location.value.texts {
      var coordinates := Coordinates(location.value.texts[Counter]);
      latitude, longitude := coordinates.0, coordinates.1;
    }
    r := Ok(info.(latitude := latitude, longitude := longitude));
  }

  // ---------------------------------------------------------- all castles

  /** `asyncio.gather` over one reader per address, read as a sequential
      map: the results in the order of the addresses, or the first failure. */
  function Gather<F, A>(ctx: F, read: (F, string) -> Result<A>, urls: seq<string>): (r: Result<seq<A>>)
    ensures r.Ok? ==> |r.value| == |urls|
    decreases |urls|
  {
    if urls == [] then Ok([])
    else
      var done :- Gather(ctx, read, urls[..|urls| - 1]);
      var last :- read(ctx, urls[|urls| - 1]);
      Ok(done + [last])
  }

  /** The gathered results keep the order of the addresses: result `i` is
      the one read from address `i`; the batch fails exactly when some read
      fails, with the error of the first one. */
  lemma {:induction false} GatherInOrder<F, A>(ctx: F, read: (F, string) -> Result<A>, urls: seq<string>)
    ensures Gather(ctx, read, urls).Ok? <==> forall i :: 0 <= i < |urls| ==> read(ctx, urls[i]).Ok?
    ensures Gather(ctx, read, urls).Ok? ==>
              forall i :: 0 <= i < |urls| ==> Gather(ctx, read, urls).value[i] == read(ctx, urls[i]).value
    ensures Gather(ctx, read, urls).Err? ==>
              exists i :: 0 <= i < |urls| && read(ctx, urls[i]) == Err(Gather(ctx, read, urls).error)
                          && forall j :: 0 <= j < i ==> read(ctx, urls[j]).Ok?
    decreases |urls|
  {
    if urls != [] {
      var init := urls[..|urls| - 1];
      GatherInOrder(ctx, read, init);
      assert forall i :: 0 <= i < |init| ==> init[i] == urls[i];
      if Gather(ctx, read, init).Ok? && read(ctx, urls[|urls| - 1]).Err? {
        assert forall j :: 0 <= j < |urls| - 1 ==> read(ctx, urls[j]).Ok?;
      }
    }
  }

  /** A failure in a prefix of the addresses is the failure of the batch. */
  lemma {:induction false} GatherFailed<F, A>(ctx: F, read: (F, string) -> Result<A>, urls: seq<string>, i: nat, e: Error)
    requires i <= |urls| && Gather(ctx, read, urls[..i]) == Err(e)
    ensures Gather(ctx, read, urls) == Err(e)
    decreases |urls| - i
  {
    if i < |urls| {
      assert urls[..i + 1][..i] == urls[..i];
      GatherFailed(ctx, read, urls, i + 1, e);
    } else {
      assert urls[..i] == urls;
    }
  }

  /** `get_pages_data`: every castle page, in the order of the addresses. */
  method GetPagesData(fetch: (string, int) -> Option<Page>, urls: seq<string>) returns (r: Result<seq<CastleInfo>>)
    ensures r == Gather(fetch, PageData, urls)
  {
    var results: seq<CastleInfo> := [];
    for i := 0 to |urls|
      invariant Gather(fetch, PageData, urls[..i]) == Ok(results)
    {
      assert urls[..i + 1][..i] == urls[..i];
      var page := GetPageData(fetch, urls[i]);
      if page.Err? {
        GatherFailed(fetch, PageData, urls, i + 1, page.error);
        return Err(page.error);
      }
      results := results + [page.value];
    }
    assert urls[..|urls|] == urls;
    r := Ok(results);
  }

  // ------------------------------------------------------------ page list

  /** `[a["href"] for a in anchors]`: an anchor without `href` is a KeyError. */
  function Hrefs(anchors: seq<Option<string>>): (r: Option<seq<string>>)
    ensures r.Some? <==> forall i :: 0 <= i < |anchors| ==> anchors[i].Some?
    ensures r.Some? ==> |r.value| == |anchors| && forall i :: 0 <= i < |anchors| ==> anchors[i] == Some(r.value[i])
    decreases |anchors|
  {
    if anchors == [] then Some([])
    else match (Hrefs(anchors[..|anchors| - 1]), anchors[|anchors| - 1])
      case (Some(init), Some(last)) => Some(init + [last])
      case _ => None
  }

  /** `get_list_of_castle_pages` on the list page (None for a response that
      is not a success): the `href` of every anchor in the `srodek-zp-srodek`
      div, in document order. A missing div and an empty anchor list are
      assertion failures, checked before any `href` is read. */
  function PageUrls(listing: Option<Page>): (r: Result<seq<string>>)
    ensures r.Ok? <==> listing.Some? && Body in listing.value.anchors && |listing.value.anchors[Body]| > 0
                       && forall i :: 0 <= i < |listing.value.anchors[Body]| ==> listing.value.anchors[Body][i].Some?
    ensures r.Ok? ==> |r.value| == |listing.value.anchors[Body]|
                      && forall i :: 0 <= i < |r.value| ==> listing.value.anchors[Body][i] == Some(r.value[i])
    ensures listing.Some? && (Body !in listing.value.anchors || listing.value.anchors[Body] == [])
            ==> r == Err(AssertionFailed)
  {
    match listing
    case None => Err(HttpStatus)
    case Some(page) =>
      if Body !in page.anchors || |page.anchors[Body]| == 0 then Err(AssertionFailed)
      else match Hrefs(page.anchors[Body])
        case None => Err(MissingElement)
        case Some(urls) => Ok(urls)
  }

  method GetListOfCastlePages(listing: Option<Page>) returns (r: Result<seq<string>>)
    ensures r == PageUrls(listing)
  {
    if listing.None? {
      return Err(HttpStatus);
    }
    var page := listing.value;
    if Body !in page.anchors || |page.anchors[Body]| == 0 {
      return Err(AssertionFailed);
    }
    var anchors := page.anchors[Body];
    var urls: seq<string> := [];
    for i := 0 to |anchors|
      invariant Hrefs(anchors[..i]) == Some(urls)
    {
      assert anchors[..i + 1][..i] == anchors[..i];
      if anchors[i].None? {
        assert !(forall k :: 0 <= k < |anchors| ==> anchors[k].Some?);
        return Err(MissingElement);
      }
      urls := urls + [anchors[i].value];
    }
    assert anchors[..|anchors|] == anchors;
    r := Ok(urls);
  }

  // --------------------------------------------------------------- GeoJSON

  /** `row.longitude and row.latitude`: both present and neither zero. */
  predicate Mapped(c: CastleInfo) {
    c.longitude.Some? && c.longitude.value != 0.0 && c.latitude.Some? && c.latitude.value != 0.0
  }

  /** A castle whose page gave coordinates is always written: the leading
      digits keep both values away from zero. */
  lemma LocatedIsMapped(fetch: (string, int) -> Option<Page>, url: string)
    requires PageData(fetch, url).Ok?
    ensures Mapped(PageData(fetch, url).value) <==> PageData(fetch, url).value.latitude.Some?
  {
  }

  /** The records `to_geojson` writes, in input order. */
  function Kept(rows: seq<CastleInfo>): (kept: seq<CastleInfo>)
    ensures |kept| <= |rows|
    ensures forall k :: 0 <= k < |kept| ==> Mapped(kept[k])
    decreases |rows|
  {
    if rows == [] then []
    else Kept(rows[..|rows| - 1]) + (if Mapped(rows[|rows| - 1]) then [rows[|rows| - 1]] else [])
  }

  /** The written records are exactly the input records with coordinates,
      and writing a run of records writes the records of each part in turn. */
  lemma {:induction false} KeptExactly(rows: seq<CastleInfo>)
    ensures forall c :: c in Kept(rows) <==> c in rows && Mapped(c)
    decreases |rows|
  {
    if rows != [] {
      var init := rows[..|rows| - 1];
      KeptExactly(init);
      assert rows == init + [rows[|rows| - 1]];
    }
  }

  lemma {:induction false} KeptAppend(a: seq<CastleInfo>, b: seq<CastleInfo>)
    ensures Kept(a + b) == Kept(a) + Kept(b)
    decreases |b|
  {
    if b != [] {
      var init := b[..|b| - 1];
      assert (a + b)[..|a + b| - 1] == a + init;
      KeptAppend(a, init);
    } else {
      assert a + b == a;
    }
  }

  /** One feature: the properties under their names, and the point as
      `[longitude, latitude]`. */
  function InfoFeature(c: CastleInfo): Feature
    requires Mapped(c)
  {
    Feature([("nazwa", JString(c.name)),
             ("url", JString(c.url)),
             ("stan_tekst", OptText(c.stateText)),
             ("stan_opis", OptText(c.stateDescription)),
             ("wstep", OptText(c.entry)),
             ("parking", OptText(c.parking)),
             ("trudnosc_odnalezienia_skala", OptNumber(c.findingNumeric)),
             ("trudnosc_odnalezienia_tekst", OptText(c.findingText)),
             ("trudnosc_odnalezienia_opis", OptText(c.findingDescription)),
             ("trudnosc_dojscia_skala", OptNumber(c.lastMileNumeric)),
             ("trudnosc_dojscia_tekst", OptText(c.lastMileText)),
             ("trudnosc_dojscia_opis", OptText(c.lastMileDescription)),
             ("ocena_skala", OptNumber(c.ratingNumeric)),
             ("ocena_tekst", OptText(c.ratingText)),
             ("ocena_opis", OptText(c.ratingDescription))],
            [JNumber(c.longitude.value), JNumber(c.latitude.value)])
  }

  /** Reading back the three properties of one label, written from
      position `i` on under the names `keys`. */
  function ReadSlot(f: Feature, i: nat, keys: (string, string, string)): Option<Slot> {
    var numeric := ReadOptNumber(Field(f, i, keys.0));
    var text := ReadOptText(Field(f, i + 1, keys.1));
    var description := ReadOptText(Field(f, i + 2, keys.2));
    if numeric.Some? && text.Some? && description.Some? then Some(Slot(numeric.value, text.value, description.value))
    else None
  }

  lemma ReadSlotOf(f: Feature, i: nat, keys: (string, string, string), v: Slot)
    requires i + 3 <= |f.properties|
    requires f.properties[i] == (keys.0, OptNumber(v.numeric))
    requires f.properties[i + 1] == (keys.1, OptText(v.text))
    requires f.properties[i + 2] == (keys.2, OptText(v.description))
    ensures ReadSlot(f, i, keys) == Some(v)
  {
  }

  const FindingKeys := ("trudnosc_odnalezienia_skala", "trudnosc_odnalezienia_tekst", "trudnosc_odnalezienia_opis")
  const LastMileKeys := ("trudnosc_dojscia_skala", "trudnosc_dojscia_tekst", "trudnosc_dojscia_opis")
  const RatingKeys := ("ocena_skala", "ocena_tekst", "ocena_opis")

  /** The name, the url, the state, the entry, the parking and the point of
      a feature, with the three scales still unset. */
  function ReadHead(f: Feature): Option<CastleInfo> {
    var name := ReadText(Field(f, 0, "nazwa"));
    var url := ReadText(Field(f, 1, "url"));
    var stateText := ReadOptText(Field(f, 2, "stan_tekst"));
    var stateDescription := ReadOptText(Field(f, 3, "stan_opis"));
    var entry := ReadOptText(Field(f, 4, "wstep"));
    var parking := ReadOptText(Field(f, 5, "parking"));
    if |f.coordinates| != 2 || !f.coordinates[0].JNumber? || !f.coordinates[1].JNumber? then None
    else if name.Some? && url.Some? && stateText.Some? && stateDescription.Some? && entry.Some? && parking.Some?
    then Some(Blank(name.value, url.value).(latitude := Some(f.coordinates[1].n), longitude := Some(f.coordinates[0].n),
                                             stateText := stateText.value, stateDescription := stateDescription.value,
                                             entry := entry.value, parking := parking.value))
    else None
  }

  /** Reading a record back from a feature: the properties in the order they
      are written, each under its name, and the point as `[lon, lat]`. */
  function InfoOfFeature(f: Feature): Option<CastleInfo> {
    match (ReadHead(f), ReadSlot(f, 6, FindingKeys), ReadSlot(f, 9, LastMileKeys), ReadSlot(f, 12, RatingKeys))
    case (Some(head), Some(finding), Some(lastMile), Some(rating)) =>
      Some(Put(Put(Put(head, Finding, finding), LastMile, lastMile), Rating, rating))
    case _ => None
  }

  /** A record with its three scales unset. */
  function Unscaled(c: CastleInfo): CastleInfo {
    c.(findingNumeric := None, findingText := None, findingDescription := None,
       lastMileNumeric := None, lastMileText := None, lastMileDescription := None,
       ratingNumeric := None, ratingText := None, ratingDescription := None)
  }

  lemma HeadOfFeature(c: CastleInfo)
    requires Mapped(c)
    ensures ReadHead(InfoFeature(c)) == Some(Unscaled(c))
  {
  }

  lemma ScalesOfFeature(c: CastleInfo)
    requires Mapped(c)
    ensures ReadSlot(InfoFeature(c), 6, FindingKeys) == Some(SlotOf(c, Finding))
    ensures ReadSlot(InfoFeature(c), 9, LastMileKeys) == Some(SlotOf(c, LastMile))
    ensures ReadSlot(InfoFeature(c), 12, RatingKeys) == Some(SlotOf(c, Rating))
  {
    var f := InfoFeature(c);
    assert f.properties[6..] == [("trudnosc_odnalezienia_skala", OptNumber(c.findingNumeric)),
                                 ("trudnosc_odnalezienia_tekst", OptText(c.findingText)),
                                 ("trudnosc_odnalezienia_opis", OptText(c.findingDescription)),
                                 ("trudnosc_dojscia_skala", OptNumber(c.lastMileNumeric)),
                                 ("trudnosc_dojscia_tekst", OptText(c.lastMileText)),
                                 ("trudnosc_dojscia_opis", OptText(c.lastMileDescription)),
                                 ("ocena_skala", OptNumber(c.ratingNumeric)),
                                 ("ocena_tekst", OptText(c.ratingText)),
                                 ("ocena_opis", OptText(c.ratingDescription))];
    ReadSlotOf(f, 6, FindingKeys, SlotOf(c, Finding));
    ReadSlotOf(f, 9, LastMileKeys, SlotOf(c, LastMile));
    ReadSlotOf(f, 12, RatingKeys, SlotOf(c, Rating));
  }

  /** The feature of a written record holds all of it: reading it back gives
      the record, so the point is `[longitude, latitude]`. */
  lemma InfoFeatureRoundTrip(c: CastleInfo)
    requires Mapped(c)
    ensures InfoOfFeature(InfoFeature(c)) == Some(c)
  {
    HeadOfFeature(c);
    ScalesOfFeature(c);
  }

  /** `to_geojson`: a feature for each record with coordinates, in input
      order; the others are skipped. */
  method ToGeoJson(rows: seq<CastleInfo>) returns (features: seq<Feature>)
    ensures |features| == |Kept(rows)|
    ensures forall i :: 0 <= i < |features| ==> Mapped(Kept(rows)[i]) && features[i] == InfoFeature(Kept(rows)[i])
  {
    features := [];
    for i := 0 to |rows|
      invariant |features| == |Kept(rows[..i])|
      invariant forall k :: 0 <= k < |features| ==> Mapped(Kept(rows[..i])[k])
                                                    && features[k] == InfoFeature(Kept(rows[..i])[k])
    {
      assert rows[..i + 1][..i] == rows[..i];
      if Mapped(rows[i]) {
        features := features + [InfoFeature(rows[i])];
      }
    }
    assert rows[..|rows|] == rows;
  }
}
