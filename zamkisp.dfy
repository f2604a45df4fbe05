/** The zamkisp.pl castle scraper: the castle listing walk with one detail
    page per castle, the detail-page extractor and the GeoJSON projection. */
module Zamkisp {
  import opened Outcomes
  import opened Text
  import opened Numbers
  import opened Html
  import opened Dispatch
  import opened Paging
  import opened Lookups
  import opened GeoJson

  /** The site prefix of the detail links. */
  const Site := "https://zamkisp.pl"

  /** The element holding the tables, on listing and detail pages alike. */
  const Container := "main_full"

  // ------------------------------------------------------------ detail page

  /** `CastleListRowDetails`. The coordinates and dates stay None when the
      page has no row for them. */
  datatype Details = Details(opis: string, lat: Option<real>, lon: Option<real>,
                             introduced: Option<Date>, updated: Option<Date>, url: string)

  /** The values a detail row can set, one per branch of the if/elif chain. */
  datatype DetailField = Description | Latitude | Longitude | Introduced | Updated

  /** The if/elif chain of the detail extractor, as (substring, branch) in
      the order the branches are tried. */
  const DetailLabels: seq<(string, DetailField)> := [
    ("Opis:", Description),
    ("(5x.xxxxx):", Latitude),
    ("(1x.xxxx):", Longitude),
    ("Data wprowadzenia:", Introduced),
    ("Aktualizacja danych:", Updated)
  ]

  /** The values before the first row is read. */
  function NoDetails(url: string): (d: Details)
    ensures d.opis == "" && d.lat.None? && d.lon.None? && d.introduced.None? && d.updated.None? && d.url == url
  {
    Details("", None, None, None, None, url)
  }

  /** The branch a detail row selects: none for a row of at most two cells,
      else the first substring of the chain its label cell contains. */
  function Selects(row: Row): (f: Option<DetailField>)
    ensures f.Some? ==> |row| > 2
    ensures |row| > 2 ==> f == Classify(row[1].text, DetailLabels)
  {
    if |row| <= 2 then None else Classify(row[1].text, DetailLabels)
  }

  /** The effect of one `tr` of the detail table (the unit argument is the
      row loop's context, which this loop does not need). Rows with at most
      two cells and rows whose label cell matches no branch leave every value
      as it was; the others go through their branch. */
  function DetailStep(u: (), d: Details, row: Row): (r: Result<Details>)
    ensures Selects(row).None? ==> r == Ok(d)
    ensures Selects(row).Some? ==> r == SetField(Selects(row).value, d, row[2])
    ensures r.Ok? ==> r.value.url == d.url
  {
    if |row| <= 2 then Ok(d)
    else
      var field: Option<DetailField> := Classify(row[1].text, DetailLabels);
      if field.None? then Ok(d)
      else SetField(field.value, d, row[2])
  }

  /** What one branch does with the value cell: the description is the
      stripped `<textarea>` text, a coordinate `float` of the stripped text,
      a date the sentinel (None) or an ISO date. */
  function SetField(field: DetailField, d: Details, cell: Cell): (r: Result<Details>)
    ensures r.Ok? ==> r.value.url == d.url
    ensures r == Err(MissingElement) <==> field == Description && cell.textarea.None?
    ensures r == Err(BadNumber) <==> (field == Latitude || field == Longitude) && ParseFloat(Strip(cell.text)).None?
    ensures r == Err(BadDate) <==> (field == Introduced || field == Updated) && DateField(Strip(cell.text)).Err?
    ensures r.Ok? && field == Description ==> cell.textarea.Some? && r.value == d.(opis := Strip(cell.textarea.value))
    ensures r.Ok? && field == Latitude ==> r.value == d.(lat := ParseFloat(Strip(cell.text)))
    ensures r.Ok? && field == Longitude ==> r.value == d.(lon := ParseFloat(Strip(cell.text)))
    ensures r.Ok? && field == Introduced ==> r.value == d.(introduced := DateField(Strip(cell.text)).value)
    ensures r.Ok? && field == Updated ==> r.value == d.(updated := DateField(Strip(cell.text)).value)
  {
    var value := Strip(cell.text);
    match field
    case Description =>
      if cell.textarea.None? then Err(MissingElement) else Ok(d.(opis := Strip(cell.textarea.value)))
    case Latitude =>
      if ParseFloat(value).None? then Err(BadNumber) else Ok(d.(lat := ParseFloat(value)))
    case Longitude =>
      if ParseFloat(value).None? then Err(BadNumber) else Ok(d.(lon := ParseFloat(value)))
    case Introduced =>
      if DateField(value).Err? then Err(BadDate) else Ok(d.(introduced := DateField(value).value))
    case Updated =>
      if DateField(value).Err? then Err(BadDate) else Ok(d.(updated := DateField(value).value))
  }

  /** `get_details` on the fetched page: the status, the container, at least
      one table, then the rows of the first table in order. */
  function ExtractDetails(response: Option<Page>, url: string): (r: Result<Details>)
    ensures response.None? ==> r == Err(HttpStatus)
    ensures response.Some? && Container !in response.value.sections ==> r == Err(MissingElement)
    ensures response.Some? && Container in response.value.sections && response.value.sections[Container] == []
            ==> r == Err(TooFewTables)
  {
    match response
    case None => Err(HttpStatus)
    case Some(page) =>
      if Container !in page.sections then Err(MissingElement)
      else
        var tables := page.sections[Container];
        if |tables| < 1 then Err(TooFewTables)
        else FoldRows((), DetailStep, NoDetails(url), tables[0])
  }

  /** Every value but the description, the coordinates and the dates is
      carried through a run of rows; in particular the url is the one fetched. */
  lemma {:induction false} DetailsKeepUrl(d: Details, rows: seq<Row>)
    ensures FoldRows((), DetailStep, d, rows).Ok? ==> FoldRows((), DetailStep, d, rows).value.url == d.url
    decreases |rows|
  {
    if rows != [] {
      DetailsKeepUrl(d, rows[..|rows| - 1]);
    }
  }

  /** The url of the extracted details is the url fetched. */
  lemma ExtractedUrl(response: Option<Page>, url: string)
    ensures ExtractDetails(response, url).Ok? ==> ExtractDetails(response, url).value.url == url
  {
    if response.Some? && Container in response.value.sections && |response.value.sections[Container]| >= 1 {
      DetailsKeepUrl(NoDetails(url), response.value.sections[Container][0]);
    }
  }

  /** What a detail value holds, whichever of the five it is. */
  datatype Reading = Prose(s: string) | Number(x: Option<real>) | When(day: Option<Date>)

  /** The value of `f` in `d`. */
  function ValueOf(d: Details, f: DetailField): Reading {
    match f
    case Description => Prose(d.opis)
    case Latitude => Number(d.lat)
    case Longitude => Number(d.lon)
    case Introduced => When(d.introduced)
    case Updated => When(d.updated)
  }

  /** What branch `f` reads from the value cell, or None when it fails: the
      stripped `<textarea>` text, `float` of the stripped text, or the date
      (None for the sentinel). */
  function Written(f: DetailField, cell: Cell): Option<Reading> {
    var value := Strip(cell.text);
    match f
    case Description => if cell.textarea.None? then None else Some(Prose(Strip(cell.textarea.value)))
    case Latitude => if ParseFloat(value).None? then None else Some(Number(ParseFloat(value)))
    case Longitude => if ParseFloat(value).None? then None else Some(Number(ParseFloat(value)))
    case Introduced => if DateField(value).Err? then None else Some(When(DateField(value).value))
    case Updated => if DateField(value).Err? then None else Some(When(DateField(value).value))
  }

  /** A branch succeeds exactly when it can read its value; it then holds
      that value, and the other four values and the url are as before. */
  lemma SetFieldWrites(field: DetailField, d: Details, cell: Cell)
    ensures SetField(field, d, cell).Ok? <==> Written(field, cell).Some?
    ensures SetField(field, d, cell).Ok? ==>
              && ValueOf(SetField(field, d, cell).value, field) == Written(field, cell).value
              && SetField(field, d, cell).value.url == d.url
              && forall g :: g != field ==> ValueOf(SetField(field, d, cell).value, g) == ValueOf(d, g)
  {
  }

  /** The value of `f` after `rows`: what the last row selecting `f` read,
      or `before` when no row selects it. */
  function LastWritten(rows: seq<Row>, f: DetailField, before: Reading): Reading
    decreases |rows|
  {
    if rows == [] then before
    else
      var row := rows[|rows| - 1];
      if Selects(row) == Some(f) && Written(f, row[2]).Some? then Written(f, row[2]).value
      else LastWritten(rows[..|rows| - 1], f, before)
  }

  /** A row that selects no branch, or whose branch can read its value. */
  predicate Reads(row: Row) {
    Selects(row).None? || Written(Selects(row).value, row[2]).Some?
  }

  /** One row succeeds exactly when it reads. */
  lemma StepReads(d: Details, row: Row)
    ensures DetailStep((), d, row).Ok? <==> Reads(row)
  {
    if Selects(row).Some? {
      SetFieldWrites(Selects(row).value, d, row[2]);
    }
  }

  /** The row loop succeeds exactly when every row that selects a branch can
      read its value. */
  lemma {:induction false} DetailsOkPerRow(d: Details, rows: seq<Row>)
    ensures FoldRows((), DetailStep, d, rows).Ok? <==> forall i :: 0 <= i < |rows| ==> Reads(rows[i])
    decreases |rows|
  {
    if rows != [] {
      var init, last := rows[..|rows| - 1], rows[|rows| - 1];
      DetailsOkPerRow(d, init);
      ReadsSplit(rows);
      match FoldRows((), DetailStep, d, init)
      case Ok(mid) => StepReads(mid, last);
      case Err(_) =>
    }
  }

  /** Every row reads exactly when every row but the last does and the last does. */
  lemma ReadsSplit(rows: seq<Row>)
    requires rows != []
    ensures var init := rows[..|rows| - 1];
            (forall i :: 0 <= i < |rows| ==> Reads(rows[i]))
            <==> (forall i :: 0 <= i < |init| ==> Reads(init[i])) && Reads(rows[|rows| - 1])
  {
    var init, last := rows[..|rows| - 1], rows[|rows| - 1];
    if forall i :: 0 <= i < |rows| ==> Reads(rows[i]) {
      forall i | 0 <= i < |init| ensures Reads(init[i]) {
        assert init[i] == rows[i];
      }
    }
    if (forall i :: 0 <= i < |init| ==> Reads(init[i])) && Reads(last) {
      forall i | 0 <= i < |rows| ensures Reads(rows[i]) {
        if i < |init| {
          assert rows[i] == init[i];
        }
      }
    }
  }

  /** After the row loop, each value holds what the last row selecting its
      branch read, or what it held before when no row selects it; the url is
      unchanged. */
  lemma {:induction false} LastDetailWins(d: Details, rows: seq<Row>, final: Details)
    requires FoldRows((), DetailStep, d, rows) == Ok(final)
    ensures forall f :: ValueOf(final, f) == LastWritten(rows, f, ValueOf(d, f))
    ensures final.url == d.url
    decreases |rows|
  {
    if rows != [] {
      var init, last := rows[..|rows| - 1], rows[|rows| - 1];
      match FoldRows((), DetailStep, d, init)
      case Ok(mid) =>
        LastDetailWins(d, init, mid);
        assert DetailStep((), mid, last) == Ok(final);
        if Selects(last).Some? {
          SetFieldWrites(Selects(last).value, mid, last[2]);
        }
      case Err(_) =>
    }
  }

  /** The details of a page that has the container and a table: the loop
      over the first table's rows succeeds exactly when every selecting row
      can read its value, and then each value is what the last row selecting
      it read, or its `NoDetails` default, and the url is the one fetched. */
  lemma ExtractedValues(page: Page, url: string)
    requires Container in page.sections && |page.sections[Container]| >= 1
    ensures var rows := page.sections[Container][0];
            ExtractDetails(Some(page), url).Ok? <==> forall i :: 0 <= i < |rows| ==> Reads(rows[i])
    ensures ExtractDetails(Some(page), url).Ok? ==>
              var rows := page.sections[Container][0];
              && ExtractDetails(Some(page), url).value.url == url
              && forall f :: ValueOf(ExtractDetails(Some(page), url).value, f) == LastWritten(rows, f, ValueOf(NoDetails(url), f))
  {
    var rows := page.sections[Container][0];
    DetailsOkPerRow(NoDetails(url), rows);
    if ExtractDetails(Some(page), url).Ok? {
      LastDetailWins(NoDetails(url), rows, ExtractDetails(Some(page), url).value);
    }
  }

  /** A detail table whose first table has no rows gives the defaults. */
  lemma NoRowsNoDetails(response: Option<Page>, url: string)
    requires response.Some? && Container in response.value.sections
    requires |response.value.sections[Container]| >= 1 && response.value.sections[Container][0] == []
    ensures ExtractDetails(response, url) == Ok(NoDetails(url))
  {
  }

  /** The branches in the order they are tried: a label that contains
      "Opis:" is read as the description whatever else it contains, and so
      on down the chain. */
  lemma DetailLabelOrder(caption: string)
    ensures Contains(caption, "Opis:") ==> Classify(caption, DetailLabels) == Some(Description)
    ensures !Contains(caption, "Opis:") && Contains(caption, "(5x.xxxxx):")
            ==> Classify(caption, DetailLabels) == Some(Latitude)
    ensures !Contains(caption, "Opis:") && !Contains(caption, "(5x.xxxxx):") && Contains(caption, "(1x.xxxx):")
            ==> Classify(caption, DetailLabels) == Some(Longitude)
    ensures !Contains(caption, "Opis:") && !Contains(caption, "(5x.xxxxx):") && !Contains(caption, "(1x.xxxx):")
            && Contains(caption, "Data wprowadzenia:")
            ==> Classify(caption, DetailLabels) == Some(Introduced)
    ensures !Contains(caption, "Opis:") && !Contains(caption, "(5x.xxxxx):") && !Contains(caption, "(1x.xxxx):")
            && !Contains(caption, "Data wprowadzenia:") && Contains(caption, "Aktualizacja danych:")
            ==> Classify(caption, DetailLabels) == Some(Updated)
    ensures Classify(caption, DetailLabels).None? <==>
              !Contains(caption, "Opis:") && !Contains(caption, "(5x.xxxxx):") && !Contains(caption, "(1x.xxxx):")
              && !Contains(caption, "Data wprowadzenia:") && !Contains(caption, "Aktualizacja danych:")
  {
    var m := FirstMatch(caption, DetailLabels);
    assert DetailLabels[0].0 == "Opis:" && DetailLabels[1].0 == "(5x.xxxxx):" && DetailLabels[2].0 == "(1x.xxxx):";
    assert DetailLabels[3].0 == "Data wprowadzenia:" && DetailLabels[4].0 == "Aktualizacja danych:";
    if m.Some? {
      assert m.value < 5;
      assert Classify(caption, DetailLabels) == Some(DetailLabels[m.value].1);
    }
  }

  /** A date row holding the sentinel clears the date; one holding any other
      text that is not an ISO date fails the page. */
  lemma SentinelDateRow(d: Details, row: Row)
    requires |row| > 2 && Classify(row[1].text, DetailLabels) == Some(Introduced)
    ensures Strip(row[2].text) == Sentinel ==> DetailStep((), d, row) == Ok(d.(introduced := None))
    ensures Strip(row[2].text) != Sentinel && ParseIsoDate(Strip(row[2].text)).None?
            ==> DetailStep((), d, row) == Err(BadDate)
  {
  }

  /** A description row without a `<textarea>` fails the page. */
  lemma DescriptionNeedsTextarea(d: Details, row: Row)
    requires |row| > 2 && Contains(row[1].text, "Opis:") && row[2].textarea.None?
    ensures DetailStep((), d, row) == Err(MissingElement)
  {
    DetailLabelOrder(row[1].text);
  }

  /** The body of the detail loop for one `tr`: the if/elif chain on the
      label cell, each branch reassigning one of the values. */
  method ReadDetailRow(d: Details, cells: Row) returns (r: Result<Details>)
    ensures r == DetailStep((), d, cells)
  {
    if |cells| <= 2 {
      return Ok(d);
    }
    var caption := cells[1].text;
    DetailLabelOrder(caption);
    if Contains(caption, "Opis:") {
      r := SetDescription(d, cells[2]);
    } else if Contains(caption, "(5x.xxxxx):") {
      r := SetCoordinate(Latitude, d, cells[2]);
    } else if Contains(caption, "(1x.xxxx):") {
      r := SetCoordinate(Longitude, d, cells[2]);
    } else if Contains(caption, "Data wprowadzenia:") {
      r := SetDate(Introduced, d, cells[2]);
    } else if Contains(caption, "Aktualizacja danych:") {
      r := SetDate(Updated, d, cells[2]);
    } else {
      r := Ok(d);
    }
  }

  /** `opis = cells[2].textarea.text.strip()`. */
  method SetDescription(d: Details, cell: Cell) returns (r: Result<Details>)
    ensures r == SetField(Description, d, cell)
  {
    if cell.textarea.None? {
      return Err(MissingElement);
    }
    return Ok(d.(opis := Strip(cell.textarea.value)));
  }

  /** `szerokosc_geo = float(cells[2].text.strip())` and its longitude twin. */
  method SetCoordinate(field: DetailField, d: Details, cell: Cell) returns (r: Result<Details>)
    requires field == Latitude || field == Longitude
    ensures r == SetField(field, d, cell)
  {
    var x := ParseFloat(Strip(cell.text));
    if x.None? {
      return Err(BadNumber);
    }
    if field == Latitude {
      return Ok(d.(lat := x));
    }
    return Ok(d.(lon := x));
  }

  /** `None` for the sentinel, otherwise `date.fromisoformat(val)`. */
  method SetDate(field: DetailField, d: Details, cell: Cell) returns (r: Result<Details>)
    requires field == Introduced || field == Updated
    ensures r == SetField(field, d, cell)
  {
    var value := Strip(cell.text);
    var day: Option<Date> := None;
    if value != Sentinel {
      day := ParseIsoDate(value);
      if day.None? {
        return Err(BadDate);
      }
    }
    if field == Introduced {
      return Ok(d.(introduced := day));
    }
    return Ok(d.(updated := day));
  }

  /** `get_details`: fetch the page and read the label/value rows of its
      first table, in order, into the values `opis`, `szerokosc_geo`,
      `dlugosc_geo` and the two dates; the first failing row fails the page. */
  method GetDetails(fetch: string -> Option<Page>, url: string) returns (r: Result<Details>)
    ensures r == ExtractDetails(fetch(url), url)
  {
    var response := fetch(url);
    if response.None? {
      return Err(HttpStatus);
    }
    if Container !in response.value.sections {
      return Err(MissingElement);
    }
    var tables: seq<Table> := response.value.sections[Container];
    if |tables| < 1 {
      return Err(TooFewTables);
    }
    var details := NoDetails(url);
    var rows: seq<Row> := tables[0];
    for i := 0 to |rows|
      invariant FoldRows((), DetailStep, NoDetails(url), rows[..i]) == Ok(details)
    {
      FoldRowsNext((), DetailStep, NoDetails(url), rows, i, details);
      var next := ReadDetailRow(details, rows[i]);
      if next.Err? {
        FoldRowsFailed((), DetailStep, NoDetails(url), rows, i + 1, next.error);
        return Err(next.error);
      }
      details := next.value;
    }
    assert rows[..|rows|] == rows;
    return Ok(details);
  }

  // ---------------------------------------------------------------- listing

  /** `CastleListRow`: the listing columns, the names they resolve to and
      the detail page's values. */
  datatype Castle = Castle(voivodeship: Option<string>, county: Option<string>, municipality: Option<string>,
                           id: string, name: string, kind: string, kindName: Option<string>,
                           lat: Option<real>, lon: Option<real>,
                           introduced: Option<Date>, updated: Option<Date>, opis: string, url: string)

  /** What the listing walk reads besides the listing itself: the detail
      pages and the county and municipality tables built beforehand. */
  datatype Sources = Sources(fetch: string -> Option<Page>,
                             counties: map<CountyKey, string>,
                             municipalities: map<MunicipalityKey, string>)

  /** The record of a listing row that reaches cell 8: the link in cell 8
      leads to the detail page, whose failure fails the row; cells 1, 2, 5
      and 7 are resolved through the voivodeship, county, municipality and
      type tables, and an unknown code resolves to None. */
  function RowRecord(src: Sources, row: Row): (r: Result<Castle>)
    requires |row| >= 9
    ensures r == Err(MissingElement) <== row[8].href.None?
    ensures row[8].href.Some? ==>
              var url := Site + row[8].href.value;
              (r.Err? <==> ExtractDetails(src.fetch(url), url).Err?)
              && (r.Err? ==> r.error == ExtractDetails(src.fetch(url), url).error)
              && (r.Ok? ==> var d := ExtractDetails(src.fetch(url), url).value;
                            r.value.url == url && r.value.lat == d.lat && r.value.lon == d.lon && r.value.opis == d.opis
                            && r.value.introduced == d.introduced && r.value.updated == d.updated)
    ensures r.Ok? ==> r.value.id == Column(row, 3) && r.value.name == Column(row, 4) && r.value.kind == Column(row, 7)
    ensures r.Ok? ==> r.value.voivodeship == Get(Voivodeships, Column(row, 1))
                      && r.value.county == Get(src.counties, (Column(row, 1), Column(row, 2)))
                      && r.value.municipality == Get(src.municipalities, (Column(row, 1), Column(row, 2), Column(row, 5)))
                      && r.value.kindName == Get(Kinds, Column(row, 7))
  {
    match row[8].href
    case None => Err(MissingElement)
    case Some(h) =>
      var url := Site + h;
      match ExtractDetails(src.fetch(url), url)
      case Err(e) => Err(e)
      case Ok(d) =>
        ExtractedUrl(src.fetch(url), url);
        var woj, pow, gmi, typ := Column(row, 1), Column(row, 2), Column(row, 5), Column(row, 7);
        Ok(Castle(Get(Voivodeships, woj), Get(src.counties, (woj, pow)), Get(src.municipalities, (woj, pow, gmi)),
                  Column(row, 3), Column(row, 4), typ, Get(Kinds, typ),
                  d.lat, d.lon, d.introduced, d.updated, d.opis, d.url))
  }

  /** `record` is what the row loop makes of each row that reaches cell 8
      with the sources `src`. The walk below is stated over such a `record`,
      which keeps its proofs apart from the cell reading and the detail
      parser. */
  ghost predicate Serves(src: Sources, record: Row -> Result<Castle>) {
    forall row {:trigger RowRecord(src, row)} :: |row| >= 9 ==> record(row) == RowRecord(src, row)
  }

  /** The body of the row loop: a row with fewer than nine cells never
      reaches `case 8` and adds nothing; any other row adds its record. */
  function CastleStep(record: Row -> Result<Castle>, acc: seq<Castle>, row: Row): (r: Result<seq<Castle>>)
    ensures |row| < 9 ==> r == Ok(acc)
    ensures |row| >= 9 ==> (r.Ok? <==> record(row).Ok?)
    ensures |row| >= 9 && r.Err? ==> r.error == record(row).error
    ensures |row| >= 9 && r.Ok? ==> r.value == acc + [record(row).value]
  {
    if |row| < 9 then Ok(acc)
    else match record(row)
      case Err(e) => Err(e)
      case Ok(c) => Ok(acc + [c])
  }

  /** The rows that reach cell 8, in order. */
  function LongRows(rows: seq<Row>): (r: seq<Row>)
    ensures |r| <= |rows|
    ensures forall i :: 0 <= i < |r| ==> |r[i]| >= 9
    decreases |rows|
  {
    if rows == [] then []
    else LongRows(rows[..|rows| - 1]) + (if |rows[|rows| - 1]| >= 9 then [rows[|rows| - 1]] else [])
  }

  /** Every row of `long` yields its record. */
  predicate RecordsOk(record: Row -> Result<Castle>, long: seq<Row>) {
    forall i :: 0 <= i < |long| ==> record(long[i]).Ok?
  }

  /** `castles` are the records of the rows of `long`, one each, in order. */
  predicate RecordsAre(record: Row -> Result<Castle>, long: seq<Row>, castles: seq<Castle>) {
    |castles| == |long| && forall i :: 0 <= i < |long| ==> record(long[i]) == Ok(castles[i])
  }

  /** The row loop over a run of rows succeeds exactly when each row that
      reaches cell 8 yields its record. */
  lemma {:induction false} CastlesOkPerRow(record: Row -> Result<Castle>, acc: seq<Castle>, rows: seq<Row>)
    ensures FoldRows(record, CastleStep, acc, rows).Ok? <==> RecordsOk(record, LongRows(rows))
    decreases |rows|
  {
    if rows != [] {
      var prefix := rows[..|rows| - 1];
      var last := rows[|rows| - 1];
      CastlesOkPerRow(record, acc, prefix);
      var long := LongRows(prefix);
      assert LongRows(rows) == long + (if |last| >= 9 then [last] else []);
      if !RecordsOk(record, long) {
        var i :| 0 <= i < |long| && !record(long[i]).Ok?;
        assert LongRows(rows)[i] == long[i];
      } else if |last| >= 9 {
        assert LongRows(rows)[|long|] == last;
      }
    }
  }

  /** Records come out one per row that reaches cell 8, in row order: a
      successful row loop appends exactly those records to what was there. */
  lemma {:induction false} CastlesPerRow(record: Row -> Result<Castle>, acc: seq<Castle>, rows: seq<Row>)
    requires FoldRows(record, CastleStep, acc, rows).Ok?
    ensures |FoldRows(record, CastleStep, acc, rows).value| >= |acc|
    ensures FoldRows(record, CastleStep, acc, rows).value[..|acc|] == acc
    ensures RecordsAre(record, LongRows(rows), FoldRows(record, CastleStep, acc, rows).value[|acc|..])
    decreases |rows|
  {
    if rows != [] {
      var prefix := rows[..|rows| - 1];
      var last := rows[|rows| - 1];
      var v := FoldRows(record, CastleStep, acc, prefix).value;
      CastlesPerRow(record, acc, prefix);
      var long := LongRows(prefix);
      assert LongRows(rows) == long + (if |last| >= 9 then [last] else []);
      var w := FoldRows(record, CastleStep, acc, rows).value;
      assert w == CastleStep(record, v, last).value;
      if |last| >= 9 {
        var c := record(last).value;
        assert w == v + [c];
        assert w[..|acc|] == v[..|acc|];
        assert w[|acc|..] == v[|acc|..] + [c];
        forall i | 0 <= i < |LongRows(rows)|
          ensures record(LongRows(rows)[i]) == Ok(w[|acc|..][i])
        {
          if i < |long| {
            assert LongRows(rows)[i] == long[i];
            assert w[|acc|..][i] == v[|acc|..][i];
          }
        }
      }
    }
  }

  /** The body of the row loop for one `tr`: the positional reading of cells
      0-7 and, at cell 8, the detail fetch and the new record. */
  method ReadCastleRow(src: Sources, ghost record: Row -> Result<Castle>, results: seq<Castle>, row: Row)
    returns (r: Result<seq<Castle>>)
    requires Serves(src, record)
    ensures r == CastleStep(record, results, row)
  {
    var cols := ReadCells(row, 8);
    if |row| < 9 {
      return Ok(results);
    }
    assert record(row) == RowRecord(src, row);
    var href := row[8].href;
    if href.None? {
      return Err(MissingElement);
    }
    var url := Site + href.value;
    var details := GetDetails(src.fetch, url);
    if details.Err? {
      return Err(details.error);
    }
    var d := details.value;
    var woj, pow, gmi, typ := cols[1], cols[2], cols[5], cols[7];
    var castle := Castle(Get(Voivodeships, woj), Get(src.counties, (woj, pow)), Get(src.municipalities, (woj, pow, gmi)),
                         cols[3], cols[4], typ, Get(Kinds, typ),
                         d.lat, d.lon, d.introduced, d.updated, d.opis, d.url);
    return Ok(results + [castle]);
  }

  /** The row loop of one listing page, stopped by the first failing row. */
  method ReadCastleRows(src: Sources, ghost record: Row -> Result<Castle>, acc: seq<Castle>, rows: seq<Row>)
    returns (r: Result<seq<Castle>>)
    requires Serves(src, record)
    ensures r == FoldRows(record, CastleStep, acc, rows)
  {
    var results := acc;
    for i := 0 to |rows|
      invariant FoldRows(record, CastleStep, acc, rows[..i]) == Ok(results)
    {
      FoldRowsNext(record, CastleStep, acc, rows, i, results);
      var next := ReadCastleRow(src, record, results, rows[i]);
      if next.Err? {
        FoldRowsFailed(record, CastleStep, acc, rows, i + 1, next.error);
        return Err(next.error);
      }
      results := next.value;
    }
    assert rows[..|rows|] == rows;
    return Ok(results);
  }

  /** One turn of the `get_castles` loop: fetch the page at `offset`,
      check it, and run the row loop over its rows. */
  method ReadCastlePage(listing: nat -> Option<Page>, src: Sources, ghost record: Row -> Result<Castle>,
                        ghost n: nat, offset: nat, results: seq<Castle>)
    returns (p: Progress<seq<Castle>>)
    requires offset == n * PageSize && Serves(src, record)
    ensures p == Advance(PageAt(listing, Container, n), record, CastleStep, results)
  {
    var verdict := ReadListingPage(listing, Container, offset);
    match verdict {
      case Broken(e) => return Done(Err(e));
      case Empty => return Done(Ok(results));
      case Rows(rows) =>
        var next := ReadCastleRows(src, record, results, rows);
        if next.Err? {
          return Done(Err(next.error));
        }
        return Going(next.value);
    }
  }

  /** `get_castles`: walk the castle listing and collect one record per row
      that reaches cell 8, fetching its detail page. */
  method GetCastles(listing: nat -> Option<Page>, src: Sources, ghost record: Row -> Result<Castle>)
    returns (r: Result<seq<Castle>>, ghost requested: seq<nat>)
    requires Finite(listing, Container) && Serves(src, record)
    ensures Walked(listing, Container, record, CastleStep, [], requested, r)
  {
    ghost var stop: nat :| !PageAt(listing, Container, stop).Rows?;
    var results: seq<Castle> := [];
    var offset: nat := 0;
    requested := [];
    while true
      invariant offset == |requested| * PageSize && IsOffsets(requested)
      invariant Walk(listing, Container, record, CastleStep, [], |requested|) == Going(results)
      invariant |requested| <= stop
      decreases stop - |requested|
    {
      var p := ReadCastlePage(listing, src, record, |requested|, offset, results);
      WalkTurn(listing, Container, record, CastleStep, [], requested, results, p);
      requested := requested + [offset];
      match p {
        case Done(res) => return res, requested;
        case Going(acc) =>
          results := acc;
          offset := offset + PageSize;
      }
    }
  }

  /** The whole walk: a successful run returns the record of every row that
      reaches cell 8, over all listing pages before the empty one, in
      page-then-row order, and nothing else. */
  lemma CastlesInListingOrder(listing: nat -> Option<Page>, src: Sources, record: Row -> Result<Castle>,
                              requested: seq<nat>, castles: seq<Castle>)
    requires Serves(src, record)
    requires Walked(listing, Container, record, CastleStep, [], requested, Ok(castles))
    ensures var long := LongRows(RowsBefore(listing, Container, |requested| - 1));
            |castles| == |long| && forall i :: 0 <= i < |long| ==> RowRecord(src, long[i]) == Ok(castles[i])
  {
    var n := |requested| - 1;
    var all := RowsBefore(listing, Container, n);
    var acc := Walk(listing, Container, record, CastleStep, [], n).acc;
    WalkGoing(listing, Container, record, CastleStep, [], n);
    WalkNext(listing, Container, record, CastleStep, [], n, acc);
    assert castles == acc == FoldRows(record, CastleStep, [], all).value;
    CastlesPerRow(record, [], all);
    assert castles[0..] == castles;
    var long := LongRows(all);
    forall i | 0 <= i < |long| ensures RowRecord(src, long[i]) == Ok(castles[i]) {
      assert record(long[i]) == RowRecord(src, long[i]);
    }
  }

  // ---------------------------------------------------------------- GeoJSON

  /** One feature: the record's properties and the point `[lon, lat]`. */
  function CastleFeature(c: Castle): Feature {
    Feature([("wojewodztwo", OptText(c.voivodeship)),
             ("powiat", OptText(c.county)),
             ("gmina", OptText(c.municipality)),
             ("zamek_id", JString(c.id)),
             ("nazwa", JString(c.name)),
             ("typ_oryginalny", JString(c.kind)),
             ("typ_interpretowany", OptText(c.kindName)),
             ("data_wprowadzenia", OptDate(c.introduced)),
             ("data_aktualizacji", OptDate(c.updated)),
             ("opis", JString(c.opis)),
             ("url", JString(c.url))],
            [OptNumber(c.lon), OptNumber(c.lat)])
  }

  /** Reading a record back from a feature: the properties in the order
      they are written, each under its name, and the point as `[lon, lat]`. */
  function CastleOfFeature(f: Feature): Option<Castle> {
    var woj := ReadOptText(Field(f, 0, "wojewodztwo"));
    var pow := ReadOptText(Field(f, 1, "powiat"));
    var gmi := ReadOptText(Field(f, 2, "gmina"));
    var id := ReadText(Field(f, 3, "zamek_id"));
    var name := ReadText(Field(f, 4, "nazwa"));
    var kind := ReadText(Field(f, 5, "typ_oryginalny"));
    var kindName := ReadOptText(Field(f, 6, "typ_interpretowany"));
    var introduced := ReadOptDate(Field(f, 7, "data_wprowadzenia"));
    var updated := ReadOptDate(Field(f, 8, "data_aktualizacji"));
    var opis := ReadText(Field(f, 9, "opis"));
    var url := ReadText(Field(f, 10, "url"));
    if |f.coordinates| != 2 then None
    else
      var lon := ReadOptNumber(Some(f.coordinates[0]));
      var lat := ReadOptNumber(Some(f.coordinates[1]));
      if woj.Some? && pow.Some? && gmi.Some? && id.Some? && name.Some? && kind.Some? && kindName.Some?
         && introduced.Some? && updated.Some? && opis.Some? && url.Some? && lon.Some? && lat.Some?
      then Some(Castle(woj.value, pow.value, gmi.value, id.value, name.value, kind.value, kindName.value,
                       lat.value, lon.value, introduced.value, updated.value, opis.value, url.value))
      else None
  }

  /** The feature of a record holds all of it: reading it back gives the
      record, so the point is `[dlugosc_geo, szerokosc_geo]` and the dates
      are written in the form `date.fromisoformat` reads. */
  lemma CastleFeatureRoundTrip(c: Castle)
    ensures CastleOfFeature(CastleFeature(c)) == Some(c)
  {
    OptDateRoundTrip(c.introduced);
    OptDateRoundTrip(c.updated);
  }

  /** `to_geojson`: one feature per record, in order. */
  method ToGeoJson(castles: seq<Castle>) returns (features: seq<Feature>)
    ensures |features| == |castles|
    ensures forall i :: 0 <= i < |castles| ==> features[i] == CastleFeature(castles[i])
  {
    features := [];
    for i := 0 to |castles|
      invariant |features| == i
      invariant forall j :: 0 <= j < i ==> features[j] == CastleFeature(castles[j])
    {
      features := features + [CastleFeature(castles[i])];
    }
  }
}
