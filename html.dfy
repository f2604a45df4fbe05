/** Fetched pages as plain data. The markup parser is not modelled: a page is
    what the scrapers read out of its tree. */
module Html {
  import opened Outcomes
  import opened Text

  /** An `<img>` element: its `src` and `alt` attributes, when present. */
  datatype Image = Image(src: Option<string>, alt: Option<string>)

  /** A `<td>`: its `class`, its text, the text of a `<textarea>` inside it,
      the `href` of an `<a>` inside it and an `<img>` inside it. `href` is None
      both when there is no anchor and when the anchor has no `href`. */
  datatype Cell = Cell(cls: string, text: string, textarea: Option<string>, href: Option<string>, img: Option<Image>)

  /** A `<tr>`: its `<td>` cells in document order. */
  type Row = seq<Cell>

  /** A `<table>`: its rows in document order. */
  type Table = seq<Row>

  /** A fetched page, reduced to what the scrapers read from it. Each map is
      keyed by the element the scrapers look up (by `id`, or by `class` for a
      `div`), and a key is absent when the page has no such element:
      - `sections`: the `<table>`s inside the element, in document order;
      - `headings`: the text of the element's `<h1>`, None when it has none;
      - `texts`: the element's whole text;
      - `anchors`: the `href` of each `<a>` inside the element, in document
        order, None for an anchor without one. */
  datatype Page = Page(sections: map<string, seq<Table>>,
                       headings: map<string, Option<string>>,
                       texts: map<string, string>,
                       anchors: map<string, seq<Option<string>>>)

  /** A page that only holds tables. */
  function TablePage(sections: map<string, seq<Table>>): (p: Page)
    ensures p.sections == sections && p.headings == map[] && p.texts == map[] && p.anchors == map[]
  {
    Page(sections, map[], map[], map[])
  }

  /** All rows of a run of tables, table after table: `find_all("tr")` on an
      element that holds them. */
  function AllRows(tables: seq<Table>): (rows: seq<Row>)
    ensures |tables| == 1 ==> rows == tables[0]
    ensures forall t, r :: 0 <= t < |tables| && r in tables[t] ==> r in rows
    decreases |tables|
  {
    if tables == [] then [] else tables[0] + AllRows(tables[1..])
  }

  /** A cell holding only text. */
  function TextCell(t: string): (c: Cell)
    ensures c.text == t && c.textarea.None? && c.href.None? && c.img.None?
  {
    Cell("", t, None, None, None)
  }

  /** The stripped text of cell `i`, or "" when the row has no such cell:
      the value a positional `for i, val in enumerate(cells)` reading leaves
      in the local it assigns at index `i`. */
  function Column(row: Row, i: nat): (v: string)
    ensures i >= |row| ==> v == ""
    ensures i < |row| ==> v == Strip(row[i].text)
  {
    if i < |row| then Strip(row[i].text) else ""
  }

  /** `row.find("td", attrs={"class": cls})`: the first cell with that class. */
  function FindByClass(row: Row, cls: string): (r: Option<Cell>)
    ensures r.Some? ==> r.value in row && r.value.cls == cls
    ensures r.None? <==> forall i :: 0 <= i < |row| ==> row[i].cls != cls
    ensures r.Some? ==> exists i :: 0 <= i < |row| && row[i] == r.value
                                   && forall j :: 0 <= j < i ==> row[j].cls != cls
  {
    if row == [] then None
    else if row[0].cls == cls then Some(row[0])
    else
      var r := FindByClass(row[1..], cls);
      assert forall i :: 1 <= i < |row| ==> row[i] == row[1..][i - 1];
      if r.Some? then
        var k :| 0 <= k < |row[1..]| && row[1..][k] == r.value && forall j :: 0 <= j < k ==> row[1..][j].cls != cls;
        assert row[k + 1] == r.value;
        r
      else r
  }

  /** The `for i, val in enumerate(row.select("td")): match i: …` loop of the
      listing readers: local `k` ends up holding the stripped text of cell `k`
      and keeps its initial `""` when the row is shorter. */
  method ReadCells(row: Row, width: nat) returns (cols: seq<string>)
    ensures |cols| == width
    ensures forall k :: 0 <= k < width ==> cols[k] == Column(row, k)
  {
    cols := seq(width, _ => "");
    for i := 0 to |row|
      invariant |cols| == width
      invariant forall k :: 0 <= k < width ==> cols[k] == (if k < i then Column(row, k) else "")
    {
      if i < width {
        cols := cols[i := Strip(row[i].text)];
      }
    }
  }
}
