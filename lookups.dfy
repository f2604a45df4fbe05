/** The code-to-name tables: the fixed voivodeship and castle-type tables, and
    the county and municipality tables read from the paginated listings
    (`get_counties` and `get_municipalities`, identical in the two
    zamkisp.pl scrapers apart from the listing address and the container
    element). */
module Lookups {
  import opened Outcomes
  import opened Text
  import opened Html
  import opened Paging

  /** `DICT_WOJEWODZTWA`: voivodeship letter codes. */
  const Voivodeships: map<string, string> := map[
    "B" := "lubuskie",
    "C" := "łódzkie",
    "D" := "dolnośląskie",
    "F" := "pomorskie",
    "G" := "śląskie",
    "J" := "warmińsko-mazurskie",
    "K" := "podkarpackie",
    "L" := "lubelskie",
    "M" := "małopolskie",
    "O" := "podlaskie",
    "P" := "kujawsko-pomorskie",
    "R" := "mazowieckie",
    "S" := "świętokrzyskie",
    "U" := "opolskie",
    "W" := "wielkopolskie",
    "Z" := "zachodniopomorskie"
  ]

  /** `DICT_TYP`: the castle-state letter codes of zamkisp.pl. */
  const Kinds: map<string, string> := map[
    "M" := "zniszczony",
    "F" := "pozostałości",
    "R" := "ruiny",
    "Z" := "zachowany"
  ]

  type CountyKey = (string, string)
  type MunicipalityKey = (string, string, string)

  /** The entry a county listing row contributes: (region, county) from cells
      1 and 2, the name from cell 3; none when either code is empty. */
  function CountyEntry(row: Row): (e: Option<(CountyKey, string)>)
    ensures e.Some? <==> Column(row, 1) != "" && Column(row, 2) != ""
    ensures e.Some? ==> e.value.0 == (Column(row, 1), Column(row, 2)) && e.value.1 == Column(row, 3)
  {
    var woj, pow, name := Column(row, 1), Column(row, 2), Column(row, 3);
    if woj != "" && pow != "" then Some(((woj, pow), name)) else None
  }

  /** The entry a municipality listing row contributes: (region, county,
      municipality) from cells 1-3, the name from cell 4; none when the region
      or the county code is empty. An empty municipality code is kept. */
  function MunicipalityEntry(row: Row): (e: Option<(MunicipalityKey, string)>)
    ensures e.Some? <==> Column(row, 1) != "" && Column(row, 2) != ""
    ensures e.Some? ==> e.value.0 == (Column(row, 1), Column(row, 2), Column(row, 3)) && e.value.1 == Column(row, 4)
  {
    var woj, pow, gmi, name := Column(row, 1), Column(row, 2), Column(row, 3), Column(row, 4);
    if woj != "" && pow != "" then Some(((woj, pow, gmi), name)) else None
  }

  /** Row `row` writes key `k`. */
  predicate Writes<K(==)>(entry: Row -> Option<(K, string)>, row: Row, k: K) {
    entry(row).Some? && entry(row).value.0 == k
  }

  /** Some row of `rows` writes key `k`. */
  predicate WrittenBy<K(==)>(entry: Row -> Option<(K, string)>, rows: seq<Row>, k: K) {
    exists i :: 0 <= i < |rows| && Writes(entry, rows[i], k)
  }

  /** Row `i` is the last of `rows` to write its key. */
  predicate LastWrite<K(==)>(entry: Row -> Option<(K, string)>, rows: seq<Row>, i: nat)
    requires i < |rows| && entry(rows[i]).Some?
  {
    forall j :: i < j < |rows| ==> !Writes(entry, rows[j], entry(rows[i]).value.0)
  }

  /** The loop body of a lookup builder: `results[key] = nazwa` for a row
      with both codes; it never fails. */
  function LookupStep<K(==)>(entry: Row -> Option<(K, string)>, table: map<K, string>, row: Row): (r: Result<map<K, string>>)
    ensures r.Ok? && r.value.Keys == table.Keys + (if entry(row).Some? then {entry(row).value.0} else {})
  {
    match entry(row)
    case None => Ok(table)
    case Some(kv) => Ok(table[kv.0 := kv.1])
  }

  /** The table after a run of rows: a key is present exactly when it was
      present before or some row writes it; a written key maps to the name
      of the last row that writes it; any other key keeps its earlier name. */
  lemma {:induction false} LastWriteWins<K>(entry: Row -> Option<(K, string)>, table: map<K, string>, rows: seq<Row>)
    ensures FoldRows(entry, LookupStep, table, rows).Ok?
    ensures forall k :: k in FoldRows(entry, LookupStep, table, rows).value <==> k in table || WrittenBy(entry, rows, k)
    ensures forall i :: 0 <= i < |rows| && entry(rows[i]).Some? && LastWrite(entry, rows, i) ==>
              entry(rows[i]).value.0 in FoldRows(entry, LookupStep, table, rows).value
              && FoldRows(entry, LookupStep, table, rows).value[entry(rows[i]).value.0] == entry(rows[i]).value.1
    ensures forall k :: k in table && (forall i :: 0 <= i < |rows| ==> !Writes(entry, rows[i], k)) ==>
              k in FoldRows(entry, LookupStep, table, rows).value && FoldRows(entry, LookupStep, table, rows).value[k] == table[k]
    decreases |rows|
  {
    if rows != [] {
      var prefix := rows[..|rows| - 1];
      var last := rows[|rows| - 1];
      LastWriteWins(entry, table, prefix);
      var before := FoldRows(entry, LookupStep, table, prefix).value;
      var after := FoldRows(entry, LookupStep, table, rows).value;
      assert after == LookupStep(entry, before, last).value;
      forall k
        ensures k in after <==> k in table || WrittenBy(entry, rows, k)
      {
        if WrittenBy(entry, rows, k) {
          var i :| 0 <= i < |rows| && Writes(entry, rows[i], k);
          if i < |rows| - 1 {
            assert prefix[i] == rows[i];
          }
        }
        if WrittenBy(entry, prefix, k) {
          var i :| 0 <= i < |prefix| && Writes(entry, prefix[i], k);
          assert rows[i] == prefix[i];
        }
      }
      forall i | 0 <= i < |rows| && entry(rows[i]).Some? && LastWrite(entry, rows, i)
        ensures entry(rows[i]).value.0 in after && after[entry(rows[i]).value.0] == entry(rows[i]).value.1
      {
        if i < |rows| - 1 {
          assert prefix[i] == rows[i];
          assert LastWrite(entry, prefix, i) by {
            forall j | i < j < |prefix| ensures !Writes(entry, prefix[j], entry(prefix[i]).value.0) {
              assert prefix[j] == rows[j];
            }
          }
          assert !Writes(entry, last, entry(rows[i]).value.0);
        }
      }
      forall k | k in table && (forall i :: 0 <= i < |rows| ==> !Writes(entry, rows[i], k))
        ensures k in after && after[k] == table[k]
      {
        forall i | 0 <= i < |prefix| ensures !Writes(entry, prefix[i], k) {
          assert prefix[i] == rows[i];
        }
        assert !Writes(entry, last, k);
      }
    }
  }

  /** A finished lookup walk holds what the rows of all pages before the
      last, in page-then-row order, wrote into an empty table: the
      characterisation of LastWriteWins over the whole listing. */
  lemma LookupOverPages<K>(listing: nat -> Option<Page>, container: string,
                               entry: Row -> Option<(K, string)>, requested: seq<nat>, t: map<K, string>)
    requires Walked(listing, container, entry, LookupStep, map[], requested, Ok(t))
    ensures Ok(t) == FoldRows(entry, LookupStep, map[], RowsBefore(listing, container, |requested| - 1))
    ensures forall k :: k in t <==> WrittenBy(entry, RowsBefore(listing, container, |requested| - 1), k)
  {
    var n := |requested| - 1;
    WalkGoing(listing, container, entry, LookupStep, map[], n);
    LastWriteWins(entry, map[], RowsBefore(listing, container, n));
    var v := PageAt(listing, container, n);
    assert !v.Rows?;
  }

  /** The row loop of one listing page: cells 1-3 of each row, and an
      entry for a row with both codes. */
  method ReadCountyRows(table: map<CountyKey, string>, rows: seq<Row>) returns (results: map<CountyKey, string>)
    ensures FoldRows(CountyEntry, LookupStep, table, rows) == Ok(results)
  {
    results := table;
    for i := 0 to |rows|
      invariant FoldRows(CountyEntry, LookupStep, table, rows[..i]) == Ok(results)
    {
      assert rows[..i + 1][..i] == rows[..i];
      var cols := ReadCells(rows[i], 4);
      if cols[1] != "" && cols[2] != "" {
        results := results[(cols[1], cols[2]) := cols[3]];
      }
    }
    assert rows[..|rows|] == rows;
  }

  /** One turn of the paging loop: fetch the page at `offset`, check it,
      and run the row loop over its rows. */
  method ReadCountyPage(listing: nat -> Option<Page>, container: string, ghost n: nat,
                   offset: nat, results: map<CountyKey, string>)
    returns (p: Progress<map<CountyKey, string>>)
    requires offset == n * PageSize
    ensures p == Advance(PageAt(listing, container, n), CountyEntry, LookupStep, results)
  {
    var verdict := ReadListingPage(listing, container, offset);
    match verdict {
      case Broken(e) => return Done(Err(e));
      case Empty => return Done(Ok(results));
      case Rows(rows) =>
        var next := ReadCountyRows(results, rows);
        return Going(next);
    }
  }

  /** `get_counties`: walk the county listing and collect
      (region, county) -> name. */
  method GetCounties(listing: nat -> Option<Page>, container: string)
    returns (r: Result<map<CountyKey, string>>, ghost requested: seq<nat>)
    requires Finite(listing, container)
    ensures Walked(listing, container, CountyEntry, LookupStep, map[], requested, r)
  {
    ghost var stop: nat :| !PageAt(listing, container, stop).Rows?;
    var results: map<CountyKey, string> := map[];
    var offset: nat := 0;
    requested := [];
    while true
      invariant offset == |requested| * PageSize && IsOffsets(requested)
      invariant Walk(listing, container, CountyEntry, LookupStep, map[], |requested|) == Going(results)
      invariant |requested| <= stop
      decreases stop - |requested|
    {
      var p := ReadCountyPage(listing, container, |requested|, offset, results);
      WalkTurn(listing, container, CountyEntry, LookupStep, map[], requested, results, p);
      requested := requested + [offset];
      match p {
        case Done(res) => return res, requested;
        case Going(acc) =>
          results := acc;
          offset := offset + PageSize;
      }
    }
  }

  /** The row loop of one listing page: cells 1-4 of each row, and an
      entry for a row with both codes. */
  method ReadMunicipalityRows(table: map<MunicipalityKey, string>, rows: seq<Row>) returns (results: map<MunicipalityKey, string>)
    ensures FoldRows(MunicipalityEntry, LookupStep, table, rows) == Ok(results)
  {
    results := table;
    for i := 0 to |rows|
      invariant FoldRows(MunicipalityEntry, LookupStep, table, rows[..i]) == Ok(results)
    {
      assert rows[..i + 1][..i] == rows[..i];
      var cols := ReadCells(rows[i], 5);
      if cols[1] != "" && cols[2] != "" {
        results := results[(cols[1], cols[2], cols[3]) := cols[4]];
      }
    }
    assert rows[..|rows|] == rows;
  }

  /** One turn of the paging loop: fetch the page at `offset`, check it,
      and run the row loop over its rows. */
  method ReadMunicipalityPage(listing: nat -> Option<Page>, container: string, ghost n: nat,
                   offset: nat, results: map<MunicipalityKey, string>)
    returns (p: Progress<map<MunicipalityKey, string>>)
    requires offset == n * PageSize
    ensures p == Advance(PageAt(listing, container, n), MunicipalityEntry, LookupStep, results)
  {
    var verdict := ReadListingPage(listing, container, offset);
    match verdict {
      case Broken(e) => return Done(Err(e));
      case Empty => return Done(Ok(results));
      case Rows(rows) =>
        var next := ReadMunicipalityRows(results, rows);
        return Going(next);
    }
  }

  /** `get_municipalities`: walk the municipality listing and collect
      (region, county, municipality) -> name. */
  method GetMunicipalities(listing: nat -> Option<Page>, container: string)
    returns (r: Result<map<MunicipalityKey, string>>, ghost requested: seq<nat>)
    requires Finite(listing, container)
    ensures Walked(listing, container, MunicipalityEntry, LookupStep, map[], requested, r)
  {
    ghost var stop: nat :| !PageAt(listing, container, stop).Rows?;
    var results: map<MunicipalityKey, string> := map[];
    var offset: nat := 0;
    requested := [];
    while true
      invariant offset == |requested| * PageSize && IsOffsets(requested)
      invariant Walk(listing, container, MunicipalityEntry, LookupStep, map[], |requested|) == Going(results)
      invariant |requested| <= stop
      decreases stop - |requested|
    {
      var p := ReadMunicipalityPage(listing, container, |requested|, offset, results);
      WalkTurn(listing, container, MunicipalityEntry, LookupStep, map[], requested, results, p);
      requested := requested + [offset];
      match p {
        case Done(res) => return res, requested;
        case Going(acc) =>
          results := acc;
          offset := offset + PageSize;
      }
    }
  }
}
