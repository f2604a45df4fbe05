# Castle and manor-house scrapers, modelled in Dafny

Three scripts collect the Polish castle and manor-house registers and write
them as GeoJSON:

- `zamkisp.py` pages through the castle list of zamkisp.pl, 100 rows per
  page. It opens every castle's detail page, resolves the voivodeship,
  county and municipality codes through lookup tables, and writes one point
  per castle.
- `dworysp.py` does the same for the manor-house list of
  dworyipalace.zamkisp.pl. Its detail pages are forms whose labelled rows
  fill a keyword dictionary, and the record is built from that dictionary.
  The coordinate row is normalised from several textual forms.
- `zamkinet.py` reads the alphabetical index of zamki.net.pl. It fetches
  every castle page twice: part 1 holds the description table with its
  difficulty pictograms, part 2 holds the coordinate counter. It writes one
  point per castle that has both coordinates.

The model treats HTML as data. A `Page` maps a container id to its tables,
rows and cells, and also records the headings, text blocks and anchors the
scripts look up. A fetch is a function from a URL (and an offset or a page
part) to an optional page; `None` stands for a non-2xx status. Every
exception the scripts can raise becomes an `Err` of `Outcomes.Error`.

| module | what it holds |
|---|---|
| `Outcomes` | `Option`, `Result`, the error kinds, and `dict.get` as `Get` |
| `Text` | `str.strip`, `str.replace`, the `\s+` collapse, `str.split(" ")` and zero-padded digits |
| `Numbers` | `float()` on decimal text, `date.fromisoformat`/`isoformat`, and the `0000-00-00` sentinel |
| `Html` | pages, tables, rows and cells; the cell text of a column; `find` by class |
| `Dispatch` | the `if "…" in caption / elif …` chains: the first pattern found wins |
| `Paging` | the `while keep_running` offset loop shared by every listing, and the row fold inside it |
| `Lookups` | `get_counties` and `get_municipalities`, which are identical in both zamkisp scripts |
| `GeoJson` | features, and the JSON encodings of optional text, numbers and dates |
| `Coordinates` | the coordinate normaliser of `dworysp.py` |
| `Zamkisp` | `get_details`, `get_castles` and `to_geojson` of `zamkisp.py` |
| `Dworysp` | `get_details`, `get_palaces` and `to_geojson` of `dworysp.py` |
| `Zamkinet` | every function of `zamkinet.py` except `main` |

Loops in the scripts are modelled as methods with loops. Each method is
proved equal to a specification function: a fold over rows, a walk over
listing pages, or an order-preserving gather. Lemmas then state what the
scripts promise about those functions.

## Model

| member | source | states |
|---|---|---|
| Outcomes.Get | zamkisp.py:205-208 | `dict.get` gives `None` exactly for a missing key, and otherwise the stored value |
| Text.Strip | zamkisp.py:128 | the result has no leading or trailing whitespace, is no longer than the input and uses only its characters; text already trimmed is unchanged |
| Text.StripParts | zamkisp.py:128 | the text is the stripped text with nothing but whitespace before and after it |
| Text.StripOf | zamkisp.py:128 | whitespace around text whose ends are not white is exactly what is removed, so with StripParts the result is determined |
| Text.StripKeepsWords | dworysp.py:143 | stripping keeps the whitespace-separated words, in order |
| Text.Replace | dworysp.py:137-142 | every character comes from the text or the replacement; a one-character pattern that the replacement lacks is gone from the result |
| Text.ReplaceAbsent | dworysp.py:137-142 | text without the pattern's first character is left unchanged |
| Text.ReplaceSkip | dworysp.py:137-142 | a prefix without the pattern's first character passes through and replacing continues after it |
| Text.ReplaceHit | dworysp.py:137-142 | an occurrence at the front is replaced and scanning resumes after it, with no overlapping matches |
| Text.ReplaceNone | dworysp.py:137-142 | text that does not contain the pattern is left unchanged |
| Text.ReplaceFirst | dworysp.py:137-142 | the first occurrence, with no earlier one even overlapping it, is replaced, the text before it is copied, and replacing goes on after it |
| Text.ReplaceConcat | dworysp.py:138-139 | for a one-character pattern, replacing the parts of a text and joining them equals replacing the whole text |
| Text.ReplaceChar | dworysp.py:138-139 | replacing one character by one character keeps the length, and each position holds the replacement exactly where it held the pattern |
| Text.CollapseSpaces | dworysp.py:134-145 | every whitespace run becomes a single plain space; emptiness and whitespace at either end are kept; no new characters appear |
| Text.CollapseKeepsWords | dworysp.py:134-145 | collapsing keeps the words, in order |
| Text.CollapseStripped | dworysp.py:134-145 | collapsing stripped text gives normal text: trimmed, single plain spaces only |
| Text.CollapseNoSpace | dworysp.py:134-145 | text without whitespace is unchanged |
| Text.CollapseSingleSpaces | dworysp.py:134-145 | text whose only whitespace is single plain spaces, not at the end, is unchanged |
| Text.CollapseGap | dworysp.py:134-145 | two words around any whitespace run become the words joined by one space |
| Text.Split | dworysp.py:145 | at least one part; no part holds the separator; parts use only the text's characters; text without the separator is one part |
| Text.SplitAt | dworysp.py:145 | the text before the first separator is the first part, and the rest is split the same way |
| Text.SplitNormal | dworysp.py:145 | normal text splits into non-empty words without whitespace, and into at least two of them exactly when it holds a space |
| Text.SplitWords | dworysp.py:145 | normal text split at its spaces gives exactly its words |
| Text.PaddedValue | zamkisp.py:95-96 | a zero-padded number reads back as that number |
| Text.ValuePadded | zamkisp.py:95-96 | a digit string is the zero-padded form of its own value |
| Numbers.ParseFloat | zamkisp.py:128-130 | `float()` of a single digit is that digit's value |
| Numbers.FloatOfDigits | zamkisp.py:128-130 | `float()` rejects the empty text, accepts only text with some digit, and gives a digit string its decimal value |
| Numbers.TwoDigitDecimal | zamkinet.py:44-45 | a two-digit integer part with a fraction parses, and its value lies in the decade of its first digit |
| Numbers.IsoFormat | zamkisp.py:95-96 | `isoformat` gives ten characters with dashes at positions 4 and 7 |
| Numbers.ParseIsoDate | zamkisp.py:134 | `fromisoformat` accepts only ten-character text |
| Numbers.IsoRoundTrip | zamkisp.py:95-96 | parsing the ISO form of a valid date gives that date back |
| Numbers.IsoCanonical | zamkisp.py:134 | every accepted text is the ISO form of its date, so parsing is injective |
| Numbers.SentinelIsNotADate | zamkisp.py:133 | `0000-00-00` would be rejected by `fromisoformat`, which is why it is tested for first |
| Numbers.DateField | dworysp.py:158-161 | the sentinel gives `None`; other text fails exactly when it is not an ISO date; a date found formats back to the text |
| Html.AllRows | zamkinet.py:123 | every row of every table is visited; one table gives its own rows |
| Html.Column | zamkisp.py:184-201 | the stripped text of cell `i`, or `""` when the row has fewer cells (the variable keeps its initial value) |
| Html.FindByClass | zamkinet.py:124-126 | the first cell of the class: found exactly when some cell has it, and no earlier cell does |
| Html.ReadCells | zamkisp.py:184-201 | the enumerate loop gives exactly `width` columns, each the cell's stripped text or `""` |
| GeoJson.Field | zamkisp.py:87-99 | a property is read by position and key, and is found exactly when that position holds that key |
| GeoJson.OptText | zamkisp.py:88-90 | `None` becomes JSON null and nothing else does |
| GeoJson.OptNumber | zamkisp.py:102 | a missing coordinate becomes JSON null and nothing else does |
| GeoJson.OptDate | zamkisp.py:95-96 | a date becomes its ISO string, and `None` becomes null |
| GeoJson.ReadOptText | zamkisp.py:88-90 | reads back exactly a string or a null |
| GeoJson.ReadOptNumber | zamkisp.py:102 | reads back exactly a number or a null |
| GeoJson.OptDateRoundTrip | zamkisp.py:95-96 | an optional date written as JSON reads back unchanged |
| Dispatch.FirstMatch | zamkisp.py:125-142 | the index of the first pattern that occurs in the caption; none exactly when no pattern occurs |
| Dispatch.Classify | dworysp.py:121-161 | the branch taken is that of the first pattern found; no branch exactly when no pattern occurs |
| Dispatch.ClassifyAt | dworysp.py:121-161 | a pattern found, with none before it found, decides the branch |
| Dispatch.FirstPatternWins | dworysp.py:121-122 | when the first pattern occurs, its branch is taken whatever else occurs |
| Paging.Examine | zamkisp.py:165-176 | a failed status, a missing container, fewer than two tables, an empty second table or a page of rows, each exactly in its own case |
| Paging.ReadListingPage | zamkisp.py:164-176 | fetching and inspecting the page at an offset gives `Examine` of that page |
| Paging.FoldRowsAppend | zamkisp.py:177 | the row loop over two runs of rows is the loop over the first, continued over the second |
| Paging.FoldRowsFailed | zamkisp.py:177 | a row that raises ends the loop with its error, whatever rows follow |
| Paging.FoldRowsNext | zamkisp.py:177 | one more row is one more loop step |
| Paging.Advance | zamkisp.py:171-177 | the loop goes on only after a page of rows |
| Paging.WalkNext | zamkisp.py:163-226 | a walk still running after `n` pages takes its next turn on page `n` |
| Paging.WalkTurn | zamkisp.py:163-226 | one turn at offset `100·n` either ends the walk with its result or moves it to page `n + 1` |
| Paging.WalkDoneStays | zamkisp.py:174-176 | once stopped, the walk stays stopped with the same result |
| Paging.FetchCountUnique | zamkisp.py:163-226 | the number of pages requested before stopping is determined by the listing |
| Paging.WalkGoing | zamkisp.py:163-226 | after `n` pages the walk is running exactly when each of them held rows and no row failed; it then holds the fold of all their rows |
| Paging.WalkEnds | zamkisp.py:171-176 | an empty page ends the walk with what was gathered; a broken page ends it with that page's error |
| Paging.ThreePageListing | zamkisp.py:156-157 | two full pages followed by an empty one give 200 results after three fetches |
| Paging.OneItemPerRow | dworysp.py:192-195 | a loop adding one item per row adds exactly as many items as rows |
| Lookups.CountyEntry | zamkisp.py:250-265 | a row gives an entry exactly when both code cells are non-empty; the key is the two codes and the value is cell 3 |
| Lookups.MunicipalityEntry | zamkisp.py:290-308 | a row gives an entry exactly when the voivodeship and county codes are non-empty; the key is three codes and the value is cell 4 |
| Lookups.LookupStep | zamkisp.py:264-265 | a row never fails, and adds its key when it has an entry |
| Lookups.LastWriteWins | zamkisp.py:250-265 | the keys are those already present plus those written; a key holds the value of its last row; untouched keys are unchanged |
| Lookups.LookupOverPages | zamkisp.py:230-267 | the finished table is the row fold over every page before the empty one, and its keys are exactly those some row wrote |
| Lookups.ReadCountyRows | zamkisp.py:250-265 | the row loop of one page equals the fold of `LookupStep` |
| Lookups.ReadCountyPage | dworysp.py:206-236 | one turn of the county loop equals `Advance` on that page |
| Lookups.GetCounties | zamkisp.py:230-267 | the method requests offsets 0, 100, … and returns the walk's result |
| Lookups.ReadMunicipalityRows | zamkisp.py:290-308 | the row loop of one page equals the fold of `LookupStep` |
| Lookups.ReadMunicipalityPage | dworysp.py:246-279 | one turn of the municipality loop equals `Advance` on that page |
| Lookups.GetMunicipalities | zamkisp.py:270-310 | the method requests offsets 0, 100, … and returns the walk's result |
| Coordinates.Unmark | dworysp.py:137-142 | after the replace chain no `,`, `;` or `°` is left, and any new character is a space |
| Coordinates.SeparatorsToSpaces | dworysp.py:137-139 | on text without `°`, each `,` and `;` becomes a space in its own place and every other character is kept |
| Coordinates.UnmarkUnmarked | dworysp.py:137-142 | on text without `°`, the chain reduces to the two separator replacements |
| Coordinates.NorthMarkRemoved | dworysp.py:140 | a `°N` between two texts without `°` is removed whole, and each side is treated as on its own |
| Coordinates.EastMarkRemoved | dworysp.py:141 | a `°E` between two texts without `°` is removed whole, and each side is treated as on its own |
| Coordinates.Normalise | dworysp.py:134-145 | the normalised text is trimmed, single-spaced and free of separators and degree marks, and has exactly the words of the unmarked text, in order |
| Coordinates.CoordTokens | dworysp.py:134-145 | unpacking succeeds exactly when the unmarked text has at least two words (equivalently, the normalised text holds a space) and gives its first two words; otherwise the unpacking error |
| Coordinates.Gap | dworysp.py:134-145 | two words around any whitespace normalise and split to exactly those two words |
| Coordinates.SpaceSeparated | dworysp.py:133-147 | `"a b"` gives latitude `a` and longitude `b` |
| Coordinates.CommaSeparated | dworysp.py:133-147 | `"a, b"` gives latitude `a` and longitude `b` |
| Coordinates.BareSeparator | dworysp.py:133-147 | `"a,b"` and `"a;b"` give latitude `a` and longitude `b` |
| Coordinates.HemisphereMarked | dworysp.py:133-147 | `"a°N; b°E"` gives latitude `a` and longitude `b` |
| Coordinates.ExtraWordsIgnored | dworysp.py:145 | words after the second are dropped by the `[:2]` slice |
| Coordinates.SingleWord | dworysp.py:134-145 | a single word cannot be unpacked into two values |
| Zamkisp.NoDetails | zamkisp.py:116-120 | empty description, no coordinates, no dates, and the page's own url |
| Zamkisp.Selects | zamkisp.py:124-142 | a row selects a branch only when it has more than two cells, and then the branch of the first caption found in cell 1 |
| Zamkisp.DetailStep | zamkisp.py:122-142 | a row that selects no branch changes nothing; a row that selects one runs that branch on cell 2; the url is never changed |
| Zamkisp.SetField | zamkisp.py:125-142 | the description fails exactly without a textarea; a coordinate fails exactly when `float` rejects the stripped text; a date fails exactly when it is neither the sentinel nor an ISO date; on success the branch's own value becomes the stripped textarea text, the float, or the date (`None` for the sentinel), and nothing else changes |
| Zamkisp.SetFieldWrites | zamkisp.py:125-142 | a branch succeeds exactly when its value can be read; it then holds that value, and the other four values and the url are as before |
| Zamkisp.DetailsOkPerRow | zamkisp.py:122-142 | the row loop succeeds exactly when every row that selects a branch can read its value |
| Zamkisp.LastDetailWins | zamkisp.py:122-142 | after the row loop each value is what the last row selecting its branch read, or what it held before when no row selects it; the url is unchanged |
| Zamkisp.ExtractDetails | zamkisp.py:108-150 | a failed status, a missing `main_full` and a page without tables give their own errors |
| Zamkisp.ExtractedValues | zamkisp.py:108-150 | with the container and a table, the details are read exactly when every selecting row of the first table reads; they then carry the fetched url, and each value is the last such row's reading or its default |
| Zamkisp.DetailsKeepUrl | zamkisp.py:122-150 | the row loop never changes the url |
| Zamkisp.ExtractedUrl | zamkisp.py:143-150 | the details carry the url that was fetched |
| Zamkisp.NoRowsNoDetails | zamkisp.py:116-150 | a first table without rows gives the defaults |
| Zamkisp.DetailLabelOrder | zamkisp.py:125-142 | the five captions are tried in source order, and a caption with none of them selects nothing |
| Zamkisp.SentinelDateRow | zamkisp.py:131-136 | `0000-00-00` clears the date; any other text that is not an ISO date fails the page |
| Zamkisp.DescriptionNeedsTextarea | zamkisp.py:125-126 | a description row without a textarea fails the page |
| Zamkisp.ReadDetailRow | zamkisp.py:123-142 | one pass of the row loop equals `DetailStep` |
| Zamkisp.SetDescription | zamkisp.py:126 | equals `SetField` for the description |
| Zamkisp.SetCoordinate | zamkisp.py:127-130 | equals `SetField` for a coordinate |
| Zamkisp.SetDate | zamkisp.py:131-142 | equals `SetField` for a date |
| Zamkisp.GetDetails | zamkisp.py:108-150 | the method gives `ExtractDetails` of the fetched page |
| Zamkisp.RowRecord | zamkisp.py:184-225 | a row without a link fails; otherwise the record has the detail page's url, coordinates, description and dates, or that page's error; id, name and kind are the stripped cells 3, 4 and 7; the names are looked up under the row's codes |
| Zamkisp.CastleStep | zamkisp.py:177-225 | a row of fewer than nine cells adds nothing; a longer row adds its record or fails with that record's error |
| Zamkisp.LongRows | zamkisp.py:202 | only rows reaching `case 8` yield records, and at most one each |
| Zamkisp.CastlesOkPerRow | zamkisp.py:177-225 | the row loop succeeds exactly when every long row's record does |
| Zamkisp.CastlesPerRow | zamkisp.py:177-225 | the loop keeps earlier results and appends one record per long row, in row order |
| Zamkisp.ReadCastleRow | zamkisp.py:178-225 | one pass of the row loop equals `CastleStep` |
| Zamkisp.ReadCastleRows | zamkisp.py:177-225 | the row loop equals the fold of `CastleStep` |
| Zamkisp.ReadCastlePage | zamkisp.py:164-225 | one turn of the page loop equals `Advance` on that page |
| Zamkisp.GetCastles | zamkisp.py:153-227 | the method requests offsets 0, 100, … and returns the walk's result |
| Zamkisp.CastlesInListingOrder | zamkisp.py:153-227 | a successful run returns one record per long listing row, in listing order |
| Zamkisp.CastleFeatureRoundTrip | zamkisp.py:84-104 | the feature holds the whole record: reading it back gives the record |
| Zamkisp.ToGeoJson | zamkisp.py:79-105 | one feature per castle, in order |
| Dworysp.Fields | dworysp.py:48-64 | a record's keyword arguments name every field, each with a value of its kind |
| Dworysp.BuildFields | dworysp.py:165 | building a record from complete, well-typed keywords and reading its fields back gives those keywords |
| Dworysp.Assemble | dworysp.py:165 | `Row(**data)` succeeds exactly when every field is present, and the record then holds `data` |
| Dworysp.AssembleFields | dworysp.py:165 | a record rebuilt from its own fields is the same record |
| Dworysp.LabelOf | dworysp.py:118-121 | a row of at most two cells runs no branch; a longer row runs the first branch whose caption occurs |
| Dworysp.StartForm | dworysp.py:112-114 | the dictionary holds only the url; both codes are empty |
| Dworysp.Placeholder | dworysp.py:148-155 | `None` exactly for `""` or `"---"`, otherwise the text |
| Dworysp.CoordValues | dworysp.py:133-147 | the unpacking error when there are fewer than two words; the number error when either word is not a float; otherwise both floats |
| Dworysp.Branch | dworysp.py:121-161 | a branch assigns exactly its keys; the voivodeship row sets `kod_woj` and the county row sets `kod_pow`, and no other row changes them |
| Dworysp.IdentityValues | dworysp.py:121-124 | `Oznaczenie:` stores the value under `dwor_id_sp` and `Nazwa:` under `nazwa_sp`, and neither moves a code |
| Dworysp.RegionValues | dworysp.py:125-132 | the voivodeship row stores `DICT_WOJEWODZTWA.get(value)`, `None` for an unknown code, and sets `kod_woj`; the county row stores the county looked up under `(kod_woj, value)` and sets `kod_pow`; the PGA row stores the municipality looked up under the three codes |
| Dworysp.CoordinateEffect | dworysp.py:133-147 | the coordinate branch assigns exactly latitude and longitude, with numbers, keeps both codes, and fails exactly when the two values cannot be read |
| Dworysp.CoordinateBranch | dworysp.py:133-147 | when both values are read, the row stores exactly those two floats and moves no code |
| Dworysp.DescriptionValue | dworysp.py:156-157 | the description row stores the stripped textarea text |
| Dworysp.DateValues | dworysp.py:158-161 | a date row whose value is an ISO date other than the sentinel stores that date |
| Dworysp.BranchTyped | dworysp.py:121-161 | every value a branch stores has its field's kind |
| Dworysp.OtherTyped | dworysp.py:121-132 | every value the branches other than the coordinate branch store has its field's kind |
| Dworysp.BranchFailures | dworysp.py:133-164 | a description without a textarea, an unpackable or unparsable coordinate and an invalid date are the only failures, and each one is fatal |
| Dworysp.Apply | dworysp.py:121-161 | the keys become the old ones plus those assigned; each assigned key holds its assigned value; unassigned keys are unchanged; the codes become the branch's; kinds are kept |
| Dworysp.FormStep | dworysp.py:116-161 | a row that runs no branch changes nothing |
| Dworysp.Run | dworysp.py:121-161 | a branch fails exactly when its value is rejected |
| Dworysp.StepFacts | dworysp.py:116-161 | one row assigns exactly its branch's keys, keeps the others, keeps kinds, and moves the codes only on region rows |
| Dworysp.ExtractPalace | dworysp.py:104-110 | a failed status, a missing `userForm` and a form without tables give their own errors |
| Dworysp.ExtractedUrl | dworysp.py:112 | the record carries the url that was fetched |
| Dworysp.FormKeepsTyping | dworysp.py:116-161 | the row loop keeps every value of its kind and never changes the url |
| Dworysp.FormKeys | dworysp.py:116-161 | after the loop a key is present exactly when it was at the start or some row assigned it |
| Dworysp.LastValue | dworysp.py:125-130 | with no row of the branch, the code keeps its start value |
| Dworysp.FormCodes | dworysp.py:125-130 | after the loop the codes are the values of the last voivodeship and county rows |
| Dworysp.StepStored | dworysp.py:116-161 | one row stores its branch's value under each key it assigns and leaves every other key as it was |
| Dworysp.LastStoredWins | dworysp.py:116-161 | after the row loop each key holds what the last row assigning it stored, with the codes carried to that row, or its previous value when no row assigns it |
| Dworysp.CarriedCodes | dworysp.py:128-132 | the county and municipality are looked up under the codes of the last region rows before them |
| Dworysp.StepLookups | dworysp.py:128-132 | a county or municipality row looks its value up under the carried codes |
| Dworysp.PalaceComplete | dworysp.py:116-165 | when every row goes through, a record results exactly when every field is assigned by some row |
| Dworysp.ExtractedPalaceValues | dworysp.py:104-165 | a record read from a form holds in every field what the last row assigning that field stored |
| Dworysp.NoRowsNoPalace | dworysp.py:112-165 | an empty form cannot build a record |
| Dworysp.IdBeforeName | dworysp.py:121-124 | `Oznaczenie:` is tested before `Nazwa:` |
| Dworysp.PlaceholderRule | dworysp.py:148-155 | the four reference rows store `None` for `""` or `"---"`, and the text otherwise |
| Dworysp.SentinelDateRow | dworysp.py:158-161 | `0000-00-00` stores `None` |
| Dworysp.CoordinateForms | dworysp.py:133-147 | `"a b"`, `"a, b"` and `"a°N; b°E"` all store `a` as latitude and `b` as longitude |
| Dworysp.CoordinatesOfTokens | dworysp.py:133-147 | the coordinate row stores the floats of the first two words |
| Dworysp.ReadFormRow | dworysp.py:117-161 | one pass of the form loop equals `FormStep` |
| Dworysp.RunBranch | dworysp.py:121-161 | one branch equals `Run` |
| Dworysp.GetDetails | dworysp.py:98-165 | the method gives `ExtractPalace` of the fetched page |
| Dworysp.TablesOf | dworysp.py:127-132 | the fixed voivodeship table and the two fetched lookup tables |
| Dworysp.RowPalace | dworysp.py:193 | a row without cell 9 or without its link fails |
| Dworysp.RowPalaceUrl | dworysp.py:193-194 | a listing row's record is the detail page's record of the site url plus the row's link |
| Dworysp.PalaceStep | dworysp.py:193-195 | every row adds its record, or fails with that record's error |
| Dworysp.PalacesPerRow | dworysp.py:192-195 | the row loop succeeds exactly when every row's record does, and it appends them in row order |
| Dworysp.FirstFailingRow | dworysp.py:192-195 | the first failing row decides the error |
| Dworysp.ReadPalaceRow | dworysp.py:193-195 | one pass of the row loop equals `PalaceStep` |
| Dworysp.ReadPalaceRows | dworysp.py:192-195 | the row loop equals the fold of `PalaceStep` |
| Dworysp.ReadPalacePage | dworysp.py:179-195 | one turn of the page loop equals `Advance` on that page |
| Dworysp.GetPalaces | dworysp.py:168-197 | the method requests offsets 0, 100, … and returns the walk's result |
| Dworysp.PalacesInListingOrder | dworysp.py:168-197 | a successful run returns one record per listing row, in listing order |
| Dworysp.PalaceFeatureRoundTrip | dworysp.py:72-93 | the feature holds the whole record: reading it back gives the record |
| Dworysp.ToGeoJson | dworysp.py:67-95 | one feature per record, in order |
| Zamkinet.Blank | zamkinet.py:98-113 | before the rows are read the name and url are set, and no coordinate and no table slot is |
| Zamkinet.MatchAt | zamkinet.py:44-45 | a match is `(`, a token of the axis and `)`, where a token has a leading digit in the axis's range, a digit, a dot and one or more digits |
| Zamkinet.FindAll | zamkinet.py:162-163 | `findall` returns only tokens of the axis |
| Zamkinet.FindAllComplete | zamkinet.py:162-163 | every token of the axis in parentheses anywhere in the text is in `findall`'s result |
| Zamkinet.FindCountsStarts | zamkinet.py:162-163 | `findall` returns exactly one group for each position where a match starts |
| Zamkinet.NoTokenOnBothAxes | zamkinet.py:44-45 | no text is both a latitude and a longitude token |
| Zamkinet.PairLatitude | zamkinet.py:162 | the usual counter text holds exactly one latitude token, its own |
| Zamkinet.PairLongitude | zamkinet.py:163 | the usual counter text holds exactly one longitude token, its own |
| Zamkinet.TokenValue | zamkinet.py:165-166 | a token always parses; latitudes lie in [40, 60) and longitudes in [10, 30) |
| Zamkinet.Coordinates | zamkinet.py:161-170 | coordinates are set exactly when each axis has exactly one match, both or neither, as the floats of the matches and within their ranges |
| Zamkinet.UsualLocation | zamkinet.py:161-166 | `"(lat) (lon)"` gives those two numbers |
| Zamkinet.FifthFromEnd | zamkinet.py:141 | `[-5:-4]` is the fifth character from the end, or `""` for shorter text |
| Zamkinet.OneCharFloat | zamkinet.py:141 | `float` of one character succeeds exactly on a digit, and fails on `""` |
| Zamkinet.ImageDigit | zamkinet.py:141 | the scale succeeds exactly when the fifth character from the end is a digit, giving that digit (0 to 9); otherwise a value error |
| Zamkinet.LabelOf | zamkinet.py:130-155 | `match` compares the caption exactly: a case is taken only for its own caption, and none for any other text |
| Zamkinet.CaptionRoundTrip | zamkinet.py:130-155 | each case is reached by its caption |
| Zamkinet.Put | zamkinet.py:131-155 | a branch sets its own three fields and no other field |
| Zamkinet.CellsOf | zamkinet.py:124-126 | the row's `opis1`, `opis2` and `opis3` cells, or an attribute error when one is missing |
| Zamkinet.Branch | zamkinet.py:131-155 | the state takes the image's `alt`; the three scales need `src` and `alt` and take the digit of `src`; entry and parking take only the note; every branch stores the note; a missing attribute is a key error and a bad digit a value error |
| Zamkinet.RowWrite | zamkinet.py:124-155 | a row without an image fails the assertion; an unknown caption writes nothing; a known one writes its case |
| Zamkinet.InfoStep | zamkinet.py:123-155 | one row fails or succeeds with its branch; name, url and coordinates are untouched; only the branch's own slot changes |
| Zamkinet.ReadInfoRow | zamkinet.py:124-155 | one pass of the row loop equals `InfoStep` |
| Zamkinet.LastRowWins | zamkinet.py:123-155 | after the loop each slot holds what the last row with its caption wrote |
| Zamkinet.UncaptionedKept | zamkinet.py:130-155 | a slot whose caption no row carries keeps its start value |
| Zamkinet.Describe | zamkinet.py:115-155 | the name is the heading of `srodek-zp-gorap`, the url is the url fetched, and each slot is the last row's value |
| Zamkinet.Locate | zamkinet.py:159-170 | coordinates exactly when `licznik` exists and locates the castle, both or neither, in range |
| Zamkinet.PageData | zamkinet.py:96-190 | a record needs both page parts; it holds the url, the heading and the last row of each caption; its coordinates come from part 2, both or neither, in range |
| Zamkinet.GetPageData | zamkinet.py:96-190 | the method equals `PageData` |
| Zamkinet.GatherInOrder | zamkinet.py:200-201 | `gather` succeeds exactly when every page does, with the results in url order; otherwise it fails with the error of the first failing url |
| Zamkinet.GatherFailed | zamkinet.py:200-201 | a failure among the first urls fails the whole gather |
| Zamkinet.GetPagesData | zamkinet.py:193-202 | the method equals the ordered gather of `PageData` |
| Zamkinet.Hrefs | zamkinet.py:92 | every anchor's href, in order, or nothing when one is missing |
| Zamkinet.PageUrls | zamkinet.py:84-93 | the urls are the anchors' hrefs in order; a missing div or an empty anchor list fails the assertion |
| Zamkinet.GetListOfCastlePages | zamkinet.py:84-93 | the method equals `PageUrls` |
| Zamkinet.LocatedIsMapped | zamkinet.py:54 | a scraped castle is written exactly when it has coordinates, since they are never zero |
| Zamkinet.Kept | zamkinet.py:53-80 | only castles with truthy coordinates are written |
| Zamkinet.KeptExactly | zamkinet.py:53-80 | a castle is written exactly when it is among the rows and has truthy coordinates |
| Zamkinet.KeptAppend | zamkinet.py:53-80 | filtering keeps the order of the rows |
| Zamkinet.InfoFeatureRoundTrip | zamkinet.py:55-78 | the feature holds the whole castle: reading it back gives the castle |
| Zamkinet.ToGeoJson | zamkinet.py:48-81 | one feature per castle with coordinates, in order, each that castle's feature |

## Left out

- HTTP, the HTML parser and the file system are not modelled. A fetch is a
  function from url (and offset or page part) to an optional parsed page, and
  `None` stands for `raise_for_status` failing. `json.dump`, the dated output
  file name and every `print` are left out.
- Concurrency: `asyncio.gather` is a sequential, order-preserving map. The
  error reported is that of the first failing url in list order, not the
  first in time. Connection limits, keep-alive and timeouts are left out.
- The listing loops never end on a listing where every page holds rows. The
  walks therefore require `Finite`: some page is empty or broken.
- `float()` is modelled on ASCII decimal text with an optional sign and
  fraction. Exponents, `inf`, `nan`, underscores, surrounding whitespace and
  non-ASCII digits are not modelled. Values are exact reals, not binary
  floats. `\d` in the two coordinate regexes is likewise ASCII only.
- `date.fromisoformat` is modelled only for the `YYYY-MM-DD` form. Python
  3.11 and later also accept other ISO 8601 forms, which are not modelled.
- `Text.IsSpace` follows `str.isspace` for the characters Python counts as
  whitespace; case folding and normalisation are not involved.
- `find_all("tr")` and `find("td")` search nested tables. The model's rows
  are the rows of the table as given, without nesting. The multi-valued HTML
  `class` attribute is modelled as a single class per cell.
- Zamkisp.RowRecord and Dworysp.RowPalace: the detail page of a listing row
  is reached through a function argument whose agreement with `get_details`
  is a precondition (`Serves`, `DetailsOf`). This keeps the listing proofs
  separate from the detail proofs; together they state the same thing as a
  direct call.
- Zamkinet.CastleInfo types every optional field as `Option`. The source
  annotates `str` and `int` but stores `None` when a row is absent, and a
  `float` in the `int` fields.
- Dworysp.FormStep: its contract states only the no-branch case. What a row
  does is stated by StepFacts, StepStored, BranchFailures and StepLookups.
- Zamkisp.ExtractDetails and Dworysp.ExtractPalace state their error cases
  as contracts. The successful result is stated by separate lemmas:
  ExtractedValues gives each detail value and the url, and
  ExtractedPalaceValues, ExtractedUrl and PalaceComplete give each field of
  the record and when a record results.
- `main` in each script is not modelled: it only chains the modelled
  operations and writes the file.
