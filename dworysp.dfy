/** The dworyipalace.zamkisp.pl manor-house scraper: the detail-page form
    read into a `data` dict with the region codes carried from row to row,
    the `Row(**data)` construction, the palace listing walk and the GeoJSON
    projection. The county and municipality tables are the `Lookups` ones,
    read from the `ja-content` listings. */
module Dworysp {
  import opened Outcomes
  import opened Text
  import opened Numbers
  import opened Html
  import opened Dispatch
  import opened Paging
  import opened Lookups
  import opened GeoJson
  import opened Coordinates

  /** The site prefix of the detail links. */
  const Site := "https://dworyipalace.zamkisp.pl"

  /** The element holding the listing tables. */
  const ListingContainer := "ja-content"

  /** The element holding the detail form. */
  const FormContainer := "userForm"

  // ------------------------------------------------------------- the record

  /** The keys of the `data` dict, one per field of the `Row` dataclass. */
  datatype Key = Url | DworId | Name | Voivodeship | County | Municipality | Latitude | Longitude
               | Castle | Fortress | Stronghold | Gord | Description | Introduced | Updated

  /** Every field of `Row`. */
  const AllKeys: set<Key> := {Url, DworId, Name, Voivodeship, County, Municipality, Latitude, Longitude,
                              Castle, Fortress, Stronghold, Gord, Description, Introduced, Updated}

  /** The values the extractor stores in `data`: a text, a text or None, a
      float, a date or None. */
  datatype Value = Str(s: string) | OptStr(o: Option<string>) | Num(x: real) | Day(d: Option<Date>)

  /** The kind of value the extractor stores under each key. */
  predicate Fits(k: Key, v: Value) {
    match k
    case Url | DworId | Name | Description => v.Str?
    case Latitude | Longitude => v.Num?
    case Introduced | Updated => v.Day?
    case Voivodeship | County | Municipality | Castle | Fortress | Stronghold | Gord => v.OptStr?
  }

  /** Every value in `data` is of its key's kind. */
  predicate WellTyped(data: map<Key, Value>) {
    forall k :: k in data ==> Fits(k, data[k])
  }

  /** The `Row` dataclass. The region names may be None: `dict.get` on an
      unknown code stores None in a field annotated `str`. */
  datatype Palace = Palace(name: string, lat: real, lon: real,
                           voivodeship: Option<string>, county: Option<string>, municipality: Option<string>,
                           id: string, castle: Option<string>, fortress: Option<string>,
                           stronghold: Option<string>, gord: Option<string>,
                           introduced: Option<Date>, updated: Option<Date>, opis: string, url: string)

  /** The keyword argument for field `k` of `p`. */
  function FieldValue(p: Palace, k: Key): (v: Value)
    ensures Fits(k, v)
  {
    match k
    case Url => Str(p.url)
    case DworId => Str(p.id)
    case Name => Str(p.name)
    case Voivodeship => OptStr(p.voivodeship)
    case County => OptStr(p.county)
    case Municipality => OptStr(p.municipality)
    case Latitude => Num(p.lat)
    case Longitude => Num(p.lon)
    case Castle => OptStr(p.castle)
    case Fortress => OptStr(p.fortress)
    case Stronghold => OptStr(p.stronghold)
    case Gord => OptStr(p.gord)
    case Description => Str(p.opis)
    case Introduced => Day(p.introduced)
    case Updated => Day(p.updated)
  }

  /** The keyword arguments that build `p`: one per field, each of its kind. */
  function Fields(p: Palace): (data: map<Key, Value>)
    ensures data.Keys == AllKeys && WellTyped(data)
  {
    map k | k in AllKeys :: FieldValue(p, k)
  }

  /** Every key is a field of `Row`. */
  lemma EveryKey(k: Key)
    ensures k in AllKeys
  {
  }

  /** The record whose fields are the values of a complete `data`. */
  function Build(data: map<Key, Value>): Palace
    requires WellTyped(data) && AllKeys <= data.Keys
  {
    Palace(data[Name].s, data[Latitude].x, data[Longitude].x,
           data[Voivodeship].o, data[County].o, data[Municipality].o,
           data[DworId].s, data[Castle].o, data[Fortress].o, data[Stronghold].o, data[Gord].o,
           data[Introduced].d, data[Updated].d, data[Description].s, data[Url].s)
  }

  /** A complete, well-typed `data` is exactly the keyword arguments of the
      record built from it. */
  lemma BuildFields(data: map<Key, Value>)
    requires WellTyped(data) && AllKeys <= data.Keys
    ensures Fields(Build(data)) == data
  {
    var f := Fields(Build(data));
    forall k | k in data ensures k in f && f[k] == data[k] {
      EveryKey(k);
      FieldOf(data, k);
    }
  }

  /** One keyword argument of the record built from `data` is the value
      `data` holds for it. */
  lemma FieldOf(data: map<Key, Value>, k: Key)
    requires WellTyped(data) && AllKeys <= data.Keys && k in data
    ensures FieldValue(Build(data), k) == data[k]
  {
    assert Fits(k, data[k]);
  }

  /** `Row(**data)`: the dataclass has no defaults, so a missing field is an
      error; otherwise the record is the one whose keyword arguments are
      exactly `data`. */
  function Assemble(data: map<Key, Value>): (r: Result<Palace>)
    requires WellTyped(data)
    ensures r.Ok? <==> AllKeys <= data.Keys
    ensures r.Err? ==> r.error == IncompleteRecord
    ensures r.Ok? ==> Fields(r.value) == data
  {
    if AllKeys <= data.Keys then
      BuildFields(data);
      Ok(Build(data))
    else Err(IncompleteRecord)
  }

  /** Building a record from its own fields gives it back. */
  lemma AssembleFields(p: Palace)
    ensures Assemble(Fields(p)) == Ok(p)
  {
    BuildOfFields(p);
  }

  /** The record built from the keyword arguments of `p` is `p`. */
  lemma BuildOfFields(p: Palace)
    ensures AllKeys <= Fields(p).Keys && Build(Fields(p)) == p
  {
    var q := Build(Fields(p));
    assert q.name == p.name && q.id == p.id && q.url == p.url && q.opis == p.opis;
    assert q.lat == p.lat && q.lon == p.lon && q.introduced == p.introduced && q.updated == p.updated;
  }

  // ------------------------------------------------------------ detail page

  /** The branches of the if/elif chain. */
  datatype Label = OnId | OnName | OnVoivodeship | OnCounty | OnMunicipality | OnCoordinates
                 | OnCastle | OnFortress | OnStronghold | OnGord | OnDescription | OnIntroduced | OnUpdated

  /** The if/elif chain as (substring, branch) in the order the branches are tried. */
  const Labels: seq<(string, Label)> := [
    ("Oznaczenie:", OnId),
    ("Nazwa:", OnName),
    ("Województwo:", OnVoivodeship),
    ("Powiat:", OnCounty),
    ("PGA:", OnMunicipality),
    ("Koordynaty:", OnCoordinates),
    ("Zamek:", OnCastle),
    ("Twierdza/Fort:", OnFortress),
    ("Punkt oporu:", OnStronghold),
    ("Gród:", OnGord),
    ("Opis:", OnDescription),
    ("Data wprowadzenia:", OnIntroduced),
    ("Aktualizacja danych:", OnUpdated)
  ]

  /** The keys a branch assigns. */
  function LabelKeys(branch: Label): (ks: set<Key>)
    ensures Url !in ks && ks != {}
  {
    match branch
    case OnId => {DworId}
    case OnName => {Name}
    case OnVoivodeship => {Voivodeship}
    case OnCounty => {County}
    case OnMunicipality => {Municipality}
    case OnCoordinates => {Latitude, Longitude}
    case OnCastle => {Castle}
    case OnFortress => {Fortress}
    case OnStronghold => {Stronghold}
    case OnGord => {Gord}
    case OnDescription => {Description}
    case OnIntroduced => {Introduced}
    case OnUpdated => {Updated}
  }

  /** The branch a `tr` runs: none for a row of at most two cells or with
      a label cell that matches no branch. */
  function LabelOf(row: Row): (l: Option<Label>)
    ensures l.Some? ==> |row| > 2
    ensures |row| > 2 ==> l == Classify(row[1].text, Labels)
  {
    if |row| <= 2 then None else Classify(row[1].text, Labels)
  }

  /** Row `row` assigns key `k`. */
  predicate RowWrites(row: Row, k: Key) {
    LabelOf(row).Some? && k in LabelKeys(LabelOf(row).value)
  }

  /** The lookup tables the extractor reads. */
  datatype Tables = Tables(voivodeships: map<string, string>, counties: map<CountyKey, string>,
                          municipalities: map<MunicipalityKey, string>)

  /** The locals of the extractor: the `data` dict and the codes `kod_woj`
      and `kod_pow`. */
  datatype Form = Form(data: map<Key, Value>, kodWoj: string, kodPow: string)

  /** `data = {"url": url}`, `kod_woj = ""`, `kod_pow = ""`. */
  function StartForm(url: string): (f: Form)
    ensures f.data.Keys == {Url} && f.data[Url] == Str(url) && WellTyped(f.data)
    ensures f.kodWoj == "" && f.kodPow == ""
  {
    Form(map[Url := Str(url)], "", "")
  }

  /** `col_value if col_value and col_value != "---" else None`. */
  function Placeholder(v: string): (r: Option<string>)
    ensures r.None? <==> v == "" || v == "---"
    ensures r.Some? ==> r.value == v
  {
    if v != "" && v != "---" then Some(v) else None
  }

  /** `lat, lon = …split(" ")[:2]` and `float` of each: the two numbers of
      the coordinate text, latitude first. Fewer than two words is a
      coordinate error and a word that does not parse a number error. */
  function CoordValues(v: string): (r: Result<(real, real)>)
    ensures r == Err(BadCoordinates) <==> CoordTokens(v).Err?
    ensures r == Err(BadNumber) <==> CoordTokens(v).Ok? && (ParseFloat(CoordTokens(v).value.0).None?
                                                           || ParseFloat(CoordTokens(v).value.1).None?)
    ensures r.Ok? ==> CoordTokens(v).Ok? && Some(r.value.0) == ParseFloat(CoordTokens(v).value.0)
                      && Some(r.value.1) == ParseFloat(CoordTokens(v).value.1)
  {
    match CoordTokens(v)
    case Err(e) => Err(e)
    case Ok(tokens) =>
      var lat, lon := ParseFloat(tokens.0), ParseFloat(tokens.1);
      if lat.None? || lon.None? then Err(BadNumber) else Ok((lat.value, lon.value))
  }

  /** What one branch does: the entries it assigns into `data` and the
      codes afterwards. */
  datatype Effect = Effect(writes: map<Key, Value>, kodWoj: string, kodPow: string)

  /** One branch on `col_value` (the stripped value cell) and the value
      cell's `<textarea>` text. It assigns exactly the keys of the branch,
      each a value of its kind; only the region and county branches change
      the carried codes. */
  function Branch(t: Tables, branch: Label, kodWoj: string, kodPow: string,
                  value: string, textarea: Option<string>): (r: Result<Effect>)
    ensures r.Ok? ==> r.value.writes.Keys == LabelKeys(branch)
    ensures r.Ok? ==> r.value.kodWoj == (if branch == OnVoivodeship then value else kodWoj)
    ensures r.Ok? ==> r.value.kodPow == (if branch == OnCounty then value else kodPow)
  {
    if branch == OnCoordinates then CoordinateEffect(value, kodWoj, kodPow)
    else
    match branch
    case OnId => Ok(Assign(DworId, Str(value), kodWoj, kodPow))
    case OnName => Ok(Assign(Name, Str(value), kodWoj, kodPow))
    case OnVoivodeship => Ok(Assign(Voivodeship, OptStr(Get(t.voivodeships, value)), value, kodPow))
    case OnCounty => Ok(Assign(County, OptStr(Get(t.counties, (kodWoj, value))), kodWoj, value))
    case OnMunicipality => Ok(Assign(Municipality, OptStr(Get(t.municipalities, (kodWoj, kodPow, value))), kodWoj, kodPow))
    case OnCastle => Ok(Assign(Castle, OptStr(Placeholder(value)), kodWoj, kodPow))
    case OnFortress => Ok(Assign(Fortress, OptStr(Placeholder(value)), kodWoj, kodPow))
    case OnStronghold => Ok(Assign(Stronghold, OptStr(Placeholder(value)), kodWoj, kodPow))
    case OnGord => Ok(Assign(Gord, OptStr(Placeholder(value)), kodWoj, kodPow))
    case OnDescription =>
      if textarea.None? then Err(MissingElement)
      else Ok(Assign(Description, Str(Strip(textarea.value)), kodWoj, kodPow))
    case OnIntroduced =>
      (match DateField(value)
       case Err(e) => Err(e)
       case Ok(d) => Ok(Assign(Introduced, Day(d), kodWoj, kodPow)))
    case OnUpdated =>
      (match DateField(value)
       case Err(e) => Err(e)
       case Ok(d) => Ok(Assign(Updated, Day(d), kodWoj, kodPow)))
  }

  /** A branch's effect that assigns one key: `data[k] = v`, with the codes
      afterwards. */
  function Assign(k: Key, v: Value, kodWoj: string, kodPow: string): (e: Effect)
    requires Fits(k, v)
    ensures e.writes.Keys == {k} && e.writes[k] == v && WellTyped(e.writes)
    ensures e.kodWoj == kodWoj && e.kodPow == kodPow
  {
    Effect(map[k := v], kodWoj, kodPow)
  }

  /** The coordinate branch: both floats of `col_value`, or its failure. */
  function CoordinateEffect(value: string, kodWoj: string, kodPow: string): (r: Result<Effect>)
    ensures r.Ok? ==> r.value.writes.Keys == LabelKeys(OnCoordinates) && WellTyped(r.value.writes)
    ensures r.Ok? ==> r.value.kodWoj == kodWoj && r.value.kodPow == kodPow
    ensures r.Err? <==> CoordValues(value).Err?
  {
    match CoordValues(value)
    case Err(e) => Err(e)
    case Ok(pair) => Ok(PairEffect(pair.0, pair.1, kodWoj, kodPow))
  }

  /** The coordinate branch's effect: latitude and longitude assigned, the
      codes kept. */
  function PairEffect(lat: real, lon: real, kodWoj: string, kodPow: string): (e: Effect)
    ensures e.writes.Keys == LabelKeys(OnCoordinates) && WellTyped(e.writes)
    ensures e.kodWoj == kodWoj && e.kodPow == kodPow
  {
    Effect(map[Latitude := Num(lat), Longitude := Num(lon)], kodWoj, kodPow)
  }

  /** Every value a branch assigns is of its key's kind. */
  lemma BranchTyped(t: Tables, branch: Label, kodWoj: string, kodPow: string, value: string, textarea: Option<string>)
    ensures var r := Branch(t, branch, kodWoj, kodPow, value, textarea);
            r.Ok? ==> WellTyped(r.value.writes)
  {
    if branch == OnCoordinates {
      var c := CoordValues(value);
      if c.Ok? {
        PairTyped(c.value.0, c.value.1);
      }
    } else {
      OtherTyped(t, branch, kodWoj, kodPow, value, textarea);
    }
  }

  lemma PairTyped(lat: real, lon: real)
    ensures WellTyped(map[Latitude := Num(lat), Longitude := Num(lon)])
  {
  }

  lemma OtherTyped(t: Tables, branch: Label, kodWoj: string, kodPow: string, value: string, textarea: Option<string>)
    requires branch != OnCoordinates
    ensures var r := Branch(t, branch, kodWoj, kodPow, value, textarea);
            r.Ok? ==> WellTyped(r.value.writes)
  {
  }

  /** The failures of a branch, each fatal: the description without a
      `<textarea>`, coordinates that are not two words or whose words do not
      both parse, and a date that is neither the sentinel nor an ISO date.
      Every other branch always succeeds. */
  lemma BranchFailures(t: Tables, branch: Label, kodWoj: string, kodPow: string, value: string, textarea: Option<string>)
    ensures var r := Branch(t, branch, kodWoj, kodPow, value, textarea);
            (r == Err(MissingElement) <==> branch == OnDescription && textarea.None?)
            && (r == Err(BadCoordinates) <==> branch == OnCoordinates && CoordValues(value) == Err(BadCoordinates))
            && (r == Err(BadNumber) <==> branch == OnCoordinates && CoordValues(value) == Err(BadNumber))
            && (r == Err(BadDate) <==> (branch == OnIntroduced || branch == OnUpdated) && DateField(value).Err?)
            && (r.Err? ==> r.error in {MissingElement, BadCoordinates, BadNumber, BadDate})
  {
    match branch {
      case OnCoordinates =>
      case OnDescription =>
      case OnIntroduced =>
      case OnUpdated =>
      case _ =>
    }
  }

  /** The name and id rows store `col_value` as it is. */
  lemma IdentityValues(t: Tables, kodWoj: string, kodPow: string, value: string, textarea: Option<string>)
    ensures Branch(t, OnId, kodWoj, kodPow, value, textarea) == Ok(Effect(map[DworId := Str(value)], kodWoj, kodPow))
    ensures Branch(t, OnName, kodWoj, kodPow, value, textarea) == Ok(Effect(map[Name := Str(value)], kodWoj, kodPow))
  {
  }

  /** The region row stores the region's name from the fixed table, None
      for a code the table lacks, and makes `col_value` the carried region
      code; the county and municipality rows look their names up under the
      carried codes, and the county row makes `col_value` the carried county
      code. */
  lemma RegionValues(t: Tables, kodWoj: string, kodPow: string, value: string, textarea: Option<string>)
    ensures Branch(t, OnVoivodeship, kodWoj, kodPow, value, textarea)
            == Ok(Effect(map[Voivodeship := OptStr(Get(t.voivodeships, value))], value, kodPow))
    ensures value !in t.voivodeships ==>
            Branch(t, OnVoivodeship, kodWoj, kodPow, value, textarea).value.writes[Voivodeship] == OptStr(None)
    ensures Branch(t, OnCounty, kodWoj, kodPow, value, textarea)
            == Ok(Effect(map[County := OptStr(Get(t.counties, (kodWoj, value)))], kodWoj, value))
    ensures Branch(t, OnMunicipality, kodWoj, kodPow, value, textarea)
            == Ok(Effect(map[Municipality := OptStr(Get(t.municipalities, (kodWoj, kodPow, value)))], kodWoj, kodPow))
  {
  }

  /** The description row stores the stripped `<textarea>` text. */
  lemma DescriptionValue(t: Tables, kodWoj: string, kodPow: string, value: string, text: string)
    ensures Branch(t, OnDescription, kodWoj, kodPow, value, Some(text))
            == Ok(Effect(map[Description := Str(Strip(text))], kodWoj, kodPow))
  {
  }

  /** A date row that is not the sentinel stores the date its ISO text names. */
  lemma DateValues(t: Tables, kodWoj: string, kodPow: string, value: string, textarea: Option<string>, day: Date)
    requires ParseIsoDate(value) == Some(day) && value != Sentinel
    ensures Branch(t, OnIntroduced, kodWoj, kodPow, value, textarea)
            == Ok(Effect(map[Introduced := Day(Some(day))], kodWoj, kodPow))
    ensures Branch(t, OnUpdated, kodWoj, kodPow, value, textarea)
            == Ok(Effect(map[Updated := Day(Some(day))], kodWoj, kodPow))
  {
  }

  /** The form after a branch: its entries assigned into `data`, its codes carried. */
  function Apply(form: Form, e: Effect): (f: Form)
    ensures f.data.Keys == form.data.Keys + e.writes.Keys
    ensures forall k :: k in form.data && k !in e.writes ==> f.data[k] == form.data[k]
    ensures forall k :: k in e.writes ==> f.data[k] == e.writes[k]
    ensures f.kodWoj == e.kodWoj && f.kodPow == e.kodPow
    ensures WellTyped(form.data) && WellTyped(e.writes) ==> WellTyped(f.data)
  {
    Form(form.data + e.writes, e.kodWoj, e.kodPow)
  }

  /** The effect of one `tr` of the form table: the branch of its label
      cell on its value cell, or nothing. */
  function FormStep(t: Tables, form: Form, row: Row): (r: Result<Form>)
    ensures LabelOf(row).None? ==> r == Ok(form)
  {
    match LabelOf(row)
    case None => Ok(form)
    case Some(branch) => Run(t, form, branch, Strip(row[2].text), row[2].textarea)
  }

  /** The form after one branch on `col_value` and the value cell's
      `<textarea>` text, or the branch's failure. */
  function Run(t: Tables, form: Form, branch: Label, value: string, textarea: Option<string>): (r: Result<Form>)
    ensures r.Err? <==> Branch(t, branch, form.kodWoj, form.kodPow, value, textarea).Err?
  {
    match Branch(t, branch, form.kodWoj, form.kodPow, value, textarea)
    case Err(e) => Err(e)
    case Ok(effect) => Ok(Apply(form, effect))
  }

  /** One row assigns exactly the keys of its branch, keeps the kinds of
      the values, leaves every other value alone, and moves the codes only
      on a region or county row. */
  lemma StepFacts(t: Tables, form: Form, row: Row)
    ensures var r := FormStep(t, form, row);
            r.Ok? ==>
              (forall k :: k in r.value.data <==> k in form.data || RowWrites(row, k))
              && (forall k :: k in form.data && !RowWrites(row, k) ==> r.value.data[k] == form.data[k])
              && (WellTyped(form.data) ==> WellTyped(r.value.data))
              && r.value.kodWoj == (if LabelOf(row) == Some(OnVoivodeship) then Strip(row[2].text) else form.kodWoj)
              && r.value.kodPow == (if LabelOf(row) == Some(OnCounty) then Strip(row[2].text) else form.kodPow)
  {
    if LabelOf(row).Some? {
      BranchTyped(t, LabelOf(row).value, form.kodWoj, form.kodPow, Strip(row[2].text), row[2].textarea);
    }
  }

  /** `get_details` on the fetched page: the status, the form element, at
      least one table, the rows of the first table in order, and then
      `Row(**data)`. */
  function ExtractPalace(t: Tables, response: Option<Page>, url: string): (r: Result<Palace>)
    ensures response.None? ==> r == Err(HttpStatus)
    ensures response.Some? && FormContainer !in response.value.sections ==> r == Err(MissingElement)
    ensures response.Some? && FormContainer in response.value.sections && response.value.sections[FormContainer] == []
            ==> r == Err(TooFewTables)
  {
    match response
    case None => Err(HttpStatus)
    case Some(page) =>
      if FormContainer !in page.sections then Err(MissingElement)
      else
        var tables := page.sections[FormContainer];
        if |tables| < 1 then Err(TooFewTables)
        else match FoldRows(t, FormStep, StartForm(url), tables[0])
          case Err(e) => Err(e)
          case Ok(form) =>
            FormKeepsTyping(t, StartForm(url), tables[0]);
            Assemble(form.data)
  }

  /** The url of the record is the url fetched. */
  lemma ExtractedUrl(t: Tables, response: Option<Page>, url: string)
    ensures ExtractPalace(t, response, url).Ok? ==> ExtractPalace(t, response, url).value.url == url
  {
    if response.Some? && FormContainer in response.value.sections && |response.value.sections[FormContainer]| >= 1 {
      FormKeepsTyping(t, StartForm(url), response.value.sections[FormContainer][0]);
    }
  }

  /** A run of rows keeps every value of its kind and never changes the url. */
  lemma {:induction false} FormKeepsTyping(t: Tables, form: Form, rows: seq<Row>)
    requires WellTyped(form.data)
    ensures FoldRows(t, FormStep, form, rows).Ok? ==> WellTyped(FoldRows(t, FormStep, form, rows).value.data)
    ensures FoldRows(t, FormStep, form, rows).Ok? && Url in form.data ==>
              Url in FoldRows(t, FormStep, form, rows).value.data
              && FoldRows(t, FormStep, form, rows).value.data[Url] == form.data[Url]
    decreases |rows|
  {
    if rows != [] && FoldRows(t, FormStep, form, rows).Ok? {
      var init := rows[..|rows| - 1];
      FormKeepsTyping(t, form, init);
      StepFacts(t, FoldRows(t, FormStep, form, init).value, rows[|rows| - 1]);
    }
  }

  /** Some row of `rows` assigns key `k`. */
  predicate WrittenIn(rows: seq<Row>, k: Key)
    decreases |rows|
  {
    rows != [] && (WrittenIn(rows[..|rows| - 1], k) || RowWrites(rows[|rows| - 1], k))
  }

  /** After a run of rows, a key is present exactly when it was present
      before or some row assigns it. */
  lemma {:induction false} FormKeys(t: Tables, form: Form, rows: seq<Row>)
    ensures FoldRows(t, FormStep, form, rows).Ok? ==>
              forall k :: k in FoldRows(t, FormStep, form, rows).value.data <==> k in form.data || WrittenIn(rows, k)
    decreases |rows|
  {
    if rows != [] && FoldRows(t, FormStep, form, rows).Ok? {
      var init := rows[..|rows| - 1];
      var last := rows[|rows| - 1];
      FormKeys(t, form, init);
      var before := FoldRows(t, FormStep, form, init).value;
      var after := FoldRows(t, FormStep, form, rows).value;
      assert FormStep(t, before, last) == Ok(after);
      StepFacts(t, before, last);
    }
  }

  /** The stripped value cell of the last row of `rows` that runs `branch`,
      or `default` when none does. */
  function LastValue(rows: seq<Row>, branch: Label, default: string): (v: string)
    ensures (forall i :: 0 <= i < |rows| ==> LabelOf(rows[i]) != Some(branch)) ==> v == default
    decreases |rows|
  {
    if rows == [] then default
    else
      var last := rows[|rows| - 1];
      if LabelOf(last) == Some(branch) then Strip(last[2].text)
      else LastValue(rows[..|rows| - 1], branch, default)
  }

  /** The codes carried across the rows: after a run of rows `kod_woj` is
      the value of the last region row and `kod_pow` that of the last
      county row, or what they were before when there is none. */
  lemma {:induction false} FormCodes(t: Tables, form: Form, rows: seq<Row>)
    ensures FoldRows(t, FormStep, form, rows).Ok? ==>
              FoldRows(t, FormStep, form, rows).value.kodWoj == LastValue(rows, OnVoivodeship, form.kodWoj)
              && FoldRows(t, FormStep, form, rows).value.kodPow == LastValue(rows, OnCounty, form.kodPow)
    decreases |rows|
  {
    if rows != [] && FoldRows(t, FormStep, form, rows).Ok? {
      var init := rows[..|rows| - 1];
      FormCodes(t, form, init);
      StepFacts(t, FoldRows(t, FormStep, form, init).value, rows[|rows| - 1]);
    }
  }

  /** What the last row of `rows` that assigns `k` stored under it, with
      the codes carried to that row from `form`; `before` when no row
      assigns `k`. */
  function LastStored(t: Tables, form: Form, rows: seq<Row>, k: Key, before: Option<Value>): Option<Value>
    decreases |rows|
  {
    if rows == [] then before
    else
      var init, last := rows[..|rows| - 1], rows[|rows| - 1];
      if RowWrites(last, k) then
        var woj, pow := LastValue(init, OnVoivodeship, form.kodWoj), LastValue(init, OnCounty, form.kodPow);
        match Branch(t, LabelOf(last).value, woj, pow, Strip(last[2].text), last[2].textarea)
        case Ok(e) => Get(e.writes, k)
        case Err(_) => None
      else LastStored(t, form, init, k, before)
  }

  /** After a run of rows every key holds what the last row assigning it
      stored, or what it held before when no row assigns it. */
  lemma {:induction false} LastStoredWins(t: Tables, form: Form, rows: seq<Row>)
    ensures FoldRows(t, FormStep, form, rows).Ok? ==>
              forall k :: Get(FoldRows(t, FormStep, form, rows).value.data, k) == LastStored(t, form, rows, k, Get(form.data, k))
    decreases |rows|
  {
    if rows != [] && FoldRows(t, FormStep, form, rows).Ok? {
      var init, last := rows[..|rows| - 1], rows[|rows| - 1];
      LastStoredWins(t, form, init);
      FormCodes(t, form, init);
      var mid := FoldRows(t, FormStep, form, init).value;
      assert FormStep(t, mid, last) == FoldRows(t, FormStep, form, rows);
      StepStored(t, mid, last);
    }
  }

  /** One row stores its branch's value under each key it assigns and
      leaves every other key as it was. */
  lemma StepStored(t: Tables, form: Form, row: Row)
    requires FormStep(t, form, row).Ok?
    ensures forall k :: RowWrites(row, k) ==>
              Get(FormStep(t, form, row).value.data, k)
              == Get(Branch(t, LabelOf(row).value, form.kodWoj, form.kodPow, Strip(row[2].text), row[2].textarea).value.writes, k)
    ensures forall k :: !RowWrites(row, k) ==> Get(FormStep(t, form, row).value.data, k) == Get(form.data, k)
  {
  }

  /** The county name is looked up under the code of the last region row
      before it (`""` when there is none), and the municipality name under
      the codes of the last region and county rows before it. */
  lemma CarriedCodes(t: Tables, url: string, rows: seq<Row>, row: Row)
    requires FoldRows(t, FormStep, StartForm(url), rows).Ok?
    requires FoldRows(t, FormStep, StartForm(url), rows + [row]).Ok?
    ensures var data := FoldRows(t, FormStep, StartForm(url), rows + [row]).value.data;
            var woj, pow := LastValue(rows, OnVoivodeship, ""), LastValue(rows, OnCounty, "");
            (LabelOf(row) == Some(OnCounty) ==>
               County in data && data[County] == OptStr(Get(t.counties, (woj, Strip(row[2].text)))))
            && (LabelOf(row) == Some(OnMunicipality) ==>
               Municipality in data && data[Municipality] == OptStr(Get(t.municipalities, (woj, pow, Strip(row[2].text)))))
  {
    FormCodes(t, StartForm(url), rows);
    assert (rows + [row])[..|rows|] == rows;
    var before := FoldRows(t, FormStep, StartForm(url), rows).value;
    assert FoldRows(t, FormStep, StartForm(url), rows + [row]) == FormStep(t, before, row);
    StepLookups(t, before, row);
  }

  /** A county row looks its value up under the carried region code, and a
      municipality row under the carried region and county codes. */
  lemma StepLookups(t: Tables, form: Form, row: Row)
    ensures var r := FormStep(t, form, row);
            (r.Ok? && LabelOf(row) == Some(OnCounty) ==>
               County in r.value.data && r.value.data[County] == OptStr(Get(t.counties, (form.kodWoj, Strip(row[2].text)))))
            && (r.Ok? && LabelOf(row) == Some(OnMunicipality) ==>
               Municipality in r.value.data
               && r.value.data[Municipality] == OptStr(Get(t.municipalities, (form.kodWoj, form.kodPow, Strip(row[2].text)))))
  {
    if LabelOf(row) == Some(OnCounty) {
      CountyRun(t, form, Strip(row[2].text), row[2].textarea);
    } else if LabelOf(row) == Some(OnMunicipality) {
      MunicipalityRun(t, form, Strip(row[2].text), row[2].textarea);
    }
  }

  /** The county branch stores the name found under the carried region code. */
  lemma CountyRun(t: Tables, form: Form, value: string, textarea: Option<string>)
    ensures var r := Run(t, form, OnCounty, value, textarea);
            r.Ok? && County in r.value.data && r.value.data[County] == OptStr(Get(t.counties, (form.kodWoj, value)))
  {
  }

  /** The municipality branch stores the name found under both carried codes. */
  lemma MunicipalityRun(t: Tables, form: Form, value: string, textarea: Option<string>)
    ensures var r := Run(t, form, OnMunicipality, value, textarea);
            r.Ok? && Municipality in r.value.data
            && r.value.data[Municipality] == OptStr(Get(t.municipalities, (form.kodWoj, form.kodPow, value)))
  {
  }

  /** Every field other than the url is assigned by some row of `rows`. */
  predicate AssignsAll(rows: seq<Row>) {
    forall k :: k != Url ==> WrittenIn(rows, k)
  }

  /** A form whose rows all go through yields a record exactly when every
      field other than the url is assigned by some row. */
  lemma PalaceComplete(t: Tables, page: Page, url: string)
    requires FormContainer in page.sections && |page.sections[FormContainer]| >= 1
    requires FoldRows(t, FormStep, StartForm(url), page.sections[FormContainer][0]).Ok?
    ensures ExtractPalace(t, Some(page), url).Ok? <==> AssignsAll(page.sections[FormContainer][0])
  {
    var rows := page.sections[FormContainer][0];
    FormKeys(t, StartForm(url), rows);
    FormKeepsTyping(t, StartForm(url), rows);
    var data := FoldRows(t, FormStep, StartForm(url), rows).value.data;
    assert ExtractPalace(t, Some(page), url) == Assemble(data);
    if AssignsAll(rows) {
      forall k | k in AllKeys ensures k in data {
        assert k in StartForm(url).data || WrittenIn(rows, k);
      }
    } else {
      var k :| k != Url && !WrittenIn(rows, k);
      assert k !in data;
      EveryKey(k);
    }
  }

  /** A record read from a form holds, in every field, what the last row
      assigning that field stored; the url is the one fetched. */
  lemma ExtractedPalaceValues(t: Tables, page: Page, url: string)
    requires FormContainer in page.sections && |page.sections[FormContainer]| >= 1
    ensures ExtractPalace(t, Some(page), url).Ok? ==>
              var rows := page.sections[FormContainer][0];
              var start := StartForm(url);
              forall k :: Get(Fields(ExtractPalace(t, Some(page), url).value), k) == LastStored(t, start, rows, k, Get(start.data, k))
  {
    var rows := page.sections[FormContainer][0];
    LastStoredWins(t, StartForm(url), rows);
  }

  /** A form table with no rows never yields a record: only the url is set. */
  lemma NoRowsNoPalace(t: Tables, page: Page, url: string)
    requires FormContainer in page.sections && |page.sections[FormContainer]| >= 1
    requires page.sections[FormContainer][0] == []
    ensures ExtractPalace(t, Some(page), url) == Err(IncompleteRecord)
  {
    assert DworId !in StartForm(url).data.Keys;
  }

  /** The branches in the order they are tried: "Oznaczenie:" before
      "Nazwa:", so a label holding both is read as the designation. */
  lemma IdBeforeName(caption: string)
    ensures Contains(caption, "Oznaczenie:") ==> Classify(caption, Labels) == Some(OnId)
    ensures !Contains(caption, "Oznaczenie:") && Contains(caption, "Nazwa:") ==> Classify(caption, Labels) == Some(OnName)
  {
    if Contains(caption, "Oznaczenie:") {
      ClassifyAt(caption, Labels, 0);
    } else if Contains(caption, "Nazwa:") {
      ClassifyAt(caption, Labels, 1);
    }
  }

  /** The placeholder rule of the four reference branches: an empty value
      or `---` is stored as None, any other value verbatim. */
  lemma PlaceholderRule(t: Tables, branch: Label, kodWoj: string, kodPow: string, value: string, textarea: Option<string>)
    requires branch in {OnCastle, OnFortress, OnStronghold, OnGord}
    ensures var r := Branch(t, branch, kodWoj, kodPow, value, textarea);
            r.Ok? && forall k :: k in r.value.writes ==>
                       r.value.writes[k] == OptStr(if value == "" || value == "---" then None else Some(value))
  {
  }

  /** A date row holding the sentinel stores None. */
  lemma SentinelDateRow(t: Tables, kodWoj: string, kodPow: string, textarea: Option<string>)
    ensures Branch(t, OnIntroduced, kodWoj, kodPow, Sentinel, textarea) == Ok(Effect(map[Introduced := Day(None)], kodWoj, kodPow))
    ensures Branch(t, OnUpdated, kodWoj, kodPow, Sentinel, textarea) == Ok(Effect(map[Updated := Day(None)], kodWoj, kodPow))
  {
  }

  /** The coordinate row stores the first word as the latitude and the
      second as the longitude, whether they are written as `"52.1 21.0"`,
      `"52.1, 21.0"` or `"52.1°N; 21.0°E"`. */
  lemma CoordinateForms(t: Tables, kodWoj: string, kodPow: string, textarea: Option<string>, a: string, b: string, value: string)
    requires Word(a) && Word(b) && ParseFloat(a).Some? && ParseFloat(b).Some?
    requires value == a + " " + b || value == a + ", " + b || value == a + "°N; " + b + "°E"
    ensures Branch(t, OnCoordinates, kodWoj, kodPow, value, textarea)
            == Ok(Effect(map[Latitude := Num(ParseFloat(a).value), Longitude := Num(ParseFloat(b).value)], kodWoj, kodPow))
  {
    if value == a + " " + b {
      SpaceSeparated(a, b);
    } else if value == a + ", " + b {
      CommaSeparated(a, b);
    } else {
      HemisphereMarked(a, b);
    }
    CoordinatesOfTokens(t, kodWoj, kodPow, textarea, a, b, value);
  }

  /** The coordinate branch on a text whose two words are `a` and `b`. */
  lemma CoordinatesOfTokens(t: Tables, kodWoj: string, kodPow: string, textarea: Option<string>, a: string, b: string, value: string)
    requires CoordTokens(value) == Ok((a, b)) && ParseFloat(a).Some? && ParseFloat(b).Some?
    ensures Branch(t, OnCoordinates, kodWoj, kodPow, value, textarea)
            == Ok(Effect(map[Latitude := Num(ParseFloat(a).value), Longitude := Num(ParseFloat(b).value)], kodWoj, kodPow))
  {
    ValuesOfTokens(value, a, b);
    CoordinateBranch(t, kodWoj, kodPow, textarea, value, ParseFloat(a).value, ParseFloat(b).value);
  }

  /** Two words that are both floats are the two values. */
  lemma ValuesOfTokens(value: string, a: string, b: string)
    requires CoordTokens(value) == Ok((a, b)) && ParseFloat(a).Some? && ParseFloat(b).Some?
    ensures CoordValues(value) == Ok((ParseFloat(a).value, ParseFloat(b).value))
  {
  }

  /** The coordinate branch stores the two values it read. */
  lemma CoordinateBranch(t: Tables, kodWoj: string, kodPow: string, textarea: Option<string>, value: string,
                         lat: real, lon: real)
    requires CoordValues(value) == Ok((lat, lon))
    ensures Branch(t, OnCoordinates, kodWoj, kodPow, value, textarea)
            == Ok(Effect(map[Latitude := Num(lat), Longitude := Num(lon)], kodWoj, kodPow))
  {
    assert CoordinateEffect(value, kodWoj, kodPow) == Ok(PairEffect(lat, lon, kodWoj, kodPow));
  }

  /** The body of the form loop for one `tr`: a row of at most two cells
      is skipped, otherwise the if/elif chain picks the first branch whose
      substring occurs in the label cell. */
  method ReadFormRow(t: Tables, form: Form, cells: Row) returns (r: Result<Form>)
    ensures r == FormStep(t, form, cells)
  {
    if |cells| <= 2 {
      return Ok(form);
    }
    var branch := Classify(cells[1].text, Labels);
    if branch.None? {
      return Ok(form);
    }
    r := RunBranch(t, form, branch.value, Strip(cells[2].text), cells[2].textarea);
  }

  /** The body of one branch: assign into `data`, move the codes on a region
      or county row, and fail on a missing `<textarea>`, bad coordinates or
      a bad date. */
  method RunBranch(t: Tables, form: Form, branch: Label, value: string, textarea: Option<string>) returns (r: Result<Form>)
    ensures r == Run(t, form, branch, value, textarea)
  {
    var data, kodWoj, kodPow := form.data, form.kodWoj, form.kodPow;
    match branch {
      case OnId =>
        data := data + map[DworId := Str(value)];
      case OnName =>
        data := data + map[Name := Str(value)];
      case OnVoivodeship =>
        kodWoj := value;
        data := data + map[Voivodeship := OptStr(Get(t.voivodeships, value))];
      case OnCounty =>
        kodPow := value;
        data := data + map[County := OptStr(Get(t.counties, (kodWoj, kodPow)))];
      case OnMunicipality =>
        data := data + map[Municipality := OptStr(Get(t.municipalities, (kodWoj, kodPow, value)))];
      case OnCoordinates =>
        var pair := CoordValues(value);
        if pair.Err? {
          return Err(pair.error);
        }
        data := data + map[Latitude := Num(pair.value.0), Longitude := Num(pair.value.1)];
      case OnCastle =>
        data := data + map[Castle := OptStr(Placeholder(value))];
      case OnFortress =>
        data := data + map[Fortress := OptStr(Placeholder(value))];
      case OnStronghold =>
        data := data + map[Stronghold := OptStr(Placeholder(value))];
      case OnGord =>
        data := data + map[Gord := OptStr(Placeholder(value))];
      case OnDescription =>
        if textarea.None? {
          return Err(MissingElement);
        }
        data := data + map[Description := Str(Strip(textarea.value))];
      case OnIntroduced =>
        var day := DateField(value);
        if day.Err? {
          return Err(day.error);
        }
        data := data + map[Introduced := Day(day.value)];
      case OnUpdated =>
        var day := DateField(value);
        if day.Err? {
          return Err(day.error);
        }
        data := data + map[Updated := Day(day.value)];
    }
    return Ok(Form(data, kodWoj, kodPow));
  }

  /** `get_details`: fetch the page, read the rows of the first form table
      in order into `data`, carrying `kod_woj` and `kod_pow`, and build the
      record; the first failing row fails the page. */
  method GetDetails(fetch: string -> Option<Page>, t: Tables, url: string) returns (r: Result<Palace>)
    ensures r == ExtractPalace(t, fetch(url), url)
  {
    var response := fetch(url);
    if response.None? {
      return Err(HttpStatus);
    }
    if FormContainer !in response.value.sections {
      return Err(MissingElement);
    }
    var tables: seq<Table> := response.value.sections[FormContainer];
    if |tables| < 1 {
      return Err(TooFewTables);
    }
    var form := StartForm(url);
    var rows: seq<Row> := tables[0];
    for i := 0 to |rows|
      invariant FoldRows(t, FormStep, StartForm(url), rows[..i]) == Ok(form)
    {
      FoldRowsNext(t, FormStep, StartForm(url), rows, i, form);
      var next := ReadFormRow(t, form, rows[i]);
      if next.Err? {
        FoldRowsFailed(t, FormStep, StartForm(url), rows, i + 1, next.error);
        return Err(next.error);
      }
      form := next.value;
    }
    assert rows[..|rows|] == rows;
    FormKeepsTyping(t, StartForm(url), rows);
    return Assemble(form.data);
  }

  // ---------------------------------------------------------------- listing

  /** What the listing walk reads besides the listing itself: the detail
      pages and the county and municipality tables built beforehand. */
  datatype Sources = Sources(fetch: string -> Option<Page>,
                             counties: map<CountyKey, string>,
                             municipalities: map<MunicipalityKey, string>)

  /** The tables `get_details` reads: the fixed voivodeship table and the
      two built ones. */
  function TablesOf(src: Sources): (t: Tables)
    ensures t.voivodeships == Voivodeships
    ensures t.counties == src.counties && t.municipalities == src.municipalities
  {
    Tables(Voivodeships, src.counties, src.municipalities)
  }

  /** `details` is what `get_details` gives for each url. The walk below is
      stated over such a table of outcomes, so that reasoning about the walk
      does not reopen the form reader. */
  ghost predicate DetailsOf(src: Sources, details: string -> Result<Palace>) {
    forall u {:trigger ExtractPalace(TablesOf(src), src.fetch(u), u)} ::
      details(u) == ExtractPalace(TablesOf(src), src.fetch(u), u)
  }

  /** The record of one listing row: the link of cell 9 prefixed with the
      site is the detail page. A row without a tenth cell or without a link
      there fails the run. */
  function RowPalace(details: string -> Result<Palace>, row: Row): (r: Result<Palace>)
    ensures |row| < 10 || row[9].href.None? ==> r == Err(MissingElement)
  {
    if |row| < 10 then Err(MissingElement)
    else match row[9].href
      case None => Err(MissingElement)
      case Some(h) => details(Site + h)
  }

  /** A listing row's record is the detail page's record of its link. */
  lemma RowPalaceUrl(src: Sources, details: string -> Result<Palace>, row: Row)
    requires DetailsOf(src, details)
    ensures |row| >= 10 && row[9].href.Some? ==>
              RowPalace(details, row) == ExtractPalace(TablesOf(src), src.fetch(Site + row[9].href.value), Site + row[9].href.value)
    ensures RowPalace(details, row).Ok? ==>
              |row| >= 10 && row[9].href.Some? && RowPalace(details, row).value.url == Site + row[9].href.value
  {
    if |row| >= 10 && row[9].href.Some? {
      var url := Site + row[9].href.value;
      ExtractedUrl(TablesOf(src), src.fetch(url), url);
      assert details(url) == ExtractPalace(TablesOf(src), src.fetch(url), url);
    }
  }

  /** The body of the row loop: every row adds its record. */
  function PalaceStep(details: string -> Result<Palace>, acc: seq<Palace>, row: Row): (r: Result<seq<Palace>>)
    ensures r.Ok? <==> RowPalace(details, row).Ok?
    ensures r.Err? ==> r.error == RowPalace(details, row).error
    ensures r.Ok? ==> r.value == acc + [RowPalace(details, row).value]
  {
    match RowPalace(details, row)
    case Err(e) => Err(e)
    case Ok(p) => Ok(acc + [p])
  }

  /** `palaces` are the records of `rows`, one each, in order. */
  predicate PalacesAre(details: string -> Result<Palace>, rows: seq<Row>, palaces: seq<Palace>) {
    |palaces| == |rows| && forall i :: 0 <= i < |rows| ==> RowPalace(details, rows[i]) == Ok(palaces[i])
  }

  /** The row loop over a run of rows succeeds exactly when every row yields
      its record, and then appends exactly those records, in order. */
  lemma {:induction false} PalacesPerRow(details: string -> Result<Palace>, acc: seq<Palace>, rows: seq<Row>)
    ensures FoldRows(details, PalaceStep, acc, rows).Ok? <==> forall i :: 0 <= i < |rows| ==> RowPalace(details, rows[i]).Ok?
    ensures FoldRows(details, PalaceStep, acc, rows).Ok? ==>
              var w := FoldRows(details, PalaceStep, acc, rows).value;
              |w| >= |acc| && w[..|acc|] == acc && PalacesAre(details, rows, w[|acc|..])
    decreases |rows|
  {
    if rows == [] {
      var w := FoldRows(details, PalaceStep, acc, rows).value;
      assert w[|acc|..] == [];
    } else {
      var prefix := rows[..|rows| - 1];
      var last := rows[|rows| - 1];
      PalacesPerRow(details, acc, prefix);
      var fold := FoldRows(details, PalaceStep, acc, rows);
      if FoldRows(details, PalaceStep, acc, prefix).Ok? {
        var v := FoldRows(details, PalaceStep, acc, prefix).value;
        assert fold == PalaceStep(details, v, last);
        if fold.Ok? {
          var w := fold.value;
          assert w == v + [RowPalace(details, last).value];
          assert w[..|acc|] == v[..|acc|];
          assert w[|acc|..] == v[|acc|..] + [RowPalace(details, last).value];
          forall i | 0 <= i < |rows| ensures RowPalace(details, rows[i]) == Ok(w[|acc|..][i]) {
            if i < |prefix| {
              assert rows[i] == prefix[i];
              assert w[|acc|..][i] == v[|acc|..][i];
            }
          }
        } else {
          assert !RowPalace(details, rows[|rows| - 1]).Ok?;
        }
      } else {
        var i :| 0 <= i < |prefix| && !RowPalace(details, prefix[i]).Ok?;
        assert rows[i] == prefix[i];
      }
    }
  }

  /** A failing row stops the loop with its own error: the first row of a
      run whose record fails decides the run's error. */
  lemma FirstFailingRow(details: string -> Result<Palace>, acc: seq<Palace>, rows: seq<Row>, i: nat)
    requires i < |rows| && RowPalace(details, rows[i]).Err?
    requires forall j :: 0 <= j < i ==> RowPalace(details, rows[j]).Ok?
    ensures FoldRows(details, PalaceStep, acc, rows) == Err(RowPalace(details, rows[i]).error)
  {
    PalacesPerRow(details, acc, rows[..i]);
    assert forall j :: 0 <= j < i ==> rows[..i][j] == rows[j];
    var v := FoldRows(details, PalaceStep, acc, rows[..i]).value;
    FoldRowsNext(details, PalaceStep, acc, rows, i, v);
    FoldRowsFailed(details, PalaceStep, acc, rows, i + 1, RowPalace(details, rows[i]).error);
  }

  /** The body of the row loop for one `tr`: the link of cell 9, the detail
      fetch and the new record. */
  method ReadPalaceRow(src: Sources, ghost details: string -> Result<Palace>, results: seq<Palace>, row: Row)
    returns (r: Result<seq<Palace>>)
    requires DetailsOf(src, details)
    ensures r == PalaceStep(details, results, row)
  {
    if |row| < 10 || row[9].href.None? {
      return Err(MissingElement);
    }
    var url := Site + row[9].href.value;
    var palace := GetDetails(src.fetch, TablesOf(src), url);
    if palace.Err? {
      return Err(palace.error);
    }
    return Ok(results + [palace.value]);
  }

  /** The row loop of one listing page, stopped by the first failing row. */
  method ReadPalaceRows(src: Sources, ghost details: string -> Result<Palace>, acc: seq<Palace>, rows: seq<Row>)
    returns (r: Result<seq<Palace>>)
    requires DetailsOf(src, details)
    ensures r == FoldRows(details, PalaceStep, acc, rows)
  {
    var results := acc;
    for i := 0 to |rows|
      invariant FoldRows(details, PalaceStep, acc, rows[..i]) == Ok(results)
    {
      FoldRowsNext(details, PalaceStep, acc, rows, i, results);
      var next := ReadPalaceRow(src, details, results, rows[i]);
      if next.Err? {
        FoldRowsFailed(details, PalaceStep, acc, rows, i + 1, next.error);
        return Err(next.error);
      }
      results := next.value;
    }
    assert rows[..|rows|] == rows;
    return Ok(results);
  }

  /** One turn of the `get_palaces` loop: fetch the page at `offset`,
      check it, and run the row loop over its rows. */
  method ReadPalacePage(listing: nat -> Option<Page>, src: Sources, ghost details: string -> Result<Palace>,
                        ghost n: nat, offset: nat, results: seq<Palace>)
    returns (p: Progress<seq<Palace>>)
    requires offset == n * PageSize && DetailsOf(src, details)
    ensures p == Advance(PageAt(listing, ListingContainer, n), details, PalaceStep, results)
  {
    var verdict := ReadListingPage(listing, ListingContainer, offset);
    match verdict {
      case Broken(e) => return Done(Err(e));
      case Empty => return Done(Ok(results));
      case Rows(rows) =>
        var next := ReadPalaceRows(src, details, results, rows);
        if next.Err? {
          return Done(Err(next.error));
        }
        return Going(next.value);
    }
  }

  /** `get_palaces`: walk the palace listing and collect one record per
      row, fetching its detail page. */
  method GetPalaces(listing: nat -> Option<Page>, src: Sources, ghost details: string -> Result<Palace>)
    returns (r: Result<seq<Palace>>, ghost requested: seq<nat>)
    requires Finite(listing, ListingContainer) && DetailsOf(src, details)
    ensures Walked(listing, ListingContainer, details, PalaceStep, [], requested, r)
  {
    ghost var stop: nat :| !PageAt(listing, ListingContainer, stop).Rows?;
    var results: seq<Palace> := [];
    var offset: nat := 0;
    requested := [];
    while true
      invariant offset == |requested| * PageSize && IsOffsets(requested)
      invariant Walk(listing, ListingContainer, details, PalaceStep, [], |requested|) == Going(results)
      invariant |requested| <= stop
      decreases stop - |requested|
    {
      var p := ReadPalacePage(listing, src, details, |requested|, offset, results);
      WalkTurn(listing, ListingContainer, details, PalaceStep, [], requested, results, p);
      requested := requested + [offset];
      match p {
        case Done(res) => return res, requested;
        case Going(acc) =>
          results := acc;
          offset := offset + PageSize;
      }
    }
  }

  /** The whole walk: a successful run returns one record per listing row,
      over all listing pages before the empty one, in page-then-row order. */
  lemma PalacesInListingOrder(listing: nat -> Option<Page>, details: string -> Result<Palace>,
                              requested: seq<nat>, palaces: seq<Palace>)
    requires Walked(listing, ListingContainer, details, PalaceStep, [], requested, Ok(palaces))
    ensures PalacesAre(details, RowsBefore(listing, ListingContainer, |requested| - 1), palaces)
  {
    var n := |requested| - 1;
    var all := RowsBefore(listing, ListingContainer, n);
    var acc := Walk(listing, ListingContainer, details, PalaceStep, [], n).acc;
    WalkGoing(listing, ListingContainer, details, PalaceStep, [], n);
    WalkNext(listing, ListingContainer, details, PalaceStep, [], n, acc);
    assert palaces == acc == FoldRows(details, PalaceStep, [], all).value;
    PalacesPerRow(details, [], all);
    assert palaces[0..] == palaces;
  }

  // ---------------------------------------------------------------- GeoJSON

  /** One feature: the record's properties and the point `[lon, lat]`. */
  function PalaceFeature(p: Palace): Feature {
    Feature([("nazwa_sp", JString(p.name)),
             ("wojewodztwo", OptText(p.voivodeship)),
             ("powiat", OptText(p.county)),
             ("gmina", OptText(p.municipality)),
             ("dwor_id_sp", JString(p.id)),
             ("zamek_id_sp", OptText(p.castle)),
             ("twierdza_id_sp", OptText(p.fortress)),
             ("punkt_oporu_id_sp", OptText(p.stronghold)),
             ("grod_id_sp", OptText(p.gord)),
             ("data_wprowadzenia", OptDate(p.introduced)),
             ("data_aktualizacji", OptDate(p.updated)),
             ("opis", JString(p.opis)),
             ("url", JString(p.url))],
            [JNumber(p.lon), JNumber(p.lat)])
  }

  /** A number that must be there. */
  function ReadNumber(j: Json): (r: Option<real>)
    ensures r.Some? <==> j.JNumber?
  {
    if j.JNumber? then Some(j.n) else None
  }

  /** Reading a record back from a feature: the properties in the order
      they are written, each under its name, and the point as `[lon, lat]`. */
  function PalaceOfFeature(f: Feature): Option<Palace> {
    var name := ReadText(Field(f, 0, "nazwa_sp"));
    var woj := ReadOptText(Field(f, 1, "wojewodztwo"));
    var pow := ReadOptText(Field(f, 2, "powiat"));
    var gmi := ReadOptText(Field(f, 3, "gmina"));
    var id := ReadText(Field(f, 4, "dwor_id_sp"));
    var castle := ReadOptText(Field(f, 5, "zamek_id_sp"));
    var fortress := ReadOptText(Field(f, 6, "twierdza_id_sp"));
    var stronghold := ReadOptText(Field(f, 7, "punkt_oporu_id_sp"));
    var gord := ReadOptText(Field(f, 8, "grod_id_sp"));
    var introduced := ReadOptDate(Field(f, 9, "data_wprowadzenia"));
    var updated := ReadOptDate(Field(f, 10, "data_aktualizacji"));
    var opis := ReadText(Field(f, 11, "opis"));
    var url := ReadText(Field(f, 12, "url"));
    if |f.coordinates| != 2 then None
    else
      var lon := ReadNumber(f.coordinates[0]);
      var lat := ReadNumber(f.coordinates[1]);
      if name.Some? && woj.Some? && pow.Some? && gmi.Some? && id.Some? && castle.Some? && fortress.Some?
         && stronghold.Some? && gord.Some? && introduced.Some? && updated.Some? && opis.Some? && url.Some?
         && lon.Some? && lat.Some?
      then Some(Palace(name.value, lat.value, lon.value, woj.value, pow.value, gmi.value, id.value,
                       castle.value, fortress.value, stronghold.value, gord.value,
                       introduced.value, updated.value, opis.value, url.value))
      else None
  }

  /** The feature of a record holds all of it: reading it back gives the
      record, so the point is `[dlugosc_geo, szerokosc_geo]` and the dates
      are written in the form `date.fromisoformat` reads. */
  lemma PalaceFeatureRoundTrip(p: Palace)
    ensures PalaceOfFeature(PalaceFeature(p)) == Some(p)
  {
    OptDateRoundTrip(p.introduced);
    OptDateRoundTrip(p.updated);
  }

  /** `to_geojson`: one feature per record, in order. */
  method ToGeoJson(palaces: seq<Palace>) returns (features: seq<Feature>)
    ensures |features| == |palaces|
    ensures forall i :: 0 <= i < |palaces| ==> features[i] == PalaceFeature(palaces[i])
  {
    features := [];
    for i := 0 to |palaces|
      invariant |features| == i
      invariant forall j :: 0 <= j < i ==> features[j] == PalaceFeature(palaces[j])
    {
      features := features + [PalaceFeature(palaces[i])];
    }
  }
}
