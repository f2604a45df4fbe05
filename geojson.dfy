/** The GeoJSON the scrapers write: a `FeatureCollection` of `Point`
    features, each with a flat property object. */
module GeoJson {
  import opened Outcomes
  import opened Numbers

  /** The JSON values that occur as property values and coordinates. */
  datatype Json = JNull | JString(s: string) | JNumber(n: real)

  /** `{"type": "Feature", "properties": {…}, "geometry": {"type": "Point",
      "coordinates": […]}}`, with the properties in insertion order. */
  datatype Feature = Feature(properties: seq<(string, Json)>, coordinates: seq<Json>)

  /** Property `i`, provided it is stored under `key`. */
  function Field(f: Feature, i: nat, key: string): (r: Option<Json>)
    ensures r.Some? <==> i < |f.properties| && f.properties[i].0 == key
    ensures r.Some? ==> f.properties[i] == (key, r.value)
  {
    if i < |f.properties| && f.properties[i].0 == key then Some(f.properties[i].1) else None
  }

  /** A text that may be missing: `None` is written as `null`. */
  function OptText(v: Option<string>): (j: Json)
    ensures j.JNull? <==> v.None?
  {
    match v
    case None => JNull
    case Some(s) => JString(s)
  }

  /** A number that may be missing: `None` is written as `null`. */
  function OptNumber(v: Option<real>): (j: Json)
    ensures j.JNull? <==> v.None?
  {
    match v
    case None => JNull
    case Some(x) => JNumber(x)
  }

  /** `d.isoformat() if d else None`: a date is always truthy, so only a
      missing date is written as `null`. */
  function OptDate(d: Option<Date>): (j: Json)
    ensures j.JNull? <==> d.None?
    ensures d.Some? ==> j == JString(IsoFormat(d.value))
  {
    match d
    case None => JNull
    case Some(x) => JString(IsoFormat(x))
  }

  // Readers: the inverses of the writers above, failing on a value of the wrong kind.

  function ReadText(j: Option<Json>): (r: Option<string>)
    ensures r.Some? <==> j.Some? && j.value.JString?
  {
    if j.Some? && j.value.JString? then Some(j.value.s) else None
  }

  function ReadOptText(j: Option<Json>): (r: Option<Option<string>>)
    ensures r.Some? <==> j.Some? && (j.value.JString? || j.value.JNull?)
  {
    match j
    case Some(JNull) => Some(None)
    case Some(JString(s)) => Some(Some(s))
    case _ => None
  }

  function ReadOptNumber(j: Option<Json>): (r: Option<Option<real>>)
    ensures r.Some? <==> j.Some? && (j.value.JNumber? || j.value.JNull?)
  {
    match j
    case Some(JNull) => Some(None)
    case Some(JNumber(x)) => Some(Some(x))
    case _ => None
  }

  /** `date.fromisoformat` on a date property; `null` is no date. */
  function ReadOptDate(j: Option<Json>): (r: Option<Option<Date>>)
    ensures r.Some? && r.value.Some? ==> j == Some(JString(IsoFormat(r.value.value)))
  {
    match j
    case Some(JNull) => Some(None)
    case Some(JString(s)) =>
      (match ParseIsoDate(s)
       case None => None
       case Some(d) =>
         IsoCanonical(s);
         Some(Some(d)))
    case _ => None
  }

  /** Writing a date property and reading it back gives the date back. */
  lemma OptDateRoundTrip(d: Option<Date>)
    ensures ReadOptDate(Some(OptDate(d))) == Some(d)
  {
    if d.Some? {
      IsoRoundTrip(d.value);
    }
  }
}
