/**
 * RoadDTO: the record written for every road, and fromArray, which builds
 * it from an associative array, filling in the constructor's defaults.
 */
module RoadDTO {
  import opened Common
  import opened GeoJson

  /** A PHP number as it may sit in the array: an int or a float. */
  datatype Number = IntNum(i: int) | RealNum(r: real)

  /** `(float)`: an int widens, a float stays as it is. */
  function ToFloat(n: Number): real {
    match n
    case IntNum(i) => i as real
    case RealNum(r) => r
  }

  /** The image metadata array: string keys to string values. */
  type Image = map<string, string>

  /**
   * The record. `geom` None stands for the empty array the constructor
   * defaults it to.
   */
  datatype Road = Road(
    countryIso2: string,
    stateIso2: Option<string>,
    stateName: Option<string>,
    name: string,
    description: Option<string>,
    image: Option<Image>,
    geom: Option<Geometry>,
    tags: seq<string>,
    lengthKm: Option<real>,
    source: Option<string>,
    sourceUrl: Option<string>,
    descriptionSource: Option<string>,
    descriptionSourceUrl: Option<string>)

  /** The array fromArray reads: each entry None when missing or null. */
  datatype RoadArray = RoadArray(
    countryIso2: Option<string>,
    stateIso2: Option<string>,
    stateName: Option<string>,
    name: Option<string>,
    description: Option<string>,
    image: Option<Image>,
    geom: Option<Geometry>,
    tags: Option<seq<string>>,
    lengthKm: Option<Number>,
    source: Option<string>,
    sourceUrl: Option<string>,
    descriptionSource: Option<string>,
    descriptionSourceUrl: Option<string>)

  const UnnamedRoute := "Unnamed Route"

  /** The constructor called with the country code alone: every other field takes its default. */
  function New(countryIso2: string): (r: Road)
    ensures r.countryIso2 == countryIso2 && r.name == UnnamedRoute
    ensures r.geom.None? && r.tags == [] && r.lengthKm.None? && r.image.None?
  {
    Road(countryIso2, None, None, UnnamedRoute, None, None, None, [], None, None, None, None, None)
  }

  /**
   * fromArray: the country code is required (without it the constructor
   * raises a TypeError); `name` defaults to "Unnamed Route", `geom` and
   * `tags` to empty arrays, `lengthKm` is cast to float when set, and every
   * other field is copied or null.
   */
  function FromArray(data: RoadArray): (r: Result<Road, string>)
    ensures r.Ok? <==> data.countryIso2.Some?
    ensures r.Ok? ==> r.value.countryIso2 == data.countryIso2.value
    ensures r.Ok? ==> r.value.name == data.name.GetOr(UnnamedRoute)
    ensures r.Ok? ==> r.value.tags == data.tags.GetOr([]) && r.value.geom == data.geom
    ensures r.Ok? ==> (r.value.lengthKm.Some? <==> data.lengthKm.Some?)
    ensures r.Ok? && data.lengthKm.Some? ==> r.value.lengthKm == Some(ToFloat(data.lengthKm.value))
    // the nullable fields are copied, and null when absent
    ensures r.Ok? ==>
      && r.value.stateIso2 == data.stateIso2 && r.value.stateName == data.stateName
      && r.value.description == data.description && r.value.image == data.image
      && r.value.source == data.source && r.value.sourceUrl == data.sourceUrl
      && r.value.descriptionSource == data.descriptionSource
      && r.value.descriptionSourceUrl == data.descriptionSourceUrl
  {
    if data.countryIso2.None? then Err("Argument #1 ($countryIso2) must be of type string, null given")
    else Ok(Road(
      data.countryIso2.value,
      data.stateIso2,
      data.stateName,
      data.name.GetOr(UnnamedRoute),
      data.description,
      data.image,
      data.geom,
      data.tags.GetOr([]),
      if data.lengthKm.Some? then Some(ToFloat(data.lengthKm.value)) else None,
      data.source,
      data.sourceUrl,
      data.descriptionSource,
      data.descriptionSourceUrl))
  }

  /** The array a record is written as, every field under its own key. */
  function ToArray(road: Road): (a: RoadArray) {
    RoadArray(
      Some(road.countryIso2), road.stateIso2, road.stateName, Some(road.name), road.description,
      road.image, road.geom, Some(road.tags),
      if road.lengthKm.Some? then Some(RealNum(road.lengthKm.value)) else None,
      road.source, road.sourceUrl, road.descriptionSource, road.descriptionSourceUrl)
  }

  // ---------------------------------------------------------------------
  // Properties
  // ---------------------------------------------------------------------

  /** fromArray's defaults are the constructor's: an array with the country code alone gives the default record. */
  lemma DefaultsAgree(country: string)
    ensures FromArray(RoadArray(Some(country), None, None, None, None, None, None, None, None, None, None, None, None))
         == Ok(New(country))
  {
  }

  /** Reading back a written record gives the record itself. */
  lemma RoundTrip(road: Road)
    ensures FromArray(ToArray(road)) == Ok(road)
  {
  }

  /** An int length is widened to the same number as a float. */
  lemma LengthCast(data: RoadArray, km: int)
    requires data.countryIso2.Some? && data.lengthKm == Some(IntNum(km))
    ensures FromArray(data).value.lengthKm == Some(km as real)
  {
  }
}
