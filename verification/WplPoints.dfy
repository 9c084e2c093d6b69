/** Way points as they arrive in JSON, and the checks both the path generator and the printer run. */
module WplPoints {
  import opened Wrappers

  datatype Field = Missing | NotANumber | Number(value: real)

  /** One entry of the JSON list. */
  datatype RawPoint =
    | NotADict
    | Dict(lat: Field, lon: Field, altM: Field, param1: Field, param2: Field, param3: Field, param4: Field)

  datatype Point = Point(lat: real, lon: real, altM: real)
  {
    /** The dictionary form of a generated point: all command parameters at their defaults. */
    function ToRaw(): RawPoint {
      Dict(Number(lat), Number(lon), Number(altM), Number(0.0), Number(0.0), Number(0.0), Number(0.0))
    }
  }

  datatype PointError =
    | NotADictionary | MissingField | NotNumeric | LatitudeOutOfRange | LongitudeOutOfRange | NegativeAltitude

  predicate LatLonInRange(lat: real, lon: real) {
    -90.0 <= lat <= 90.0 && -180.0 <= lon <= 180.0
  }

  predicate InRange(p: Point) {
    LatLonInRange(p.lat, p.lon) && p.altM >= 0.0
  }

  /** The point has numeric coordinates in range. */
  predicate HasCoordinates(p: RawPoint) {
    p.Dict? && p.lat.Number? && p.lon.Number? && p.altM.Number?
    && LatLonInRange(p.lat.value, p.lon.value) && p.altM.value >= 0.0
  }

  function Coordinates(p: RawPoint): Point
    requires HasCoordinates(p)
  {
    Point(p.lat.value, p.lon.value, p.altM.value)
  }

  function Required(f: Field): Result<real, PointError> {
    match f
    case Missing => Err(MissingField)
    case NotANumber => Err(NotNumeric)
    case Number(v) => Ok(v)
  }

  /** Reads and checks the coordinates; on bad input, reports the first failing check. */
  function ReadPoint(p: RawPoint): (r: Result<Point, PointError>)
    ensures r.Ok? <==> HasCoordinates(p)
    ensures r.Ok? ==> r.value == Coordinates(p)
    ensures r.Ok? <==> && p.Dict? && p.lat.Number? && p.lon.Number? && p.altM.Number?
                       && -90.0 <= p.lat.value <= 90.0 && -180.0 <= p.lon.value <= 180.0 && 0.0 <= p.altM.value
    ensures r.Ok? ==> (r.value.lat, r.value.lon, r.value.altM) == (p.lat.value, p.lon.value, p.altM.value)
  {
    if p.NotADict? then Err(NotADictionary)
    else
      var lat, lon, alt := Required(p.lat), Required(p.lon), Required(p.altM);
      if lat.Err? then Err(lat.error)
      else if lon.Err? then Err(lon.error)
      else if alt.Err? then Err(alt.error)
      else if lat.value < -90.0 || lat.value > 90.0 then Err(LatitudeOutOfRange)
      else if lon.value < -180.0 || lon.value > 180.0 then Err(LongitudeOutOfRange)
      else if alt.value < 0.0 then Err(NegativeAltitude)
      else Ok(Point(lat.value, lon.value, alt.value))
  }
}
