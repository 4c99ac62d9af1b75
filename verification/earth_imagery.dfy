/** The Earth imagery page: the ordered input checks made before an image
    is requested, and the hemisphere letters of the location caption.

    Latitude and longitude are `parseFloat` of the inputs, with `None` for
    NaN; the date is the raw input text, empty when nothing is chosen. */
module EarthImagery {
  import opened Wrappers

  datatype InputError = InvalidNumber | LatitudeOutOfRange | LongitudeOutOfRange | MissingDate

  datatype ImageRequest = ImageRequest(lat: real, lon: real, date: string)

  predicate LatitudeInRange(lat: real) { -90.0 <= lat <= 90.0 }

  predicate LongitudeInRange(lon: real) { -180.0 <= lon <= 180.0 }

  /** The checks of `loadEarthImage`, in order: both numbers parse, the
      latitude is within [-90, 90], the longitude within [-180, 180], a date
      is chosen. Only the first failing check is reported. */
  function ValidateInput(lat: Option<real>, lon: Option<real>, date: string): (r: Result<ImageRequest, InputError>)
    ensures r.Ok? <==> && lat.Some? && lon.Some? && LatitudeInRange(lat.value)
                       && LongitudeInRange(lon.value) && date != ""
    ensures r.Ok? ==> r.value == ImageRequest(lat.value, lon.value, date)
    ensures r == Err(InvalidNumber) <==> lat.None? || lon.None?
    ensures r == Err(LatitudeOutOfRange) <==> lat.Some? && lon.Some? && !LatitudeInRange(lat.value)
    ensures r == Err(LongitudeOutOfRange) <==>
      lat.Some? && lon.Some? && LatitudeInRange(lat.value) && !LongitudeInRange(lon.value)
    ensures r == Err(MissingDate) <==>
      lat.Some? && lon.Some? && LatitudeInRange(lat.value) && LongitudeInRange(lon.value) && date == ""
  {
    if lat.None? || lon.None? then Err(InvalidNumber)
    else if lat.value < -90.0 || lat.value > 90.0 then Err(LatitudeOutOfRange)
    else if lon.value < -180.0 || lon.value > 180.0 then Err(LongitudeOutOfRange)
    else if date == "" then Err(MissingDate)
    else Ok(ImageRequest(lat.value, lon.value, date))
  }

  /** The poles and the antimeridian are accepted. */
  lemma BoundsInclusive(date: string)
    requires date != ""
    ensures ValidateInput(Some(90.0), Some(180.0), date).Ok?
    ensures ValidateInput(Some(-90.0), Some(-180.0), date).Ok?
  {
  }

  /** The caption of `getLocationName` before rounding: magnitudes and
      hemisphere letters. */
  datatype Location = Location(absLat: real, latDir: char, absLon: real, lonDir: char)

  function LocationName(lat: real, lon: real): (l: Location)
    ensures l.latDir == 'N' <==> lat >= 0.0
    ensures l.latDir == 'N' || l.latDir == 'S'
    ensures l.lonDir == 'E' <==> lon >= 0.0
    ensures l.lonDir == 'E' || l.lonDir == 'W'
    ensures l.absLat >= 0.0 && l.absLon >= 0.0
  {
    Location(if lat < 0.0 then -lat else lat, if lat >= 0.0 then 'N' else 'S',
             if lon < 0.0 then -lon else lon, if lon >= 0.0 then 'E' else 'W')
  }

  /** The signed coordinates read back from a caption. */
  function Signed(l: Location): (real, real) {
    (if l.latDir == 'N' then l.absLat else -l.absLat,
     if l.lonDir == 'E' then l.absLon else -l.absLon)
  }

  /** A caption loses no information before rounding. */
  lemma LocationNameRoundTrip(lat: real, lon: real)
    ensures Signed(LocationName(lat, lon)) == (lat, lon)
  {
  }
}
