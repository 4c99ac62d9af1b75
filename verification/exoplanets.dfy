/** The exoplanet archive pipeline of the Exoplanets page: a time-windowed
    query cache in front of the archive, a record normaliser, an additive
    0-100 habitability score, a simplified habitable zone and a radius-band
    classifier, plus the fixed sample list returned when the archive fails.

    Numbers are exact reals. JavaScript's `x || null` and `if (x)` treat `0`
    like a missing value; `Truthy` states that once for every numeric column. */
module Exoplanets {
  import opened Wrappers
  import opened Text
  import opened Sequences

  /** One row of the archive's planetary-systems table; every column may be null. */
  datatype RawRecord = RawRecord(
    plName: Option<string>,
    plOrbper: Option<real>,
    plRade: Option<real>,        // Earth radii
    plMasse: Option<real>,       // Earth masses
    plEqt: Option<real>,         // equilibrium temperature, Kelvin
    ra: Option<real>,
    dec: Option<real>,
    syDist: Option<real>,        // parsecs
    discYear: Option<real>,
    discoveryMethod: Option<string>,
    plDens: Option<real>,
    plOrbeccen: Option<real>,
    stTeff: Option<real>,        // host-star effective temperature, Kelvin
    stRad: Option<real>,
    stMass: Option<real>,
    plOrbsmax: Option<real>)     // semi-major axis, AU

  datatype PlanetType = Terrestrial | SuperEarth | MiniNeptune | NeptuneLike | GasGiant | Unknown

  /** The normalised, scored record the page renders. */
  datatype Planet = Planet(
    name: string,
    orbitalPeriod: Option<real>,
    radius: Option<real>,
    mass: Option<real>,
    temperature: Option<real>,
    ra: Option<real>,
    dec: Option<real>,
    distance: Option<real>,
    discoveryYear: Option<real>,
    discoveryMethod: string,
    density: Option<real>,
    eccentricity: Option<real>,
    stellarTemp: Option<real>,
    stellarRadius: Option<real>,
    stellarMass: Option<real>,
    semiMajorAxis: Option<real>,
    habitabilityScore: int,
    planetType: PlanetType)

  /** A JavaScript number that `if (x)` accepts: present and not zero. */
  predicate Truthy(x: Option<real>) {
    x.Some? && x.value != 0.0
  }

  /** A JavaScript string that `if (s)` accepts: present and not empty. */
  predicate TruthyText(s: Option<string>) {
    s.Some? && s.value != ""
  }

  /** `x || null`. */
  function OrNull(x: Option<real>): (r: Option<real>)
    ensures r.Some? <==> Truthy(x)
    ensures r.Some? ==> r == x
  {
    if Truthy(x) then x else None
  }

  /** `s || 'Unknown'`. */
  function OrUnknown(s: Option<string>): (r: string)
    ensures r != ""
    ensures TruthyText(s) ==> r == s.value
    ensures !TruthyText(s) ==> r == "Unknown"
  {
    if TruthyText(s) then s.value else "Unknown"
  }

  function Abs(x: real): (r: real)
    ensures r >= 0.0 && (r == x || r == -x)
  {
    if x < 0.0 then -x else x
  }

  // ---------------------------------------------------------------------
  // Habitability score

  /** Earth's reference average temperature, Kelvin. */
  const EarthTemp: real := 288.0
  /** The Sun's effective temperature, Kelvin. */
  const SolarTemp: real := 5778.0

  /** Up to 40 points for an equilibrium temperature close to Earth's. Each
      threshold on the distance from 288 K is strict, and a missing or zero
      temperature earns nothing. */
  function TemperatureScore(eqt: Option<real>): (s: int)
    ensures s == 0 || s == 10 || s == 20 || s == 30 || s == 40
    ensures !Truthy(eqt) ==> s == 0
    ensures Truthy(eqt) ==>
      var d := Abs(eqt.value - EarthTemp);
      && (s >= 40 <==> d < 50.0)
      && (s >= 30 <==> d < 100.0)
      && (s >= 20 <==> d < 200.0)
      && (s >= 10 <==> d < 400.0)
  {
    if !Truthy(eqt) then 0
    else
      var d := Abs(eqt.value - EarthTemp);
      if d < 50.0 then 40
      else if d < 100.0 then 30
      else if d < 200.0 then 20
      else if d < 400.0 then 10
      else 0
  }

  /** Up to 30 points for a radius in nested inclusive bands around 1 Earth radius. */
  function SizeScore(rade: Option<real>): (s: int)
    ensures s == 0 || s == 10 || s == 20 || s == 30
    ensures s >= 30 <==> rade.Some? && 0.5 <= rade.value <= 2.0
    ensures s >= 20 <==> rade.Some? && 0.3 <= rade.value <= 3.0
    ensures s >= 10 <==> rade.Some? && 0.1 <= rade.value <= 5.0
  {
    if !Truthy(rade) then 0
    else
      var r := rade.value;
      if 0.5 <= r <= 2.0 then 30
      else if 0.3 <= r <= 3.0 then 20
      else if 0.1 <= r <= 5.0 then 10
      else 0
  }

  /** Up to 20 points for a mass in nested inclusive bands around 1 Earth mass. */
  function MassScore(masse: Option<real>): (s: int)
    ensures s == 0 || s == 10 || s == 20
    ensures s >= 20 <==> masse.Some? && 0.1 <= masse.value <= 5.0
    ensures s >= 10 <==> masse.Some? && 0.05 <= masse.value <= 10.0
  {
    if !Truthy(masse) then 0
    else
      var m := masse.value;
      if 0.1 <= m <= 5.0 then 20
      else if 0.05 <= m <= 10.0 then 10
      else 0
  }

  /** The habitable zone of a star, held as the SQUARES of its inner and outer
      radii: `inner = 0.95 * sqrt(T / 5778)` and `outer = 1.37 * sqrt(T / 5778)`.
      A negative temperature makes `Math.sqrt` return NaN, and every comparison
      against NaN fails; that case is `None`. */
  datatype Zone = Zone(innerSq: real, outerSq: real)

  function HabitableZone(stellarTemp: real): (z: Option<Zone>)
    ensures z.Some? <==> stellarTemp >= 0.0
    ensures z.Some? ==> 0.0 <= z.value.innerSq <= z.value.outerSq
  {
    if stellarTemp < 0.0 then None
    else Some(Zone(0.9025 * stellarTemp / SolarTemp, 1.8769 * stellarTemp / SolarTemp))
  }

  /** `a >= inner && a <= outer` for the zone of a star at `stellarTemp`. */
  predicate InZone(a: real, stellarTemp: real) {
    match HabitableZone(stellarTemp)
    case None => false
    case Some(z) => a >= 0.0 && z.innerSq <= a * a <= z.outerSq
  }

  lemma SquareMonotone(x: real, y: real)
    requires 0.0 <= x <= y
    ensures x * x <= y * y
  {
    assert x * x <= x * y <= y * y;
  }

  /** The squared form agrees with the source's square-root form: for any
      `f >= 0` with `f * f == T / 5778`, `a` is in the zone exactly when
      `0.95 * f <= a <= 1.37 * f`. */
  lemma InZoneMatchesSquareRoot(a: real, stellarTemp: real, f: real)
    requires stellarTemp >= 0.0 && f >= 0.0 && f * f == stellarTemp / SolarTemp
    ensures InZone(a, stellarTemp) <==> 0.95 * f <= a <= 1.37 * f
  {
    var lo, hi := 0.95 * f, 1.37 * f;
    assert lo * lo == 0.9025 * stellarTemp / SolarTemp;
    assert hi * hi == 1.8769 * stellarTemp / SolarTemp;
    if lo <= a <= hi {
      SquareMonotone(lo, a);
      SquareMonotone(a, hi);
    }
    if InZone(a, stellarTemp) {
      if a < lo { StrictSquare(a, lo); }
      if a > hi { StrictSquare(hi, a); }
    }
  }

  lemma StrictSquare(x: real, y: real)
    requires 0.0 <= x < y
    ensures x * x < y * y
  {
    assert x * (y - x) >= 0.0;
    assert (y - x) * y > 0.0;
  }

  /** The Sun's own zone holds 1 AU. */
  lemma SolarZoneHoldsOneAu()
    ensures InZone(1.0, SolarTemp)
    ensures HabitableZone(SolarTemp) == Some(Zone(0.9025, 1.8769))
  {
  }

  /** 10 points when both the semi-major axis and the stellar temperature are
      present and the orbit lies inside the zone. */
  function OrbitScore(semiMajorAxis: Option<real>, stellarTemp: Option<real>): (s: int)
    ensures s == 0 || s == 10
    ensures s == 10 <==> Truthy(semiMajorAxis) && Truthy(stellarTemp)
                         && InZone(semiMajorAxis.value, stellarTemp.value)
  {
    if Truthy(semiMajorAxis) && Truthy(stellarTemp)
       && InZone(semiMajorAxis.value, stellarTemp.value)
    then 10 else 0
  }

  /** The habitability score computed from the five columns it reads. The
      maxima of the four parts add up to exactly 100, so the final
      `Math.min(100, score)` never changes the sum. */
  function ScoreColumns(eqt: Option<real>, rade: Option<real>, masse: Option<real>,
                        orbsmax: Option<real>, teff: Option<real>): (s: int)
    ensures 0 <= s <= 100
    ensures s == TemperatureScore(eqt) + SizeScore(rade) + MassScore(masse) + OrbitScore(orbsmax, teff)
  {
    MinInt(100, TemperatureScore(eqt) + SizeScore(rade) + MassScore(masse) + OrbitScore(orbsmax, teff))
  }

  /** `calculateHabitability` on a raw row. */
  function Habitability(raw: RawRecord): (s: int)
    ensures 0 <= s <= 100
    ensures s == TemperatureScore(raw.plEqt) + SizeScore(raw.plRade) + MassScore(raw.plMasse)
                 + OrbitScore(raw.plOrbsmax, raw.stTeff)
  {
    ScoreColumns(raw.plEqt, raw.plRade, raw.plMasse, raw.plOrbsmax, raw.stTeff)
  }

  /** Earth's own values score the maximum. */
  lemma EarthScoresHundred()
    ensures ScoreColumns(Some(288.0), Some(1.0), Some(1.0), Some(1.0), Some(5778.0)) == 100
  {
    assert InZone(1.0, 5778.0);
  }

  /** Moving the temperature closer to 288 K never lowers its score. */
  lemma TemperatureScoreMonotone(t1: real, t2: real)
    requires t1 != 0.0 && t2 != 0.0
    requires Abs(t1 - EarthTemp) <= Abs(t2 - EarthTemp)
    ensures TemperatureScore(Some(t1)) >= TemperatureScore(Some(t2))
  {
  }

  // ---------------------------------------------------------------------
  // Classification

  /** `classifyPlanet`: `Unknown` without a (non-zero) radius, otherwise
      half-open bands with the boundary in the larger class. */
  function Classify(rade: Option<real>): (t: PlanetType)
    ensures t == Unknown <==> !Truthy(rade)
    ensures t == Terrestrial <==> Truthy(rade) && rade.value < 1.25
    ensures t == SuperEarth <==> Truthy(rade) && 1.25 <= rade.value < 2.0
    ensures t == MiniNeptune <==> Truthy(rade) && 2.0 <= rade.value < 4.0
    ensures t == NeptuneLike <==> Truthy(rade) && 4.0 <= rade.value < 10.0
    ensures t == GasGiant <==> Truthy(rade) && 10.0 <= rade.value
  {
    if !Truthy(rade) then Unknown
    else
      var r := rade.value;
      if r < 1.25 then Terrestrial
      else if r < 2.0 then SuperEarth
      else if r < 4.0 then MiniNeptune
      else if r < 10.0 then NeptuneLike
      else GasGiant
  }

  /** Position of a class on the radius axis. */
  function Rank(t: PlanetType): int {
    match t
    case Terrestrial => 0
    case SuperEarth => 1
    case MiniNeptune => 2
    case NeptuneLike => 3
    case GasGiant => 4
    case Unknown => -1
  }

  /** A larger radius never yields a smaller class, and the band boundaries
      belong to the larger class. */
  lemma ClassifyMonotone(r1: real, r2: real)
    requires r1 != 0.0 && r2 != 0.0 && r1 <= r2
    ensures Rank(Classify(Some(r1))) <= Rank(Classify(Some(r2)))
  {
  }

  lemma ClassifyBoundaries()
    ensures Classify(Some(1.25)) == SuperEarth
    ensures Classify(Some(2.0)) == MiniNeptune
    ensures Classify(Some(4.0)) == NeptuneLike
    ensures Classify(Some(10.0)) == GasGiant
    ensures Classify(Some(0.0)) == Unknown && Classify(None) == Unknown
  {
  }

  // ---------------------------------------------------------------------
  // Normalisation

  /** `processExoplanetData` on one row. */
  function Normalize(raw: RawRecord): (p: Planet)
    ensures p.name == OrUnknown(raw.plName) && p.discoveryMethod == OrUnknown(raw.discoveryMethod)
    ensures p.orbitalPeriod == OrNull(raw.plOrbper)
    ensures p.radius == OrNull(raw.plRade) && p.mass == OrNull(raw.plMasse)
    ensures p.temperature == OrNull(raw.plEqt)
    ensures p.ra == OrNull(raw.ra) && p.dec == OrNull(raw.dec)
    ensures p.distance == OrNull(raw.syDist) && p.discoveryYear == OrNull(raw.discYear)
    ensures p.density == OrNull(raw.plDens) && p.eccentricity == OrNull(raw.plOrbeccen)
    ensures p.stellarTemp == OrNull(raw.stTeff) && p.stellarRadius == OrNull(raw.stRad)
    ensures p.stellarMass == OrNull(raw.stMass)
    ensures p.semiMajorAxis == OrNull(raw.plOrbsmax)
    ensures p.habitabilityScore == Habitability(raw)
    ensures p.planetType == Classify(raw.plRade)
  {
    Planet(
      OrUnknown(raw.plName), OrNull(raw.plOrbper), OrNull(raw.plRade), OrNull(raw.plMasse),
      OrNull(raw.plEqt), OrNull(raw.ra), OrNull(raw.dec), OrNull(raw.syDist),
      OrNull(raw.discYear), OrUnknown(raw.discoveryMethod), OrNull(raw.plDens),
      OrNull(raw.plOrbeccen), OrNull(raw.stTeff), OrNull(raw.stRad), OrNull(raw.stMass),
      OrNull(raw.plOrbsmax), Habitability(raw), Classify(raw.plRade))
  }

  /** A normalised record read back as an archive row. */
  function AsRaw(p: Planet): RawRecord {
    RawRecord(
      Some(p.name), p.orbitalPeriod, p.radius, p.mass, p.temperature, p.ra, p.dec,
      p.distance, p.discoveryYear, Some(p.discoveryMethod), p.density, p.eccentricity,
      p.stellarTemp, p.stellarRadius, p.stellarMass, p.semiMajorAxis)
  }

  /** Normalising is idempotent: the nulls it introduces stand exactly for
      the zeros it drops, so the score and the type recomputed from a
      normalised record are the ones it carries. */
  lemma NormalizeIdempotent(raw: RawRecord)
    ensures Normalize(AsRaw(Normalize(raw))) == Normalize(raw)
  {
    var p := Normalize(raw);
    var raw' := AsRaw(p);
    assert Habitability(raw') == Habitability(raw) by {
      assert TemperatureScore(raw'.plEqt) == TemperatureScore(raw.plEqt);
      assert SizeScore(raw'.plRade) == SizeScore(raw.plRade);
      assert MassScore(raw'.plMasse) == MassScore(raw.plMasse);
      assert OrbitScore(raw'.plOrbsmax, raw'.stTeff) == OrbitScore(raw.plOrbsmax, raw.stTeff);
    }
    assert Classify(raw'.plRade) == Classify(raw.plRade);
  }

  const EmptyRecord: RawRecord :=
    RawRecord(None, None, None, None, None, None, None, None, None, None, None, None, None, None, None, None)

  /** An empty row becomes an `Unknown` planet with score 0 and only nulls. */
  lemma NormalizeEmpty()
    ensures Normalize(EmptyRecord).habitabilityScore == 0
    ensures Normalize(EmptyRecord).planetType == Unknown
    ensures Normalize(EmptyRecord).name == "Unknown" && Normalize(EmptyRecord).discoveryMethod == "Unknown"
    ensures Normalize(EmptyRecord).radius == None && Normalize(EmptyRecord).semiMajorAxis == None
  {
  }

  /** `processExoplanetData`: one normalised record per row, in row order. */
  function ProcessAll(raws: seq<RawRecord>): (ps: seq<Planet>)
    ensures |ps| == |raws|
    ensures forall i :: 0 <= i < |raws| ==> ps[i] == Normalize(raws[i])
    decreases |raws|
  {
    if |raws| == 0 then [] else [Normalize(raws[0])] + ProcessAll(raws[1..])
  }

  // ---------------------------------------------------------------------
  // Fallback sample data

  function Sample(name: string, period: real, radius: real, mass: Option<real>, temp: real,
                  dist: real, year: real, discovery: string, score: int, kind: PlanetType): Planet
  {
    Planet(name, Some(period), Some(radius), mass, Some(temp), None, None, Some(dist),
           Some(year), discovery, None, None, None, None, None, None, score, kind)
  }

  /** `getSampleExoplanets`: the fixed list shown when the archive fails. */
  function SamplePlanets(): (ps: seq<Planet>)
    ensures |ps| == 3
    ensures ps[0].name == "Kepler-452b" && ps[0].habitabilityScore == 85
    ensures ps[1].name == "TRAPPIST-1e" && ps[1].habitabilityScore == 92
    ensures ps[2].name == "Proxima Centauri b" && ps[2].habitabilityScore == 78
  {
    [ Sample("Kepler-452b", 384.8, 1.63, None, 265.0, 1400.0, 2015.0, "Transit", 85, SuperEarth),
      Sample("TRAPPIST-1e", 6.1, 0.92, Some(0.77), 251.0, 39.6, 2016.0, "Transit", 92, Terrestrial),
      Sample("Proxima Centauri b", 11.2, 1.17, Some(1.27), 234.0, 4.24, 2016.0, "Radial Velocity", 78, Terrestrial) ]
  }

  /** The sample types are the ones the classifier gives their radii. */
  lemma SampleTypesMatchClassifier()
    ensures forall i :: 0 <= i < |SamplePlanets()| ==>
      SamplePlanets()[i].planetType == Classify(SamplePlanets()[i].radius)
  {
  }

  /** The sample scores are hardcoded: the scorer would give those very
      columns 70, 90 and 80. */
  lemma SampleScoresAreHardcoded()
    ensures forall i :: 0 <= i < |SamplePlanets()| ==>
      var p := SamplePlanets()[i];
      ScoreColumns(p.temperature, p.radius, p.mass, p.semiMajorAxis, p.stellarTemp) != p.habitabilityScore
  {
    var ps := SamplePlanets();
    assert ScoreColumns(ps[0].temperature, ps[0].radius, ps[0].mass, ps[0].semiMajorAxis, ps[0].stellarTemp) == 70;
    assert ScoreColumns(ps[1].temperature, ps[1].radius, ps[1].mass, ps[1].semiMajorAxis, ps[1].stellarTemp) == 90;
    assert ScoreColumns(ps[2].temperature, ps[2].radius, ps[2].mass, ps[2].semiMajorAxis, ps[2].stellarTemp) == 80;
  }

  // ---------------------------------------------------------------------
  // Query cache

  datatype CacheEntry = CacheEntry(data: seq<Planet>, timestamp: int)

  type Cache = map<string, CacheEntry>

  /** Ten minutes, in milliseconds. */
  const CacheTimeout: int := 10 * 60 * 1000

  /** The cache key `query_${query}_${limit}`. */
  function CacheKey(query: string, limit: int): (k: string)
    ensures StartsWith(k, "query_")
  {
    "query_" + query + "_" + Decimal(limit)
  }

  /** The part of `s` after its last `_` (all of `s` when it has none). */
  function AfterLastUnderscore(s: string): (r: string)
    ensures |r| <= |s|
    decreases |s|
  {
    if |s| == 0 || s[|s| - 1] == '_' then ""
    else AfterLastUnderscore(s[..|s| - 1]) + [s[|s| - 1]]
  }

  lemma {:induction false} AfterLastUnderscoreOf(p: string, d: string)
    requires forall i :: 0 <= i < |d| ==> d[i] != '_'
    ensures AfterLastUnderscore(p + "_" + d) == d
    decreases |d|
  {
    if |d| > 0 {
      var d' := d[..|d| - 1];
      assert (p + "_" + d)[..|p + "_" + d| - 1] == p + "_" + d';
      AfterLastUnderscoreOf(p, d');
      assert d == d' + [d[|d| - 1]];
    }
  }

  /** Distinct (query, limit) pairs never share a cache entry: the decimal
      limit holds no `_`, so the last `_` of a key splits it unambiguously. */
  lemma CacheKeyInjective(q1: string, l1: int, q2: string, l2: int)
    requires CacheKey(q1, l1) == CacheKey(q2, l2)
    ensures q1 == q2 && l1 == l2
  {
    var k := CacheKey(q1, l1);
    var d1, d2 := Decimal(l1), Decimal(l2);
    assert k == ("query_" + q1 + "_") + d1 == ("query_" + q2 + "_") + d2;
    AfterLastUnderscoreOf("query_" + q1, d1);
    AfterLastUnderscoreOf("query_" + q2, d2);
    assert d1 == d2;
    assert d1 == k[|k| - |d1|..];
    DecimalInjective(l1, l2);
    assert q1 == k[6..|k| - |d1| - 1] == q2;
  }

  /** An entry younger than ten minutes (strictly) answers the query. */
  predicate Fresh(cache: Cache, key: string, now: int) {
    key in cache && now - cache[key].timestamp < CacheTimeout
  }

  /** What `queryExoplanets` returns, the cache it leaves behind, and whether
      it went to the network. */
  datatype QueryOutcome = QueryOutcome(planets: seq<Planet>, cache: Cache, fetched: bool)

  /** `queryExoplanets(query, limit)`. The clock is read twice: `now` before
      the cache lookup, and `stored` once the archive has answered, which is
      the timestamp a fresh entry carries. `archive` is what the archive
      request would deliver; it is consulted only on a miss. */
  function Query(cache: Cache, query: string, limit: int, now: int, stored: int,
                 archive: Fetched<seq<RawRecord>>): (r: QueryOutcome)
    ensures Fresh(cache, CacheKey(query, limit), now) ==>
      r == QueryOutcome(cache[CacheKey(query, limit)].data, cache, false)
    ensures !Fresh(cache, CacheKey(query, limit), now) ==> r.fetched
    ensures !Fresh(cache, CacheKey(query, limit), now) && archive.Fetched? ==>
      && |r.planets| == |archive.payload|
      && (forall i :: 0 <= i < |r.planets| ==> r.planets[i] == Normalize(archive.payload[i]))
      && r.cache == cache[CacheKey(query, limit) := CacheEntry(r.planets, stored)]
    ensures !Fresh(cache, CacheKey(query, limit), now) && archive.FetchFailed? ==>
      r.planets == SamplePlanets() && r.cache == cache
  {
    var key := CacheKey(query, limit);
    if Fresh(cache, key, now) then QueryOutcome(cache[key].data, cache, false)
    else match archive
      case FetchFailed => QueryOutcome(SamplePlanets(), cache, true)
      case Fetched(rows) =>
        var data := ProcessAll(rows);
        QueryOutcome(data, cache[key := CacheEntry(data, stored)], true)
  }

  /** Two identical queries, the first of which misses the cache and fetches
      successfully, go to the network once and return the same records when
      the second starts less than ten minutes after the first one's answer
      was stored. */
  lemma QueryRepeatedWithinWindow(cache: Cache, query: string, limit: int, t1: int, s1: int,
                                  t2: int, s2: int, rows: seq<RawRecord>,
                                  later: Fetched<seq<RawRecord>>)
    requires !Fresh(cache, CacheKey(query, limit), t1)
    requires t2 - s1 < CacheTimeout
    ensures var first := Query(cache, query, limit, t1, s1, Fetched(rows));
            var second := Query(first.cache, query, limit, t2, s2, later);
            && !second.fetched
            && second.planets == first.planets
            && second.cache == first.cache
  {
  }

  /** Once ten minutes have passed since an entry was stored, the same query
      goes to the network again. */
  lemma QueryAfterWindowRefetches(cache: Cache, query: string, limit: int, now: int, stored: int,
                                  archive: Fetched<seq<RawRecord>>)
    requires CacheKey(query, limit) in cache
    requires now - cache[CacheKey(query, limit)].timestamp >= CacheTimeout
    ensures Query(cache, query, limit, now, stored, archive).fetched
  {
  }

  /** A query never disturbs the entries of other (query, limit) pairs. */
  lemma QueryLeavesOtherKeys(cache: Cache, query: string, limit: int, now: int, stored: int,
                             archive: Fetched<seq<RawRecord>>, q2: string, l2: int)
    requires (q2, l2) != (query, limit)
    ensures var c := Query(cache, query, limit, now, stored, archive).cache;
            (CacheKey(q2, l2) in c <==> CacheKey(q2, l2) in cache)
            && (CacheKey(q2, l2) in cache ==> c[CacheKey(q2, l2)] == cache[CacheKey(q2, l2)])
  {
    if CacheKey(q2, l2) == CacheKey(query, limit) {
      CacheKeyInjective(q2, l2, query, limit);
    }
  }

  // ---------------------------------------------------------------------
  // "Habitable zone" selection of the page

  predicate HighScoring(p: Planet) { p.habitabilityScore >= 50 }

  /** Sorting by this key ascending puts the highest score first. */
  function NegatedScore(p: Planet): real { -(p.habitabilityScore as real) }

  /** Planets scoring at least 50, highest score first (ties keep archive
      order). */
  function HabitableSelection(planets: seq<Planet>): (r: seq<Planet>)
    ensures multiset(r) == multiset(Filter(planets, HighScoring))
    ensures forall i :: 0 <= i < |r| ==> r[i].habitabilityScore >= 50
    ensures forall i, j :: 0 <= i < j < |r| ==> r[i].habitabilityScore >= r[j].habitabilityScore
  {
    var kept := Filter(planets, HighScoring);
    var r := SortBy(kept, NegatedScore);
    PermutationKeepsAll(r, kept, HighScoring);
    r
  }

  /** Planets with equal scores keep their archive order (`Array.prototype.sort`
      is stable): whatever predicate `sameScore` picks out the planets scoring
      `score`, it sees the same list before and after the sort. */
  lemma HabitableSelectionKeepsTies(planets: seq<Planet>, score: int, sameScore: Planet -> bool)
    requires forall p :: sameScore(p) <==> p.habitabilityScore == score
    ensures Filter(HabitableSelection(planets), sameScore) == Filter(Filter(planets, HighScoring), sameScore)
  {
    assert KeyClass(sameScore, NegatedScore, -(score as real));
    SortByStable(Filter(planets, HighScoring), NegatedScore, -(score as real), sameScore);
  }
}
