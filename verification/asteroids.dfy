/** The Near Earth Object page: date-range checks before a feed request,
    flattening of the per-date feed into close-approach records, the
    hazardous filter, the four sort orders, the summary statistics and the
    unit band used to print a miss distance.

    Dates are integer day numbers (the page's date inputs hold whole days,
    and two such dates differ by a whole number of days). */
module Asteroids {
  import opened Wrappers
  import opened Sequences

  datatype Approach = Approach(date: int, missKm: real, velocityKph: real)

  /** A near-Earth object as the feed lists it. */
  datatype Neo = Neo(id: string, hazardous: bool, diameterMaxKm: real, approaches: seq<Approach>)

  /** The objects the feed lists under one date key. */
  datatype FeedDay = FeedDay(date: int, neos: seq<Neo>)

  /** An object together with the date key it was listed under and its
      close approach on that date. */
  datatype NeoRecord = NeoRecord(neo: Neo, approachDate: int, approach: Approach)

  // ---------------------------------------------------------------------
  // Date range

  datatype RangeError = MissingDate | StartAfterEnd | RangeTooLong

  /** The feed serves at most seven days per request. */
  const MaxSpanDays: int := 7

  /** The checks of `loadNearEarthObjects`, in order: both dates present,
      start not after end, span at most seven days. */
  function ValidateRange(start: Option<int>, end: Option<int>): (r: Result<(int, int), RangeError>)
    ensures r.Ok? <==> start.Some? && end.Some? && 0 <= end.value - start.value <= MaxSpanDays
    ensures r.Ok? ==> r.value == (start.value, end.value)
    ensures r == Err(MissingDate) <==> start.None? || end.None?
    ensures r == Err(StartAfterEnd) <==> start.Some? && end.Some? && start.value > end.value
  {
    if start.None? || end.None? then Err(MissingDate)
    else if start.value > end.value then Err(StartAfterEnd)
    else if end.value - start.value > MaxSpanDays then Err(RangeTooLong)
    else Ok((start.value, end.value))
  }

  /** The "this week" preset: today and seven days later. */
  function ThisWeek(today: int): (range: (int, int))
    ensures range.1 - range.0 == MaxSpanDays
  {
    (today, today + 7)
  }

  /** Both presets always pass the checks; "today" spans zero days. */
  lemma PresetsAccepted(today: int)
    ensures ValidateRange(Some(ThisWeek(today).0), Some(ThisWeek(today).1)).Ok?
    ensures ValidateRange(Some(today), Some(today)) == Ok((today, today))
  {
  }

  // ---------------------------------------------------------------------
  // Flattening

  predicate ApproachesOn(n: Neo, date: int) {
    exists k :: 0 <= k < |n.approaches| && n.approaches[k].date == date
  }

  /** `close_approach_data.find(a => a.close_approach_date === date)`. */
  function FirstApproachOn(approaches: seq<Approach>, date: int): (r: Option<Approach>)
    ensures r.None? <==> forall k :: 0 <= k < |approaches| ==> approaches[k].date != date
    ensures r.Some? ==> exists k :: 0 <= k < |approaches| && approaches[k] == r.value
                          && forall j :: 0 <= j < k ==> approaches[j].date != date
    ensures r.Some? ==> r.value.date == date
    decreases |approaches|
  {
    if |approaches| == 0 then None
    else if approaches[0].date == date then Some(approaches[0])
    else
      var rest := FirstApproachOn(approaches[1..], date);
      assert forall k :: 1 <= k < |approaches| ==> approaches[k] == approaches[1..][k - 1];
      assert rest.Some? ==> exists k :: 0 <= k < |approaches| && approaches[k] == rest.value
                              && forall j :: 0 <= j < k ==> approaches[j].date != date by {
        if rest.Some? {
          var k :| 0 <= k < |approaches[1..]| && approaches[1..][k] == rest.value
                   && forall j :: 0 <= j < k ==> approaches[1..][j].date != date;
          assert approaches[k + 1] == rest.value;
        }
      }
      rest
  }

  /** A record's approach is the object's first approach on the record's date. */
  predicate ApproachOfItsDate(x: NeoRecord) {
    && x.approach.date == x.approachDate
    && Some(x.approach) == FirstApproachOn(x.neo.approaches, x.approachDate)
  }

  /** The record of an object listed under `date` that approaches on that date. */
  function RecordOf(n: Neo, date: int): (r: NeoRecord)
    requires ApproachesOn(n, date)
    ensures r.neo == n && r.approachDate == date && r.approach.date == date
    ensures ApproachOfItsDate(r)
  {
    NeoRecord(n, date, FirstApproachOn(n.approaches, date).value)
  }

  /** The records of one date key, in the feed's order for that date. */
  function FlattenDay(date: int, neos: seq<Neo>): (r: seq<NeoRecord>)
    ensures |r| == |Filter(neos, (n: Neo) => ApproachesOn(n, date))|
    ensures forall i :: 0 <= i < |r| ==>
      r[i] == RecordOf(Filter(neos, (n: Neo) => ApproachesOn(n, date))[i], date)
    ensures forall i :: 0 <= i < |r| ==> ApproachOfItsDate(r[i])
    decreases |neos|
  {
    if |neos| == 0 then []
    else
      var n := neos[0];
      var p := (m: Neo) => ApproachesOn(m, date);
      assert neos == [n] + neos[1..];
      FilterCons(n, neos[1..], p);
      (if ApproachesOn(n, date) then [RecordOf(n, date)] else []) + FlattenDay(date, neos[1..])
  }

  /** Total number of objects listed across all date keys. */
  function TotalListed(feed: seq<FeedDay>): nat
    decreases |feed|
  {
    if |feed| == 0 then 0 else |feed[0].neos| + TotalListed(feed[1..])
  }

  /** `processNeoData`: date key by date key, object by object, one record
      per object that approaches on the date it is listed under. */
  function Flatten(feed: seq<FeedDay>): (r: seq<NeoRecord>)
    ensures |r| <= TotalListed(feed)
    ensures forall i :: 0 <= i < |r| ==> ApproachOfItsDate(r[i])
    ensures |feed| > 0 ==> r == FlattenDay(feed[0].date, feed[0].neos) + Flatten(feed[1..])
    decreases |feed|
  {
    if |feed| == 0 then []
    else
      var here := FlattenDay(feed[0].date, feed[0].neos);
      var rest := Flatten(feed[1..]);
      ConcatApproachOfItsDate(here, rest);
      here + rest
  }

  lemma ConcatApproachOfItsDate(a: seq<NeoRecord>, b: seq<NeoRecord>)
    requires forall i :: 0 <= i < |a| ==> ApproachOfItsDate(a[i])
    requires forall i :: 0 <= i < |b| ==> ApproachOfItsDate(b[i])
    ensures forall i :: 0 <= i < |a + b| ==> ApproachOfItsDate((a + b)[i])
  {
    assert forall i :: |a| <= i < |a + b| ==> (a + b)[i] == b[i - |a|];
  }

  /** Flattening a feed is flattening its date keys one after the other. */
  lemma {:induction false} FlattenAppend(a: seq<FeedDay>, b: seq<FeedDay>)
    ensures Flatten(a + b) == Flatten(a) + Flatten(b)
    decreases |a|
  {
    if |a| == 0 {
      assert a + b == b;
    } else {
      assert (a + b)[0] == a[0];
      assert (a + b)[1..] == a[1..] + b;
      FlattenAppend(a[1..], b);
    }
  }

  /** A record comes out of one date key exactly when its object is listed
      under that key and approaches on it; the record is then the one built
      from that object and date. */
  lemma FlattenDayMembers(date: int, neos: seq<Neo>, x: NeoRecord)
    ensures x in FlattenDay(date, neos) <==>
      x.neo in neos && ApproachesOn(x.neo, date) && x == RecordOf(x.neo, date)
  {
    var p := (n: Neo) => ApproachesOn(n, date);
    var f := Filter(neos, p);
    var r := FlattenDay(date, neos);
    FilterMembers(neos, p);
    if x in r {
      var i :| 0 <= i < |r| && r[i] == x;
      assert f[i] in neos && p(f[i]);
    }
    if x.neo in neos && ApproachesOn(x.neo, date) && x == RecordOf(x.neo, date) {
      var j :| 0 <= j < |neos| && neos[j] == x.neo;
      assert p(neos[j]);
      var i :| 0 <= i < |f| && f[i] == x.neo;
      assert r[i] == x;
    }
  }

  /** A record is in the flattened feed exactly when some date key of the
      feed produces it. */
  lemma {:induction false} FlattenMembers(feed: seq<FeedDay>, x: NeoRecord)
    ensures x in Flatten(feed) <==>
      exists k :: 0 <= k < |feed| && x in FlattenDay(feed[k].date, feed[k].neos)
    decreases |feed|
  {
    if |feed| > 0 {
      FlattenMembers(feed[1..], x);
      if x in Flatten(feed[1..]) {
        var k :| 0 <= k < |feed[1..]| && x in FlattenDay(feed[1..][k].date, feed[1..][k].neos);
        assert feed[k + 1] == feed[1..][k];
      }
      if exists k :: 0 <= k < |feed| && x in FlattenDay(feed[k].date, feed[k].neos) {
        var k :| 0 <= k < |feed| && x in FlattenDay(feed[k].date, feed[k].neos);
        if k > 0 {
          assert feed[1..][k - 1] == feed[k];
        }
      }
    }
  }

  /** Objects without an approach on their own date key are dropped. */
  lemma FlattenDayDrops(date: int, n: Neo)
    requires !ApproachesOn(n, date)
    ensures FlattenDay(date, [n]) == []
  {
  }

  // ---------------------------------------------------------------------
  // Filter and sort

  predicate IsHazardous(r: NeoRecord) { r.neo.hazardous }

  /** The "potentially hazardous only" checkbox. */
  function HazardFilter(records: seq<NeoRecord>, hazardousOnly: bool): (r: seq<NeoRecord>)
    ensures hazardousOnly ==> forall i :: 0 <= i < |r| ==> r[i].neo.hazardous
    ensures hazardousOnly ==> forall i :: 0 <= i < |records| && records[i].neo.hazardous ==> records[i] in r
    ensures !hazardousOnly ==> r == records
  {
    FilterMembers(records, IsHazardous);
    if hazardousOnly then Filter(records, IsHazardous) else records
  }

  /** The checked filter keeps the original order. */
  lemma HazardFilterKeepsOrder(records: seq<NeoRecord>, hazardousOnly: bool)
    ensures IsSubsequence(HazardFilter(records, hazardousOnly), records)
  {
    FilterIsSubsequence(records, IsHazardous);
    if !hazardousOnly {
      FilterAll(records, x => true);
      FilterIsSubsequence(records, x => true);
    }
  }

  /** The ascending key that realises a comparator of the sort menu:
      `a - b` on a field is that field, `b - a` is its negation, and an
      unknown menu value compares everything as equal. */
  function SortKey(sortBy: string): NeoRecord -> real {
    if sortBy == "date" then (r: NeoRecord) => r.approachDate as real
    else if sortBy == "size" then (r: NeoRecord) => -r.neo.diameterMaxKm
    else if sortBy == "distance" then (r: NeoRecord) => r.approach.missKm
    else if sortBy == "velocity" then (r: NeoRecord) => -r.approach.velocityKph
    else (r: NeoRecord) => 0.0
  }

  predicate KnownSort(sortBy: string) {
    sortBy == "date" || sortBy == "size" || sortBy == "distance" || sortBy == "velocity"
  }

  /** `neos.sort(...)` with the menu's comparator. */
  function SortRecords(records: seq<NeoRecord>, sortBy: string): (r: seq<NeoRecord>)
    ensures multiset(r) == multiset(records)
    ensures sortBy == "date" ==>
      forall i, j :: 0 <= i < j < |r| ==> r[i].approachDate <= r[j].approachDate
    ensures sortBy == "size" ==>
      forall i, j :: 0 <= i < j < |r| ==> r[i].neo.diameterMaxKm >= r[j].neo.diameterMaxKm
    ensures sortBy == "distance" ==>
      forall i, j :: 0 <= i < j < |r| ==> r[i].approach.missKm <= r[j].approach.missKm
    ensures sortBy == "velocity" ==>
      forall i, j :: 0 <= i < j < |r| ==> r[i].approach.velocityKph >= r[j].approach.velocityKph
    ensures !KnownSort(sortBy) ==> r == records
  {
    var key := SortKey(sortBy);
    var r := SortBy(records, key);
    assert !KnownSort(sortBy) ==> r == records by {
      if !KnownSort(sortBy) {
        SortByConstantKey(records, key, 0.0);
      }
    }
    r
  }

  /** `applySortAndFilter`: nothing is redrawn while there are no records;
      otherwise the filtered list in the chosen order. */
  function SortAndFilter(records: seq<NeoRecord>, hazardousOnly: bool, sortBy: string): (r: Option<seq<NeoRecord>>)
    ensures r.None? <==> |records| == 0
    ensures r.Some? ==> multiset(r.value) == multiset(HazardFilter(records, hazardousOnly))
    ensures r.Some? ==> r.value == SortRecords(HazardFilter(records, hazardousOnly), sortBy)
  {
    if |records| == 0 then None
    else Some(SortRecords(HazardFilter(records, hazardousOnly), sortBy))
  }

  // ---------------------------------------------------------------------
  // Statistics and distance bands

  datatype Stats = Stats(total: nat, hazardous: nat, largestDiameterKm: real, closestMissKm: real)

  function Diameters(records: seq<NeoRecord>): (ds: seq<real>)
    ensures |ds| == |records|
    ensures forall i :: 0 <= i < |records| ==> ds[i] == records[i].neo.diameterMaxKm
  {
    seq(|records|, i requires 0 <= i < |records| => records[i].neo.diameterMaxKm)
  }

  function MissDistances(records: seq<NeoRecord>): (ds: seq<real>)
    ensures |ds| == |records|
    ensures forall i :: 0 <= i < |records| ==> ds[i] == records[i].approach.missKm
  {
    seq(|records|, i requires 0 <= i < |records| => records[i].approach.missKm)
  }

  /** `displayStats`, which does nothing for an empty list. */
  function SummaryStats(records: seq<NeoRecord>): (s: Option<Stats>)
    ensures s.None? <==> |records| == 0
    ensures s.Some? ==> s.value.total == |records| && s.value.hazardous <= s.value.total
    ensures s.Some? ==> s.value.hazardous == |HazardFilter(records, true)|
    ensures s.Some? ==> forall i :: 0 <= i < |records| ==>
      records[i].neo.diameterMaxKm <= s.value.largestDiameterKm
    ensures s.Some? ==>
      exists i :: 0 <= i < |records| && records[i].neo.diameterMaxKm == s.value.largestDiameterKm
    ensures s.Some? ==> forall i :: 0 <= i < |records| ==>
      s.value.closestMissKm <= records[i].approach.missKm
    ensures s.Some? ==>
      exists i :: 0 <= i < |records| && records[i].approach.missKm == s.value.closestMissKm
  {
    if |records| == 0 then None
    else
      Some(Stats(|records|, |Filter(records, IsHazardous)|,
                 Max(Diameters(records)).value, Min(MissDistances(records)).value))
  }

  datatype DistanceUnit = Km | ThousandKm | MillionKm

  function UnitFactor(u: DistanceUnit): real {
    match u
    case Km => 1.0
    case ThousandKm => 1000.0
    case MillionKm => 1000000.0
  }

  /** `formatDistance` before rounding: the unit band and the number printed
      in it. */
  function FormatDistance(km: real): (r: (DistanceUnit, real))
    ensures r.0 == Km <==> km < 1000.0
    ensures r.0 == ThousandKm <==> 1000.0 <= km < 1000000.0
    ensures r.0 == MillionKm <==> km >= 1000000.0
    ensures r.1 * UnitFactor(r.0) == km
  {
    if km < 1000.0 then (Km, km)
    else if km < 1000000.0 then (ThousandKm, km / 1000.0)
    else (MillionKm, km / 1000000.0)
  }

  /** A larger distance never gets a smaller unit. */
  lemma FormatDistanceMonotone(a: real, b: real)
    requires a <= b
    ensures UnitFactor(FormatDistance(a).0) <= UnitFactor(FormatDistance(b).0)
  {
  }

  // ---------------------------------------------------------------------
  // Loading

  datatype NeoView =
    | Rejected(error: RangeError)
    | LoadFailed
    | NoNeos
    | Loaded(records: seq<NeoRecord>, shown: Option<seq<NeoRecord>>, stats: Option<Stats>)

  /** `loadNearEarthObjects` for the dates in the inputs, where `response` is
      what the feed request delivers (a missing `near_earth_objects` is an
      empty feed). The request is made only once the range is accepted. */
  function LoadNearEarthObjects(start: Option<int>, end: Option<int>, response: Fetched<seq<FeedDay>>,
                                hazardousOnly: bool, sortBy: string): (v: NeoView)
    ensures v.Rejected? <==> ValidateRange(start, end).Err?
    ensures v.Rejected? ==> v.error == ValidateRange(start, end).error
    ensures !v.Rejected? ==> 0 <= end.value - start.value <= MaxSpanDays
    ensures v.Loaded? ==> response.Fetched? && v.records == Flatten(response.payload)
    ensures v.Loaded? ==> v.shown == SortAndFilter(v.records, hazardousOnly, sortBy)
    ensures v.Loaded? ==> v.stats == SummaryStats(v.records)
    ensures ValidateRange(start, end).Ok? && response.FetchFailed? ==> v == LoadFailed
    ensures ValidateRange(start, end).Ok? && response.Fetched? ==>
      (v == NoNeos <==> |response.payload| == 0)
    ensures ValidateRange(start, end).Ok? && response.Fetched? && |response.payload| > 0 ==> v.Loaded?
  {
    match ValidateRange(start, end)
    case Err(e) => Rejected(e)
    case Ok(_) =>
      match response
      case FetchFailed => LoadFailed
      case Fetched(feed) =>
        if |feed| == 0 then NoNeos
        else
          var records := Flatten(feed);
          Loaded(records, SortAndFilter(records, hazardousOnly, sortBy), SummaryStats(records))
  }
}
