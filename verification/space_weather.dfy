/** The threat rules of the Space Weather page: the alert list built from
    recent flares, coronal mass ejections (CMEs) and geomagnetic storms, and
    the threshold ladders behind the flare, geomagnetic and aurora levels.

    Timestamps are integer milliseconds and the clock reading `now` is a
    parameter. The list of Kp values of a storm may be empty; its maximum is
    then `None` where the page computes `Math.max()` of nothing, `-Infinity`,
    which fails every threshold. */
module SpaceWeather {
  import opened Wrappers
  import opened Text
  import opened Sequences

  datatype Flare = Flare(classType: Option<string>, peakTime: int)
  /** A CME with the speeds (km/s) of its analyses, first analysis first. */
  datatype Cme = Cme(startTime: int, analysisSpeeds: seq<real>)
  datatype Storm = Storm(startTime: int, kpIndex: seq<real>)

  /** The CSS class shared by alerts and threat levels; the level names shown
      to the user (`LOW`, `MODERATE`, ...) are its upper-case spelling. */
  datatype Severity = Low | Moderate | High | Extreme

  datatype AlertKind =
    | FlareAlert(classType: string)
    | CmeAlert(speed: real)
    | StormAlert(maxKp: real)
    | AllClear

  datatype Alert = Alert(kind: AlertKind, time: int, severity: Severity)

  /** One day, in milliseconds. */
  const DayMs: int := 24 * 60 * 60 * 1000

  // ---------------------------------------------------------------------
  // Maximum Kp

  /** The maximum reaches a threshold exactly when some value does. */
  lemma MaxKpReaches(kps: seq<real>, t: real)
    ensures (Max(kps).Some? && Max(kps).value >= t) <==> (exists i :: 0 <= i < |kps| && kps[i] >= t)
  {
  }

  /** A storm alerts exactly when one of its Kp values reaches 5; a storm
      without Kp values never does. */
  lemma StrongStormIffKpReachesFive(s: Storm)
    ensures IsStrongStorm(s) <==> exists i :: 0 <= i < |s.kpIndex| && s.kpIndex[i] >= 5.0
  {
    MaxKpReaches(s.kpIndex, 5.0);
  }

  // ---------------------------------------------------------------------
  // Alerts

  /** A flare alerts when its class is present and is an M or X class. */
  predicate IsMajorFlare(f: Flare) {
    f.classType.Some? && (StartsWith(f.classType.value, "M") || StartsWith(f.classType.value, "X"))
  }

  predicate IsXClass(f: Flare) {
    f.classType.Some? && StartsWith(f.classType.value, "X")
  }

  predicate IsMClass(f: Flare) {
    f.classType.Some? && StartsWith(f.classType.value, "M")
  }

  /** The speed of the first analysis, or 0 without analyses. */
  function CmeSpeed(c: Cme): real {
    if |c.analysisSpeeds| > 0 then c.analysisSpeeds[0] else 0.0
  }

  predicate IsFastCme(c: Cme) { CmeSpeed(c) > 500.0 }

  predicate IsStrongStorm(s: Storm) {
    Max(s.kpIndex).Some? && Max(s.kpIndex).value >= 5.0
  }

  /** The alert of one M- or X-class flare: X is extreme, M is high. */
  function FlareAlertOf(f: Flare): (a: Alert)
    requires IsMajorFlare(f)
    ensures a.kind == FlareAlert(f.classType.value) && a.time == f.peakTime
    ensures a.severity == Extreme <==> IsXClass(f)
    ensures a.severity == High <==> !IsXClass(f)
  {
    Alert(FlareAlert(f.classType.value), f.peakTime, if IsXClass(f) then Extreme else High)
  }

  /** The alert of one CME faster than 500 km/s: above 1000 km/s is extreme. */
  function CmeAlertOf(c: Cme): (a: Alert)
    requires IsFastCme(c)
    ensures a.kind == CmeAlert(CmeSpeed(c)) && a.time == c.startTime
    ensures a.severity == Extreme <==> CmeSpeed(c) > 1000.0
    ensures a.severity == High <==> CmeSpeed(c) <= 1000.0
  {
    var speed := CmeSpeed(c);
    Alert(CmeAlert(speed), c.startTime, if speed > 1000.0 then Extreme else High)
  }

  /** The alert of one storm whose largest Kp is at least 5: 7 or more is extreme. */
  function StormAlertOf(s: Storm): (a: Alert)
    requires IsStrongStorm(s)
    ensures a.kind == StormAlert(Max(s.kpIndex).value) && a.time == s.startTime
    ensures a.severity == Extreme <==> Max(s.kpIndex).value >= 7.0
    ensures a.severity == High <==> Max(s.kpIndex).value < 7.0
  {
    var m := Max(s.kpIndex).value;
    Alert(StormAlert(m), s.startTime, if m >= 7.0 then Extreme else High)
  }

  /** One alert per M- or X-class flare, in flare order. */
  function FlareAlerts(flares: seq<Flare>): (r: seq<Alert>)
    ensures |r| == |Filter(flares, IsMajorFlare)|
    ensures forall i :: 0 <= i < |r| ==> r[i] == FlareAlertOf(Filter(flares, IsMajorFlare)[i])
    decreases |flares|
  {
    if |flares| == 0 then []
    else
      var f := flares[0];
      assert flares == [f] + flares[1..];
      FilterCons(f, flares[1..], IsMajorFlare);
      (if IsMajorFlare(f) then [FlareAlertOf(f)] else []) + FlareAlerts(flares[1..])
  }

  /** One alert per CME faster than 500 km/s, in CME order. */
  function CmeAlerts(cmes: seq<Cme>): (r: seq<Alert>)
    ensures |r| == |Filter(cmes, IsFastCme)|
    ensures forall i :: 0 <= i < |r| ==> r[i] == CmeAlertOf(Filter(cmes, IsFastCme)[i])
    decreases |cmes|
  {
    if |cmes| == 0 then []
    else
      var c := cmes[0];
      assert cmes == [c] + cmes[1..];
      FilterCons(c, cmes[1..], IsFastCme);
      (if IsFastCme(c) then [CmeAlertOf(c)] else []) + CmeAlerts(cmes[1..])
  }

  /** One alert per storm whose largest Kp reaches 5, in storm order. */
  function StormAlerts(storms: seq<Storm>): (r: seq<Alert>)
    ensures |r| == |Filter(storms, IsStrongStorm)|
    ensures forall i :: 0 <= i < |r| ==> r[i] == StormAlertOf(Filter(storms, IsStrongStorm)[i])
    decreases |storms|
  {
    if |storms| == 0 then []
    else
      var s := storms[0];
      assert storms == [s] + storms[1..];
      FilterCons(s, storms[1..], IsStrongStorm);
      (if IsStrongStorm(s) then [StormAlertOf(s)] else []) + StormAlerts(storms[1..])
  }

  /** Ordinal of an alert kind in the list: flares, then CMEs, then storms. */
  function KindOrder(k: AlertKind): int {
    match k
    case FlareAlert(_) => 0
    case CmeAlert(_) => 1
    case StormAlert(_) => 2
    case AllClear => 3
  }

  /** Every alert of `s` has the kind ordinal `o`. */
  predicate AllOfKind(s: seq<Alert>, o: int) {
    forall i :: 0 <= i < |s| ==> KindOrder(s[i].kind) == o
  }

  /** Kind ordinals never decrease along `s`. */
  predicate KindsAscending(s: seq<Alert>) {
    forall i, j :: 0 <= i < j < |s| ==> KindOrder(s[i].kind) <= KindOrder(s[j].kind)
  }

  /** Flare alerts, then CME alerts, then storm alerts are in kind order and
      contain no "All Clear". */
  lemma ConcatKindsAscending(fa: seq<Alert>, ca: seq<Alert>, sa: seq<Alert>)
    requires AllOfKind(fa, 0) && AllOfKind(ca, 1) && AllOfKind(sa, 2)
    ensures KindsAscending(fa + ca + sa)
    ensures forall i :: 0 <= i < |fa + ca + sa| ==> (fa + ca + sa)[i].kind != AllClear
  {
    var e := fa + ca + sa;
    assert forall i :: 0 <= i < |e| ==>
      KindOrder(e[i].kind) == (if i < |fa| then 0 else if i < |fa| + |ca| then 1 else 2);
  }

  /** The alert list of `renderAlerts`, with `now` stamping "All Clear". */
  function Alerts(flares: seq<Flare>, cmes: seq<Cme>, storms: seq<Storm>, now: int): (r: seq<Alert>)
    ensures |r| > 0
    ensures r == [Alert(AllClear, now, Low)] <==>
      |Filter(flares, IsMajorFlare)| + |Filter(cmes, IsFastCme)| + |Filter(storms, IsStrongStorm)| == 0
    ensures r != [Alert(AllClear, now, Low)] ==>
      |r| == |Filter(flares, IsMajorFlare)| + |Filter(cmes, IsFastCme)| + |Filter(storms, IsStrongStorm)|
    ensures r != [Alert(AllClear, now, Low)] ==>
      r == FlareAlerts(flares) + CmeAlerts(cmes) + StormAlerts(storms)
    ensures KindsAscending(r)
  {
    var fa, ca, sa := FlareAlerts(flares), CmeAlerts(cmes), StormAlerts(storms);
    assert AllOfKind(fa, 0) && AllOfKind(ca, 1) && AllOfKind(sa, 2);
    ConcatKindsAscending(fa, ca, sa);
    var events := fa + ca + sa;
    if |events| == 0 then [Alert(AllClear, now, Low)]
    else
      assert events[0].kind != AllClear;
      events
  }

  // ---------------------------------------------------------------------
  // Threat levels

  /** A level with the explanation the page shows next to it. */
  datatype Assessment = Assessment(level: Severity, description: string)

  predicate IsRecentFlare(f: Flare, now: int) { f.peakTime > now - DayMs }

  predicate IsRecentStorm(s: Storm, now: int) { s.startTime > now - DayMs }

  /** The flares that peaked in the last day, in order. */
  function RecentFlares(flares: seq<Flare>, now: int): (r: seq<Flare>)
    ensures forall i :: 0 <= i < |r| ==> r[i] in flares && IsRecentFlare(r[i], now)
    ensures forall i :: 0 <= i < |flares| && IsRecentFlare(flares[i], now) ==> flares[i] in r
  {
    var recent := (f: Flare) => IsRecentFlare(f, now);
    FilterMembers(flares, recent);
    Filter(flares, recent)
  }

  /** The storms that started in the last day, in order. */
  function RecentStorms(storms: seq<Storm>, now: int): (r: seq<Storm>)
    ensures forall i :: 0 <= i < |r| ==> r[i] in storms && IsRecentStorm(r[i], now)
    ensures forall i :: 0 <= i < |storms| && IsRecentStorm(storms[i], now) ==> storms[i] in r
  {
    var recent := (s: Storm) => IsRecentStorm(s, now);
    FilterMembers(storms, recent);
    Filter(storms, recent)
  }

  lemma FilterNonEmpty<T>(s: seq<T>, p: T -> bool)
    ensures |Filter(s, p)| > 0 <==> exists i :: 0 <= i < |s| && p(s[i])
  {
    if |Filter(s, p)| > 0 {
      var x := Filter(s, p)[0];
      FilterMembers(s, p);
      assert x in s;
      var i :| 0 <= i < |s| && s[i] == x;
    }
  }

  /** `calculateSolarFlareLevel`: among flares peaking in the last day, any
      X class is EXTREME, else any M class is HIGH, else any flare is
      MODERATE, else LOW. */
  function SolarFlareLevel(flares: seq<Flare>, now: int): (a: Assessment)
    ensures a.level == Extreme <==>
      exists i :: 0 <= i < |flares| && IsRecentFlare(flares[i], now) && IsXClass(flares[i])
    ensures a.level == High <==>
      && (exists i :: 0 <= i < |flares| && IsRecentFlare(flares[i], now) && IsMClass(flares[i]))
      && !(exists i :: 0 <= i < |flares| && IsRecentFlare(flares[i], now) && IsXClass(flares[i]))
    ensures a.level == Low <==> !(exists i :: 0 <= i < |flares| && IsRecentFlare(flares[i], now))
  {
    var recent := RecentFlares(flares, now);
    FilterNonEmpty(recent, IsXClass);
    FilterNonEmpty(recent, IsMClass);
    if |Filter(recent, IsXClass)| > 0 then Assessment(Extreme, "X-class flares detected")
    else if |Filter(recent, IsMClass)| > 0 then Assessment(High, "M-class flares detected")
    else if |recent| > 0 then Assessment(Moderate, "Minor flare activity")
    else Assessment(Low, "Quiet solar conditions")
  }

  /** All Kp values of `storms`, storm by storm (`flatMap`). */
  function AllKp(storms: seq<Storm>): (kps: seq<real>)
    ensures forall i, j :: 0 <= i < |storms| && 0 <= j < |storms[i].kpIndex| ==> storms[i].kpIndex[j] in kps
    ensures forall k :: 0 <= k < |kps| ==> exists i :: 0 <= i < |storms| && kps[k] in storms[i].kpIndex
    decreases |storms|
  {
    if |storms| == 0 then []
    else
      var rest := AllKp(storms[1..]);
      var kps := storms[0].kpIndex + rest;
      forall k | 0 <= k < |kps| ensures exists i :: 0 <= i < |storms| && kps[k] in storms[i].kpIndex {
        if k >= |storms[0].kpIndex| {
          assert kps[k] == rest[k - |storms[0].kpIndex|];
          var i :| 0 <= i < |storms[1..]| && kps[k] in storms[1..][i].kpIndex;
          assert storms[1..][i] == storms[i + 1];
        } else {
          assert kps[k] in storms[0].kpIndex;
        }
      }
      forall i, j | 0 <= i < |storms| && 0 <= j < |storms[i].kpIndex| ensures storms[i].kpIndex[j] in kps {
        if i > 0 { assert storms[i] == storms[1..][i - 1]; }
      }
      kps
  }

  /** Some storm that started in the last day has a Kp value of at least `t`. */
  predicate RecentKpReaches(storms: seq<Storm>, now: int, t: real) {
    exists i, j :: 0 <= i < |storms| && IsRecentStorm(storms[i], now)
                   && 0 <= j < |storms[i].kpIndex| && storms[i].kpIndex[j] >= t
  }

  /** A recent storm's Kp value is among the collected recent Kp values. */
  lemma RecentKpCollected(storms: seq<Storm>, now: int, t: real)
    requires RecentKpReaches(storms, now, t)
    ensures exists k :: 0 <= k < |AllKp(RecentStorms(storms, now))| && AllKp(RecentStorms(storms, now))[k] >= t
  {
    var recent := RecentStorms(storms, now);
    var kps := AllKp(recent);
    var i, j :| 0 <= i < |storms| && IsRecentStorm(storms[i], now)
                && 0 <= j < |storms[i].kpIndex| && storms[i].kpIndex[j] >= t;
    assert storms[i] in recent;
    var i' :| 0 <= i' < |recent| && recent[i'] == storms[i];
    assert recent[i'].kpIndex[j] in kps;
  }

  /** Every collected recent Kp value comes from a recent storm. */
  lemma CollectedKpRecent(storms: seq<Storm>, now: int, t: real)
    requires exists k :: 0 <= k < |AllKp(RecentStorms(storms, now))| && AllKp(RecentStorms(storms, now))[k] >= t
    ensures RecentKpReaches(storms, now, t)
  {
    var recent := RecentStorms(storms, now);
    var kps := AllKp(recent);
    var k :| 0 <= k < |kps| && kps[k] >= t;
    var i' :| 0 <= i' < |recent| && kps[k] in recent[i'].kpIndex;
    assert recent[i'] in storms;
    var i :| 0 <= i < |storms| && storms[i] == recent[i'];
    var j :| 0 <= j < |storms[i].kpIndex| && storms[i].kpIndex[j] == kps[k];
    assert IsRecentStorm(storms[i], now);
  }

  /** The largest recent Kp reaches `t` exactly when some recent storm's Kp does. */
  lemma MaxRecentKpReaches(storms: seq<Storm>, now: int, t: real)
    ensures var m := Max(AllKp(RecentStorms(storms, now)));
            (m.Some? && m.value >= t) <==> RecentKpReaches(storms, now, t)
  {
    MaxKpReaches(AllKp(RecentStorms(storms, now)), t);
    if RecentKpReaches(storms, now, t) {
      RecentKpCollected(storms, now, t);
    }
    if exists k :: 0 <= k < |AllKp(RecentStorms(storms, now))| && AllKp(RecentStorms(storms, now))[k] >= t {
      CollectedKpRecent(storms, now, t);
    }
  }

  /** `calculateGeomagneticLevel`: no storm in the last day is LOW; otherwise
      the largest Kp of those storms picks EXTREME (>= 8), HIGH (>= 6),
      MODERATE (>= 4) or LOW. */
  function GeomagneticLevel(storms: seq<Storm>, now: int): (a: Assessment)
    ensures a.level == Extreme <==> RecentKpReaches(storms, now, 8.0)
    ensures a.level == High <==> RecentKpReaches(storms, now, 6.0) && !RecentKpReaches(storms, now, 8.0)
    ensures a.level == Moderate <==> RecentKpReaches(storms, now, 4.0) && !RecentKpReaches(storms, now, 6.0)
    ensures a.level == Low <==> !RecentKpReaches(storms, now, 4.0)
    ensures |RecentStorms(storms, now)| == 0 ==> a == Assessment(Low, "Quiet geomagnetic field")
  {
    var recent := RecentStorms(storms, now);
    MaxRecentKpReaches(storms, now, 8.0);
    MaxRecentKpReaches(storms, now, 6.0);
    MaxRecentKpReaches(storms, now, 4.0);
    if |recent| == 0 then Assessment(Low, "Quiet geomagnetic field")
    else match Max(AllKp(recent))
      case None => Assessment(Low, "Quiet to unsettled")
      case Some(m) =>
        if m >= 8.0 then Assessment(Extreme, "Severe geomagnetic storm")
        else if m >= 6.0 then Assessment(High, "Strong geomagnetic storm")
        else if m >= 4.0 then Assessment(Moderate, "Minor geomagnetic storm")
        else Assessment(Low, "Quiet to unsettled")
  }

  /** `calculateAuroraLevel`: the geomagnetic level with an aurora wording. */
  function AuroraLevel(storms: seq<Storm>, now: int): (a: Assessment)
    ensures a.level == GeomagneticLevel(storms, now).level
    ensures a.level == Low ==> a.description == "Aurora visible at high latitudes"
    ensures a.level == Moderate ==> a.description == "Aurora may be visible at mid latitudes"
    ensures a.level == High || a.level == Extreme ==>
      a.description == "Aurora likely visible at lower latitudes"
  {
    var geo := GeomagneticLevel(storms, now);
    Assessment(geo.level,
      if geo.level == Low then "Aurora visible at high latitudes"
      else if geo.level == Moderate then "Aurora may be visible at mid latitudes"
      else "Aurora likely visible at lower latitudes")
  }

  datatype Visibility = NorthernUsStates | MidLatitudes | PolarRegions | FarNorthOnly

  /** How far from the pole the aurora reaches, as an ordinal. */
  function Reach(v: Visibility): int {
    match v
    case FarNorthOnly => 0
    case PolarRegions => 1
    case MidLatitudes => 2
    case NorthernUsStates => 3
  }

  /** `getAuroraVisibility`: Kp thresholds 7, 5 and 3, inclusive. */
  function AuroraVisibility(kp: real): (v: Visibility)
    ensures Reach(v) >= 3 <==> kp >= 7.0
    ensures Reach(v) >= 2 <==> kp >= 5.0
    ensures Reach(v) >= 1 <==> kp >= 3.0
  {
    if kp >= 7.0 then NorthernUsStates
    else if kp >= 5.0 then MidLatitudes
    else if kp >= 3.0 then PolarRegions
    else FarNorthOnly
  }

  /** A stronger Kp never shrinks the visibility. */
  lemma AuroraVisibilityMonotone(k1: real, k2: real)
    requires k1 <= k2
    ensures Reach(AuroraVisibility(k1)) <= Reach(AuroraVisibility(k2))
  {
  }
}
