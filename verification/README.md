# NASA API explorer pages, modelled in Dafny

The pages of this explorer fetch NASA open data and turn it into views. This
project models the rules each page applies between the fetch and the DOM.

- **Exoplanets** (`exoplanets.dfy`). A ten-minute query cache sits in front of the exoplanet archive, with a fixed sample list returned when the archive fails. It also holds the record normaliser (`x || null`, `x || 'Unknown'`), the 0–100 habitability score, the simplified habitable zone, the radius-band classifier and the "potentially habitable" selection.
- **Space weather** (`space_weather.dfy`). The alert list is built from M/X flares, CMEs faster than 500 km/s and storms reaching Kp 5, with "All Clear" when none qualify. It also holds the solar-flare, geomagnetic and aurora threat ladders over the last 24 hours, and the aurora-visibility bands.
- **Asteroids** (`asteroids.dfy`). The date-range checks, flattening of the per-date feed into close-approach records, the hazardous filter, the four sort orders, the summary statistics and the distance unit bands.
- **Mars rover** (`mars_rover.dfy`). Sol validation against each rover's last sol, the camera-category filter, and the paginated gallery (twelve photos per page, "load more").
- **Earth imagery** (`earth_imagery.dfy`). The ordered input checks and the hemisphere letters of the location caption.
- **APOD** (`apod.dfy`). `truncateText`, the sanitised download file name and the share text.

Shared pieces:

- `sequences.dfy` holds `Array.prototype.filter`, `Math.max`/`Math.min` and a stable sort. Every comparator of the modelled sorts (the asteroid list at `scripts/asteroids.js:139-160` and the habitable selection at `scripts/exoplanets.js:295`) is a difference of two finite numbers or the constant 0. So each is a stable sort by a real key, with descending orders sorting by the negated key. The exoplanet page's other sorts are not modelled: the random shuffle compares with `Math.random`, and the interactive sort can subtract `Infinity` from `Infinity`.
- `text.dfy` holds the string helpers: ASCII `toLowerCase`, `startsWith`, `includes` and the decimal rendering of an integer.
- `wrappers.dfy` holds `Option`, `Result` and `Fetched`. A `Fetched` value stands for the outcome of a network request.

Clocks, network answers and user inputs are parameters. Timestamps are integer milliseconds. Dates on the asteroid page are integer day numbers. Numbers are exact reals. JavaScript treats `0` as false, and `Truthy` states this once for the numeric columns.

## Model

| member | source | states |
|---|---|---|
| Exoplanets.OrNull | scripts/exoplanets.js:62-76 | The `null` default: a zero or missing number becomes null and any other value passes unchanged. |
| Exoplanets.OrUnknown | scripts/exoplanets.js:61 | The `'Unknown'` default: a non-empty name is kept, and a missing or empty one becomes "Unknown". |
| Exoplanets.TemperatureScore | scripts/exoplanets.js:86-93 | 40/30/20/10 points for a distance from 288 K strictly below 50/100/200/400, each band an if-and-only-if. A zero or missing temperature earns nothing. |
| Exoplanets.SizeScore | scripts/exoplanets.js:95-100 | 30/20/10 points exactly for a radius in the inclusive bands [0.5,2], [0.3,3], [0.1,5]. |
| Exoplanets.MassScore | scripts/exoplanets.js:102-106 | 20/10 points exactly for a mass in the inclusive bands [0.1,5], [0.05,10]. |
| Exoplanets.HabitableZone | scripts/exoplanets.js:119-128 | The zone exists exactly for a non-negative stellar temperature (a negative one gives NaN), and inner <= outer. |
| Exoplanets.InZoneMatchesSquareRoot | scripts/exoplanets.js:119-128 | The squared zone test agrees with `0.95*sqrt(T/5778) <= a <= 1.37*sqrt(T/5778)` for every square root `f` of `T/5778`. |
| Exoplanets.SolarZoneHoldsOneAu | scripts/exoplanets.js:119-128 | The Sun's zone is [0.95, 1.37] AU (squared: [0.9025, 1.8769]) and holds 1 AU. |
| Exoplanets.OrbitScore | scripts/exoplanets.js:108-114 | 10 points exactly when the semi-major axis and stellar temperature are both truthy and the orbit lies in the zone. |
| Exoplanets.ScoreColumns | scripts/exoplanets.js:82-117 | The score stays within 0..100, and because the part maxima sum to 100 the cap `Math.min(100, …)` never changes the sum of the four parts. |
| Exoplanets.Habitability | scripts/exoplanets.js:82-117 | `calculateHabitability` of a raw row is the sum of its temperature, size, mass and orbit scores, and lies in 0..100. |
| Exoplanets.EarthScoresHundred | scripts/exoplanets.js:82-117 | Earth's own values (288 K, 1 Earth radius, 1 Earth mass, 1 AU around a 5778 K star) score 100. |
| Exoplanets.TemperatureScoreMonotone | scripts/exoplanets.js:86-93 | Among non-zero temperatures, one closer to 288 K never scores less. A temperature of 0 counts as missing and scores 0. |
| Exoplanets.Classify | scripts/exoplanets.js:130-140 | `Unknown` exactly when the radius is not truthy. Otherwise the class is given by the half-open bands <1.25, [1.25,2), [2,4), [4,10), >=10, each an if-and-only-if. |
| Exoplanets.ClassifyMonotone | scripts/exoplanets.js:133-139 | A larger radius never gives a smaller class. |
| Exoplanets.ClassifyBoundaries | scripts/exoplanets.js:131-139 | Each band boundary falls in the larger class, and a zero or missing radius is `Unknown`. |
| Exoplanets.Normalize | scripts/exoplanets.js:59-80 | Each output field is its column with the `null` or `'Unknown'` default applied. The score and type are computed from the raw row. |
| Exoplanets.NormalizeIdempotent | scripts/exoplanets.js:59-80 | Normalising a normalised record read back as a row gives the same record. The nulls it introduces stand exactly for the zeros it drops. |
| Exoplanets.NormalizeEmpty | scripts/exoplanets.js:59-80 | An all-null row becomes an `Unknown` planet named "Unknown" with score 0. |
| Exoplanets.ProcessAll | scripts/exoplanets.js:59-60 | `rawData.map`: one normalised record per row, in row order. |
| Exoplanets.SamplePlanets | scripts/exoplanets.js:142-182 | The fallback list has three planets with the names and hardcoded scores 85, 92 and 78. |
| Exoplanets.SampleTypesMatchClassifier | scripts/exoplanets.js:142-182 | Each sample's type is what the classifier gives its radius. |
| Exoplanets.SampleScoresAreHardcoded | scripts/exoplanets.js:142-182 | Each sample's score differs from what the scorer gives those columns (70, 90, 80). |
| Exoplanets.CacheKey | scripts/exoplanets.js:11 | Every key starts with `query_`. |
| Exoplanets.CacheKeyInjective | scripts/exoplanets.js:11 | Distinct (query, limit) pairs never share a key: the decimal limit holds no `_`. |
| Exoplanets.AfterLastUnderscoreOf | scripts/exoplanets.js:11 | The text after the last `_` of `p + "_" + d` is `d` when `d` holds no `_`. |
| Exoplanets.Query | scripts/exoplanets.js:10-57 | A fresh entry (younger than 10 minutes, strictly) is returned without fetching and leaves the cache unchanged. A miss fetches. A successful fetch returns the normalised rows and stores them with the time read after the answer arrived, not the time the query started. A failed fetch returns the sample list and stores nothing. |
| Exoplanets.QueryRepeatedWithinWindow | scripts/exoplanets.js:10-57 | After a missed query that fetched, the same query started less than ten minutes after that answer was stored does not fetch and returns the same records. |
| Exoplanets.QueryAfterWindowRefetches | scripts/exoplanets.js:14 | An entry ten or more minutes old is not used: the query fetches. |
| Exoplanets.QueryLeavesOtherKeys | scripts/exoplanets.js:45-48 | A query never adds, removes or changes the entry of another (query, limit) pair. |
| Exoplanets.HabitableSelection | scripts/exoplanets.js:292-295 | The result is a permutation of the planets scoring >= 50, in non-increasing score order. |
| Exoplanets.HabitableSelectionKeepsTies | scripts/exoplanets.js:293-295 | Planets with equal scores keep their archive order (the sort is stable). |
| SpaceWeather.MaxKpReaches | scripts/space-weather.js:413 | `Math.max(...kps) >= t` exactly when some Kp value reaches `t`. An empty list (`-Infinity`) reaches nothing. |
| SpaceWeather.StrongStormIffKpReachesFive | scripts/space-weather.js:412-414 | A storm alerts exactly when one of its Kp values is >= 5. |
| SpaceWeather.FlareAlertOf | scripts/space-weather.js:389-397 | A major flare's alert carries its class and peak time. It is extreme exactly for class X and high otherwise. |
| SpaceWeather.CmeAlertOf | scripts/space-weather.js:400-409 | A fast CME's alert carries the first analysis speed (0 without analyses). It is extreme exactly above 1000 km/s. |
| SpaceWeather.StormAlertOf | scripts/space-weather.js:412-421 | A strong storm's alert carries its maximum Kp. It is extreme exactly at Kp >= 7. |
| SpaceWeather.FlareAlerts | scripts/space-weather.js:389-398 | One alert per M- or X-class flare, in flare order. |
| SpaceWeather.CmeAlerts | scripts/space-weather.js:400-410 | One alert per CME faster than 500 km/s, in CME order. |
| SpaceWeather.StormAlerts | scripts/space-weather.js:412-422 | One alert per storm whose maximum Kp reaches 5, in storm order. |
| SpaceWeather.ConcatKindsAscending | scripts/space-weather.js:386-422 | Flare alerts, then CME alerts, then storm alerts form a kind-ordered list without "All Clear". |
| SpaceWeather.Alerts | scripts/space-weather.js:382-431 | The list is never empty. It is the single "All Clear" (low, stamped now) exactly when no event qualifies. Otherwise it is the flare alerts, then the CME alerts, then the storm alerts, one per qualifying event. |
| SpaceWeather.RecentFlares | scripts/space-weather.js:453-455 | The flares kept are exactly those peaking strictly within the last 24 hours. |
| SpaceWeather.RecentStorms | scripts/space-weather.js:483-485 | The storms kept are exactly those starting strictly within the last 24 hours. |
| SpaceWeather.SolarFlareLevel | scripts/space-weather.js:452-469 | EXTREME exactly when a recent flare is class X. HIGH exactly when some recent flare is class M and none is class X. LOW exactly when no flare is recent. |
| SpaceWeather.AllKp | scripts/space-weather.js:491-493 | `flatMap` of the Kp lists: every storm's Kp value is in the result and every result value comes from some storm. |
| SpaceWeather.MaxRecentKpReaches | scripts/space-weather.js:491-493 | The maximum of the recent Kp values reaches `t` exactly when some recent storm has a Kp value >= `t`. |
| SpaceWeather.GeomagneticLevel | scripts/space-weather.js:482-504 | EXTREME/HIGH/MODERATE exactly when the largest recent Kp is >= 8, in [6,8), in [4,6), and LOW otherwise. No recent storm reads "Quiet geomagnetic field". |
| SpaceWeather.AuroraLevel | scripts/space-weather.js:506-515 | The geomagnetic level, with the description chosen by that level. |
| SpaceWeather.AuroraVisibility | scripts/space-weather.js:517-527 | Inclusive Kp thresholds 7, 5 and 3 pick the four visibility bands, each an if-and-only-if. |
| SpaceWeather.AuroraVisibilityMonotone | scripts/space-weather.js:517-527 | A higher Kp never narrows the visibility. |
| Asteroids.ValidateRange | scripts/asteroids.js:59-78 | Accepts exactly two present dates with 0 <= end - start <= 7 days. The first failing check is reported: missing date, then start after end, then too long. |
| Asteroids.PresetsAccepted | scripts/asteroids.js:43-57 | The "today" and "this week" presets always pass the checks. |
| Asteroids.FirstApproachOn | scripts/asteroids.js:114-116 | `find`: none exactly when no approach has that date. Otherwise it is the first approach with that date. |
| Asteroids.FlattenDay | scripts/asteroids.js:112-125 | One record per object listed under the date that approaches on it, in feed order. |
| Asteroids.Flatten | scripts/asteroids.js:107-127 | At most one record per listed object. Each record's approach is the first approach on its own date key. The records of the first date key come first, then those of the rest of the feed. |
| Asteroids.FlattenDayMembers | scripts/asteroids.js:112-124 | A record comes out of a date key exactly when its object is listed under that key and approaches on it, and it is then the record built from that object and date. |
| Asteroids.FlattenMembers | scripts/asteroids.js:111-125 | A record is in the flattened feed exactly when some date key of the feed produces it. |
| Asteroids.FlattenAppend | scripts/asteroids.js:111 | Flattening a feed is flattening its date keys one after the other. |
| Asteroids.FlattenDayDrops | scripts/asteroids.js:118 | An object without an approach on its date key yields no record. |
| Asteroids.HazardFilter | scripts/asteroids.js:134-137 | Checked: exactly the hazardous records are kept. Unchecked: the list is unchanged. |
| Asteroids.HazardFilterKeepsOrder | scripts/asteroids.js:134-137 | The filtered list is a subsequence of the input. |
| Asteroids.SortRecords | scripts/asteroids.js:139-160 | The result is a permutation. It is ordered by date ascending, size descending, distance ascending or velocity descending as chosen, and an unknown choice (comparator 0) leaves the list as it was. |
| Asteroids.SortAndFilter | scripts/asteroids.js:129-162 | Nothing is redrawn exactly when there are no records. Otherwise the result is the filtered records in the chosen sort order, a permutation of them. |
| Asteroids.SummaryStats | scripts/asteroids.js:221-235 | Nothing for an empty list. Otherwise the total, the hazardous count (the size of the checked hazard filter, at most the total), and a largest diameter and closest miss distance that some record attains and that bound every record. |
| Asteroids.FormatDistance | scripts/asteroids.js:349-357 | The unit is km below 1000, thousands of km below 10^6 and millions above. The printed number times the unit is the distance. |
| Asteroids.FormatDistanceMonotone | scripts/asteroids.js:349-357 | A larger distance never gets a smaller unit. |
| Asteroids.LoadNearEarthObjects | scripts/asteroids.js:59-105 | Rejected exactly when the range checks fail, with the error of the first failing check, and no request is made then. An accepted range whose request fails shows the error. A feed with no date keys shows the no-objects notice, and any other feed is loaded. A loaded view holds the flattened feed, the filtered and sorted list and the stats. |
| MarsRover.MaxSol | scripts/mars-rover.js:21-62 | Each rover's last sol (4000, 5111, 2208, 1000) is at least 1000. |
| MarsRover.ValidateSol | scripts/mars-rover.js:150-164 | Accepts exactly 1 <= sol <= the rover's last sol. A missing, NaN, zero or negative sol is refused first, then one past the last sol. |
| MarsRover.FilterPhotos | scripts/mars-rover.js:194-212 | Keeps exactly the photos of the category, chosen by substring on the lower-cased camera name. "all" and unknown filters keep everything. |
| MarsRover.FilterPhotosKeepsOrder | scripts/mars-rover.js:198-212 | The filtered photos are a subsequence of the received ones. |
| MarsRover.PanoramicWithinLandscape | scripts/mars-rover.js:202-207 | The panoramic photos are a subsequence of the landscape photos. |
| MarsRover.Slice | scripts/mars-rover.js:248 | `slice(from, to)` holds the elements at indices `from`, `from + 1`, … of `s`, as many as `to - from` or up to the end of `s`, whichever comes first. |
| MarsRover.ShowFiltered | scripts/mars-rover.js:194-227 | Shows the first min(12, n) filtered photos. "Load more" is visible exactly while more remain. |
| MarsRover.SelectFilter | scripts/mars-rover.js:194-227 | After a filter click the gallery is consistent for the new filter and shows its first page: min(12, n) of its n photos. |
| MarsRover.LoadMore | scripts/mars-rover.js:229-255 | Appends the next up-to-12 filtered photos and keeps the gallery consistent. It hides the button once all are shown and preserves the invariant. |
| MarsRover.LoadPhotos | scripts/mars-rover.js:150-192 | An invalid sol changes nothing. A non-empty answer shows its first page: min(12, n) of the n photos the active filter keeps. An empty or failed answer clears the cards and hides "load more", leaving the filter and the counter as they were. A failed request also keeps the previous answer's photos, and an empty answer replaces them with none. The invariant is preserved. |
| MarsRover.InvariantAlongRun | scripts/mars-rover.js:194-255 | After any sequence of loads, filter clicks and "load more" clicks from a valid state, a visible button means the cards are exactly the first `displayed` filtered photos. |
| MarsRover.InitialInvariant | scripts/mars-rover.js:18 | The initial page satisfies the invariant. |
| EarthImagery.ValidateInput | scripts/earth-imagery.js:58-76 | Accepts exactly parsable coordinates within [-90,90] and [-180,180] with a date. Only the first failing check is reported, in source order. |
| EarthImagery.BoundsInclusive | scripts/earth-imagery.js:63-71 | The poles and the antimeridian are accepted. |
| EarthImagery.LocationName | scripts/earth-imagery.js:208-215 | N exactly for lat >= 0 and E exactly for lon >= 0, with non-negative magnitudes. |
| EarthImagery.LocationNameRoundTrip | scripts/earth-imagery.js:208-215 | Magnitude and letter give back the signed coordinate. |
| Apod.Trim | scripts/apod.js:214 | `trim` keeps a contiguous run of the text with only whitespace removed on either side, and the run neither starts nor ends with whitespace. |
| Apod.Truncate | scripts/apod.js:212-215 | A text that fits is unchanged. Otherwise the result is the trimmed first `maxLength` units followed by `...`. |
| Apod.TruncateKeepsPrefix | scripts/apod.js:212-215 | The excerpt is a slice of the text's first `maxLength` units, preceded only by whitespace. |
| Apod.SanitizeStem | scripts/apod.js:308 | Letters are lowered, digits kept and every other unit becomes `_`. Every unit of the result is `[a-z0-9_]`. |
| Apod.SanitizeStemIdempotent | scripts/apod.js:308 | Sanitising a sanitised name changes nothing. |
| Apod.DownloadFileName | scripts/apod.js:308 | The sanitised stem followed by `.jpg`. |
| Apod.ShareText | scripts/apod.js:280 | The first 200 units and `...`, which is appended even when nothing was cut. |
| Apod.ShareTextShort | scripts/apod.js:280 | A description of at most 200 units is shared whole, followed by `...`. |
| Sequences.Filter | scripts/asteroids.js:136 | `filter` keeps only elements satisfying the predicate and never grows the list. |
| Sequences.FilterMembers | scripts/asteroids.js:136 | `filter` keeps exactly the satisfying elements of its input. |
| Sequences.FilterStronger | scripts/mars-rover.js:199-211 | Filtering by a stronger predicate gives a subsequence of filtering by a weaker one. |
| Sequences.Max | scripts/asteroids.js:228-230 | `Math.max` of a non-empty list is attained and bounds every element. Of an empty list it is none. |
| Sequences.Min | scripts/asteroids.js:233-235 | `Math.min` of a non-empty list is attained and bounds every element from below. Of an empty list it is none. |
| Sequences.SortBy | scripts/asteroids.js:141-160 | The sort returns an ascending permutation of its input. |
| Sequences.SortByStable | scripts/exoplanets.js:295 | The sort is stable: elements with equal keys keep their input order. |
| Sequences.SortByConstantKey | scripts/asteroids.js:157-158 | A comparator that always returns 0 leaves the list unchanged. |
| Text.Lower | scripts/mars-rover.js:200 | `toLowerCase` keeps the length and lowers each ASCII capital to the same letter in lower case, leaving every other unit alone. |
| Text.LowerIdempotent | scripts/mars-rover.js:200 | Lowering an already lowered name changes nothing. |
| Text.LowerEqualIff | scripts/mars-rover.js:200 | Two names of equal length lower to the same text exactly when, position by position, they hold the same unit or the same ASCII letter in either case. |
| Text.ContainsAt | scripts/mars-rover.js:203 | `includes` holds exactly when some position starts a copy of the substring. |
| Text.DecimalInjective | scripts/exoplanets.js:11 | Distinct integers render as distinct decimal strings. |

## Left out

- `scripts/main.js` (the shared API client) is not part of this model. Its answers enter as `Fetched` parameters.
- Network requests, `fetch` and JSON parsing, DOM rendering, `alert`, timers and animations, `console` logging and modal dialogs are left out. Only their effect on what is shown is modelled.
- `Math.random` is left out, together with everything it drives: `calculateRadiationLevel`, the random exoplanet and random sol buttons.
- IEEE-754 arithmetic is left out. Numbers are exact reals, and NaN appears only where the code can produce it: a missing `parseFloat`/`parseInt` result and the square root of a negative temperature.
- `toFixed`, `toLocaleString` and date formatting are left out. `FormatDistance` and `LocationName` stop before rounding, and alert times are raw millisecond timestamps.
- Date parsing is left out. Asteroid dates are integer day numbers, so `Math.ceil` of their difference is exact. A date the `Date` constructor cannot parse is not modelled.
- Text.Lower: only ASCII capitals are lowered. Camera names and file names are compared against ASCII only.
- Strings are sequences of UTF-16 code units. Each `char` stands for one unit of the Basic Multilingual Plane, and surrogate pairs are not modelled.
- SpaceWeather.CmeSpeed: an analysis without a `speed` field (`undefined > 500` is false) is not modelled. Speeds are always numbers.
- SpaceWeather.StormAlerts: a Kp entry without a numeric `kpIndex` is not modelled. Kp values are always numbers. In the page such an entry makes `Math.max` NaN, so its storm never alerts, and the geomagnetic ladder falls to LOW even when other recent Kp values are high.
- The TAP query text (`SELECT … LIKE … LIMIT`) and the archive's own filtering and ordering are left out. The archive's answer is a parameter.
- The exoplanet page's interactive filter, sort and statistics panel is left out. Only the "potentially habitable" selection is modelled.
- `escapeHtml`, card markup, the image modal and the share/clipboard browser APIs are left out.
- MarsRover.Initial: the initial visibility of the "load more" button comes from the page markup, which is not part of this model. It is taken as hidden.
- MarsRover.ValidateSol: the rover comes from a fixed select list. An unknown rover name, which would throw a TypeError, is not modelled.
- The camera select passed to the photo request is left out. The answer is a parameter.
- Overlapping queries are not modelled. Two `queryExoplanets` calls can interleave across the `await` of the fetch, so both miss the cache, both fetch, and the later write wins. `Exoplanets.Query` is one atomic step from `now` to `stored`, and `QueryRepeatedWithinWindow` assumes the second query starts after the first has stored its answer.
- Asteroids.LoadNearEarthObjects: each load is modelled on its own. In the page the last loaded records persist across a later rejected, failed or empty load. A later change of the sort select or the hazardous box then redraws those earlier records over the notice or error.
