# astro-calendar: the sky-display decision layer in Dafny

astro-calendar is a single-page astronomy almanac for an observer in Taipei.
It shows today's solar term, the sun's zodiac sign, the moon phase and the
season, and lists the bright stars above the horizon now: where each one is,
how bright it is and when tonight is the best time to see it. It also draws
those stars on a polar star map.

This project models the discrete decisions behind those displays, all of
which live in `script.js`:

- the sector classifiers: zodiac sign and key from the ecliptic longitude,
  compass direction from the azimuth, moon-phase name, season, and the
  brightness word and star-map colour from the magnitude;
- the solar-term lookup: the term of the latest table date not after today;
- the visibility filter: catalogue stars above 5° of altitude, each with its
  compass direction, sorted brightest first;
- the best-time scan: hourly samples from 20:00 to 04:00, the first highest
  sample above 20°, and the label for the span of good samples;
- the star-map parameters: marker size and distance from the centre;
- the sun-longitude approximation, with its June 21 special case.

Where a star is in the sky comes from spherical trigonometry. The model takes
it as a parameter:

- for the filter, `pos: Star -> Horizontal`, the position of each star for
  the fixed observer and moment;
- for the scan, `altitudeAt: int -> real`, the star's altitude at scan index
  20..28.

Every property below therefore holds whatever that computation returns.
Numbers are exact `real`s. JavaScript's `%`, which keeps the sign of the
dividend, is written out in `JsNumber`.

Modules, leaves first: `Wrappers`, `JsNumber`, `Zodiac`, `Compass`, `Almanac`,
`Magnitude`, `Catalogue`, `Visibility`, `StarMap`, `BestTime`, `SolarTerms`.

Two points where the code does less than it appears to:

- The code does not guard the azimuth division or the `acos` domain
  (script.js:785-787). It does not reduce the hour angle into a signed range
  (script.js:774). Both belong to the position computation, which is a
  parameter here.
- The `午夜` arm of getBestPeriod (script.js:879) is unreachable, because
  hours are recorded modulo 24 (script.js:852; `BestTime.MidnightArmUnreachable`).
  A span that crosses midnight takes the evening-to-predawn arm; see Findings.

getBestPeriod returns a string. The model returns a `Period` value that
names the arm and its hours. `BestTime.Text` gives the words the page prints
for it, e.g. `Overnight(22, 1)` becomes "晚上22點-凌晨1點".

## Model

| member | source | states |
|---|---|---|
| `JsNumber.RemTurn` | script.js:28 | `x % 360` keeps the sign of `x`, stays strictly within one turn, and differs from `x` by whole turns |
| `JsNumber.DoubleRemIsFloorMod` | script.js:28 | `((x % 360) + 360) % 360` equals the Euclidean reduction of `x` into [0, 360) |
| `Zodiac.Normalize` | script.js:112 | the normalised longitude lies in [0, 360) and is the Euclidean reduction of the input |
| `Zodiac.ZodiacKey` | script.js:111-126 | the key is the one for sector ⌊norm/30⌋ of the twelve 30° signs |
| `Zodiac.ZodiacSign` | script.js:26-42 | the displayed name is the one for sector ⌊norm/30⌋ of the twelve 30° signs |
| `Zodiac.KeyAndSignAgree` | script.js:26-42 | for every longitude, the key is the i-th key exactly when the name is the i-th name |
| `Zodiac.FullTurnsKeepSign` | script.js:111-126 | adding any whole number of turns to the longitude changes neither the key nor the name |
| `Zodiac.SunLongitude` | script.js:45-69 | the result lies in [0, 360); it is exactly 90 on June 21; otherwise it is `(day − 79)·360/365.25` reduced into [0, 360) |
| `Zodiac.SummerSolsticeIsCancer` | script.js:62-65 | the June 21 special case puts the sun in Cancer |
| `Zodiac.EquinoxIsAries` | script.js:52-54 | on day 79 (not June 21) the sun longitude is 0, which is in Aries |
| `Compass.Direction` | script.js:798-807 | always one of the eight labels; on [0, 360) the label of the 45° sector centred on a compass point; north outside [0, 360) |
| `Compass.NorthBand` | script.js:799 | on [0, 360), north exactly on [337.5, 360) ∪ [0, 22.5) |
| `Compass.OtherBands` | script.js:800-806 | on [0, 360), label k (1..7) exactly on [45k − 22.5, 45k + 22.5) |
| `Almanac.PhaseName` | script.js:719-728 | each of the eight names holds exactly on its band of the phase fraction; new moon wraps round 0/1; the bands cover all reals |
| `Almanac.QuarterSymmetry` | script.js:719-728 | away from the inner band edges, `phase` and `1 − phase` get the matching waxing/waning pair of names |
| `Almanac.Season` | script.js:613-618 | spring exactly for months 3–5, summer 6–8, autumn 9–11, winter for every other number |
| `Almanac.SeasonIsQuarter` | script.js:613-618 | for months 1..12 the season is quarter (month/3) mod 4 of the year, starting with winter |
| `Magnitude.BrightnessLabel` | script.js:912-914 | each word holds exactly on its magnitude band: <0, [0,1), [1,2), ≥2 |
| `Magnitude.StarColor` | script.js:1178-1183 | each colour holds exactly on the same four magnitude bands |
| `Magnitude.ColourFollowsLabel` | script.js:1149-1151 | two magnitudes get the same map colour exactly when they get the same list word |
| `Magnitude.MarkerSize` | script.js:1078 | the size is at least 2; it is exactly 2 from magnitude 3 on; below that it is `8 − 2·mag` |
| `Magnitude.MarkerSizeNonIncreasing` | script.js:1078 | a dimmer star is never drawn larger than a brighter one |
| `Catalogue.CatalogueInRange` | script.js:738-759 | 20 stars; RA in [0, 24), Dec in [−90, 90], every magnitude in [−1.46, 2), so none is labelled merely "可見" |
| `Visibility.ObservedSound` | script.js:812-826 | every pushed row belongs to a catalogue star strictly above 5° and carries that star's fields, position and direction |
| `Visibility.ObservedComplete` | script.js:812-826 | every catalogue star strictly above 5° gets its row |
| `Visibility.ObservedLength` | script.js:812-826 | the number of rows equals the number of catalogue stars strictly above 5° |
| `Visibility.ThresholdIsStrict` | script.js:816 | a star at exactly 5.0° is dropped; one at 5.0001° is kept |
| `Visibility.SortSortsAndPermutes` | script.js:829 | the magnitude sort gives non-decreasing magnitudes and a permutation of its input |
| `Visibility.SortIsStable` | script.js:829 | rows of equal magnitude keep their relative order, as JavaScript's stable sort guarantees |
| `Visibility.GetVisibleStars` | script.js:809-830 | every row is above 5° and its direction is `Direction(azimuth)`; every star above 5° has its row; the rows are sorted by magnitude; they are a stable permutation of the filtered rows; an empty catalogue gives an empty list |
| `StarMap.RadialRatio` | script.js:1071 | the ratio is 0 exactly at the zenith and 1 on the horizon; it is non-negative up to 90°; above 5° it is below 85/90 |
| `StarMap.HigherIsNearer` | script.js:1071 | a higher star is drawn nearer the centre |
| `StarMap.VisibleStarsInsideDisk` | script.js:1066-1071 | if no altitude exceeds 90°, every star the filter keeps is drawn at a ratio in [0, 85/90) |
| `StarMap.Top` | script.js:1067 | `slice(0, n)`: a prefix of length min(n, count) |
| `StarMap.TopIsBrightest` | script.js:909 | on a sorted report, every star shown is at least as bright as every star left out |
| `StarMap.ListIsHeadOfMap` | script.js:1067 | the six rows the list shows (`slice(0, 6)`, script.js:909) are the first six of the ten the map draws; on a sorted report none left off the list is brighter than one on it |
| `BestTime.SurvivorsSpec` | script.js:837-856 | the good samples are the scan indices in 20..28 with altitude above 20, in scan order, each recorded with hour = index mod 24 |
| `BestTime.Min` | script.js:875 | `Math.min` of a non-empty list is an element of the list and no larger than any element |
| `BestTime.Max` | script.js:876 | `Math.max` of a non-empty list is an element of the list and no smaller than any element |
| `BestTime.GetBestPeriod` | script.js:871-885 | "不可見" exactly for no samples. "until midnight" exactly when every hour is ≥ 20 and one is > 23. The evening form exactly when every hour is in 20..23. The predawn form exactly when some hour is < 20 and every hour is ≤ 6. The evening-to-predawn form exactly when some hour is < 20 and some hour is > 6. The span starts at the smallest recorded hour and ends at the largest |
| `BestTime.MidnightArmUnreachable` | script.js:879 | when every recorded hour is below 24, the "午夜" arm is never taken |
| `BestTime.BestPeriodOfScan` | script.js:871-885 | on a scan: the evening form from first to last hour when all samples are before midnight; the predawn form when all are after. When the samples cross midnight between samples j − 1 and j, the evening-to-predawn form runs from the hour of sample j to the hour of sample j − 1 |
| `BestTime.CrossingPoint` | script.js:875-876 | on a scan crossing midnight, `Math.min` of the hours is the first predawn sample's hour and `Math.max` the last evening sample's |
| `BestTime.OvernightLabelInverted` | script.js:882-883 | on a scan that crosses midnight, the as-written label starts at a predawn hour (≤ 4) and ends at an evening hour (≥ 20) |
| `BestTime.OvernightExample` | script.js:882-883 | good samples at 22:00–01:00 are labelled "晚上0點-凌晨23點"; the intended label is "晚上22點-凌晨1點" |
| `BestTime.BestPeriod` | script.js:871-885 | corrected label: on a scan the span runs from the first good sample's hour to the last one's; the arm is chosen by which side of midnight the samples lie on |
| `BestTime.FirstHighest` | script.js:860-862 | the reduce returns a sample of greatest altitude; every earlier sample is strictly lower (ties go to the earliest) |
| `BestTime.FirstMaximumOfScan` | script.js:860-862 | that sample is the first highest moment of the whole scan |
| `BestTime.GetBestObservationTime` | script.js:833-869 | None exactly when no index 20..28 has altitude above 20; otherwise the time is in 20..28 with that altitude; it is ≥ every sampled altitude and > every earlier one; the period labels the good samples |
| `SolarTerms.BeforeTotal` | script.js:18 | any two different date strings are ordered one way round |
| `SolarTerms.SortDates` | script.js:15 | the table's dates in strictly increasing string order, exactly the table's keys |
| `SolarTerms.LatestUpToUnique` | script.js:16-20 | there is at most one latest date not after today |
| `SolarTerms.LatestUpToExists` | script.js:16-20 | such a date exists as soon as some date is not after today |
| `SolarTerms.LatestIsLastWalked` | script.js:17-20 | the walk stops at the first later date, and the last date walked is the latest one not after today |
| `SolarTerms.FindCurrentTerm` | script.js:13-22 | today's non-empty entry if present; "尚未到今年第一節氣" when every date is after today; otherwise the entry of the latest date not after today, or the fallback if that entry is empty |

## Left out

- The position computation (`calculateStarPosition`, script.js:764-795) is a parameter: it uses sine, arcsine and arccosine on doubles. Its unguarded division and `acos` domain (script.js:785-787) can give NaN, and no behaviour for those cases is claimed.
- Julian date, sidereal time and local sidereal time (script.js:769-771) are left out: they are floating-point and read the host clock.
- Date handling is left out: `setHours`/`setDate` rollover (script.js:839-840), the day-of-year computation (script.js:47) and `toLocaleTimeString` (script.js:845-848). Each sample's moment is its scan index 20..28. The day of the year, month index and day of month are inputs to `SunLongitude`.
- Floating-point rounding is not modelled; the model uses exact reals. For example, a tiny negative longitude rounds to 360 in doubles before the final `% 360`. A NaN azimuth would fall through every test of `getDirection` to "西北方".
- JavaScript compares strings by UTF-16 code unit; `SolarTerms.Before` compares Unicode characters. The two orders agree on the ASCII date keys.
- The solar-term table is a `map<string, string>`. Loading it with `fetch` (script.js:4-7) and non-string values in it are left out. An empty string is falsy, as in JavaScript.
- The moon-phase fraction comes from the SunCalc library (script.js:495-537), and so do the sun data; they are inputs or left out.
- Page output is left out: DOM and canvas output, the polar angle `azimuth − 90` with its cosine and sine (script.js:1072-1075), star names drawn when the magnitude is below 1.5, `localStorage`, random tips, `console.log`, and the `setTimeout` reload and debug code.
- The static text tables (`zodiacDatabase`, `getZodiacStars`, `getSeasonalTargets`) are lookups with a fallback and nothing to prove.
- `BestTime.GetBestObservationTime`: its period uses the corrected `BestTime.BestPeriod`, not the as-written `BestTime.GetBestPeriod` (see Findings).

## Findings

| source | as written | input that shows it | evidently intended | confidence | as-written member | corrected member |
|---|---|---|---|---|---|---|
| script.js:871-885 | the evening-to-predawn label prints the smallest and largest clock hour, after reduction modulo 24 | a star above 20° at 22:00, 23:00, 00:00 and 01:00 is labelled "晚上0點-凌晨23點" | "晚上22點-凌晨1點": from the first good hour of the night to the last | high; not executed | `BestTime.OvernightLabelInverted` | `BestTime.BestPeriod` |
