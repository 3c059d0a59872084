/** The best time of the night to observe one star (script.js,
    getBestObservationTime and getBestPeriod). The star is sampled once an
    hour from 20:00 to 04:00 the next morning; the scan index runs 20..28 and
    the clock hour recorded with a sample is that index modulo 24. */
module BestTime {
  import opened Wrappers

  const FirstHour: int := 20
  const LastHour: int := 28
  /** Only samples strictly above this altitude (degrees) count as good. */
  const MinBestAltitude: real := 20.0

  /** One good sample: `time` is the scan index 20..28 and stands for the
      sampled moment (the source keeps it formatted as a clock string),
      `hour` the clock hour recorded with it. */
  datatype Sample = Sample(time: int, altitude: real, hour: int)

  /** The coarse span label; `Text` gives the words the page shows. */
  datatype Period =
    | NotVisible
    | Evening(from: int, until: int)
    | EveningToMidnight(from: int)
    | Predawn(from: int, until: int)
    | Overnight(from: int, until: int)

  /** The result of the scan: the best sample's moment and altitude, and the
      label of the span of good samples. */
  datatype BestTime = BestTime(time: int, altitude: real, period: Period)

  /** The good samples among the scan indices FirstHour .. upTo - 1, in scan order. */
  function Survivors(altitudeAt: int -> real, upTo: int): seq<Sample>
    requires FirstHour <= upTo <= LastHour + 1
    decreases upTo
  {
    if upTo == FirstHour then []
    else
      Step(altitudeAt, Survivors(altitudeAt, upTo - 1), upTo - 1)
  }

  /** Samples as the scan records them: indices within the window, strictly
      increasing, each with its clock hour. */
  predicate ScanOrdered(times: seq<Sample>)
  {
    && (forall k :: 0 <= k < |times| ==>
         FirstHour <= times[k].time <= LastHour && times[k].hour == times[k].time % 24)
    && (forall k, l :: 0 <= k < l < |times| ==> times[k].time < times[l].time)
  }

  /** What the scan promises about its good samples up to index `upTo`: they
      are in scan order, each carries its own altitude, which clears the bar,
      and every index before `upTo` whose altitude clears the bar is among them. */
  predicate Recorded(altitudeAt: int -> real, good: seq<Sample>, upTo: int)
  {
    && ScanOrdered(good)
    && (forall k :: 0 <= k < |good| ==>
         good[k].time < upTo && good[k].altitude == altitudeAt(good[k].time) && good[k].altitude > MinBestAltitude)
    && (forall h :: FirstHour <= h < upTo && altitudeAt(h) > MinBestAltitude ==>
         exists k :: 0 <= k < |good| && good[k].time == h)
  }

  /** The good samples after one more scan index. */
  function Step(altitudeAt: int -> real, before: seq<Sample>, h: int): (after: seq<Sample>)
    ensures |after| <= |before| + 1
  {
    before + (if altitudeAt(h) > MinBestAltitude then [Sample(h, altitudeAt(h), h % 24)] else [])
  }

  /** One more scan step keeps the samples recorded. */
  lemma RecordedStep(altitudeAt: int -> real, before: seq<Sample>, after: seq<Sample>, upTo: int)
    requires FirstHour < upTo <= LastHour + 1
    requires Recorded(altitudeAt, before, upTo - 1)
    requires after == Step(altitudeAt, before, upTo - 1)
    ensures Recorded(altitudeAt, after, upTo)
  {
    var h := upTo - 1;
    if altitudeAt(h) > MinBestAltitude {
      var s := Sample(h, altitudeAt(h), h % 24);
      assert after == before + [s];
      StepOrdered(before, s);
      forall g | FirstHour <= g < upTo && altitudeAt(g) > MinBestAltitude
        ensures exists k :: 0 <= k < |after| && after[k].time == g
      {
        if g < h {
          var k :| 0 <= k < |before| && before[k].time == g;
          assert after[k] == before[k];
        } else {
          assert after[|before|].time == g;
        }
      }
    } else {
      assert after == before;
    }
  }

  /** Appending a sample later than every recorded one keeps scan order. */
  lemma StepOrdered(before: seq<Sample>, s: Sample)
    requires ScanOrdered(before)
    requires FirstHour <= s.time <= LastHour && s.hour == s.time % 24
    requires forall k :: 0 <= k < |before| ==> before[k].time < s.time
    ensures ScanOrdered(before + [s])
  {
    var after := before + [s];
    forall k, l | 0 <= k < l < |after| ensures after[k].time < after[l].time {
      if l < |before| {
        assert after[k] == before[k] && after[l] == before[l];
      } else {
        assert after[k] == before[k];
      }
    }
  }

  /** The good samples are exactly the scan indices above the bar, in order. */
  lemma {:induction false} SurvivorsSpec(altitudeAt: int -> real, upTo: int)
    requires FirstHour <= upTo <= LastHour + 1
    ensures Recorded(altitudeAt, Survivors(altitudeAt, upTo), upTo)
  {
    if upTo > FirstHour {
      SurvivorsSpec(altitudeAt, upTo - 1);
      RecordedStep(altitudeAt, Survivors(altitudeAt, upTo - 1), Survivors(altitudeAt, upTo), upTo);
    }
  }

  /** The clock hours of some samples, `times.map(t => t.hour)`. */
  function Hours(times: seq<Sample>): (hours: seq<int>)
    ensures |hours| == |times|
    ensures forall k :: 0 <= k < |times| ==> hours[k] == times[k].hour
  {
    seq(|times|, k requires 0 <= k < |times| => times[k].hour)
  }

  /** `Math.min(...xs)` on a non-empty list. */
  function Min(xs: seq<int>): (m: int)
    requires |xs| > 0
    ensures m in xs
    ensures forall x :: x in xs ==> m <= x
  {
    if |xs| == 1 then xs[0]
    else
      var m := Min(xs[1..]);
      assert forall x :: x in xs ==> x == xs[0] || x in xs[1..];
      if xs[0] <= m then xs[0] else m
  }

  /** `Math.max(...xs)` on a non-empty list. */
  function Max(xs: seq<int>): (m: int)
    requires |xs| > 0
    ensures m in xs
    ensures forall x :: x in xs ==> x <= m
  {
    if |xs| == 1 then xs[0]
    else
      var m := Max(xs[1..]);
      assert forall x :: x in xs ==> x == xs[0] || x in xs[1..];
      if xs[0] >= m then xs[0] else m
  }

  /** The hours listed by `Hours` are exactly the samples' hours. */
  lemma HoursOf(times: seq<Sample>)
    ensures forall t :: t in times ==> t.hour in Hours(times)
    ensures forall x :: x in Hours(times) ==> exists t :: t in times && t.hour == x
  {
    var hours := Hours(times);
    forall t | t in times ensures t.hour in hours {
      var k :| 0 <= k < |times| && times[k] == t;
      assert hours[k] == t.hour;
    }
    forall x | x in hours ensures exists t :: t in times && t.hour == x {
      var k :| 0 <= k < |hours| && hours[k] == x;
      assert times[k] in times;
    }
  }

  /** getBestPeriod as written: the label is chosen from the smallest and
      largest recorded clock hour. Its span starts at the smallest hour and
      ends at the largest; the arm depends on which of them lie in the
      evening (20 and later) or before dawn (6 and earlier). */
  function GetBestPeriod(times: seq<Sample>): (p: Period)
    ensures p == NotVisible <==> times == []
    ensures p.EveningToMidnight? <==>
      times != [] && (forall t :: t in times ==> t.hour >= 20) && (exists t :: t in times && t.hour > 23)
    ensures p.Evening? <==> times != [] && (forall t :: t in times ==> 20 <= t.hour <= 23)
    ensures p.Predawn? <==>
      (exists t :: t in times && t.hour < 20) && (forall t :: t in times ==> t.hour <= 6)
    ensures p.Overnight? <==>
      (exists t :: t in times && t.hour < 20) && (exists t :: t in times && t.hour > 6)
    ensures !p.NotVisible? ==>
      (exists t :: t in times && t.hour == p.from) && (forall t :: t in times ==> p.from <= t.hour)
    ensures p.Evening? || p.Predawn? || p.Overnight? ==>
      (exists t :: t in times && t.hour == p.until) && (forall t :: t in times ==> t.hour <= p.until)
  {
    if times == [] then NotVisible
    else
      var hours := Hours(times);
      HoursOf(times);
      var minHour := Min(hours);
      var maxHour := Max(hours);
      if minHour >= 20 then
        (if maxHour > 23 then EveningToMidnight(minHour) else Evening(minHour, maxHour))
      else if maxHour <= 6 then Predawn(minHour, maxHour)
      else Overnight(minHour, maxHour)
  }

  /** The recorded hours are reduced modulo 24, so the "until midnight" arm
      can never be taken. */
  lemma MidnightArmUnreachable(times: seq<Sample>)
    requires forall t :: t in times ==> 0 <= t.hour < 24
    ensures !GetBestPeriod(times).EveningToMidnight?
  {
    if times != [] {
      var hours := Hours(times);
      var k :| 0 <= k < |hours| && hours[k] == Max(hours);
      assert times[k] in times;
    }
  }

  /** In a scan the evening samples come first and carry hours 20..23, the
      morning ones come last and carry hours 0..4. */
  lemma ScanHours(times: seq<Sample>)
    requires ScanOrdered(times)
    ensures forall k :: 0 <= k < |times| && times[k].time <= 23 ==> times[k].hour == times[k].time && 20 <= times[k].hour <= 23
    ensures forall k :: 0 <= k < |times| && times[k].time >= 24 ==> times[k].hour == times[k].time - 24 && 0 <= times[k].hour <= 4
  {
  }

  /** The period label the source means: the span from the first good
      sample of the night to the last one. It differs from `GetBestPeriod`
      only in the evening-to-predawn arm. */
  function BestPeriod(times: seq<Sample>): (p: Period)
    ensures p == NotVisible <==> times == []
    ensures ScanOrdered(times) && times != [] ==>
      !p.NotVisible? && !p.EveningToMidnight?
      && p.from == times[0].hour && p.until == times[|times| - 1].hour
    ensures ScanOrdered(times) && times != [] ==>
      (p.Evening? <==> times[|times| - 1].time <= 23)
      && (p.Predawn? <==> times[0].time >= 24)
      && (p.Overnight? <==> times[0].time <= 23 && times[|times| - 1].time >= 24)
  {
    if times == [] then NotVisible
    else
      var p := GetBestPeriod(times);
      var q := if p.Overnight? then Overnight(times[0].hour, times[|times| - 1].hour) else p;
      if ScanOrdered(times) then BestPeriodOfScan(times); q else q
  }

  /** In a scan every sample lies between the first and the last. */
  lemma ScanBetween(times: seq<Sample>)
    requires ScanOrdered(times) && times != []
    ensures forall k :: 0 <= k < |times| ==> times[0].time <= times[k].time <= times[|times| - 1].time
  {
    forall k | 0 <= k < |times| ensures times[0].time <= times[k].time <= times[|times| - 1].time {
      if 0 < k { assert times[0].time < times[k].time; }
      if k < |times| - 1 { assert times[k].time < times[|times| - 1].time; }
    }
  }

  /** When the good samples all lie on one side of midnight, the smallest
      and largest clock hours are those of the first and last sample. */
  lemma OneSidedScan(times: seq<Sample>)
    requires ScanOrdered(times) && times != []
    requires times[|times| - 1].time <= 23 || times[0].time >= 24
    ensures Min(Hours(times)) == times[0].hour && Max(Hours(times)) == times[|times| - 1].hour
  {
    ScanBetween(times);
    ScanHours(times);
    var hours := Hours(times);
    assert hours[0] == times[0].hour && hours[|times| - 1] == times[|times| - 1].hour;
    assert times[0].hour in hours && times[|times| - 1].hour in hours;
    forall x | x in hours ensures times[0].hour <= x <= times[|times| - 1].hour {
      var k :| 0 <= k < |hours| && hours[k] == x;
    }
  }

  /** When the good samples cross midnight, the smallest clock hour is a
      predawn one and the largest an evening one. */
  lemma CrossingScan(times: seq<Sample>)
    requires ScanOrdered(times) && times != []
    requires times[0].time <= 23 && times[|times| - 1].time >= 24
    ensures Min(Hours(times)) <= times[|times| - 1].hour <= 4
    ensures Max(Hours(times)) >= times[0].hour >= 20
  {
    ScanHours(times);
    var hours := Hours(times);
    assert hours[0] == times[0].hour && hours[|times| - 1] == times[|times| - 1].hour;
    assert times[0].hour in hours && times[|times| - 1].hour in hours;
  }

  /** Where the good samples cross midnight, between samples `j - 1` and
      `j`, the smallest clock hour is that of the first predawn sample and
      the largest that of the last evening sample. */
  lemma CrossingPoint(times: seq<Sample>, j: int)
    requires ScanOrdered(times)
    requires 0 < j < |times| && times[j - 1].time <= 23 && times[j].time >= 24
    ensures Min(Hours(times)) == times[j].hour && Max(Hours(times)) == times[j - 1].hour
  {
    ScanHours(times);
    var hours := Hours(times);
    assert hours[j] == times[j].hour && hours[j - 1] == times[j - 1].hour;
    var lo, hi := times[j].hour, times[j - 1].hour;
    assert lo <= 4 && 20 <= hi;
    forall x | x in hours ensures lo <= x <= hi {
      var k :| 0 <= k < |hours| && hours[k] == x;
      if k < j {
        assert times[k].time <= times[j - 1].time;
        assert x == times[k].time && 20 <= x;
      } else {
        assert times[j].time <= times[k].time;
        assert x == times[k].time - 24 && x <= 4;
      }
    }
    var m, n := Min(hours), Max(hours);
    assert lo in hours && hi in hours;
    assert lo <= m <= lo && hi <= n <= hi;
  }

  /** What the as-written label makes of a scan: which arm it takes and
      which hours it reports. */
  lemma BestPeriodOfScan(times: seq<Sample>)
    requires ScanOrdered(times) && times != []
    ensures var p := GetBestPeriod(times);
      var first := times[0];
      var last := times[|times| - 1];
      && (last.time <= 23 ==> p == Evening(first.hour, last.hour))
      && (first.time >= 24 ==> p == Predawn(first.hour, last.hour))
      && (first.time <= 23 && last.time >= 24 ==> p.Overnight?)
    ensures forall j :: 0 < j < |times| && times[j - 1].time <= 23 && times[j].time >= 24 ==>
      GetBestPeriod(times) == Overnight(times[j].hour, times[j - 1].hour)
  {
    var first := times[0];
    var last := times[|times| - 1];
    ScanHours(times);
    assert FirstHour <= first.time && last.time <= LastHour;
    if last.time <= 23 {
      OneSidedScan(times);
      assert 20 <= first.hour && last.hour <= 23;
    } else if first.time >= 24 {
      OneSidedScan(times);
      assert first.hour < 20 && last.hour <= 4;
    } else {
      CrossingScan(times);
    }
    forall j | 0 < j < |times| && times[j - 1].time <= 23 && times[j].time >= 24
      ensures GetBestPeriod(times) == Overnight(times[j].hour, times[j - 1].hour)
    {
      CrossingPoint(times, j);
      assert times[j].hour <= 4 && times[j - 1].hour >= 20;
    }
  }

  /** The as-written evening-to-predawn label is inverted: for a good span
      that crosses midnight it starts at a predawn hour and ends at an
      evening hour. */
  lemma OvernightLabelInverted(times: seq<Sample>)
    requires ScanOrdered(times) && times != []
    requires times[0].time <= 23 && times[|times| - 1].time >= 24
    ensures GetBestPeriod(times).Overnight?
    ensures GetBestPeriod(times).from <= 4 && GetBestPeriod(times).until >= 20
  {
    CrossingScan(times);
  }

  /** The words shown for a period (`不可見` when nothing is good). */
  function Text(p: Period): string
  {
    match p
    case NotVisible => "不可見"
    case Evening(a, b) => "晚上" + Decimal(a) + "點-" + Decimal(b) + "點"
    case EveningToMidnight(a) => "晚上" + Decimal(a) + "點-午夜"
    case Predawn(a, b) => "凌晨" + Decimal(a) + "點-" + Decimal(b) + "點"
    case Overnight(a, b) => "晚上" + Decimal(a) + "點-凌晨" + Decimal(b) + "點"
  }

  /** An integer in decimal, as a template literal prints it. */
  function Decimal(n: int): string
  {
    if n < 0 then "-" + Digits(-n) else Digits(n)
  }

  function Digits(n: nat): string
  {
    if n < 10 then ["0123456789"[n]] else Digits(n / 10) + ["0123456789"[n % 10]]
  }

  /** The good samples of a star above the bar from 22:00 to 01:00. */
  const CrossingNight: seq<Sample> :=
    [Sample(22, 30.0, 22), Sample(23, 40.0, 23), Sample(24, 35.0, 0), Sample(25, 25.0, 1)]

  lemma CrossingNightIsScan()
    ensures ScanOrdered(CrossingNight)
  {
  }

  lemma CrossingNightPeriods()
    ensures GetBestPeriod(CrossingNight) == Overnight(0, 23)
    ensures BestPeriod(CrossingNight) == Overnight(22, 1)
  {
    var hours := Hours(CrossingNight);
    assert hours == [22, 23, 0, 1];
    assert hours[1..] == [23, 0, 1] && hours[2..] == [0, 1] && hours[3..] == [1];
    assert Min([1]) == 1 && Min([0, 1]) == 0 && Min([23, 0, 1]) == 0 && Min(hours) == 0;
    assert Max([1]) == 1 && Max([0, 1]) == 1 && Max([23, 0, 1]) == 23 && Max(hours) == 23;
  }

  lemma CrossingNightTexts()
    ensures Text(Overnight(0, 23)) == "晚上0點-凌晨23點"
    ensures Text(Overnight(22, 1)) == "晚上22點-凌晨1點"
  {
    assert Digits(23) == "23" by { assert Digits(2) == "2"; }
    assert Digits(22) == "22" by { assert Digits(2) == "2"; }
  }

  /** A star good from 22:00 to 01:00: the source shows "晚上0點-凌晨23點"
      where "晚上22點-凌晨1點" is meant. */
  lemma OvernightExample()
    ensures ScanOrdered(CrossingNight)
    ensures Text(GetBestPeriod(CrossingNight)) == "晚上0點-凌晨23點"
    ensures Text(BestPeriod(CrossingNight)) == "晚上22點-凌晨1點"
  {
    CrossingNightIsScan();
    CrossingNightPeriods();
    CrossingNightTexts();
  }

  /** No good sample at all means every scanned altitude is at or below the bar. */
  lemma NoSurvivors(altitudeAt: int -> real)
    requires Survivors(altitudeAt, LastHour + 1) == []
    ensures forall h :: FirstHour <= h <= LastHour ==> altitudeAt(h) <= MinBestAltitude
  {
    SurvivorsSpec(altitudeAt, LastHour + 1);
  }

  /** Every scan index above the bar is recorded among the good samples. */
  lemma FindSurvivor(altitudeAt: int -> real, good: seq<Sample>, h: int) returns (k: nat)
    requires Recorded(altitudeAt, good, LastHour + 1)
    requires FirstHour <= h <= LastHour && altitudeAt(h) > MinBestAltitude
    ensures k < |good| && good[k].time == h && good[k].altitude == altitudeAt(h)
  {
    k :| 0 <= k < |good| && good[k].time == h;
  }

  /** The sample the reduce settles on, the first of greatest altitude among
      the good samples, is the first highest moment of the whole scan. */
  lemma FirstMaximumOfScan(altitudeAt: int -> real, good: seq<Sample>, at: nat)
    requires Recorded(altitudeAt, good, LastHour + 1)
    requires at < |good|
    requires forall k :: 0 <= k < at ==> good[k].altitude < good[at].altitude
    requires forall k :: at <= k < |good| ==> good[k].altitude <= good[at].altitude
    ensures var top := good[at];
      && FirstHour <= top.time <= LastHour
      && top.altitude == altitudeAt(top.time) && top.altitude > MinBestAltitude
      && (forall h :: FirstHour <= h <= LastHour ==> altitudeAt(h) <= top.altitude)
      && (forall h :: FirstHour <= h < top.time ==> altitudeAt(h) < top.altitude)
  {
    var top := good[at];
    forall h | FirstHour <= h <= LastHour ensures altitudeAt(h) <= top.altitude {
      if altitudeAt(h) > MinBestAltitude {
        var k := FindSurvivor(altitudeAt, good, h);
        assert k < at || at <= k;
      }
    }
    forall h | FirstHour <= h < top.time ensures altitudeAt(h) < top.altitude {
      if altitudeAt(h) > MinBestAltitude {
        var k := FindSurvivor(altitudeAt, good, h);
        assert good[k].time < good[at].time;
        assert k < at;
      }
    }
  }

  /** `samples.reduce((best, current) => current.altitude > best.altitude ? current : best)`:
      the sample of greatest altitude, the earliest one on ties; `at` is its index. */
  method FirstHighest(samples: seq<Sample>) returns (top: Sample, at: nat)
    requires samples != []
    ensures at < |samples| && top == samples[at]
    ensures forall k :: 0 <= k < at ==> samples[k].altitude < top.altitude
    ensures forall k :: at <= k < |samples| ==> samples[k].altitude <= top.altitude
  {
    top, at := samples[0], 0;
    for i := 1 to |samples|
      invariant at < i && top == samples[at]
      invariant forall k :: 0 <= k < at ==> samples[k].altitude < top.altitude
      invariant forall k :: at <= k < i ==> samples[k].altitude <= top.altitude
    {
      var current := samples[i];
      if current.altitude > top.altitude {
        top, at := current, i;
      }
    }
  }

  /** getBestObservationTime for one star: `altitudeAt(h)` is the star's
      altitude at scan index h. Returns None (the source's null) when no
      sample clears the bar; otherwise the first sample of greatest altitude. */
  method GetBestObservationTime(altitudeAt: int -> real) returns (best: Option<BestTime>)
    ensures best.None? <==> forall h :: FirstHour <= h <= LastHour ==> altitudeAt(h) <= MinBestAltitude
    ensures best.Some? ==>
      FirstHour <= best.value.time <= LastHour
      && best.value.altitude == altitudeAt(best.value.time) && best.value.altitude > MinBestAltitude
    ensures best.Some? ==> forall h :: FirstHour <= h <= LastHour ==> altitudeAt(h) <= best.value.altitude
    ensures best.Some? ==> forall h :: FirstHour <= h < best.value.time ==> altitudeAt(h) < best.value.altitude
    ensures best.Some? ==> best.value.period == BestPeriod(Survivors(altitudeAt, LastHour + 1))
  {
    var bestTimes: seq<Sample> := [];
    for hour := FirstHour to LastHour + 1
      invariant bestTimes == Survivors(altitudeAt, hour)
    {
      var altitude := altitudeAt(hour);
      if altitude > MinBestAltitude {
        bestTimes := bestTimes + [Sample(hour, altitude, hour % 24)];
      }
    }
    if |bestTimes| == 0 {
      NoSurvivors(altitudeAt);
      return None;
    }
    var top, at := FirstHighest(bestTimes);
    SurvivorsSpec(altitudeAt, LastHour + 1);
    FirstMaximumOfScan(altitudeAt, bestTimes, at);
    best := Some(BestTime(top.time, top.altitude, BestPeriod(bestTimes)));
  }
}
