/** Calendar and moon labels shown beside the sky data
    (script.js, getPhaseName and getSeason). */
module Almanac {

  const NewMoon: string := "新月 🌑"
  const WaxingCrescent: string := "上蛾眉月 🌒"
  const FirstQuarter: string := "上弦月 🌓"
  const WaxingGibbous: string := "盈凸月 🌔"
  const FullMoon: string := "滿月 🌕"
  const WaningGibbous: string := "虧凸月 🌖"
  const LastQuarter: string := "下弦月 🌗"
  const WaningCrescent: string := "下蛾眉月 🌘"

  /** getPhaseName: the name of a lunar phase fraction (0 and 1 are new
      moon, 0.5 full). Each name owns one band; new moon wraps round 0/1. */
  function PhaseName(phase: real): (name: string)
    ensures name == NewMoon <==> phase < 0.03 || phase > 0.97
    ensures name == WaxingCrescent <==> 0.03 <= phase < 0.22
    ensures name == FirstQuarter <==> 0.22 <= phase < 0.28
    ensures name == WaxingGibbous <==> 0.28 <= phase < 0.47
    ensures name == FullMoon <==> 0.47 <= phase < 0.53
    ensures name == WaningGibbous <==> 0.53 <= phase < 0.72
    ensures name == LastQuarter <==> 0.72 <= phase < 0.78
    ensures name == WaningCrescent <==> 0.78 <= phase <= 0.97
  {
    if phase < 0.03 || phase > 0.97 then "新月 🌑"
    else if phase < 0.22 then "上蛾眉月 🌒"
    else if phase < 0.28 then "上弦月 🌓"
    else if phase < 0.47 then "盈凸月 🌔"
    else if phase < 0.53 then "滿月 🌕"
    else if phase < 0.72 then "虧凸月 🌖"
    else if phase < 0.78 then "下弦月 🌗"
    else "下蛾眉月 🌘"
  }

  /** The quarter phases are symmetric about full moon: a phase and its
      mirror image 1 - phase are named as the matching waxing/waning pair,
      except exactly on the inner band edges, where the half-open bands
      break the symmetry. */
  lemma QuarterSymmetry(phase: real)
    requires 0.0 <= phase <= 1.0
    requires phase !in {0.22, 0.28, 0.47, 0.53, 0.72, 0.78}
    ensures PhaseName(phase) == NewMoon <==> PhaseName(1.0 - phase) == NewMoon
    ensures PhaseName(phase) == FullMoon <==> PhaseName(1.0 - phase) == FullMoon
    ensures PhaseName(phase) == WaxingCrescent <==> PhaseName(1.0 - phase) == WaningCrescent
    ensures PhaseName(phase) == FirstQuarter <==> PhaseName(1.0 - phase) == LastQuarter
    ensures PhaseName(phase) == WaxingGibbous <==> PhaseName(1.0 - phase) == WaningGibbous
  {
  }

  const Spring: string := "春"
  const Summer: string := "夏"
  const Autumn: string := "秋"
  const Winter: string := "冬"

  /** getSeason: the season of a month number (1 = January); months 3-5 are
      spring, 6-8 summer, 9-11 autumn and every other number winter. */
  function Season(month: int): (season: string)
    ensures season == Spring <==> 3 <= month <= 5
    ensures season == Summer <==> 6 <= month <= 8
    ensures season == Autumn <==> 9 <= month <= 11
    ensures season == Winter <==> month < 3 || month > 11
  {
    if month >= 3 && month <= 5 then "春"
    else if month >= 6 && month <= 8 then "夏"
    else if month >= 9 && month <= 11 then "秋"
    else "冬"
  }

  /** The seasons in calendar order starting from winter. */
  const SeasonCycle: seq<string> := [Winter, Spring, Summer, Autumn]

  /** For a real month number, the season is the quarter of the year the
      month falls in, counting December with the following January. */
  lemma SeasonIsQuarter(month: int)
    requires 1 <= month <= 12
    ensures Season(month) == SeasonCycle[(month / 3) % 4]
  {
  }
}
