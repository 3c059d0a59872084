/** The zodiac display: the sun's ecliptic longitude and the twelve 30-degree
    signs it falls in (script.js, getZodiacSign, getZodiacKey, getSunLongitude). */
module Zodiac {
  import JsNumber

  /** The English keys, in ecliptic order starting at the vernal equinox. */
  const Keys: seq<string> := [
    "aries", "taurus", "gemini", "cancer", "leo", "virgo",
    "libra", "scorpio", "sagittarius", "capricorn", "aquarius", "pisces"]

  /** The displayed names with their symbols, in the same order. */
  const Signs: seq<string> := [
    "白羊座 ♈", "金牛座 ♉", "雙子座 ♊", "巨蟹座 ♋", "獅子座 ♌", "處女座 ♍",
    "天秤座 ♎", "天蠍座 ♏", "射手座 ♐", "摩羯座 ♑", "水瓶座 ♒", "雙魚座 ♓"]

  /** `((longitude % 360) + 360) % 360`: a longitude brought into [0, 360). */
  function Normalize(longitude: real): (n: real)
    ensures 0.0 <= n < JsNumber.Turn
    ensures n == JsNumber.FloorModTurn(longitude)
  {
    JsNumber.DoubleRemIsFloorMod(longitude);
    JsNumber.RemTurn(JsNumber.RemTurn(longitude) + 360.0)
  }

  /** Reference definition: the sign a longitude falls in is the number of
      whole 30-degree steps of its Euclidean reduction. */
  function Sector(longitude: real): (i: nat)
    ensures i < 12
    ensures 30.0 * i as real <= JsNumber.FloorModTurn(longitude) < 30.0 * i as real + 30.0
  {
    (JsNumber.FloorModTurn(longitude) / 30.0).Floor
  }

  /** getZodiacKey: the English key of the sign of a longitude. */
  function ZodiacKey(longitude: real): (key: string)
    ensures key == Keys[Sector(longitude)]
  {
    var n := Normalize(longitude);
    if n < 30.0 then "aries"
    else if n < 60.0 then "taurus"
    else if n < 90.0 then "gemini"
    else if n < 120.0 then "cancer"
    else if n < 150.0 then "leo"
    else if n < 180.0 then "virgo"
    else if n < 210.0 then "libra"
    else if n < 240.0 then "scorpio"
    else if n < 270.0 then "sagittarius"
    else if n < 300.0 then "capricorn"
    else if n < 330.0 then "aquarius"
    else "pisces"
  }

  /** getZodiacSign: the displayed name of the sign of a longitude. */
  function ZodiacSign(longitude: real): (sign: string)
    ensures sign == Signs[Sector(longitude)]
  {
    var n := Normalize(longitude);
    if n < 30.0 then "白羊座 ♈"
    else if n < 60.0 then "金牛座 ♉"
    else if n < 90.0 then "雙子座 ♊"
    else if n < 120.0 then "巨蟹座 ♋"
    else if n < 150.0 then "獅子座 ♌"
    else if n < 180.0 then "處女座 ♍"
    else if n < 210.0 then "天秤座 ♎"
    else if n < 240.0 then "天蠍座 ♏"
    else if n < 270.0 then "射手座 ♐"
    else if n < 300.0 then "摩羯座 ♑"
    else if n < 330.0 then "水瓶座 ♒"
    else "雙魚座 ♓"
  }

  /** The key and the displayed name always name the same sign: the i-th
      key goes with the i-th name and with no other. */
  lemma KeyAndSignAgree(longitude: real, i: nat)
    requires i < 12
    ensures ZodiacKey(longitude) == Keys[i] <==> ZodiacSign(longitude) == Signs[i]
  {
    var j := Sector(longitude);
    if ZodiacKey(longitude) == Keys[i] {
      assert Keys[j] == Keys[i];
      assert i == j;
    }
    if ZodiacSign(longitude) == Signs[i] {
      assert Signs[j] == Signs[i];
      assert i == j;
    }
  }

  /** Adding any whole number of turns leaves the sign unchanged. */
  lemma FullTurnsKeepSign(longitude: real, k: int)
    ensures ZodiacKey(longitude + 360.0 * k as real) == ZodiacKey(longitude)
    ensures ZodiacSign(longitude + 360.0 * k as real) == ZodiacSign(longitude)
  {
    JsNumber.FloorModTurnShift(longitude, k);
  }

  /** The day of the year the approximation places the vernal equinox on. */
  const SpringEquinoxDay: int := 79

  /** getSunLongitude, taking the calendar fields it reads as inputs:
      the day of the year, the JavaScript month index (0 = January) and the
      day of the month. June 21 is pinned to 90 degrees. */
  function SunLongitude(dayOfYear: int, monthIndex: int, dayOfMonth: int): (longitude: real)
    ensures 0.0 <= longitude < 360.0
    ensures monthIndex == 5 && dayOfMonth == 21 ==> longitude == 90.0
    ensures !(monthIndex == 5 && dayOfMonth == 21) ==>
      longitude == JsNumber.FloorModTurn((dayOfYear - SpringEquinoxDay) as real * 360.0 / 365.25)
  {
    var raw := (dayOfYear - SpringEquinoxDay) as real * 360.0 / 365.25;
    var reduced := JsNumber.RemTurn(raw);
    var result := if reduced < 0.0 then reduced + 360.0 else reduced;
    SunLongitudeReduction(raw);
    if monthIndex == 5 && dayOfMonth == 21 then 90.0 else result
  }

  /** Adding one turn to a negative remainder is the Euclidean reduction. */
  lemma SunLongitudeReduction(raw: real)
    ensures (var r := JsNumber.RemTurn(raw); if r < 0.0 then r + 360.0 else r)
      == JsNumber.FloorModTurn(raw)
  {
    JsNumber.DoubleRemIsFloorMod(raw);
    var r := JsNumber.RemTurn(raw);
    if r >= 0.0 {
      assert JsNumber.RemTurn(r + 360.0) == r by {
        assert JsNumber.Trunc((r + 360.0) / 360.0) == 1;
      }
    } else {
      assert JsNumber.RemTurn(r + 360.0) == r + 360.0 by {
        assert JsNumber.Trunc((r + 360.0) / 360.0) == 0;
      }
    }
  }

  /** The summer-solstice special case puts the sun in Cancer. */
  lemma SummerSolsticeIsCancer(dayOfYear: int)
    ensures ZodiacKey(SunLongitude(dayOfYear, 5, 21)) == "cancer"
  {
    JsNumber.FloorModTurnInRange(90.0);
  }

  /** On the equinox day itself the sun is at longitude 0, the start of Aries. */
  lemma EquinoxIsAries(monthIndex: int, dayOfMonth: int)
    requires !(monthIndex == 5 && dayOfMonth == 21)
    ensures SunLongitude(SpringEquinoxDay, monthIndex, dayOfMonth) == 0.0
    ensures ZodiacKey(SunLongitude(SpringEquinoxDay, monthIndex, dayOfMonth)) == "aries"
  {
    JsNumber.FloorModTurnInRange(0.0);
  }
}
