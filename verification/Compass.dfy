/** Compass labels for an azimuth (script.js, getDirection). Azimuths are
    degrees clockwise from north. */
module Compass {

  /** The eight labels, clockwise from north. */
  const Points: seq<string> := ["北方", "東北方", "東方", "東南方", "南方", "西南方", "西方", "西北方"]

  const North: string := "北方"

  /** Reference definition: for an azimuth in [0, 360), the index of the
      45-degree sector centred on a compass point, north wrapping round 0. */
  function Sector(azimuth: real): (k: nat)
    requires 0.0 <= azimuth < 360.0
    ensures k < 8
    ensures k == 0 <==> azimuth < 22.5 || azimuth >= 337.5
    ensures k > 0 ==> 45.0 * k as real - 22.5 <= azimuth < 45.0 * k as real + 22.5
  {
    ((azimuth + 22.5) / 45.0).Floor % 8
  }

  /** getDirection: one of the eight labels; on [0, 360) the label of the
      sector the azimuth falls in, and north for any azimuth outside it. */
  function Direction(azimuth: real): (point: string)
    ensures point in Points
    ensures 0.0 <= azimuth < 360.0 ==> point == Points[Sector(azimuth)]
    ensures azimuth < 0.0 || azimuth >= 360.0 ==> point == North
  {
    if azimuth >= 337.5 || azimuth < 22.5 then "北方"
    else if azimuth < 67.5 then "東北方"
    else if azimuth < 112.5 then "東方"
    else if azimuth < 157.5 then "東南方"
    else if azimuth < 202.5 then "南方"
    else if azimuth < 247.5 then "西南方"
    else if azimuth < 292.5 then "西方"
    else "西北方"
  }

  /** North covers [337.5, 360) and [0, 22.5) of the turn. */
  lemma NorthBand(azimuth: real)
    requires 0.0 <= azimuth < 360.0
    ensures Direction(azimuth) == North <==> azimuth >= 337.5 || azimuth < 22.5
  {
    var k := Sector(azimuth);
    if Direction(azimuth) == North {
      assert Points[k] == Points[0];
    }
  }

  /** Every other label k covers the half-open band [45k - 22.5, 45k + 22.5). */
  lemma OtherBands(azimuth: real, k: nat)
    requires 0.0 <= azimuth < 360.0
    requires 0 < k < 8
    ensures Direction(azimuth) == Points[k] <==> 45.0 * k as real - 22.5 <= azimuth < 45.0 * k as real + 22.5
  {
    var j := Sector(azimuth);
    if Direction(azimuth) == Points[k] {
      assert Points[j] == Points[k];
    }
    if 45.0 * k as real - 22.5 <= azimuth < 45.0 * k as real + 22.5 {
      assert j == k;
    }
  }
}
