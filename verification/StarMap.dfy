/** Placement of visible stars on the polar star map (script.js, drawStarMap):
    the zenith at the centre, the horizon on the rim. */
module StarMap {
  import opened Catalogue
  import opened Visibility

  /** How many of the brightest visible stars the map draws, and the list shows. */
  const MapLimit: nat := 10
  const ListLimit: nat := 6

  /** `(90 - altitude) / 90`: the distance from the centre as a fraction
      of the map's radius. */
  function RadialRatio(altitude: real): (ratio: real)
    ensures ratio == 0.0 <==> altitude == 90.0
    ensures altitude == 0.0 ==> ratio == 1.0
    ensures altitude <= 90.0 ==> ratio >= 0.0
    ensures altitude > MinAltitude ==> ratio < 85.0 / 90.0
  {
    (90.0 - altitude) / 90.0
  }

  /** A higher star is drawn nearer the centre. */
  lemma HigherIsNearer(low: real, high: real)
    requires low < high
    ensures RadialRatio(high) < RadialRatio(low)
  {
  }

  /** Every star the filter keeps lands strictly inside the rim and no
      farther out than 85/90 of the radius, given that the position
      computation never reports an altitude above the zenith. */
  lemma VisibleStarsInsideDisk(catalogue: seq<Star>, pos: Star -> Horizontal, v: VisibleStar)
    requires forall s :: s in catalogue ==> pos(s).altitude <= 90.0
    requires v in Observed(catalogue, pos)
    ensures 0.0 <= RadialRatio(v.altitude) < 85.0 / 90.0
  {
    ObservedSound(catalogue, pos, v);
  }

  /** `rows.slice(0, n)`: the first `n` rows, or all of them if fewer. */
  function Top(rows: seq<VisibleStar>, n: nat): (top: seq<VisibleStar>)
    ensures |top| == if |rows| < n then |rows| else n
    ensures top == rows[..|top|]
  {
    if |rows| < n then rows else rows[..n]
  }

  /** On a report in magnitude order, every star shown is at least as bright
      as every star left out. */
  lemma TopIsBrightest(rows: seq<VisibleStar>, n: nat)
    requires ByMagnitude(rows)
    ensures forall i, j :: 0 <= i < |Top(rows, n)| <= j < |rows| ==> rows[i].magnitude <= rows[j].magnitude
  {
  }

  /** The star list (`slice(0, 6)`) shows the brightest of the stars the
      map draws (`slice(0, 10)`), in the same order, and on a report in
      magnitude order no star left off the list is brighter than one on it. */
  lemma ListIsHeadOfMap(rows: seq<VisibleStar>)
    ensures Top(rows, ListLimit) == Top(Top(rows, MapLimit), ListLimit)
    ensures |Top(rows, ListLimit)| <= |Top(rows, MapLimit)|
    ensures ByMagnitude(rows) ==>
      forall i, j :: 0 <= i < |Top(rows, ListLimit)| <= j < |rows| ==> rows[i].magnitude <= rows[j].magnitude
  {
    if ByMagnitude(rows) {
      TopIsBrightest(rows, ListLimit);
    }
  }
}
