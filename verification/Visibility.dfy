/** The stars visible at one moment (script.js, getVisibleStars): every
    catalogue star above 5 degrees of altitude, with its compass direction,
    brightest first. */
module Visibility {
  import opened Catalogue
  import Compass

  /** Stars at or below this altitude (degrees) are hidden by the horizon haze. */
  const MinAltitude: real := 5.0

  /** One row of the visibility report. */
  datatype VisibleStar = VisibleStar(
    name: string, constellation: string, altitude: real, azimuth: real,
    direction: string, magnitude: real)

  /** The row the source pushes for a star seen at a position. */
  function Entry(s: Star, p: Horizontal): (v: VisibleStar)
    ensures v.name == s.name && v.constellation == s.constellation && v.magnitude == s.magnitude
    ensures v.altitude == p.altitude && v.azimuth == p.azimuth
    ensures v.direction == Compass.Direction(p.azimuth)
  {
    VisibleStar(s.name, s.constellation, p.altitude, p.azimuth, Compass.Direction(p.azimuth), s.magnitude)
  }

  /** The rows pushed by the scan of `catalogue`, in catalogue order, before
      sorting; `pos` gives each star's position at the moment in question. */
  function Observed(catalogue: seq<Star>, pos: Star -> Horizontal): seq<VisibleStar>
  {
    if catalogue == [] then []
    else
      var last := catalogue[|catalogue| - 1];
      var rest := Observed(catalogue[..|catalogue| - 1], pos);
      if pos(last).altitude > MinAltitude then rest + [Entry(last, pos(last))] else rest
  }

  /** Every row comes from a catalogue star above the threshold. */
  lemma {:induction false} ObservedSound(catalogue: seq<Star>, pos: Star -> Horizontal, v: VisibleStar)
    requires v in Observed(catalogue, pos)
    ensures exists i :: (0 <= i < |catalogue| && pos(catalogue[i]).altitude > MinAltitude
      && v == Entry(catalogue[i], pos(catalogue[i])))
  {
    var front := catalogue[..|catalogue| - 1];
    var last := catalogue[|catalogue| - 1];
    if v in Observed(front, pos) {
      ObservedSound(front, pos, v);
      var i :| 0 <= i < |front| && pos(front[i]).altitude > MinAltitude && v == Entry(front[i], pos(front[i]));
      assert catalogue[i] == front[i];
    } else {
      assert v == Entry(last, pos(last));
    }
  }

  /** Every catalogue star above the threshold has its row. */
  lemma {:induction false} ObservedComplete(catalogue: seq<Star>, pos: Star -> Horizontal, i: nat)
    requires i < |catalogue|
    requires pos(catalogue[i]).altitude > MinAltitude
    ensures Entry(catalogue[i], pos(catalogue[i])) in Observed(catalogue, pos)
  {
    var front := catalogue[..|catalogue| - 1];
    if i < |front| {
      ObservedComplete(front, pos, i);
      assert front[i] == catalogue[i];
    }
  }

  /** At most one row per catalogue star, one per star above the threshold. */
  lemma {:induction false} ObservedLength(catalogue: seq<Star>, pos: Star -> Horizontal)
    ensures |Observed(catalogue, pos)| == |set i | 0 <= i < |catalogue| && pos(catalogue[i]).altitude > MinAltitude|
  {
    if catalogue != [] {
      var n := |catalogue| - 1;
      var front := catalogue[..n];
      ObservedLength(front, pos);
      var before := set i | 0 <= i < n && pos(front[i]).altitude > MinAltitude;
      var after := set i | 0 <= i < |catalogue| && pos(catalogue[i]).altitude > MinAltitude;
      assert forall i :: 0 <= i < n ==> front[i] == catalogue[i];
      if pos(catalogue[n]).altitude > MinAltitude {
        assert |Observed(catalogue, pos)| == |Observed(front, pos)| + 1;
        assert after == before + {n};
        assert n !in before;
      } else {
        assert |Observed(catalogue, pos)| == |Observed(front, pos)|;
        assert after == before;
      }
    }
  }

  /** The threshold is strict: a star at exactly 5 degrees is left out and
      one just above it is kept. */
  lemma ThresholdIsStrict(onEdge: Star, above: Star, pos: Star -> Horizontal)
    requires pos(onEdge).altitude == 5.0 && pos(above).altitude == 5.0001
    ensures Observed([onEdge, above], pos) == [Entry(above, pos(above))]
  {
    assert [onEdge, above][..1] == [onEdge];
    assert [onEdge][..0] == [];
    assert Observed([onEdge], pos) == [];
  }

  /** Rows in non-decreasing order of magnitude: brightest first. */
  predicate ByMagnitude(rows: seq<VisibleStar>)
  {
    forall i, j :: 0 <= i < j < |rows| ==> rows[i].magnitude <= rows[j].magnitude
  }

  /** The rows of one magnitude, in the order they appear. */
  function OfMagnitude(rows: seq<VisibleStar>, m: real): seq<VisibleStar>
  {
    if rows == [] then []
    else (if rows[0].magnitude == m then [rows[0]] else []) + OfMagnitude(rows[1..], m)
  }

  /** Places `v` before the first row that is not brighter than it. */
  function Insert(v: VisibleStar, rows: seq<VisibleStar>): seq<VisibleStar>
  {
    if rows == [] || v.magnitude <= rows[0].magnitude then [v] + rows
    else [rows[0]] + Insert(v, rows[1..])
  }

  /** `Array.prototype.sort` with the comparator `a.magnitude - b.magnitude`;
      the JavaScript sort is stable, so this is a stable insertion sort. */
  function SortByMagnitude(rows: seq<VisibleStar>): seq<VisibleStar>
  {
    if rows == [] then [] else Insert(rows[0], SortByMagnitude(rows[1..]))
  }

  lemma {:induction false} InsertPermutes(v: VisibleStar, rows: seq<VisibleStar>)
    ensures multiset(Insert(v, rows)) == multiset(rows) + multiset{v}
  {
    if rows != [] && v.magnitude > rows[0].magnitude {
      InsertPermutes(v, rows[1..]);
      assert rows == [rows[0]] + rows[1..];
    }
  }

  lemma {:induction false} InsertKeepsOrder(v: VisibleStar, rows: seq<VisibleStar>)
    requires ByMagnitude(rows)
    ensures ByMagnitude(Insert(v, rows))
  {
    if rows != [] && v.magnitude > rows[0].magnitude {
      var tail := rows[1..];
      InsertKeepsOrder(v, tail);
      InsertPermutes(v, tail);
      var r := Insert(v, rows);
      var rest := Insert(v, tail);
      assert r == [rows[0]] + rest;
      forall k | 0 <= k < |rest| ensures rows[0].magnitude <= rest[k].magnitude {
        assert rest[k] in multiset(rest);
        if rest[k] != v {
          assert rest[k] in multiset(tail);
          var t :| 0 <= t < |tail| && tail[t] == rest[k];
          assert rows[t + 1] == tail[t];
        }
      }
    }
  }

  /** One step of `OfMagnitude` on a row put in front. */
  lemma OfMagnitudeCons(x: VisibleStar, rest: seq<VisibleStar>, m: real)
    ensures OfMagnitude([x] + rest, m) == (if x.magnitude == m then [x] else []) + OfMagnitude(rest, m)
  {
    assert ([x] + rest)[0] == x;
    assert ([x] + rest)[1..] == rest;
  }

  lemma {:induction false} InsertOfMagnitude(v: VisibleStar, rows: seq<VisibleStar>, m: real)
    ensures OfMagnitude(Insert(v, rows), m)
      == (if v.magnitude == m then [v] else []) + OfMagnitude(rows, m)
  {
    if rows == [] || v.magnitude <= rows[0].magnitude {
      OfMagnitudeCons(v, rows, m);
    } else {
      var tail := rows[1..];
      assert rows == [rows[0]] + tail;
      InsertOfMagnitude(v, tail, m);
      OfMagnitudeCons(rows[0], Insert(v, tail), m);
      OfMagnitudeCons(rows[0], tail, m);
      var vs := if v.magnitude == m then [v] else [];
      var hs := if rows[0].magnitude == m then [rows[0]] else [];
      assert vs == [] || hs == [];
      assert hs + (vs + OfMagnitude(tail, m)) == vs + (hs + OfMagnitude(tail, m));
    }
  }

  /** The sort yields magnitude order and is a permutation of its input. */
  lemma {:induction false} SortSortsAndPermutes(rows: seq<VisibleStar>)
    ensures ByMagnitude(SortByMagnitude(rows))
    ensures multiset(SortByMagnitude(rows)) == multiset(rows)
  {
    if rows != [] {
      SortSortsAndPermutes(rows[1..]);
      InsertKeepsOrder(rows[0], SortByMagnitude(rows[1..]));
      InsertPermutes(rows[0], SortByMagnitude(rows[1..]));
      assert rows == [rows[0]] + rows[1..];
    }
  }

  /** The sort is stable: rows of equal magnitude keep their relative order. */
  lemma {:induction false} SortIsStable(rows: seq<VisibleStar>, m: real)
    ensures OfMagnitude(SortByMagnitude(rows), m) == OfMagnitude(rows, m)
  {
    if rows != [] {
      SortIsStable(rows[1..], m);
      InsertOfMagnitude(rows[0], SortByMagnitude(rows[1..]), m);
    }
  }

  /** getVisibleStars at one moment: `pos` stands for the position
      computation for the fixed observer and moment. */
  method GetVisibleStars(catalogue: seq<Star>, pos: Star -> Horizontal) returns (visible: seq<VisibleStar>)
    ensures forall v :: v in visible ==> v.altitude > MinAltitude && v.direction == Compass.Direction(v.azimuth)
    ensures forall i :: 0 <= i < |catalogue| && pos(catalogue[i]).altitude > MinAltitude ==>
      Entry(catalogue[i], pos(catalogue[i])) in visible
    ensures ByMagnitude(visible)
    ensures multiset(visible) == multiset(Observed(catalogue, pos))
    ensures forall m :: OfMagnitude(visible, m) == OfMagnitude(Observed(catalogue, pos), m)
    ensures catalogue == [] ==> visible == []
  {
    visible := [];
    for i := 0 to |catalogue|
      invariant visible == Observed(catalogue[..i], pos)
    {
      assert catalogue[..i + 1][..i] == catalogue[..i];
      var star := catalogue[i];
      var position := pos(star);
      if position.altitude > MinAltitude {
        visible := visible + [Entry(star, position)];
      }
    }
    assert catalogue[..|catalogue|] == catalogue;
    var unsorted := visible;
    visible := SortByMagnitude(unsorted);
    SortSortsAndPermutes(unsorted);
    forall m ensures OfMagnitude(visible, m) == OfMagnitude(unsorted, m) {
      SortIsStable(unsorted, m);
    }
    forall v | v in visible ensures v.altitude > MinAltitude && v.direction == Compass.Direction(v.azimuth) {
      assert v in multiset(unsorted);
      ObservedSound(catalogue, pos, v);
    }
    forall i | 0 <= i < |catalogue| && pos(catalogue[i]).altitude > MinAltitude
      ensures Entry(catalogue[i], pos(catalogue[i])) in visible
    {
      ObservedComplete(catalogue, pos, i);
      assert Entry(catalogue[i], pos(catalogue[i])) in multiset(unsorted);
    }
  }
}
