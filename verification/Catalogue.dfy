/** The compiled-in bright-star catalogue (script.js, brightStars). */
module Catalogue {

  /** A catalogue entry: right ascension in hours, declination in degrees,
      apparent magnitude (lower is brighter). */
  datatype Star = Star(name: string, ra: real, dec: real, constellation: string, magnitude: real)

  /** Where a star stands in the observer's sky at one moment: altitude
      above the horizon and azimuth clockwise from north, in degrees. */
  datatype Horizontal = Horizontal(altitude: real, azimuth: real)

  const BrightStars: seq<Star> := [
    Star("天狼星", 6.7523, -16.7161, "大犬座", -1.46),
    Star("老人星", 6.3992, -52.6956, "船底座", -0.74),
    Star("大角星", 14.2610, 19.1824, "牧夫座", -0.05),
    Star("織女星", 18.6156, 38.7837, "天琴座", 0.03),
    Star("五車二", 5.2781, 45.9980, "御夫座", 0.08),
    Star("參宿七", 5.6794, -1.2017, "獵戶座", 0.13),
    Star("南河三", 7.6553, 5.2250, "小犬座", 0.34),
    Star("參宿四", 5.9195, 7.4069, "獵戶座", 0.50),
    Star("水委一", 1.6287, -57.2367, "波江座", 0.46),
    Star("牛郎星", 19.8464, 8.8683, "天鷹座", 0.77),
    Star("十字架二", 12.4379, -63.0990, "南十字座", 0.77),
    Star("畢宿五", 4.5987, 16.5093, "金牛座", 0.85),
    Star("心宿二", 16.4901, -26.4319, "天蠍座", 1.09),
    Star("角宿一", 13.4200, -11.1614, "室女座", 0.97),
    Star("北極星", 2.5301, 89.2641, "小熊座", 1.98),
    Star("天津四", 20.3704, 40.2566, "天鵝座", 1.25),
    Star("軒轅十四", 10.1395, 11.9672, "獅子座", 1.35),
    Star("北河三", 7.5755, 31.8883, "雙子座", 1.14),
    Star("土司空", 14.8460, 74.1553, "大熊座", 1.86),
    Star("天社一", 7.4035, -8.6539, "大犬座", 1.50)
  ]

  /** Coordinates within their physical ranges and every star brighter than
      magnitude 2, so none is ever labelled merely "visible". */
  lemma CatalogueInRange()
    ensures |BrightStars| == 20
    ensures forall s :: s in BrightStars ==>
      0.0 <= s.ra < 24.0 && -90.0 <= s.dec <= 90.0 && -1.46 <= s.magnitude < 2.0
  {
  }
}
