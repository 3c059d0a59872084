/** How a star's apparent magnitude is shown (script.js): the brightness
    word in the star list, the colour and the marker size on the star map.
    Lower magnitudes are brighter. */
module Magnitude {

  const VeryBright: string := "極亮"
  const Bright: string := "很亮"
  const Clear: string := "明亮"
  const Faint: string := "可見"

  /** The brightness word of the star list (the same conditional expression
      appears in loadVisibleStars and updateStarsList). */
  function BrightnessLabel(magnitude: real): (word: string)
    ensures word == VeryBright <==> magnitude < 0.0
    ensures word == Bright <==> 0.0 <= magnitude < 1.0
    ensures word == Clear <==> 1.0 <= magnitude < 2.0
    ensures word == Faint <==> magnitude >= 2.0
  {
    if magnitude < 0.0 then "極亮"
    else if magnitude < 1.0 then "很亮"
    else if magnitude < 2.0 then "明亮"
    else "可見"
  }

  const White: string := "#ffffff"
  const PaleBlue: string := "#e8f4f8"
  const PaleYellow: string := "#ffeaa7"
  const Grey: string := "#ddd"

  /** getStarColor: the star-map colour of a magnitude. */
  function StarColor(magnitude: real): (colour: string)
    ensures colour == White <==> magnitude < 0.0
    ensures colour == PaleBlue <==> 0.0 <= magnitude < 1.0
    ensures colour == PaleYellow <==> 1.0 <= magnitude < 2.0
    ensures colour == Grey <==> magnitude >= 2.0
  {
    if magnitude < 0.0 then "#ffffff"
    else if magnitude < 1.0 then "#e8f4f8"
    else if magnitude < 2.0 then "#ffeaa7"
    else "#ddd"
  }

  /** The list and the map use the same bands: two magnitudes share a
      colour exactly when they share a brightness word. */
  lemma ColourFollowsLabel(a: real, b: real)
    ensures StarColor(a) == StarColor(b) <==> BrightnessLabel(a) == BrightnessLabel(b)
  {
  }

  /** The star-map marker radius, `max(2, 8 - magnitude * 2)`. */
  function MarkerSize(magnitude: real): (size: real)
    ensures size >= 2.0
    ensures size == 2.0 <==> magnitude >= 3.0
    ensures magnitude <= 3.0 ==> size == 8.0 - 2.0 * magnitude
  {
    if 8.0 - magnitude * 2.0 > 2.0 then 8.0 - magnitude * 2.0 else 2.0
  }

  /** A dimmer star is never drawn larger than a brighter one. */
  lemma MarkerSizeNonIncreasing(brighter: real, dimmer: real)
    requires brighter <= dimmer
    ensures MarkerSize(dimmer) <= MarkerSize(brighter)
  {
  }
}
