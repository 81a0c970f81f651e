/** The renderer: the colour of each pixel of the strip buffer, chosen by
    an ordered decision table where the first matching rule wins. */
module Renderer {
  import opened U32
  import opened Config

  type Channel = x: int | 0 <= x < 256

  /** An RGBW pixel colour. */
  datatype Color = Rgbw(r: Channel, g: Channel, b: Channel, w: Channel)

  const Black: Color := Rgbw(0, 0, 0, 0)
  const PeakMarkerColor: Color := Rgbw(0, 0, 0, 255)
  const Green: Color := Rgbw(0, 255, 0, 0)
  const Yellow: Color := Rgbw(255, 255, 0, 0)

  /** The rule a pixel falls under. */
  datatype Rule =
    | PeakMarker   // the pixel just below peakCount
    | AbovePeak    // at or above peakCount: darkened
    | GreenZone    // lit, below GREEN_TOP
    | YellowZone   // lit, from GREEN_TOP up to below YELLOW_TOP
    | OverYellow   // lit, at or above YELLOW_TOP: darkened
    | Unlit        // below the peak but at or above ledsCount: darkened

  /** The decision for pixel `j`, in the order of the nested conditional;
      `peakCount - 1` is unsigned and wraps to 2^32 - 1 when peakCount is 0. */
  function RuleFor(j: nat, peakCount: u32, ledsCount: u32): Rule {
    if j == Sub(peakCount, 1) then PeakMarker
    else if j >= peakCount then AbovePeak
    else if j < ledsCount then
      if j < GREEN_TOP then GreenZone
      else if j >= GREEN_TOP && j < YELLOW_TOP then YellowZone
      else OverYellow
    else Unlit
  }

  predicate Darkens(rule: Rule) {
    rule == AbovePeak || rule == OverYellow || rule == Unlit
  }

  /** The new colour of pixel `j`, from its own previous colour; `darken` stands
      for the pixel library's `Darken(128)`, which is not part of this model. */
  function PixelColor(j: nat, peakCount: u32, ledsCount: u32, prev: Color, darken: Color -> Color): Color {
    match RuleFor(j, peakCount, ledsCount)
    case PeakMarker => PeakMarkerColor
    case GreenZone => Green
    case YellowZone => Yellow
    case _ => darken(prev)
  }

  /** The peak marker sits exactly on pixel peakCount - 1, and nowhere when
      peakCount is 0. */
  lemma MarkerIff(j: nat, peakCount: u32, ledsCount: u32)
    requires j < NUM_PIXELS
    ensures RuleFor(j, peakCount, ledsCount) == PeakMarker <==> peakCount >= 1 && j == peakCount - 1
    ensures peakCount == 0 ==> RuleFor(j, peakCount, ledsCount) != PeakMarker
  {
  }

  /** A pixel is green exactly when it is below the green top, below the
      LED count and below the peak marker. */
  lemma GreenIff(j: nat, peakCount: u32, ledsCount: u32)
    requires j < NUM_PIXELS
    ensures RuleFor(j, peakCount, ledsCount) == GreenZone <==> j < GREEN_TOP && j < ledsCount && j + 1 < peakCount
  {
  }

  /** A pixel is yellow exactly when it lies from the green top up to below
      the yellow top, below the LED count and below the peak marker. */
  lemma YellowIff(j: nat, peakCount: u32, ledsCount: u32)
    requires j < NUM_PIXELS
    ensures RuleFor(j, peakCount, ledsCount) == YellowZone
        <==> GREEN_TOP <= j < YELLOW_TOP && j < ledsCount && j + 1 < peakCount
  {
  }

  /** Every other pixel keeps its own colour, darkened: those at or above
      the peak, and those below the marker that are unlit or past the
      yellow top. */
  lemma DarkenIff(j: nat, peakCount: u32, ledsCount: u32, prev: Color, darken: Color -> Color)
    requires j < NUM_PIXELS
    ensures Darkens(RuleFor(j, peakCount, ledsCount))
        <==> j + 1 != peakCount && (j >= peakCount || j >= ledsCount || j >= YELLOW_TOP)
    ensures Darkens(RuleFor(j, peakCount, ledsCount)) ==> PixelColor(j, peakCount, ledsCount, prev, darken) == darken(prev)
  {
  }

  /** With 4 LEDs lit and the peak at 5: green 0-2, yellow 3, the marker on
      4 (it wins over the zone colours) and 5 darkened. */
  lemma RenderScenario(prev: seq<Color>, darken: Color -> Color)
    requires |prev| == NUM_PIXELS
    ensures PixelColor(0, 5, 4, prev[0], darken) == Green
    ensures PixelColor(1, 5, 4, prev[1], darken) == Green
    ensures PixelColor(2, 5, 4, prev[2], darken) == Green
    ensures PixelColor(3, 5, 4, prev[3], darken) == Yellow
    ensures PixelColor(4, 5, 4, prev[4], darken) == PeakMarkerColor
    ensures PixelColor(5, 5, 4, prev[5], darken) == darken(prev[5])
  {
  }

  /** A peak beyond the strip (after a wrapped-around LED count) shows no
      marker, and every pixel below the LED count is painted as lit. */
  lemma PeakBeyondStrip(j: nat, peakCount: u32, ledsCount: u32)
    requires j < NUM_PIXELS && peakCount > NUM_PIXELS && ledsCount > NUM_PIXELS
    ensures RuleFor(j, peakCount, ledsCount) != PeakMarker
    ensures RuleFor(j, peakCount, ledsCount) == (if j < GREEN_TOP then GreenZone else if j < YELLOW_TOP then YellowZone else OverYellow)
  {
  }
}
