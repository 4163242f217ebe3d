/** The colour constants used for contours and overlay text, and the
    range-checked constructor for custom colours. */
module Rgb {
  import opened Outcomes

  type Color = (int, int, int)

  const RED: Color := (255, 0, 0)
  const GREEN: Color := (0, 255, 0)
  const BLUE: Color := (0, 0, 255)
  const BLACK: Color := (0, 0, 0)
  const WHITE: Color := (255, 255, 255)

  /** The predefined constants, in declaration order. */
  const Predefined: seq<Color> := [RED, GREEN, BLUE, BLACK, WHITE]

  predicate InByteRange(v: int) {
    0 <= v <= 255
  }

  /** A colour every component of which fits one unsigned byte. */
  predicate IsValid(c: Color) {
    InByteRange(c.0) && InByteRange(c.1) && InByteRange(c.2)
  }

  /** Builds (r, g, b), rejecting any component outside 0..255. */
  function Custom(r: int, g: int, b: int): (res: Result<Color>)
    ensures res.Ok? <==> InByteRange(r) && InByteRange(g) && InByteRange(b)
    ensures res.Ok? ==> res.value == (r, g, b) && IsValid(res.value)
    ensures res.Err? ==> res.error == ColorOutOfRange
  {
    if !(0 <= r <= 255 && 0 <= g <= 255 && 0 <= b <= 255) then
      Err(ColorOutOfRange)
    else
      Ok((r, g, b))
  }

  /** Every predefined constant is a valid colour that Custom reproduces. */
  lemma PredefinedAreCustom()
    ensures forall i | 0 <= i < |Predefined| ::
              IsValid(Predefined[i]) &&
              Custom(Predefined[i].0, Predefined[i].1, Predefined[i].2) == Ok(Predefined[i])
  {
    forall i | 0 <= i < |Predefined|
      ensures IsValid(Predefined[i])
      ensures Custom(Predefined[i].0, Predefined[i].1, Predefined[i].2) == Ok(Predefined[i])
    {
    }
  }

  /** The two contour colours of the semantic overlay differ, and so do the
      border and fill colours of the overlay text. */
  lemma OverlayColoursDistinct()
    ensures GREEN != BLUE
    ensures BLACK != WHITE
    ensures forall i, j | 0 <= i < j < |Predefined| :: Predefined[i] != Predefined[j]
  {
  }
}
