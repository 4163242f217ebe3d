/** The drawing commands the overlay saves issue on their image copy.
    `findContours` followed by `drawContours(..., -1, colour, thickness)` is
    one `Contour` command over the mask it traced; each `putText` call is one
    `Text` command (Hershey simplex font, scale 0.6, anti-aliased lines). */
module Overlay {
  import opened Rgb
  import opened Pixels

  /** The three lines the PWAT overlay can show; the scores are printed with
      three decimals by the drawing engine. */
  datatype TextLine = Title | ClinicalScore(score: real) | PredictedScore(score: real)

  datatype Draw =
    | Contour(mask: Plane, color: Color, thickness: int)
    | Text(line: TextLine, x: int, y: int, color: Color, thickness: int)

  const ContourThickness: int := 2
  const FontThickness: int := 1
  const TextX: int := 10
  const FirstLineY: int := 30
  const LineStep: int := 20

  /** One overlay line: first its border (WHITE, one unit thicker), then the
      text itself (BLACK) at the same place. */
  function Outlined(line: TextLine, x: int, y: int): seq<Draw> {
    [Text(line, x, y, WHITE, FontThickness + 1), Text(line, x, y, BLACK, FontThickness)]
  }

  /** save_segmentation_semantic: body contour in BLUE, then wound contour in
      GREEN. */
  function SemanticDraws(body: Plane, wound: Plane): seq<Draw> {
    [Contour(body, BLUE, ContourThickness), Contour(wound, GREEN, ContourThickness)]
  }

  /** save_mask_wound and save_mask_peri_wound: one GREEN contour. */
  function ContourDraws(mask: Plane): seq<Draw> {
    [Contour(mask, GREEN, ContourThickness)]
  }

  /** save_pwat_estimation, statement by statement: the wound contour, the
      title at (x, y), `y += 20`, the clinical line and another step only
      when the clinical score is positive, then the predicted line. */
  function PwatDraws(wound: Plane, clinical: real, predicted: real): seq<Draw> {
    var x, y := TextX, FirstLineY;
    var title := Outlined(Title, x, y);
    var y := y + LineStep;
    var clinicalLine := if clinical > 0.0 then Outlined(ClinicalScore(clinical), x, y) else [];
    var y := if clinical > 0.0 then y + LineStep else y;
    ContourDraws(wound) + title + clinicalLine + Outlined(PredictedScore(predicted), x, y)
  }

  /** The lines the overlay shows, top to bottom. */
  function Lines(clinical: real, predicted: real): (ls: seq<TextLine>)
    ensures |ls| >= 2 && ls[0] == Title && ls[|ls| - 1] == PredictedScore(predicted)
    ensures |ls| == 3 <==> clinical > 0.0
    ensures |ls| == 2 <==> !(clinical > 0.0)
    ensures clinical > 0.0 ==> ls[1] == ClinicalScore(clinical)
  {
    [Title] + (if clinical > 0.0 then [ClinicalScore(clinical)] else []) + [PredictedScore(predicted)]
  }

  /** The layout of the PWAT overlay: the GREEN wound contour, then line i of
      `Lines` at (10, 30 + 20 i), drawn WHITE with thickness 2 and then BLACK
      with thickness 1. */
  lemma PwatLayout(wound: Plane, clinical: real, predicted: real)
    ensures var ds := PwatDraws(wound, clinical, predicted);
            var ls := Lines(clinical, predicted);
            && |ds| == 1 + 2 * |ls|
            && ds[0] == Contour(wound, GREEN, 2)
            && forall i | 0 <= i < |ls| ::
                 && ds[1 + 2 * i] == Text(ls[i], 10, 30 + 20 * i, WHITE, 2)
                 && ds[2 + 2 * i] == Text(ls[i], 10, 30 + 20 * i, BLACK, 1)
  {
    var ds := PwatDraws(wound, clinical, predicted);
    var ls := Lines(clinical, predicted);
    if clinical > 0.0 {
      assert ds == [Contour(wound, GREEN, 2)]
        + Outlined(ls[0], 10, 30) + Outlined(ls[1], 10, 50) + Outlined(ls[2], 10, 70);
    } else {
      assert ds == [Contour(wound, GREEN, 2)] + Outlined(ls[0], 10, 30) + Outlined(ls[1], 10, 50);
    }
  }

  /** With the clinical placeholder 0.0 the overlay is one GREEN contour
      followed by exactly four text draws: title and predicted score, each
      outlined. */
  lemma PlaceholderOverlay(wound: Plane, predicted: real)
    ensures var ds := PwatDraws(wound, 0.0, predicted);
            && |ds| == 5
            && ds[0].Contour? && ds[0].color == GREEN
            && (forall i | 1 <= i < 5 :: ds[i].Text?)
            && ds[1].line == ds[2].line == Title
            && ds[3].line == ds[4].line == PredictedScore(predicted)
  {
    PwatLayout(wound, 0.0, predicted);
    var ls := Lines(0.0, predicted);
    assert ls == [Title, PredictedScore(predicted)];
  }
}
