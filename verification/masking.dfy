/** What the masked artifacts of a consistent record look like, pixel by
    pixel, in terms of the slots they were computed from. */
module Masking {
  import opened Outcomes
  import opened Pixels
  import opened Engines
  import opened WoundGraph

  /** `wound_masked` is the image where the wound mask is nonzero and black
      elsewhere. */
  lemma {:induction false} WoundMaskedBounds(e: Toolkit, w: WoundImage)
    requires Consistent(e, w) && w.woundMasked.Some?
    ensures w.image.Some? && w.woundMask.Some?
    ensures var img, m, r := w.image.value, w.woundMask.value, w.woundMasked.value;
            && |r| == |img| == |m|
            && (forall i | 0 <= i < |img| && m[i] != 0 :: r[i] == img[i])
            && (forall i | 0 <= i < |img| && m[i] == 0 :: |r[i]| == |img[i]| && IsZero(r[i]))
  {
    assert Below(ImageSlot, WoundMaskedSlot) && Below(WoundMaskSlot, WoundMaskedSlot);
    assert Filled(w, WoundMaskedSlot);
    assert Agrees(e, w, ImageSlot) && Agrees(e, w, WoundMaskSlot) && Agrees(e, w, WoundMaskedSlot);
  }

  /** `peri_wound_mask` is the perilesion band kept only where the hole-filled
      union of body and wound is nonzero: it is zero wherever that union is
      zero and wherever the band is zero. */
  lemma {:induction false} PeriWoundMaskBounds(e: Toolkit, w: WoundImage)
    requires Consistent(e, w) && w.periWoundMask.Some?
    ensures w.woundMask.Some? && w.bodyMask.Some?
    ensures var wound, body, peri := w.woundMask.value, w.bodyMask.value, w.periWoundMask.value;
            var band, union := e.perilesion(wound, PeriKernel), OrPlane(body, wound);
            && band.Ok? && union.Ok? && e.imfill(union.value).Ok?
            && var filled := e.imfill(union.value).value;
               && |peri| == |band.value| == |filled|
               && (forall i | 0 <= i < |peri| && filled[i] == 0 :: peri[i] == 0)
               && (forall i | 0 <= i < |peri| && band.value[i] == 0 :: peri[i] == 0)
               && (forall i | 0 <= i < |peri| && filled[i] != 0 :: peri[i] == band.value[i])
  {
    assert Below(WoundMaskSlot, PeriWoundMaskSlot) && Below(BodyMaskSlot, PeriWoundMaskSlot);
    assert Filled(w, PeriWoundMaskSlot);
    assert Agrees(e, w, WoundMaskSlot) && Agrees(e, w, BodyMaskSlot) && Agrees(e, w, PeriWoundMaskSlot);
  }

  /** `peri_wound_masked` is the image where the peri-wound mask is nonzero
      and black elsewhere. */
  lemma {:induction false} PeriWoundMaskedBounds(e: Toolkit, w: WoundImage)
    requires Consistent(e, w) && w.periWoundMasked.Some?
    ensures w.image.Some? && w.periWoundMask.Some?
    ensures var img, m, r := w.image.value, w.periWoundMask.value, w.periWoundMasked.value;
            && |r| == |img| == |m|
            && (forall i | 0 <= i < |img| && m[i] != 0 :: r[i] == img[i])
            && (forall i | 0 <= i < |img| && m[i] == 0 :: |r[i]| == |img[i]| && IsZero(r[i]))
  {
    assert Below(ImageSlot, PeriWoundMaskedSlot) && Below(PeriWoundMaskSlot, PeriWoundMaskedSlot);
    assert Filled(w, PeriWoundMaskedSlot);
    assert Agrees(e, w, ImageSlot) && Agrees(e, w, PeriWoundMaskSlot) && Agrees(e, w, PeriWoundMaskedSlot);
  }
}
