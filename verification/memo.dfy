/** What the memoisation of `WoundImage` promises its callers: one getter
    per slot, which returns a resolved slot without touching any engine and
    otherwise resolves exactly the slot's dependency closure; and what
    `process()` does to a fresh record and to one already processed. */
module Memoisation {
  import opened Outcomes
  import opened Pixels
  import opened Files
  import opened Engines
  import opened WoundGraph

  /** The value a getter returns, whatever its slot. */
  datatype Value = ImageValue(image: Image) | PlaneValue(plane: Plane) | ScoreValue(score: real)

  function AsImage(r: Result<Image>): Result<Value> {
    if r.Ok? then Ok(ImageValue(r.value)) else Err(r.error)
  }

  function AsPlane(r: Result<Plane>): Result<Value> {
    if r.Ok? then Ok(PlaneValue(r.value)) else Err(r.error)
  }

  function AsScore(r: Result<real>): Result<Value> {
    if r.Ok? then Ok(ScoreValue(r.value)) else Err(r.error)
  }

  /** What slot `k` holds once resolved, computed from scratch. */
  function RefValue(e: Toolkit, p: string, k: Slot): Result<Value> {
    match k
    case ImageSlot => AsImage(LoadImage(e, p))
    case SegmentationSlot => AsImage(RefSegmentation(e, p))
    case WoundMaskSlot => AsPlane(RefWoundMask(e, p))
    case BodyMaskSlot => AsPlane(RefBodyMask(e, p))
    case BgMaskSlot => AsPlane(RefBgMask(e, p))
    case WoundMaskedSlot => AsImage(RefWoundMasked(e, p))
    case PeriWoundMaskSlot => AsPlane(RefPeriWoundMask(e, p))
    case PeriWoundMaskedSlot => AsImage(RefPeriWoundMasked(e, p))
    case PredictedSlot => AsScore(RefPredicted(e, p))
    case ClinicalSlot => Ok(ScoreValue(ClinicalPlaceholder))
  }

  /** The value in a filled slot. */
  function ValueAt(w: WoundImage, k: Slot): Value
    requires Filled(w, k)
  {
    match k
    case ImageSlot => ImageValue(w.image.value)
    case SegmentationSlot => ImageValue(w.segmentation.value)
    case WoundMaskSlot => PlaneValue(w.woundMask.value)
    case BodyMaskSlot => PlaneValue(w.bodyMask.value)
    case BgMaskSlot => PlaneValue(w.bgMask.value)
    case WoundMaskedSlot => ImageValue(w.woundMasked.value)
    case PeriWoundMaskSlot => PlaneValue(w.periWoundMask.value)
    case PeriWoundMaskedSlot => ImageValue(w.periWoundMasked.value)
    case PredictedSlot => ScoreValue(w.predictedPwat.value)
    case ClinicalSlot => ScoreValue(w.clinicalPwat.value)
  }

  /** A call that extends `w`, changes nothing outside the closure of `k`
      and leaves a closed record resolves at most that closure; when it
      filled `k`, it resolves all of it. */
  lemma {:induction false} Resolves(w: WoundImage, w2: WoundImage, k: Slot, ok: bool)
    requires Closed(w2) && Extends(w, w2) && Untouched(w, w2, k) && (ok ==> Filled(w2, k))
    ensures Resolved(w) <= Resolved(w2) <= Resolved(w) + Closure(k)
    ensures ok ==> Resolved(w2) == Resolved(w) + Closure(k)
  {
    forall j: Slot
      ensures (j in Resolved(w) ==> j in Resolved(w2))
      ensures (j in Resolved(w2) ==> j in Resolved(w) + Closure(k))
      ensures (ok && j in Closure(k) ==> j in Resolved(w2))
    {
      assert Keeps(w, w2, j);
    }
  }

  /** The getter of slot `k` (`get_image`, ..., `get_clinical_pwat`). */
  method Get(e: Toolkit, w: WoundImage, k: Slot) returns (s: Step<Value>)
    requires Consistent(e, w)
    ensures Consistent(e, s.w) && Extends(w, s.w)
    ensures s.out == RefValue(e, w.imagePath, k)
    ensures Filled(w, k) ==> s == Step(w, Ok(ValueAt(w, k)))
    ensures s.out.Ok? ==> Filled(s.w, k) && s.out.value == ValueAt(s.w, k)
    ensures Resolved(w) <= Resolved(s.w) <= Resolved(w) + Closure(k)
    ensures s.out.Ok? ==> Resolved(s.w) == Resolved(w) + Closure(k)
    ensures s.out.Ok? ==> Paid(w, s.w, NoCalls)
  {
    assert Agrees(e, w, k);
    match k
    case ImageSlot =>
      var t := GetImage(e, w);
      Resolves(w, t.w, k, t.out.Ok?);
      return Step(t.w, AsImage(t.out));
    case SegmentationSlot =>
      var t := GetSegmentation(e, w);
      Resolves(w, t.w, k, t.out.Ok?);
      return Step(t.w, AsImage(t.out));
    case WoundMaskSlot =>
      var t := GetWoundMask(e, w);
      Resolves(w, t.w, k, t.out.Ok?);
      return Step(t.w, AsPlane(t.out));
    case BodyMaskSlot =>
      var t := GetBodyMask(e, w);
      Resolves(w, t.w, k, t.out.Ok?);
      return Step(t.w, AsPlane(t.out));
    case BgMaskSlot =>
      var t := GetBgMask(e, w);
      Resolves(w, t.w, k, t.out.Ok?);
      return Step(t.w, AsPlane(t.out));
    case WoundMaskedSlot =>
      var t := GetWoundMasked(e, w);
      Resolves(w, t.w, k, t.out.Ok?);
      return Step(t.w, AsImage(t.out));
    case PeriWoundMaskSlot =>
      var t := GetPeriWoundMask(e, w);
      Resolves(w, t.w, k, t.out.Ok?);
      return Step(t.w, AsPlane(t.out));
    case PeriWoundMaskedSlot =>
      var t := GetPeriWoundMasked(e, w);
      Resolves(w, t.w, k, t.out.Ok?);
      return Step(t.w, AsImage(t.out));
    case PredictedSlot =>
      var t := GetPredictedPwat(e, w);
      Resolves(w, t.w, k, t.out.Ok?);
      return Step(t.w, AsScore(t.out));
    case ClinicalSlot =>
      var t := GetClinicalPwat(e, w);
      Resolves(w, t.w, k, t.out.Ok?);
      return Step(t.w, AsScore(t.out));
  }

  // ---------------------------------------------------------------------
  // Fresh records

  /** What `New` returns: nothing resolved, no engine called. */
  predicate Fresh(w: WoundImage) {
    Resolved(w) == {} && w.calls == NoCalls
  }

  /** A fresh record is consistent with every toolkit. */
  lemma {:induction false} FreshIsConsistent(e: Toolkit, w: WoundImage)
    requires Fresh(w)
    ensures Consistent(e, w) && Work(w) == NoCalls
  {
    forall k: Slot
      ensures !Filled(w, k) && Agrees(e, w, k)
    {
      assert k !in Resolved(w);
    }
  }

  /** From a record that resolved nothing and called nothing, the counters
      are the work of the slots resolved since. */
  lemma {:induction false} FreshCounts(w: WoundImage, w2: WoundImage)
    requires Work(w) == NoCalls && w.calls == NoCalls && Paid(w, w2, NoCalls)
    ensures w2.calls == Work(w2)
  {
    NoCallsNeutral(w2.calls);
    NoCallsNeutral(Work(w2));
  }

  lemma {:induction false} NoCallsNeutral(c: Calls)
    ensures Plus(NoCalls, c) == c && Plus(c, NoCalls) == c
  {
  }

  lemma UnionWithEmpty<T>(a: set<T>, b: set<T>)
    requires a == {}
    ensures a + b == b
  {
  }

  /** Any getter on a fresh record resolves exactly the slot's closure and
      calls each engine of that closure once. */
  method GetOnFresh(e: Toolkit, w: WoundImage, k: Slot) returns (s: Step<Value>)
    requires Fresh(w)
    ensures s.out == RefValue(e, w.imagePath, k)
    ensures s.out.Ok? ==> Resolved(s.w) == Closure(k) && s.w.calls == Work(s.w)
  {
    FreshIsConsistent(e, w);
    s := Get(e, w, k);
    if s.out.Ok? {
      UnionWithEmpty(Resolved(w), Closure(k));
      FreshCounts(w, s.w);
    }
  }

  /** `get_predicted_pwat` on a fresh record resolves the image, the
      segmentation and the score, and no mask: it decodes, segments and
      scores once each and never splits. */
  method PredictedOnFresh(e: Toolkit, w: WoundImage) returns (s: Step<Value>)
    requires Fresh(w)
    ensures s.out == AsScore(RefPredicted(e, w.imagePath))
    ensures s.out.Ok? ==> Resolved(s.w) == {ImageSlot, SegmentationSlot, PredictedSlot}
    ensures s.out.Ok? ==> s.w.calls == Calls(1, 1, 0, 0, 0, 1)
  {
    s := GetOnFresh(e, w, PredictedSlot);
    if s.out.Ok? {
      assert Closure(PredictedSlot) == {ImageSlot, SegmentationSlot, PredictedSlot} by {
        assert forall j: Slot :: j in Closure(PredictedSlot) <==> Below(j, PredictedSlot);
      }
      assert ImageSlot in Resolved(s.w) && SegmentationSlot in Resolved(s.w) && PredictedSlot in Resolved(s.w);
      assert WoundMaskSlot !in Resolved(s.w) && PeriWoundMaskSlot !in Resolved(s.w);
    }
  }

  /** Each of the three mask getters, on a fresh record, fills all three
      masks from one split. */
  method MaskOnFresh(e: Toolkit, w: WoundImage, k: Slot) returns (s: Step<Value>)
    requires Fresh(w) && IsMask(k)
    ensures s.out == RefValue(e, w.imagePath, k)
    ensures s.out.Ok? ==> Resolved(s.w) == {ImageSlot, SegmentationSlot} + MaskGroup
    ensures s.out.Ok? ==> s.w.calls == Calls(1, 1, 1, 0, 0, 0)
  {
    s := GetOnFresh(e, w, k);
    if s.out.Ok? {
      assert Closure(k) == {ImageSlot, SegmentationSlot} + MaskGroup by {
        assert forall j: Slot :: j in Closure(k) <==> Below(j, k);
      }
      assert ImageSlot in Resolved(s.w) && SegmentationSlot in Resolved(s.w) && WoundMaskSlot in Resolved(s.w);
      assert PeriWoundMaskSlot !in Resolved(s.w) && PredictedSlot !in Resolved(s.w);
    }
  }

  // ---------------------------------------------------------------------
  // process()

  /** `process()` on a fresh record resolves all ten slots and calls every
      engine exactly once, or raises what computing from scratch raises. */
  method ProcessFresh(e: Toolkit, w: WoundImage) returns (s: Step<()>)
    requires Fresh(w)
    ensures s.out.Ok? <==> Derive(e, w.imagePath).Ok?
    ensures s.out.Err? ==> s.out.error == Derive(e, w.imagePath).error
    ensures s.out.Ok? ==> Complete(s.w) && s.w.calls == Calls(1, 1, 1, 1, 1, 1)
  {
    FreshIsConsistent(e, w);
    s := Process(e, w);
  }

  /** A slot filled in two faithful records of the same image holds the
      same value in both. */
  lemma {:induction false} SameSlot(e: Toolkit, w1: WoundImage, w2: WoundImage, k: Slot)
    requires Agrees(e, w1, k) && Agrees(e, w2, k) && Filled(w1, k) && Filled(w2, k)
    requires w1.imagePath == w2.imagePath
    ensures SameAt(w1, w2, k)
  {
  }

  /** Two completed records of the same image hold the same artifacts. */
  lemma {:induction false} SameArtifacts(e: Toolkit, w1: WoundImage, w2: WoundImage)
    requires Consistent(e, w1) && Consistent(e, w2)
    requires w1.imagePath == w2.imagePath && w1.logging == w2.logging
    requires Complete(w1) && Complete(w2)
    ensures w2 == w1.(calls := w2.calls)
  {
    forall k: Slot
      ensures SameAt(w1, w2, k)
    {
      assert Agrees(e, w1, k) && Agrees(e, w2, k);
      SameSlot(e, w1, w2, k);
    }
    assert SameAt(w1, w2, ImageSlot) && SameAt(w1, w2, SegmentationSlot);
    assert SameAt(w1, w2, WoundMaskSlot) && SameAt(w1, w2, BodyMaskSlot) && SameAt(w1, w2, BgMaskSlot);
    assert SameAt(w1, w2, WoundMaskedSlot) && SameAt(w1, w2, PeriWoundMaskSlot);
    assert SameAt(w1, w2, PeriWoundMaskedSlot);
    assert SameAt(w1, w2, PredictedSlot) && SameAt(w1, w2, ClinicalSlot);
  }

  /** `process()` twice: the second run recomputes the very same artifacts
      and raises the very same error, calling every engine once more. */
  method ProcessTwice(e: Toolkit, w: WoundImage) returns (first: Step<()>, second: Step<()>)
    requires Consistent(e, w)
    ensures first.out.Ok? <==> Derive(e, w.imagePath).Ok?
    ensures second.out.Ok? == first.out.Ok?
    ensures second.out.Err? ==> second.out.error == first.out.error
    ensures first.out.Ok? ==> second.w == first.w.(calls := Plus(first.w.calls, Calls(1, 1, 1, 1, 1, 1)))
  {
    first := Process(e, w);
    second := Process(e, first.w);
    if first.out.Ok? {
      SameArtifacts(e, first.w, second.w);
    }
  }
}
