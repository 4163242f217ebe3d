/** `WoundImage`'s lazily computed artifacts. The object is an immutable
    record of ten optional slots plus counters of the engine calls made; every
    getter and update takes a record and returns the record it leaves behind
    together with its value or the error it raised. Because a Python
    exception does not roll back the slots filled before it, a failing call
    also returns its (partially advanced) record. */
module WoundGraph {
  import opened Outcomes
  import opened Pixels
  import opened Engines
  import opened Files
  import PathSyntax

  // ---------------------------------------------------------------------
  // State

  /** How many times each engine has been invoked. */
  datatype Calls = Calls(decode: nat, segment: nat, split: nat, perilesion: nat, imfill: nat, score: nat)

  const NoCalls: Calls := Calls(0, 0, 0, 0, 0, 0)

  function Plus(a: Calls, b: Calls): Calls {
    Calls(a.decode + b.decode, a.segment + b.segment, a.split + b.split,
          a.perilesion + b.perilesion, a.imfill + b.imfill, a.score + b.score)
  }

  datatype WoundImage = WoundImage(
    imagePath: string,
    logging: bool,
    image: Option<Image>,
    segmentation: Option<Image>,
    woundMask: Option<Plane>,
    bodyMask: Option<Plane>,
    bgMask: Option<Plane>,
    woundMasked: Option<Image>,
    periWoundMask: Option<Plane>,
    periWoundMasked: Option<Image>,
    predictedPwat: Option<real>,
    clinicalPwat: Option<real>,
    calls: Calls)

  /** The record a call leaves behind, and what it returned or raised. */
  datatype Step<T> = Step(w: WoundImage, out: Result<T>)

  /** `WoundImage(image_path, logging)`: the path pattern is checked first,
      existence second; all slots start empty. */
  function New(path: string, logging: bool, fs: FileSystem): (r: Result<WoundImage>)
    ensures r.Ok? <==> PathSyntax.IsImagePath(path) && Exists(fs, path)
    ensures !PathSyntax.IsImagePath(path) ==> r == Err(MalformedImagePath(path))
    ensures PathSyntax.IsImagePath(path) && !Exists(fs, path) ==> r == Err(MissingFile(path))
    ensures r.Ok? ==> r.value.imagePath == path && r.value.logging == logging
    ensures r.Ok? ==> Resolved(r.value) == {} && r.value.calls == NoCalls
  {
    if !PathSyntax.IsImagePath(path) then Err(MalformedImagePath(path))
    else if !Exists(fs, path) then Err(MissingFile(path))
    else Ok(WoundImage(path, logging, None, None, None, None, None, None, None, None, None, None, NoCalls))
  }

  // ---------------------------------------------------------------------
  // Reference: each artifact computed directly from the path

  function LoadImage(e: Toolkit, path: string): Result<Image> {
    var raw :- e.decode(path);
    Ok(ReverseChannels(raw))
  }

  function PeriMask(e: Toolkit, wound: Plane, body: Plane): Result<Plane> {
    var band :- e.perilesion(wound, PeriKernel);
    var union :- OrPlane(body, wound);
    var filled :- e.imfill(union);
    MaskPlane(band, filled)
  }

  datatype Artifacts = Artifacts(
    image: Image, segmentation: Image, masks: Planes, woundMasked: Image,
    periWoundMask: Plane, periWoundMasked: Image, predicted: real, clinical: real)

  /** All artifacts of the image at `path`, without memoisation, in the order
      `process()` computes them. */
  function Derive(e: Toolkit, path: string): Result<Artifacts> {
    var image :- LoadImage(e, path);
    var segmentation :- e.segment(image, Tolerance);
    var masks :- Split(segmentation);
    var woundMasked :- MaskImage(image, masks.wound);
    var peri :- PeriMask(e, masks.wound, masks.body);
    var periMasked :- MaskImage(image, peri);
    var predicted :- e.score(ScoreKernel, image, segmentation);
    Ok(Artifacts(image, segmentation, masks, woundMasked, peri, periMasked, predicted, ClinicalPlaceholder))
  }

  /** `a`'s error if it failed, otherwise `b`. */
  function Then<T>(a: Result<T>, b: Result<()>): (r: Result<()>)
    ensures a.Err? ==> r == Err(a.error)
    ensures a.Ok? ==> r == b
  {
    if a.Err? then Err(a.error) else b
  }

  // ---------------------------------------------------------------------
  // Reference values of single artifacts

  function RefSegmentation(e: Toolkit, path: string): Result<Image> {
    var image :- LoadImage(e, path);
    e.segment(image, Tolerance)
  }

  function RefMasks(e: Toolkit, path: string): Result<Planes> {
    var segmentation :- RefSegmentation(e, path);
    Split(segmentation)
  }

  function RefWoundMask(e: Toolkit, path: string): Result<Plane> {
    var masks :- RefMasks(e, path);
    Ok(masks.wound)
  }

  function RefBodyMask(e: Toolkit, path: string): Result<Plane> {
    var masks :- RefMasks(e, path);
    Ok(masks.body)
  }

  function RefBgMask(e: Toolkit, path: string): Result<Plane> {
    var masks :- RefMasks(e, path);
    Ok(masks.background)
  }

  function RefWoundMasked(e: Toolkit, path: string): Result<Image> {
    var image :- LoadImage(e, path);
    var masks :- RefMasks(e, path);
    MaskImage(image, masks.wound)
  }

  function RefPeriWoundMask(e: Toolkit, path: string): Result<Plane> {
    var masks :- RefMasks(e, path);
    PeriMask(e, masks.wound, masks.body)
  }

  function RefPeriWoundMasked(e: Toolkit, path: string): Result<Image> {
    var image :- LoadImage(e, path);
    var peri :- RefPeriWoundMask(e, path);
    MaskImage(image, peri)
  }

  function RefPredicted(e: Toolkit, path: string): Result<real> {
    var image :- LoadImage(e, path);
    var segmentation :- RefSegmentation(e, path);
    e.score(ScoreKernel, image, segmentation)
  }

  /** Computing all artifacts at once fails exactly where computing them one
      by one, in `process()` order, first fails; and on success they agree. */
  lemma {:induction false} DeriveByRefs(e: Toolkit, p: string)
    ensures var steps := Then(LoadImage(e, p), Then(RefSegmentation(e, p), Then(RefMasks(e, p),
              Then(RefWoundMasked(e, p), Then(RefPeriWoundMask(e, p),
              Then(RefPeriWoundMasked(e, p), Then(RefPredicted(e, p), Ok(()))))))));
            && (Derive(e, p).Ok? <==> steps.Ok?)
            && (Derive(e, p).Err? ==> steps == Err(Derive(e, p).error))
    ensures Derive(e, p).Ok? ==>
              var d := Derive(e, p).value;
              && LoadImage(e, p) == Ok(d.image) && RefSegmentation(e, p) == Ok(d.segmentation)
              && RefMasks(e, p) == Ok(d.masks) && RefWoundMask(e, p) == Ok(d.masks.wound)
              && RefBodyMask(e, p) == Ok(d.masks.body) && RefBgMask(e, p) == Ok(d.masks.background)
              && RefWoundMasked(e, p) == Ok(d.woundMasked) && RefPeriWoundMask(e, p) == Ok(d.periWoundMask)
              && RefPeriWoundMasked(e, p) == Ok(d.periWoundMasked) && RefPredicted(e, p) == Ok(d.predicted)
              && d.clinical == ClinicalPlaceholder
  {
  }


  // ---------------------------------------------------------------------
  // Slots and their dependencies

  /** The ten attributes `WoundImage` computes lazily. */
  datatype Slot =
    | ImageSlot | SegmentationSlot | WoundMaskSlot | BodyMaskSlot | BgMaskSlot
    | WoundMaskedSlot | PeriWoundMaskSlot | PeriWoundMaskedSlot | PredictedSlot | ClinicalSlot

  const AllSlots: set<Slot> :=
    {ImageSlot, SegmentationSlot, WoundMaskSlot, BodyMaskSlot, BgMaskSlot,
     WoundMaskedSlot, PeriWoundMaskSlot, PeriWoundMaskedSlot, PredictedSlot, ClinicalSlot}

  /** The three slots one split fills at once. */
  const MaskGroup: set<Slot> := {WoundMaskSlot, BodyMaskSlot, BgMaskSlot}

  predicate IsMask(k: Slot) {
    k.WoundMaskSlot? || k.BodyMaskSlot? || k.BgMaskSlot?
  }

  /** Whether the attribute behind slot `k` holds a value. */
  predicate Filled(w: WoundImage, k: Slot) {
    match k
    case ImageSlot => w.image.Some?
    case SegmentationSlot => w.segmentation.Some?
    case WoundMaskSlot => w.woundMask.Some?
    case BodyMaskSlot => w.bodyMask.Some?
    case BgMaskSlot => w.bgMask.Some?
    case WoundMaskedSlot => w.woundMasked.Some?
    case PeriWoundMaskSlot => w.periWoundMask.Some?
    case PeriWoundMaskedSlot => w.periWoundMasked.Some?
    case PredictedSlot => w.predictedPwat.Some?
    case ClinicalSlot => w.clinicalPwat.Some?
  }

  /** Every slot holds a value. */
  predicate Complete(w: WoundImage) {
    forall k: Slot :: Filled(w, k)
  }

  /** The slots of `w` that hold a value. */
  function Resolved(w: WoundImage): set<Slot> {
    set k: Slot | Filled(w, k)
  }

  /** `j` is filled whenever `k` is resolved: `k` itself, the slots filled
      together with it, and, transitively, the slots its update reads. */
  predicate Below(j: Slot, k: Slot) {
    match k
    case ImageSlot => j.ImageSlot?
    case SegmentationSlot => j.ImageSlot? || j.SegmentationSlot?
    case WoundMaskSlot => j.ImageSlot? || j.SegmentationSlot? || IsMask(j)
    case BodyMaskSlot => j.ImageSlot? || j.SegmentationSlot? || IsMask(j)
    case BgMaskSlot => j.ImageSlot? || j.SegmentationSlot? || IsMask(j)
    case WoundMaskedSlot => j.ImageSlot? || j.SegmentationSlot? || IsMask(j) || j.WoundMaskedSlot?
    case PeriWoundMaskSlot => j.ImageSlot? || j.SegmentationSlot? || IsMask(j) || j.PeriWoundMaskSlot?
    case PeriWoundMaskedSlot =>
      j.ImageSlot? || j.SegmentationSlot? || IsMask(j) || j.PeriWoundMaskSlot? || j.PeriWoundMaskedSlot?
    case PredictedSlot => j.ImageSlot? || j.SegmentationSlot? || j.PredictedSlot?
    case ClinicalSlot => j.ClinicalSlot?
  }

  /** Everything resolving `k` fills. */
  function Closure(k: Slot): set<Slot> {
    set j: Slot | Below(j, k)
  }

  /** The slots one update fills. */
  function Group(k: Slot): set<Slot> {
    if IsMask(k) then MaskGroup else {k}
  }

  /** The slots whose getters the update of `k` calls. */
  function DirectDeps(k: Slot): set<Slot> {
    match k
    case ImageSlot => {}
    case SegmentationSlot => {ImageSlot}
    case WoundMaskSlot => {SegmentationSlot}
    case BodyMaskSlot => {SegmentationSlot}
    case BgMaskSlot => {SegmentationSlot}
    case WoundMaskedSlot => {ImageSlot, WoundMaskSlot}
    case PeriWoundMaskSlot => {WoundMaskSlot, BodyMaskSlot}
    case PeriWoundMaskedSlot => {ImageSlot, PeriWoundMaskSlot}
    case PredictedSlot => {ImageSlot, SegmentationSlot}
    case ClinicalSlot => {}
  }

  /** `Closure(k)` is the least set holding the group of `k` and closed under
      groups and direct dependencies. */
  lemma ClosureIsLeastClosed(k: Slot, s: set<Slot>)
    ensures Group(k) <= Closure(k)
    ensures forall d | d in Closure(k) :: Group(d) <= Closure(k) && DirectDeps(d) <= Closure(k)
    ensures Group(k) <= s && (forall d | d in s :: Group(d) <= s && DirectDeps(d) <= s) ==> Closure(k) <= s
  {
    if Group(k) <= s && (forall d | d in s :: Group(d) <= s && DirectDeps(d) <= s) {
      match k
      case PeriWoundMaskedSlot =>
        assert DirectDeps(PeriWoundMaskedSlot) <= s;
        assert DirectDeps(PeriWoundMaskSlot) <= s;
        assert DirectDeps(WoundMaskSlot) <= s;
      case WoundMaskedSlot =>
        assert DirectDeps(WoundMaskSlot) <= s;
      case PeriWoundMaskSlot =>
        assert DirectDeps(WoundMaskSlot) <= s;
      case _ =>
    }
  }

  // ---------------------------------------------------------------------
  // Invariants

  /** Filled slots come with everything below them. */
  predicate Closed(w: WoundImage) {
    forall k: Slot, j: Slot | Filled(w, k) && Below(j, k) :: Filled(w, j)
  }

  /** Slot `k` of `w`, if filled, holds the value computed from scratch for
      the image path. */
  predicate Agrees(e: Toolkit, w: WoundImage, k: Slot) {
    var p := w.imagePath;
    match k
    case ImageSlot => w.image.Some? ==> LoadImage(e, p) == Ok(w.image.value)
    case SegmentationSlot => w.segmentation.Some? ==> RefSegmentation(e, p) == Ok(w.segmentation.value)
    case WoundMaskSlot => w.woundMask.Some? ==> RefWoundMask(e, p) == Ok(w.woundMask.value)
    case BodyMaskSlot => w.bodyMask.Some? ==> RefBodyMask(e, p) == Ok(w.bodyMask.value)
    case BgMaskSlot => w.bgMask.Some? ==> RefBgMask(e, p) == Ok(w.bgMask.value)
    case WoundMaskedSlot => w.woundMasked.Some? ==> RefWoundMasked(e, p) == Ok(w.woundMasked.value)
    case PeriWoundMaskSlot => w.periWoundMask.Some? ==> RefPeriWoundMask(e, p) == Ok(w.periWoundMask.value)
    case PeriWoundMaskedSlot => w.periWoundMasked.Some? ==> RefPeriWoundMasked(e, p) == Ok(w.periWoundMasked.value)
    case PredictedSlot => w.predictedPwat.Some? ==> RefPredicted(e, p) == Ok(w.predictedPwat.value)
    case ClinicalSlot => w.clinicalPwat.Some? ==> w.clinicalPwat.value == ClinicalPlaceholder
  }

  predicate Faithful(e: Toolkit, w: WoundImage) {
    forall k: Slot :: Agrees(e, w, k)
  }

  /** The invariant every reachable record keeps. */
  predicate Consistent(e: Toolkit, w: WoundImage) {
    Closed(w) && Faithful(e, w)
  }

  /** Slot `k` of `w2` holds what it held in `w1`, if it held anything. */
  predicate Keeps(w1: WoundImage, w2: WoundImage, k: Slot) {
    match k
    case ImageSlot => w1.image.Some? ==> w2.image == w1.image
    case SegmentationSlot => w1.segmentation.Some? ==> w2.segmentation == w1.segmentation
    case WoundMaskSlot => w1.woundMask.Some? ==> w2.woundMask == w1.woundMask
    case BodyMaskSlot => w1.bodyMask.Some? ==> w2.bodyMask == w1.bodyMask
    case BgMaskSlot => w1.bgMask.Some? ==> w2.bgMask == w1.bgMask
    case WoundMaskedSlot => w1.woundMasked.Some? ==> w2.woundMasked == w1.woundMasked
    case PeriWoundMaskSlot => w1.periWoundMask.Some? ==> w2.periWoundMask == w1.periWoundMask
    case PeriWoundMaskedSlot => w1.periWoundMasked.Some? ==> w2.periWoundMasked == w1.periWoundMasked
    case PredictedSlot => w1.predictedPwat.Some? ==> w2.predictedPwat == w1.predictedPwat
    case ClinicalSlot => w1.clinicalPwat.Some? ==> w2.clinicalPwat == w1.clinicalPwat
  }

  /** `w2` keeps the path, the flag and every slot `w1` had filled. */
  predicate Extends(w1: WoundImage, w2: WoundImage) {
    && w2.imagePath == w1.imagePath && w2.logging == w1.logging
    && forall k: Slot :: Keeps(w1, w2, k)
  }

  /** Every slot not below `k` is filled exactly when it was before. */
  predicate Untouched(w: WoundImage, w2: WoundImage, k: Slot) {
    forall j: Slot | !Below(j, k) :: Filled(w2, j) == Filled(w, j)
  }

  // ---------------------------------------------------------------------
  // Engine calls

  predicate AtMost(a: Calls, b: Calls) {
    && a.decode <= b.decode && a.segment <= b.segment && a.split <= b.split
    && a.perilesion <= b.perilesion && a.imfill <= b.imfill && a.score <= b.score
  }

  /** The engine calls the update of `k` makes itself: a decode for the
      image, a segmentation, one split for the whole mask group, a
      perilesion band and a hole filling for the peri-wound mask, a score
      for the predicted PWAT; the maskings and the clinical PWAT call no
      engine. */
  function Unit(k: Slot): Calls {
    match k
    case ImageSlot => Calls(1, 0, 0, 0, 0, 0)
    case SegmentationSlot => Calls(0, 1, 0, 0, 0, 0)
    case WoundMaskSlot => Calls(0, 0, 1, 0, 0, 0)
    case BodyMaskSlot => Calls(0, 0, 1, 0, 0, 0)
    case BgMaskSlot => Calls(0, 0, 1, 0, 0, 0)
    case PeriWoundMaskSlot => Calls(0, 0, 0, 1, 1, 0)
    case PredictedSlot => Calls(0, 0, 0, 0, 0, 1)
    case _ => NoCalls
  }

  function Bit(b: bool): nat {
    if b then 1 else 0
  }

  /** The engine calls the filled slots of `w` account for: the `Unit` of
      every filled update group. */
  function Work(w: WoundImage): Calls {
    Calls(Bit(Filled(w, ImageSlot)), Bit(Filled(w, SegmentationSlot)), Bit(Filled(w, WoundMaskSlot)),
          Bit(Filled(w, PeriWoundMaskSlot)), Bit(Filled(w, PeriWoundMaskSlot)), Bit(Filled(w, PredictedSlot)))
  }

  /** The engine calls from `w` to `w2` are exactly the work of the slots
      filled in between, plus `extra`. */
  predicate Paid(w: WoundImage, w2: WoundImage, extra: Calls) {
    Plus(w2.calls, Work(w)) == Plus(Plus(w.calls, Work(w2)), extra)
  }

  /** What an update spends recomputing its slot when it was filled already. */
  function Redo(w: WoundImage, k: Slot): Calls {
    if Filled(w, k) then Unit(k) else NoCalls
  }

  /** The law of every getter and update computing slot `k`, from a
      consistent record: the record it leaves is consistent, keeps every
      filled slot, changes no slot outside `Closure(k)`, and no counter goes
      down; it returns `ref`, the value or the very error a computation from
      scratch gives; and on success every engine call it made filled a slot,
      apart from `extra`. */
  predicate Law<T(==)>(e: Toolkit, w: WoundImage, s: Step<T>, k: Slot, ref: Result<T>, extra: Calls) {
    && Consistent(e, s.w) && Extends(w, s.w) && Untouched(w, s.w, k)
    && AtMost(w.calls, s.w.calls) && s.out == ref
    && (s.out.Ok? ==> Paid(w, s.w, extra))
  }

  /** Slot `k` holds the same in both records. */
  predicate SameAt(w1: WoundImage, w2: WoundImage, k: Slot) {
    match k
    case ImageSlot => w2.image == w1.image
    case SegmentationSlot => w2.segmentation == w1.segmentation
    case WoundMaskSlot => w2.woundMask == w1.woundMask
    case BodyMaskSlot => w2.bodyMask == w1.bodyMask
    case BgMaskSlot => w2.bgMask == w1.bgMask
    case WoundMaskedSlot => w2.woundMasked == w1.woundMasked
    case PeriWoundMaskSlot => w2.periWoundMask == w1.periWoundMask
    case PeriWoundMaskedSlot => w2.periWoundMasked == w1.periWoundMasked
    case PredictedSlot => w2.predictedPwat == w1.predictedPwat
    case ClinicalSlot => w2.clinicalPwat == w1.clinicalPwat
  }

  /** `j` is filled by the same update as `k`. */
  predicate SameGroup(j: Slot, k: Slot) {
    if IsMask(k) then IsMask(j) else j == k
  }

  /** The slot whose filling makes the update of `k` ready to store: the
      slots below it hold the inputs the update read. */
  predicate Ready(w: WoundImage, k: Slot) {
    match k
    case ImageSlot => true
    case SegmentationSlot => w.image.Some?
    case WoundMaskSlot => w.segmentation.Some?
    case BodyMaskSlot => w.segmentation.Some?
    case BgMaskSlot => w.segmentation.Some?
    case WoundMaskedSlot => w.woundMask.Some?
    case PeriWoundMaskSlot => w.woundMask.Some?
    case PeriWoundMaskedSlot => w.periWoundMask.Some?
    case PredictedSlot => w.segmentation.Some?
    case ClinicalSlot => true
  }

  /** Storing the reference values of one update group in a consistent
      record whose slots below that group are filled keeps it consistent,
      and it extends the record. */
  lemma {:induction false} Fill(e: Toolkit, w: WoundImage, w2: WoundImage, k: Slot)
    requires Consistent(e, w) && w2.imagePath == w.imagePath && w2.logging == w.logging
    requires forall j: Slot | !SameGroup(j, k) :: SameAt(w, w2, j)
    requires forall j: Slot | SameGroup(j, k) :: Filled(w2, j) && Agrees(e, w2, j)
    requires Ready(w, k) && w2.calls == Plus(w.calls, Unit(k))
    ensures Consistent(e, w2) && Extends(w, w2) && Untouched(w, w2, k)
  {
    forall j: Slot | Below(j, k) && !SameGroup(j, k)
      ensures Filled(w, j)
    {
      match k
      case WoundMaskedSlot => assert Filled(w, WoundMaskSlot) && Below(j, WoundMaskSlot);
      case PeriWoundMaskSlot => assert Filled(w, WoundMaskSlot) && Below(j, WoundMaskSlot);
      case PeriWoundMaskedSlot => assert Filled(w, PeriWoundMaskSlot) && Below(j, PeriWoundMaskSlot);
      case PredictedSlot => assert Filled(w, SegmentationSlot) && Below(j, SegmentationSlot);
      case WoundMaskSlot => assert Filled(w, SegmentationSlot) && Below(j, SegmentationSlot);
      case BodyMaskSlot => assert Filled(w, SegmentationSlot) && Below(j, SegmentationSlot);
      case BgMaskSlot => assert Filled(w, SegmentationSlot) && Below(j, SegmentationSlot);
      case _ =>
    }
    forall j: Slot
      ensures Agrees(e, w2, j) && Keeps(w, w2, j)
      ensures !Below(j, k) ==> Filled(w2, j) == Filled(w, j)
    {
      assert Agrees(e, w, j);
      if SameGroup(j, k) {
        assert Agrees(e, w2, j);
      } else {
        assert SameAt(w, w2, j);
      }
    }
    forall i: Slot, j: Slot | Filled(w2, i) && Below(j, i)
      ensures Filled(w2, j)
    {
      if SameGroup(i, k) {
        assert Below(j, k);
      } else {
        assert SameAt(w, w2, i) && SameAt(w, w2, j);
      }
    }
  }

  /** Filling the group of `k` at the cost of one `Unit(k)` pays for it,
      except when it was filled already. */
  lemma {:induction false} FillPaid(w: WoundImage, w2: WoundImage, k: Slot)
    requires forall j: Slot | !SameGroup(j, k) :: SameAt(w, w2, j)
    requires forall j: Slot | SameGroup(j, k) :: Filled(w2, j)
    requires IsMask(k) ==> (Filled(w, k) <==> Filled(w, WoundMaskSlot))
    requires w2.calls == Plus(w.calls, Unit(k))
    ensures Paid(w, w2, Redo(w, k))
  {
    assert SameGroup(k, k);
    var a := Work(w);
    if k.ImageSlot? {
      assert SameAt(w, w2, SegmentationSlot) && SameAt(w, w2, WoundMaskSlot);
      assert SameAt(w, w2, PeriWoundMaskSlot) && SameAt(w, w2, PredictedSlot);
      assert Work(w2) == a.(decode := 1);
    } else if k.SegmentationSlot? {
      assert SameAt(w, w2, ImageSlot) && SameAt(w, w2, WoundMaskSlot);
      assert SameAt(w, w2, PeriWoundMaskSlot) && SameAt(w, w2, PredictedSlot);
      assert Work(w2) == a.(segment := 1);
    } else if IsMask(k) {
      assert SameGroup(WoundMaskSlot, k);
      assert SameAt(w, w2, ImageSlot) && SameAt(w, w2, SegmentationSlot);
      assert SameAt(w, w2, PeriWoundMaskSlot) && SameAt(w, w2, PredictedSlot);
      assert Work(w2) == a.(split := 1);
    } else if k.PeriWoundMaskSlot? {
      assert SameAt(w, w2, ImageSlot) && SameAt(w, w2, SegmentationSlot);
      assert SameAt(w, w2, WoundMaskSlot) && SameAt(w, w2, PredictedSlot);
      assert Work(w2) == a.(perilesion := 1, imfill := 1);
    } else if k.PredictedSlot? {
      assert SameAt(w, w2, ImageSlot) && SameAt(w, w2, SegmentationSlot);
      assert SameAt(w, w2, WoundMaskSlot) && SameAt(w, w2, PeriWoundMaskSlot);
      assert Work(w2) == a.(score := 1);
    } else {
      assert SameAt(w, w2, ImageSlot) && SameAt(w, w2, SegmentationSlot) && SameAt(w, w2, WoundMaskSlot);
      assert SameAt(w, w2, PeriWoundMaskSlot) && SameAt(w, w2, PredictedSlot);
      assert Work(w2) == a;
    }
  }

  /** Payments add up along a sequence of calls. */
  lemma {:induction false} PaidTrans(w1: WoundImage, w2: WoundImage, w3: WoundImage, y: Calls)
    requires Paid(w1, w2, NoCalls) && Paid(w2, w3, y)
    ensures Paid(w1, w3, y)
  {
    var a, b, c := Work(w1), Work(w2), Work(w3);
    assert Plus(w2.calls, a) == Plus(Plus(w1.calls, b), NoCalls);
    assert Plus(w3.calls, b) == Plus(Plus(w2.calls, c), y);
  }

  /** `k1` resolves nothing that `k` does not. */
  predicate Within(k1: Slot, k: Slot) {
    forall j: Slot | Below(j, k1) :: Below(j, k)
  }

  /** Two calls in a row: the laws compose. */
  lemma {:induction false} Chain(w1: WoundImage, w2: WoundImage, w3: WoundImage, k1: Slot, k2: Slot, k: Slot)
    requires Extends(w1, w2) && Untouched(w1, w2, k1) && Within(k1, k)
    requires Extends(w2, w3) && Untouched(w2, w3, k2) && Within(k2, k)
    ensures Extends(w1, w3) && Untouched(w1, w3, k)
  {
    forall j: Slot
      ensures Keeps(w1, w3, j)
    {
      assert Keeps(w1, w2, j) && Keeps(w2, w3, j);
    }
    forall j: Slot | !Below(j, k)
      ensures Filled(w3, j) == Filled(w1, j)
    {
      assert !Below(j, k1) && !Below(j, k2);
    }
  }

  /** A successful call that filled the slots below `k0`, followed by
      storing the reference values of `k`'s group: the law of an update of
      `k`. */
  lemma {:induction false} Store(e: Toolkit, w: WoundImage, mid: WoundImage, w2: WoundImage, k0: Slot, k: Slot)
    requires Extends(w, mid) && Untouched(w, mid, k0) && AtMost(w.calls, mid.calls) && Paid(w, mid, NoCalls)
    requires Within(k0, k) && !Below(k, k0)
    requires Consistent(e, mid) && w2.imagePath == mid.imagePath && w2.logging == mid.logging
    requires forall j: Slot | !SameGroup(j, k) :: SameAt(mid, w2, j)
    requires forall j: Slot | SameGroup(j, k) :: Filled(w2, j) && Agrees(e, w2, j)
    requires Ready(mid, k) && w2.calls == Plus(mid.calls, Unit(k))
    ensures Consistent(e, w2) && Extends(w, w2) && Untouched(w, w2, k)
    ensures AtMost(w.calls, w2.calls) && Paid(w, w2, Redo(w, k))
  {
    Fill(e, mid, w2, k);
    assert IsMask(k) ==> Below(WoundMaskSlot, k) && Below(k, WoundMaskSlot);
    FillPaid(mid, w2, k);
    Chain(w, mid, w2, k0, k, k);
    assert Filled(mid, k) == Filled(w, k);
    assert Redo(mid, k) == Redo(w, k);
    PaidTrans(w, mid, w2, Redo(w, k));
  }

  /** Extension is transitive. */
  lemma {:induction false} ExtendsTrans(w1: WoundImage, w2: WoundImage, w3: WoundImage)
    requires Extends(w1, w2) && Extends(w2, w3)
    ensures Extends(w1, w3)
  {
    forall j: Slot
      ensures Keeps(w1, w3, j)
    {
      assert Keeps(w1, w2, j) && Keeps(w2, w3, j);
    }
  }

  /** An update whose inputs were already filled costs exactly its own
      engine calls. */
  lemma {:induction false} Exact(w: WoundImage, w2: WoundImage, k: Slot)
    requires Closed(w) && Ready(w, k)
    requires Closed(w2) && Extends(w, w2) && Untouched(w, w2, k) && Paid(w, w2, Redo(w, k)) && Filled(w2, k)
    ensures w2.calls == Plus(w.calls, Unit(k))
  {
    if Filled(w, k) {
      ExactRedo(w, w2, k);
    } else {
      ExactFresh(w, w2, k);
    }
  }

  /** `Exact` when the slot was filled already: no slot changes its state,
      so the calls are the recomputation alone. */
  lemma {:induction false} ExactRedo(w: WoundImage, w2: WoundImage, k: Slot)
    requires Closed(w) && Ready(w, k) && Filled(w, k)
    requires Extends(w, w2) && Untouched(w, w2, k) && Paid(w, w2, Unit(k))
    ensures w2.calls == Plus(w.calls, Unit(k))
  {
    forall j: Slot
      ensures Filled(w2, j) == Filled(w, j)
    {
      if Below(j, k) {
        assert Filled(w, j) && Keeps(w, w2, j);
      }
    }
    assert Work(w2) == Work(w);
  }

  /** `Exact` when the slot was unresolved: the work grows by the slot's own
      calls. */
  lemma {:induction false} ExactFresh(w: WoundImage, w2: WoundImage, k: Slot)
    requires Closed(w) && Ready(w, k) && !Filled(w, k)
    requires Closed(w2) && Extends(w, w2) && Untouched(w, w2, k) && Paid(w, w2, NoCalls) && Filled(w2, k)
    ensures w2.calls == Plus(w.calls, Unit(k))
  {
    assert SameGroup(k, k);
  }

  /** A closed record whose four topmost slots are filled has all slots
      filled. */
  lemma {:induction false} AllFilled(w: WoundImage)
    requires Closed(w)
    requires Filled(w, WoundMaskedSlot) && Filled(w, PeriWoundMaskedSlot)
    requires Filled(w, PredictedSlot) && Filled(w, ClinicalSlot)
    ensures forall k: Slot :: Filled(w, k)
  {
    forall k: Slot
      ensures Filled(w, k)
    {
      if Below(k, PeriWoundMaskedSlot) {
        assert Filled(w, PeriWoundMaskedSlot);
      } else {
        assert k.WoundMaskedSlot? || k.PredictedSlot? || k.ClinicalSlot?;
      }
    }
  }

  /** A call that changes fewer slots changes no slot outside a larger
      closure either. */
  lemma {:induction false} Widen(w1: WoundImage, w2: WoundImage, k1: Slot, k: Slot)
    requires Untouched(w1, w2, k1) && Within(k1, k)
    ensures Untouched(w1, w2, k)
  {
    forall j: Slot | !Below(j, k)
      ensures Filled(w2, j) == Filled(w1, j)
    {
      assert !Below(j, k1);
    }
  }

  /** Counting engine calls changes no slot. */
  lemma {:induction false} Recount(e: Toolkit, w: WoundImage, c: Calls, k: Slot)
    requires Consistent(e, w)
    ensures Consistent(e, w.(calls := c)) && Extends(w, w.(calls := c)) && Untouched(w, w.(calls := c), k)
  {
    var w1 := w.(calls := c);
    forall j: Slot
      ensures Agrees(e, w1, j) && Keeps(w, w1, j) && Filled(w1, j) == Filled(w, j)
    {
      assert Agrees(e, w, j);
    }
  }

  // ---------------------------------------------------------------------
  // Getters and updates, in the source's call order

  method UpdateImage(e: Toolkit, w: WoundImage) returns (s: Step<Image>)
    requires Consistent(e, w)
    ensures Law(e, w, s, ImageSlot, LoadImage(e, w.imagePath), Redo(w, ImageSlot))
    ensures s.out.Ok? ==> s.w.image == Some(s.out.value)
  {
    var w1 := w.(calls := w.calls.(decode := w.calls.decode + 1));
    var raw := e.decode(w.imagePath);
    if raw.Err? {
      Recount(e, w, w1.calls, ImageSlot);
      return Step(w1, Err(raw.error));
    }
    var img := ReverseChannels(raw.value);
    var w2 := w1.(image := Some(img));
    Fill(e, w, w2, ImageSlot);
    FillPaid(w, w2, ImageSlot);
    return Step(w2, Ok(img));
  }

  method GetImage(e: Toolkit, w: WoundImage) returns (s: Step<Image>)
    requires Consistent(e, w)
    ensures Law(e, w, s, ImageSlot, LoadImage(e, w.imagePath), NoCalls)
    ensures s.out.Ok? ==> s.w.image == Some(s.out.value)
    ensures w.image.Some? ==> s.w == w
  {
    if w.image.Some? {
      assert Agrees(e, w, ImageSlot);
      return Step(w, Ok(w.image.value));
    }
    s := UpdateImage(e, w);
  }

  method UpdateSegmentation(e: Toolkit, w: WoundImage) returns (s: Step<Image>)
    requires Consistent(e, w)
    ensures Law(e, w, s, SegmentationSlot, RefSegmentation(e, w.imagePath), Redo(w, SegmentationSlot))
    ensures s.out.Ok? ==> s.w.segmentation == Some(s.out.value)
  {
    var s1 := GetImage(e, w);
    Widen(w, s1.w, ImageSlot, SegmentationSlot);
    if s1.out.Err? {
      return Step(s1.w, Err(s1.out.error));
    }
    var w1 := s1.w.(calls := s1.w.calls.(segment := s1.w.calls.segment + 1));
    var seg := e.segment(s1.out.value, Tolerance);
    if seg.Err? {
      Recount(e, s1.w, w1.calls, SegmentationSlot);
      Chain(w, s1.w, w1, SegmentationSlot, SegmentationSlot, SegmentationSlot);
      return Step(w1, Err(seg.error));
    }
    var w2 := w1.(segmentation := Some(seg.value));
    Store(e, w, s1.w, w2, ImageSlot, SegmentationSlot);
    return Step(w2, Ok(seg.value));
  }

  method GetSegmentation(e: Toolkit, w: WoundImage) returns (s: Step<Image>)
    requires Consistent(e, w)
    ensures Law(e, w, s, SegmentationSlot, RefSegmentation(e, w.imagePath), NoCalls)
    ensures s.out.Ok? ==> s.w.segmentation == Some(s.out.value)
    ensures w.segmentation.Some? ==> s.w == w
  {
    if w.segmentation.Some? {
      assert Agrees(e, w, SegmentationSlot);
      return Step(w, Ok(w.segmentation.value));
    }
    s := UpdateSegmentation(e, w);
  }

  /** One split fills all three mask slots at once. */
  method UpdateMasks(e: Toolkit, w: WoundImage) returns (s: Step<Planes>)
    requires Consistent(e, w)
    ensures Law(e, w, s, WoundMaskSlot, RefMasks(e, w.imagePath), Redo(w, WoundMaskSlot))
    ensures s.out.Ok? ==> && s.w.woundMask == Some(s.out.value.wound)
                          && s.w.bodyMask == Some(s.out.value.body)
                          && s.w.bgMask == Some(s.out.value.background)
  {
    var s1 := GetSegmentation(e, w);
    Widen(w, s1.w, SegmentationSlot, WoundMaskSlot);
    if s1.out.Err? {
      return Step(s1.w, Err(s1.out.error));
    }
    var w1 := s1.w.(calls := s1.w.calls.(split := s1.w.calls.split + 1));
    var planes := Split(s1.out.value);
    if planes.Err? {
      Recount(e, s1.w, w1.calls, WoundMaskSlot);
      Chain(w, s1.w, w1, WoundMaskSlot, WoundMaskSlot, WoundMaskSlot);
      return Step(w1, Err(planes.error));
    }
    var p := planes.value;
    var w2 := w1.(woundMask := Some(p.wound), bodyMask := Some(p.body), bgMask := Some(p.background));
    assert Agrees(e, s1.w, SegmentationSlot) && Agrees(e, s1.w, ImageSlot);
    Store(e, w, s1.w, w2, SegmentationSlot, WoundMaskSlot);
    return Step(w2, Ok(p));
  }

  method GetWoundMask(e: Toolkit, w: WoundImage) returns (s: Step<Plane>)
    requires Consistent(e, w)
    ensures Law(e, w, s, WoundMaskSlot, RefWoundMask(e, w.imagePath), NoCalls)
    ensures s.out.Ok? ==> s.w.woundMask == Some(s.out.value)
    ensures w.woundMask.Some? ==> s.w == w
  {
    if w.woundMask.Some? {
      assert Agrees(e, w, WoundMaskSlot);
      return Step(w, Ok(w.woundMask.value));
    }
    var m := UpdateMasks(e, w);
    if m.out.Err? {
      return Step(m.w, Err(m.out.error));
    }
    return Step(m.w, Ok(m.out.value.wound));
  }

  method GetBodyMask(e: Toolkit, w: WoundImage) returns (s: Step<Plane>)
    requires Consistent(e, w)
    ensures Law(e, w, s, BodyMaskSlot, RefBodyMask(e, w.imagePath), NoCalls)
    ensures s.out.Ok? ==> s.w.bodyMask == Some(s.out.value)
    ensures w.bodyMask.Some? ==> s.w == w
  {
    if w.bodyMask.Some? {
      assert Agrees(e, w, BodyMaskSlot);
      return Step(w, Ok(w.bodyMask.value));
    }
    assert Below(BodyMaskSlot, WoundMaskSlot);
    var m := UpdateMasks(e, w);
    Widen(w, m.w, WoundMaskSlot, BodyMaskSlot);
    if m.out.Err? {
      return Step(m.w, Err(m.out.error));
    }
    return Step(m.w, Ok(m.out.value.body));
  }

  method GetBgMask(e: Toolkit, w: WoundImage) returns (s: Step<Plane>)
    requires Consistent(e, w)
    ensures Law(e, w, s, BgMaskSlot, RefBgMask(e, w.imagePath), NoCalls)
    ensures s.out.Ok? ==> s.w.bgMask == Some(s.out.value)
    ensures w.bgMask.Some? ==> s.w == w
  {
    if w.bgMask.Some? {
      assert Agrees(e, w, BgMaskSlot);
      return Step(w, Ok(w.bgMask.value));
    }
    assert Below(BgMaskSlot, WoundMaskSlot);
    var m := UpdateMasks(e, w);
    Widen(w, m.w, WoundMaskSlot, BgMaskSlot);
    if m.out.Err? {
      return Step(m.w, Err(m.out.error));
    }
    return Step(m.w, Ok(m.out.value.background));
  }

  /** `bitwise_and(img, img, mask=wound_mask)`: the image first, then the
      mask. */
  method UpdateWoundMasked(e: Toolkit, w: WoundImage) returns (s: Step<Image>)
    requires Consistent(e, w)
    ensures Law(e, w, s, WoundMaskedSlot, RefWoundMasked(e, w.imagePath), Redo(w, WoundMaskedSlot))
    ensures s.out.Ok? ==> s.w.woundMasked == Some(s.out.value)
  {
    var s1 := GetImage(e, w);
    if s1.out.Err? {
      Widen(w, s1.w, ImageSlot, WoundMaskedSlot);
      return Step(s1.w, Err(s1.out.error));
    }
    assert Redo(s1.w, WoundMaskedSlot) == Redo(w, WoundMaskedSlot);
    s := WoundMaskedFrom(e, s1.w, s1.out.value);
    Chain(w, s1.w, s.w, ImageSlot, WoundMaskedSlot, WoundMaskedSlot);
    if s.out.Ok? {
      PaidTrans(w, s1.w, s.w, Redo(w, WoundMaskedSlot));
    }
  }

  /** The rest of the wound masking once the image is known. */
  method WoundMaskedFrom(e: Toolkit, w: WoundImage, img: Image) returns (s: Step<Image>)
    requires Consistent(e, w) && w.image == Some(img)
    ensures Law(e, w, s, WoundMaskedSlot, RefWoundMasked(e, w.imagePath), Redo(w, WoundMaskedSlot))
    ensures s.out.Ok? ==> s.w.woundMasked == Some(s.out.value)
  {
    assert Agrees(e, w, ImageSlot);
    var s2 := GetWoundMask(e, w);
    Widen(w, s2.w, WoundMaskSlot, WoundMaskedSlot);
    if s2.out.Err? {
      return Step(s2.w, Err(s2.out.error));
    }
    var v := MaskImage(img, s2.out.value);
    if v.Err? {
      return Step(s2.w, Err(v.error));
    }
    var w3 := s2.w.(woundMasked := Some(v.value));
    Store(e, w, s2.w, w3, WoundMaskSlot, WoundMaskedSlot);
    return Step(w3, Ok(v.value));
  }

  method GetWoundMasked(e: Toolkit, w: WoundImage) returns (s: Step<Image>)
    requires Consistent(e, w)
    ensures Law(e, w, s, WoundMaskedSlot, RefWoundMasked(e, w.imagePath), NoCalls)
    ensures s.out.Ok? ==> s.w.woundMasked == Some(s.out.value)
    ensures w.woundMasked.Some? ==> s.w == w
  {
    if w.woundMasked.Some? {
      assert Agrees(e, w, WoundMaskedSlot);
      return Step(w, Ok(w.woundMasked.value));
    }
    s := UpdateWoundMasked(e, w);
  }

  /** The wound mask, then the rest of the computation from it. */
  method UpdatePeriWoundMask(e: Toolkit, w: WoundImage) returns (s: Step<Plane>)
    requires Consistent(e, w)
    ensures Law(e, w, s, PeriWoundMaskSlot, RefPeriWoundMask(e, w.imagePath), Redo(w, PeriWoundMaskSlot))
    ensures s.out.Ok? ==> s.w.periWoundMask == Some(s.out.value)
  {
    var s1 := GetWoundMask(e, w);
    Widen(w, s1.w, WoundMaskSlot, PeriWoundMaskSlot);
    if s1.out.Err? {
      return Step(s1.w, Err(s1.out.error));
    }
    assert Filled(s1.w, PeriWoundMaskSlot) == Filled(w, PeriWoundMaskSlot);
    s := PeriFromWound(e, s1.w, s1.out.value);
    Chain(w, s1.w, s.w, PeriWoundMaskSlot, PeriWoundMaskSlot, PeriWoundMaskSlot);
  }

  /** The rest of the peri-wound update once the wound mask is known: the
      perilesion band around it, then the body mask, the union
      `body | wound`, its hole filling, and the band restricted to the filled
      union. */
  method PeriFromWound(e: Toolkit, w: WoundImage, wound: Plane) returns (s: Step<Plane>)
    requires Consistent(e, w) && w.woundMask == Some(wound)
    ensures Law(e, w, s, PeriWoundMaskSlot, RefPeriWoundMask(e, w.imagePath), Redo(w, PeriWoundMaskSlot))
    ensures s.out.Ok? ==> s.w.periWoundMask == Some(s.out.value)
  {
    var w1 := w.(calls := w.calls.(perilesion := w.calls.perilesion + 1));
    Recount(e, w, w1.calls, PeriWoundMaskSlot);
    assert Agrees(e, w, WoundMaskSlot) && Below(BodyMaskSlot, WoundMaskSlot);
    var band := e.perilesion(wound, PeriKernel);
    if band.Err? {
      return Step(w1, Err(band.error));
    }
    var s2 := GetBodyMask(e, w1);
    assert s2.w == w1;
    // body and wound come from one split, so they have the same size
    var union := OrPlane(s2.out.value, wound);
    assert union.Ok?;
    var w2 := w.(calls := w1.calls.(imfill := w1.calls.imfill + 1));
    Recount(e, w, w2.calls, PeriWoundMaskSlot);
    var filled := e.imfill(union.value);
    if filled.Err? {
      return Step(w2, Err(filled.error));
    }
    var v := MaskPlane(band.value, filled.value);
    if v.Err? {
      return Step(w2, Err(v.error));
    }
    var w3 := w2.(periWoundMask := Some(v.value));
    Fill(e, w, w3, PeriWoundMaskSlot);
    FillPaid(w, w3, PeriWoundMaskSlot);
    return Step(w3, Ok(v.value));
  }

  method GetPeriWoundMask(e: Toolkit, w: WoundImage) returns (s: Step<Plane>)
    requires Consistent(e, w)
    ensures Law(e, w, s, PeriWoundMaskSlot, RefPeriWoundMask(e, w.imagePath), NoCalls)
    ensures s.out.Ok? ==> s.w.periWoundMask == Some(s.out.value)
    ensures w.periWoundMask.Some? ==> s.w == w
  {
    if w.periWoundMask.Some? {
      assert Agrees(e, w, PeriWoundMaskSlot);
      return Step(w, Ok(w.periWoundMask.value));
    }
    s := UpdatePeriWoundMask(e, w);
  }

  method UpdatePeriWoundMasked(e: Toolkit, w: WoundImage) returns (s: Step<Image>)
    requires Consistent(e, w)
    ensures Law(e, w, s, PeriWoundMaskedSlot, RefPeriWoundMasked(e, w.imagePath), Redo(w, PeriWoundMaskedSlot))
    ensures s.out.Ok? ==> s.w.periWoundMasked == Some(s.out.value)
  {
    var s1 := GetImage(e, w);
    if s1.out.Err? {
      Widen(w, s1.w, ImageSlot, PeriWoundMaskedSlot);
      return Step(s1.w, Err(s1.out.error));
    }
    assert Redo(s1.w, PeriWoundMaskedSlot) == Redo(w, PeriWoundMaskedSlot);
    s := PeriWoundMaskedFrom(e, s1.w, s1.out.value);
    Chain(w, s1.w, s.w, ImageSlot, PeriWoundMaskedSlot, PeriWoundMaskedSlot);
    if s.out.Ok? {
      PaidTrans(w, s1.w, s.w, Redo(w, PeriWoundMaskedSlot));
    }
  }

  /** The rest of the peri-wound masking once the image is known. */
  method PeriWoundMaskedFrom(e: Toolkit, w: WoundImage, img: Image) returns (s: Step<Image>)
    requires Consistent(e, w) && w.image == Some(img)
    ensures Law(e, w, s, PeriWoundMaskedSlot, RefPeriWoundMasked(e, w.imagePath), Redo(w, PeriWoundMaskedSlot))
    ensures s.out.Ok? ==> s.w.periWoundMasked == Some(s.out.value)
  {
    assert Agrees(e, w, ImageSlot);
    var s2 := GetPeriWoundMask(e, w);
    Widen(w, s2.w, PeriWoundMaskSlot, PeriWoundMaskedSlot);
    if s2.out.Err? {
      return Step(s2.w, Err(s2.out.error));
    }
    var v := MaskImage(img, s2.out.value);
    if v.Err? {
      return Step(s2.w, Err(v.error));
    }
    var w3 := s2.w.(periWoundMasked := Some(v.value));
    Store(e, w, s2.w, w3, PeriWoundMaskSlot, PeriWoundMaskedSlot);
    return Step(w3, Ok(v.value));
  }

  method GetPeriWoundMasked(e: Toolkit, w: WoundImage) returns (s: Step<Image>)
    requires Consistent(e, w)
    ensures Law(e, w, s, PeriWoundMaskedSlot, RefPeriWoundMasked(e, w.imagePath), NoCalls)
    ensures s.out.Ok? ==> s.w.periWoundMasked == Some(s.out.value)
    ensures w.periWoundMasked.Some? ==> s.w == w
  {
    if w.periWoundMasked.Some? {
      assert Agrees(e, w, PeriWoundMaskedSlot);
      return Step(w, Ok(w.periWoundMasked.value));
    }
    s := UpdatePeriWoundMasked(e, w);
  }

  /** The keyword arguments are evaluated image first, segmentation second. */
  method UpdatePredictedPwat(e: Toolkit, w: WoundImage) returns (s: Step<real>)
    requires Consistent(e, w)
    ensures Law(e, w, s, PredictedSlot, RefPredicted(e, w.imagePath), Redo(w, PredictedSlot))
    ensures s.out.Ok? ==> s.w.predictedPwat == Some(s.out.value)
  {
    var s1 := GetImage(e, w);
    if s1.out.Err? {
      Widen(w, s1.w, ImageSlot, PredictedSlot);
      return Step(s1.w, Err(s1.out.error));
    }
    assert Redo(s1.w, PredictedSlot) == Redo(w, PredictedSlot);
    s := PredictedFrom(e, s1.w, s1.out.value);
    Chain(w, s1.w, s.w, ImageSlot, PredictedSlot, PredictedSlot);
    if s.out.Ok? {
      PaidTrans(w, s1.w, s.w, Redo(w, PredictedSlot));
    }
  }

  /** The rest of the PWAT prediction once the image is known. */
  method PredictedFrom(e: Toolkit, w: WoundImage, img: Image) returns (s: Step<real>)
    requires Consistent(e, w) && w.image == Some(img)
    ensures Law(e, w, s, PredictedSlot, RefPredicted(e, w.imagePath), Redo(w, PredictedSlot))
    ensures s.out.Ok? ==> s.w.predictedPwat == Some(s.out.value)
  {
    assert Agrees(e, w, ImageSlot);
    var s2 := GetSegmentation(e, w);
    Widen(w, s2.w, SegmentationSlot, PredictedSlot);
    if s2.out.Err? {
      return Step(s2.w, Err(s2.out.error));
    }
    var w1 := s2.w.(calls := s2.w.calls.(score := s2.w.calls.score + 1));
    var v := e.score(ScoreKernel, img, s2.out.value);
    if v.Err? {
      Recount(e, s2.w, w1.calls, PredictedSlot);
      Chain(w, s2.w, w1, PredictedSlot, PredictedSlot, PredictedSlot);
      return Step(w1, Err(v.error));
    }
    var w3 := w1.(predictedPwat := Some(v.value));
    Store(e, w, s2.w, w3, SegmentationSlot, PredictedSlot);
    return Step(w3, Ok(v.value));
  }

  method GetPredictedPwat(e: Toolkit, w: WoundImage) returns (s: Step<real>)
    requires Consistent(e, w)
    ensures Law(e, w, s, PredictedSlot, RefPredicted(e, w.imagePath), NoCalls)
    ensures s.out.Ok? ==> s.w.predictedPwat == Some(s.out.value)
    ensures w.predictedPwat.Some? ==> s.w == w
  {
    if w.predictedPwat.Some? {
      assert Agrees(e, w, PredictedSlot);
      return Step(w, Ok(w.predictedPwat.value));
    }
    s := UpdatePredictedPwat(e, w);
  }

  /** The clinical PWAT has no source yet: the placeholder, no engine. */
  method UpdateClinicalPwat(e: Toolkit, w: WoundImage) returns (s: Step<real>)
    requires Consistent(e, w)
    ensures Law(e, w, s, ClinicalSlot, Ok(ClinicalPlaceholder), NoCalls)
    ensures s.w.clinicalPwat == Some(ClinicalPlaceholder)
  {
    var w1 := w.(clinicalPwat := Some(ClinicalPlaceholder));
    Fill(e, w, w1, ClinicalSlot);
    FillPaid(w, w1, ClinicalSlot);
    return Step(w1, Ok(ClinicalPlaceholder));
  }

  method GetClinicalPwat(e: Toolkit, w: WoundImage) returns (s: Step<real>)
    requires Consistent(e, w)
    ensures Law(e, w, s, ClinicalSlot, Ok(ClinicalPlaceholder), NoCalls)
    ensures s.w.clinicalPwat == Some(ClinicalPlaceholder)
    ensures w.clinicalPwat.Some? ==> s.w == w
  {
    if w.clinicalPwat.Some? {
      assert Agrees(e, w, ClinicalSlot);
      return Step(w, Ok(w.clinicalPwat.value));
    }
    s := UpdateClinicalPwat(e, w);
  }

  /** `process()`: every update, unconditionally, in order; the first
      exception ends it. It raises exactly what computing all artifacts from
      scratch raises; on success every slot is filled and each engine other
      than the maskings ran once more, whatever was filled before. */
  method Process(e: Toolkit, w: WoundImage) returns (s: Step<()>)
    requires Consistent(e, w)
    ensures Consistent(e, s.w) && Extends(w, s.w) && AtMost(w.calls, s.w.calls)
    ensures s.out.Ok? <==> Derive(e, w.imagePath).Ok?
    ensures s.out.Err? ==> s.out.error == Derive(e, w.imagePath).error
    ensures s.out.Ok? ==> Complete(s.w)
    ensures s.out.Ok? ==> s.w.calls == Plus(w.calls, Calls(1, 1, 1, 1, 1, 1))
  {
    DeriveByRefs(e, w.imagePath);
    var h := ProcessHead(e, w);
    if h.out.Err? {
      return h;
    }
    s := ProcessRest(e, h.w);
    ExtendsTrans(w, h.w, s.w);
  }

  /** The updates of `process()` up to the masks. */
  method ProcessHead(e: Toolkit, w: WoundImage) returns (s: Step<()>)
    requires Consistent(e, w)
    ensures Consistent(e, s.w) && Extends(w, s.w) && AtMost(w.calls, s.w.calls)
    ensures s.out == Then(LoadImage(e, w.imagePath), Then(RefSegmentation(e, w.imagePath),
                       Then(RefMasks(e, w.imagePath), Ok(()))))
    ensures s.out.Ok? ==> s.w.woundMask.Some? && s.w.calls == Plus(w.calls, Calls(1, 1, 1, 0, 0, 0))
  {
    var s1 := UpdateImage(e, w);
    if s1.out.Err? {
      return Step(s1.w, Err(s1.out.error));
    }
    Exact(w, s1.w, ImageSlot);
    assert s1.w.calls == w.calls.(decode := w.calls.decode + 1);
    s := ProcessSplit(e, s1.w);
    ExtendsTrans(w, s1.w, s.w);
  }

  /** The segmentation and mask updates of `process()`. */
  method ProcessSplit(e: Toolkit, w: WoundImage) returns (s: Step<()>)
    requires Consistent(e, w) && w.image.Some?
    ensures Consistent(e, s.w) && Extends(w, s.w) && AtMost(w.calls, s.w.calls)
    ensures s.out == Then(RefSegmentation(e, w.imagePath), Then(RefMasks(e, w.imagePath), Ok(())))
    ensures s.out.Ok? ==> s.w.woundMask.Some? && s.w.calls == Plus(w.calls, Calls(0, 1, 1, 0, 0, 0))
  {
    var s2 := UpdateSegmentation(e, w);
    if s2.out.Err? {
      return Step(s2.w, Err(s2.out.error));
    }
    Exact(w, s2.w, SegmentationSlot);
    assert s2.w.calls == w.calls.(segment := w.calls.segment + 1);
    var s3 := UpdateMasks(e, s2.w);
    ExtendsTrans(w, s2.w, s3.w);
    if s3.out.Err? {
      return Step(s3.w, Err(s3.out.error));
    }
    Exact(s2.w, s3.w, WoundMaskSlot);
    assert s3.w.calls == s2.w.calls.(split := s2.w.calls.split + 1);
    return Step(s3.w, Ok(()));
  }



  /** The updates of `process()` after the masks. */
  method ProcessRest(e: Toolkit, w: WoundImage) returns (s: Step<()>)
    requires Consistent(e, w) && w.woundMask.Some?
    ensures Consistent(e, s.w) && Extends(w, s.w) && AtMost(w.calls, s.w.calls)
    ensures s.out == Then(RefWoundMasked(e, w.imagePath), Then(RefPeriWoundMask(e, w.imagePath),
                       Then(RefPeriWoundMasked(e, w.imagePath), Then(RefPredicted(e, w.imagePath), Ok(())))))
    ensures s.out.Ok? ==> forall k: Slot :: Filled(s.w, k)
    ensures s.out.Ok? ==> s.w.calls == Plus(w.calls, Calls(0, 0, 0, 1, 1, 1))
  {
    var s4 := UpdateWoundMasked(e, w);
    if s4.out.Err? {
      return Step(s4.w, Err(s4.out.error));
    }
    Exact(w, s4.w, WoundMaskedSlot);
    assert s4.w.calls == w.calls;
    s := ProcessPeri(e, s4.w);
    ExtendsTrans(w, s4.w, s.w);
    if s.out.Ok? {
      assert Keeps(s4.w, s.w, WoundMaskedSlot);
      AllFilled(s.w);
    }
  }

  /** The updates of `process()` from the peri-wound mask on. */
  method ProcessPeri(e: Toolkit, w: WoundImage) returns (s: Step<()>)
    requires Consistent(e, w) && w.woundMask.Some?
    ensures Consistent(e, s.w) && Extends(w, s.w) && AtMost(w.calls, s.w.calls)
    ensures s.out == Then(RefPeriWoundMask(e, w.imagePath),
                       Then(RefPeriWoundMasked(e, w.imagePath), Then(RefPredicted(e, w.imagePath), Ok(()))))
    ensures s.out.Ok? ==> Filled(s.w, PeriWoundMaskedSlot) && Filled(s.w, PredictedSlot) && Filled(s.w, ClinicalSlot)
    ensures s.out.Ok? ==> s.w.calls == Plus(w.calls, Calls(0, 0, 0, 1, 1, 1))
  {
    var s5 := UpdatePeriWoundMask(e, w);
    if s5.out.Err? {
      return Step(s5.w, Err(s5.out.error));
    }
    Exact(w, s5.w, PeriWoundMaskSlot);
    assert s5.w.calls == w.calls.(perilesion := w.calls.perilesion + 1, imfill := w.calls.imfill + 1);
    s := ProcessTail(e, s5.w);
    ExtendsTrans(w, s5.w, s.w);
  }


  /** The updates of `process()` after the peri-wound mask. */
  method ProcessTail(e: Toolkit, w: WoundImage) returns (s: Step<()>)
    requires Consistent(e, w) && w.periWoundMask.Some?
    ensures Consistent(e, s.w) && Extends(w, s.w) && AtMost(w.calls, s.w.calls)
    ensures s.out == Then(RefPeriWoundMasked(e, w.imagePath), Then(RefPredicted(e, w.imagePath), Ok(())))
    ensures s.out.Ok? ==> Filled(s.w, PeriWoundMaskedSlot) && Filled(s.w, PredictedSlot) && Filled(s.w, ClinicalSlot)
    ensures s.out.Ok? ==> s.w.calls == Plus(w.calls, Calls(0, 0, 0, 0, 0, 1))
  {
    var s6 := UpdatePeriWoundMasked(e, w);
    if s6.out.Err? {
      return Step(s6.w, Err(s6.out.error));
    }
    Exact(w, s6.w, PeriWoundMaskedSlot);
    assert s6.w.calls == w.calls;
    assert Below(SegmentationSlot, PeriWoundMaskedSlot) && Filled(s6.w, PeriWoundMaskedSlot);
    s := ProcessLast(e, s6.w);
    ExtendsTrans(w, s6.w, s.w);
    assert s.out.Ok? ==> Keeps(s6.w, s.w, PeriWoundMaskedSlot);
  }

  /** The two PWAT updates that end `process()`. */
  method ProcessLast(e: Toolkit, w: WoundImage) returns (s: Step<()>)
    requires Consistent(e, w) && w.segmentation.Some?
    ensures Consistent(e, s.w) && Extends(w, s.w) && AtMost(w.calls, s.w.calls)
    ensures s.out == Then(RefPredicted(e, w.imagePath), Ok(()))
    ensures s.out.Ok? ==> Filled(s.w, PredictedSlot) && Filled(s.w, ClinicalSlot)
    ensures s.out.Ok? ==> s.w.calls == Plus(w.calls, Calls(0, 0, 0, 0, 0, 1))
  {
    var s7 := UpdatePredictedPwat(e, w);
    if s7.out.Err? {
      return Step(s7.w, Err(s7.out.error));
    }
    Exact(w, s7.w, PredictedSlot);
    assert s7.w.calls == w.calls.(score := w.calls.score + 1);
    var s8 := UpdateClinicalPwat(e, s7.w);
    ExtendsTrans(w, s7.w, s8.w);
    Exact(s7.w, s8.w, ClinicalSlot);
    assert s8.w.calls == s7.w.calls;
    assert Keeps(s7.w, s8.w, PredictedSlot);
    return Step(s8.w, Ok(()));
  }


}
