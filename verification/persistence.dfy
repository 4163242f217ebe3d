/** Writing a wound's artifacts and its ledger row: `_save_img`, the eight
    `save_*` methods, `save_pwat_to_csv` and `save_all`. Every save reads
    its inputs through the memoised getters, so it may fill slots of the
    record, and returns the record it leaves behind, the file system after
    it, and what it returned or raised. Nothing written is ever taken back:
    a failure leaves the files written before it. */
module Persistence {
  import opened Outcomes
  import opened Pixels
  import opened Files
  import opened OsPath
  import opened Overlay
  import opened Engines
  import opened WoundGraph
  import PathSyntax

  // ---------------------------------------------------------------------
  // The artifacts on disk

  /** The eight images `save_all` writes. */
  datatype Artifact =
    | Original | SegmentationMask | SegmentationSemantic | MaskWound
    | MaskPeriWound | MaskedWound | MaskedPeriWound | PwatEstimation

  /** The file-name stem `save_all` gives each artifact. */
  function Stem(a: Artifact): string {
    match a
    case Original => "original"
    case SegmentationMask => "segmentation_mask"
    case SegmentationSemantic => "segmentation_semantic"
    case MaskWound => "mask_wound"
    case MaskPeriWound => "mask_peri_wound"
    case MaskedWound => "masked_wound"
    case MaskedPeriWound => "masked_peri_wound"
    case PwatEstimation => "pwat_estimation"
  }

  /** The order in which `save_all` writes them. */
  const SaveOrder: seq<Artifact> :=
    [Original, SegmentationMask, SegmentationSemantic, MaskWound,
     MaskPeriWound, MaskedWound, MaskedPeriWound, PwatEstimation]

  /** The extensions `save_all` accepts, compared exactly: no case folding. */
  const SaveExtensions: set<string> := {".png", ".jpg", ".jpeg"}

  /** The array each `save_*` hands to `_save_img`, computed from scratch:
      the artifact itself, or a copy of the image with the overlay drawn on
      it. The inputs are listed in the order the method calls the getters,
      so the first failure is the one the method raises. */
  function Rendered(e: Toolkit, p: string, a: Artifact): Result<Image> {
    match a
    case Original => LoadImage(e, p)
    case SegmentationMask => RefSegmentation(e, p)
    case SegmentationSemantic =>
      (var img :- LoadImage(e, p);
       var body :- RefBodyMask(e, p);
       var wound :- RefWoundMask(e, p);
       Ok(e.render(img, SemanticDraws(body, wound))))
    case MaskWound =>
      (var img :- LoadImage(e, p);
       var wound :- RefWoundMask(e, p);
       Ok(e.render(img, ContourDraws(wound))))
    case MaskPeriWound =>
      (var img :- LoadImage(e, p);
       var peri :- RefPeriWoundMask(e, p);
       Ok(e.render(img, ContourDraws(peri))))
    case MaskedWound => RefWoundMasked(e, p)
    case MaskedPeriWound => RefPeriWoundMasked(e, p)
    case PwatEstimation =>
      (var img :- LoadImage(e, p);
       var wound :- RefWoundMask(e, p);
       var predicted :- RefPredicted(e, p);
       Ok(e.render(img, PwatDraws(wound, ClinicalPlaceholder, predicted))))
  }

  // ---------------------------------------------------------------------
  // `_save_img`

  /** `_valid_image_path`: the pattern check alone. */
  function ImagePathCheck(path: string): (r: Result<()>)
    ensures r.Ok? <==> PathSyntax.IsImagePath(path)
    ensures r.Err? ==> r.error == MalformedImagePath(path)
  {
    if PathSyntax.IsImagePath(path) then Ok(()) else Err(MalformedImagePath(path))
  }

  /** `_save_img(path, bgr)`: a malformed path raises before anything is
      touched; otherwise the missing parent directory is created and the
      array is written with its channel axis reversed, replacing whatever
      file was there. */
  function SaveImg(fs: FileSystem, path: string, bgr: Image): (r: Result<FileSystem>)
    ensures r.Ok? <==> PathSyntax.IsImagePath(path)
    ensures r.Err? ==> r.error == MalformedImagePath(path)
    ensures r.Ok? ==>
              && r.value.files == fs.files[path := Picture(ReverseChannels(bgr))]
              && r.value.journal == fs.journal + [WroteImage(path)]
              && fs.dirs <= r.value.dirs <= fs.dirs + Ancestors(DirName(path))
              && (DirName(path) == "" || Exists(r.value, DirName(path)))
  {
    if !PathSyntax.IsImagePath(path) then Err(MalformedImagePath(path))
    else Ok(Put(EnsureParent(fs, path), path, Picture(ReverseChannels(bgr)), WroteImage(path)))
  }

  /** Reading back what `_save_img` wrote and reversing its channels again
      gives the array that was saved. */
  lemma SaveImgRoundTrip(fs: FileSystem, path: string, bgr: Image)
    requires PathSyntax.IsImagePath(path)
    ensures SaveImg(fs, path, bgr).Ok?
    ensures var stored := SaveImg(fs, path, bgr).value.files[path];
            stored.Picture? && ReverseChannels(stored.pixels) == bgr
  {
    ReverseChannelsInvolution(bgr);
  }

  // ---------------------------------------------------------------------
  // The eight `save_*` methods

  /** What a save leaves behind. */
  datatype Saved = Saved(w: WoundImage, fs: FileSystem, out: Result<()>)

  /** The law of `save_*` for artifact `a` at `path`: the record stays
      consistent and keeps every slot it had (the overlays are drawn on
      copies); if every slot was filled the record does not change at all;
      the call raises exactly what computing the artifact from scratch
      raises, and otherwise exactly what the path check raises; a failure
      writes nothing, and a success is `_save_img` of the artifact. */
  predicate Saves(e: Toolkit, w: WoundImage, fs: FileSystem, a: Artifact, path: string, r: Saved) {
    && Consistent(e, r.w) && Extends(w, r.w)
    && (Complete(w) ==> r.w == w)
    && var pic := Rendered(e, w.imagePath, a);
       && r.out == Then(pic, ImagePathCheck(path))
       && (r.out.Err? ==> r.fs == fs)
       && (r.out.Ok? ==> SaveImg(fs, path, pic.value) == Ok(r.fs))
  }

  /** The last step of every save: `_save_img` of what the getters gave, or
      their error. */
  function Finish(s: Step<Image>, fs: FileSystem, path: string): (r: Saved)
    ensures r.w == s.w
    ensures r.out == Then(s.out, ImagePathCheck(path))
    ensures r.out.Err? ==> r.fs == fs
    ensures r.out.Ok? ==> SaveImg(fs, path, s.out.value) == Ok(r.fs)
  {
    if s.out.Err? then Saved(s.w, fs, Err(s.out.error))
    else match SaveImg(fs, path, s.out.value)
      case Ok(fs2) => Saved(s.w, fs2, Ok(()))
      case Err(err) => Saved(s.w, fs, Err(err))
  }

  /** A complete record has every attribute set. */
  lemma CompleteHolds(w: WoundImage)
    requires Complete(w)
    ensures w.image.Some? && w.segmentation.Some? && w.woundMask.Some? && w.bodyMask.Some?
    ensures w.bgMask.Some? && w.woundMasked.Some? && w.periWoundMask.Some?
    ensures w.periWoundMasked.Some? && w.predictedPwat.Some? && w.clinicalPwat.Some?
  {
    assert Filled(w, ImageSlot) && Filled(w, SegmentationSlot) && Filled(w, WoundMaskSlot);
    assert Filled(w, BodyMaskSlot) && Filled(w, BgMaskSlot) && Filled(w, WoundMaskedSlot);
    assert Filled(w, PeriWoundMaskSlot) && Filled(w, PeriWoundMaskedSlot);
    assert Filled(w, PredictedSlot) && Filled(w, ClinicalSlot);
  }

  /** `save_original`; it writes back exactly the pixels the codec decoded. */
  method SaveOriginal(e: Toolkit, w: WoundImage, fs: FileSystem, path: string) returns (r: Saved)
    requires Consistent(e, w)
    ensures Saves(e, w, fs, Original, path, r)
    ensures r.out.Ok? ==> e.decode(w.imagePath).Ok? && path in r.fs.files
                          && r.fs.files[path] == Picture(e.decode(w.imagePath).value)
  {
    if Complete(w) {
      CompleteHolds(w);
    }
    var s := GetImage(e, w);
    r := Finish(s, fs, path);
    if r.out.Ok? {
      ReverseChannelsInvolution(e.decode(w.imagePath).value);
    }
  }

  method SaveSegmentationMask(e: Toolkit, w: WoundImage, fs: FileSystem, path: string) returns (r: Saved)
    requires Consistent(e, w)
    ensures Saves(e, w, fs, SegmentationMask, path, r)
  {
    if Complete(w) {
      CompleteHolds(w);
    }
    var s := GetSegmentation(e, w);
    r := Finish(s, fs, path);
  }

  /** `save_segmentation_semantic`: image, body mask, wound mask, in that
      order. */
  method SaveSegmentationSemantic(e: Toolkit, w: WoundImage, fs: FileSystem, path: string) returns (r: Saved)
    requires Consistent(e, w)
    ensures Saves(e, w, fs, SegmentationSemantic, path, r)
  {
    if Complete(w) {
      CompleteHolds(w);
    }
    var a := GetImage(e, w);
    if a.out.Err? {
      return Saved(a.w, fs, Err(a.out.error));
    }
    var b := GetBodyMask(e, a.w);
    ExtendsTrans(w, a.w, b.w);
    if b.out.Err? {
      return Saved(b.w, fs, Err(b.out.error));
    }
    var c := GetWoundMask(e, b.w);
    ExtendsTrans(w, b.w, c.w);
    if c.out.Err? {
      return Saved(c.w, fs, Err(c.out.error));
    }
    r := Finish(Step(c.w, Ok(e.render(a.out.value, SemanticDraws(b.out.value, c.out.value)))), fs, path);
  }

  method SaveMaskWound(e: Toolkit, w: WoundImage, fs: FileSystem, path: string) returns (r: Saved)
    requires Consistent(e, w)
    ensures Saves(e, w, fs, MaskWound, path, r)
  {
    if Complete(w) {
      CompleteHolds(w);
    }
    var a := GetImage(e, w);
    if a.out.Err? {
      return Saved(a.w, fs, Err(a.out.error));
    }
    var b := GetWoundMask(e, a.w);
    ExtendsTrans(w, a.w, b.w);
    if b.out.Err? {
      return Saved(b.w, fs, Err(b.out.error));
    }
    r := Finish(Step(b.w, Ok(e.render(a.out.value, ContourDraws(b.out.value)))), fs, path);
  }

  method SaveMaskPeriWound(e: Toolkit, w: WoundImage, fs: FileSystem, path: string) returns (r: Saved)
    requires Consistent(e, w)
    ensures Saves(e, w, fs, MaskPeriWound, path, r)
  {
    if Complete(w) {
      CompleteHolds(w);
    }
    var a := GetImage(e, w);
    if a.out.Err? {
      return Saved(a.w, fs, Err(a.out.error));
    }
    var b := GetPeriWoundMask(e, a.w);
    ExtendsTrans(w, a.w, b.w);
    if b.out.Err? {
      return Saved(b.w, fs, Err(b.out.error));
    }
    r := Finish(Step(b.w, Ok(e.render(a.out.value, ContourDraws(b.out.value)))), fs, path);
  }

  method SaveMaskedWound(e: Toolkit, w: WoundImage, fs: FileSystem, path: string) returns (r: Saved)
    requires Consistent(e, w)
    ensures Saves(e, w, fs, MaskedWound, path, r)
  {
    if Complete(w) {
      CompleteHolds(w);
    }
    var s := GetWoundMasked(e, w);
    r := Finish(s, fs, path);
  }

  method SaveMaskedPeriWound(e: Toolkit, w: WoundImage, fs: FileSystem, path: string) returns (r: Saved)
    requires Consistent(e, w)
    ensures Saves(e, w, fs, MaskedPeriWound, path, r)
  {
    if Complete(w) {
      CompleteHolds(w);
    }
    var s := GetPeriWoundMasked(e, w);
    r := Finish(s, fs, path);
  }

  /** `save_pwat_estimation`: image, wound mask, clinical PWAT (always the
      placeholder), predicted PWAT, in that order. */
  method SavePwatEstimation(e: Toolkit, w: WoundImage, fs: FileSystem, path: string) returns (r: Saved)
    requires Consistent(e, w)
    ensures Saves(e, w, fs, PwatEstimation, path, r)
  {
    if Complete(w) {
      CompleteHolds(w);
    }
    var a := GetImage(e, w);
    if a.out.Err? {
      return Saved(a.w, fs, Err(a.out.error));
    }
    var b := GetWoundMask(e, a.w);
    ExtendsTrans(w, a.w, b.w);
    if b.out.Err? {
      return Saved(b.w, fs, Err(b.out.error));
    }
    var c := GetClinicalPwat(e, b.w);
    ExtendsTrans(w, b.w, c.w);
    var d := GetPredictedPwat(e, c.w);
    ExtendsTrans(w, c.w, d.w);
    if d.out.Err? {
      return Saved(d.w, fs, Err(d.out.error));
    }
    var draws := PwatDraws(b.out.value, c.out.value, d.out.value);
    r := Finish(Step(d.w, Ok(e.render(a.out.value, draws))), fs, path);
  }

  /** The save of one artifact, by name. */
  method Save(e: Toolkit, w: WoundImage, fs: FileSystem, a: Artifact, path: string) returns (r: Saved)
    requires Consistent(e, w)
    ensures Saves(e, w, fs, a, path, r)
  {
    match a
    case Original => r := SaveOriginal(e, w, fs, path);
    case SegmentationMask => r := SaveSegmentationMask(e, w, fs, path);
    case SegmentationSemantic => r := SaveSegmentationSemantic(e, w, fs, path);
    case MaskWound => r := SaveMaskWound(e, w, fs, path);
    case MaskPeriWound => r := SaveMaskPeriWound(e, w, fs, path);
    case MaskedWound => r := SaveMaskedWound(e, w, fs, path);
    case MaskedPeriWound => r := SaveMaskedPeriWound(e, w, fs, path);
    case PwatEstimation => r := SavePwatEstimation(e, w, fs, path);
  }

  // ---------------------------------------------------------------------
  // `save_pwat_to_csv`

  /** The ledger's fixed header. */
  const Header: seq<string> := ["image", "clinical_score", "predictional_score", "timestamp"]

  /** One ledger row: the image path, the clinical and predicted PWAT as
      csv.writer prints them, and the time of writing (`now` stands for
      `datetime.now()` in the format "%Y-%m-%d_%H-%M-%S"). */
  function LedgerRow(e: Toolkit, p: string, predicted: real, now: string): seq<string> {
    [p, e.showFloat(ClinicalPlaceholder), e.showFloat(predicted), now]
  }

  /** What `save_pwat_to_csv` finds at the ledger path. An existing file whose
      first row is not the header is incompatible; so is an empty one (its
      first row is missing) and an image file. */
  datatype Ledger = Absent | Directory | Compatible(rows: seq<seq<string>>) | Incompatible

  function Inspect(fs: FileSystem, path: string): (l: Ledger)
    ensures l.Absent? <==> !Exists(fs, path)
    ensures l.Directory? <==> path !in fs.files && path in fs.dirs
    ensures l.Compatible? <==> path in fs.files && fs.files[path].Table?
                               && |RowsAt(fs, path)| > 0 && RowsAt(fs, path)[0] == Header
    ensures l.Compatible? ==> l.rows == RowsAt(fs, path)
  {
    if path in fs.files then
      match fs.files[path]
      case Table(rows) => if |rows| > 0 && rows[0] == Header then Compatible(rows) else Incompatible
      case Picture(_) => Incompatible
    else if path in fs.dirs then Directory
    else Absent
  }

  /** The rows the append goes after: the existing ones, or the header of the
      file about to be created. */
  function RowsBefore(fs: FileSystem, path: string): seq<seq<string>> {
    if path in fs.files then RowsAt(fs, path) else [Header]
  }

  /** The effect of `save_pwat_to_csv` on a ledger it accepts: exactly one
      row more after the existing rows (or after the header of the file it
      created) when the predicted PWAT can be computed, and otherwise the
      ledger as it was opened, with its error; no other file changes. */
  predicate Appends(e: Toolkit, w: WoundImage, fs: FileSystem, path: string, now: string, r: Saved) {
    var predicted := RefPredicted(e, w.imagePath);
    var before := RowsBefore(fs, path);
    && r.out.Ok? == predicted.Ok?
    && (predicted.Err? ==> r.out == Err(predicted.error))
    && r.fs.files == fs.files[path := Table(
         if predicted.Ok? then before + [LedgerRow(e, w.imagePath, predicted.value, now)] else before)]
    && r.fs.journal == fs.journal + (if path in fs.files then [] else [CreatedTable(path)])
                                  + (if predicted.Ok? then [AppendedRow(path)] else [])
    && fs.dirs <= r.fs.dirs
  }

  /** A ledger `save_pwat_to_csv` accepted is accepted again afterwards,
      whether the row was appended or not: the header stays first. */
  lemma AppendKeepsSchema(e: Toolkit, w: WoundImage, fs: FileSystem, path: string, now: string, r: Saved)
    requires Inspect(fs, path).Absent? || Inspect(fs, path).Compatible?
    requires Appends(e, w, fs, path, now, r)
    ensures Inspect(r.fs, path).Compatible?
    ensures |Inspect(r.fs, path).rows| == |RowsBefore(fs, path)| + (if r.out.Ok? then 1 else 0)
  {
    var rows := RowsAt(r.fs, path);
    assert rows[0] == RowsBefore(fs, path)[0];
  }

  /** `save_pwat_to_csv(path)`: the pattern check; then a missing ledger is
      created with its header (and its missing directory), or an existing one
      must start with the header; then the clinical and predicted PWAT are
      computed and one row is appended. The getters run after the file was
      created, so their failure leaves a header-only ledger behind. */
  method SavePwatToCsv(e: Toolkit, w: WoundImage, fs: FileSystem, path: string, now: string) returns (r: Saved)
    requires Consistent(e, w)
    ensures Consistent(e, r.w) && Extends(w, r.w)
    ensures Complete(w) ==> r.w == w
    ensures !PathSyntax.IsCsvPath(path) ==> r == Saved(w, fs, Err(MalformedCsvPath(path)))
    ensures PathSyntax.IsCsvPath(path) && Inspect(fs, path).Directory? ==> r == Saved(w, fs, Err(IsADirectory(path)))
    ensures PathSyntax.IsCsvPath(path) && Inspect(fs, path).Incompatible? ==> r == Saved(w, fs, Err(HeaderMismatch(path)))
    ensures PathSyntax.IsCsvPath(path) && (Inspect(fs, path).Absent? || Inspect(fs, path).Compatible?) ==>
              Appends(e, w, fs, path, now, r)
  {
    if !PathSyntax.IsCsvPath(path) {
      return Saved(w, fs, Err(MalformedCsvPath(path)));
    }
    match Inspect(fs, path) {
      case Directory =>
        return Saved(w, fs, Err(IsADirectory(path)));
      case Incompatible =>
        return Saved(w, fs, Err(HeaderMismatch(path)));
      case _ =>
        r := WriteLedger(e, w, fs, path, now);
    }
  }

  /** The accepted branch of `save_pwat_to_csv`: create the ledger with its
      header if it is missing, then append the row. */
  method WriteLedger(e: Toolkit, w: WoundImage, fs: FileSystem, path: string, now: string) returns (r: Saved)
    requires Consistent(e, w)
    requires Inspect(fs, path).Absent? || Inspect(fs, path).Compatible?
    ensures Consistent(e, r.w) && Extends(w, r.w)
    ensures Complete(w) ==> r.w == w
    ensures Appends(e, w, fs, path, now, r)
  {
    var fs1 := fs;
    if Inspect(fs, path).Absent? {
      fs1 := Put(EnsureParent(fs, path), path, Table([Header]), CreatedTable(path));
    }
    assert RowsAt(fs1, path) == RowsBefore(fs, path);
    r := AppendRow(e, w, fs1, path, now);
  }

  /** The last statement of `save_pwat_to_csv`: the clinical PWAT, then the
      predicted PWAT, then one row appended to the file at `path`. */
  method AppendRow(e: Toolkit, w: WoundImage, fs: FileSystem, path: string, now: string) returns (r: Saved)
    requires Consistent(e, w)
    ensures Consistent(e, r.w) && Extends(w, r.w)
    ensures Complete(w) ==> r.w == w
    ensures var predicted := RefPredicted(e, w.imagePath);
            && r.out.Ok? == predicted.Ok?
            && (predicted.Err? ==> r.out == Err(predicted.error) && r.fs == fs)
            && (predicted.Ok? ==>
                  r.fs == Put(fs, path, Table(RowsAt(fs, path) + [LedgerRow(e, w.imagePath, predicted.value, now)]),
                              AppendedRow(path)))
  {
    if Complete(w) {
      CompleteHolds(w);
    }
    var c := GetClinicalPwat(e, w);
    var d := GetPredictedPwat(e, c.w);
    ExtendsTrans(w, c.w, d.w);
    if d.out.Err? {
      return Saved(d.w, fs, Err(d.out.error));
    }
    var row := [w.imagePath, e.showFloat(c.out.value), e.showFloat(d.out.value), now];
    r := Saved(d.w, Put(fs, path, Table(RowsAt(fs, path) + [row]), AppendedRow(path)), Ok(()));
  }

  // ---------------------------------------------------------------------
  // `save_all`

  /** The paths `save_all` writes, in order: `os.path.join(dir, stem + ext)`. */
  function Targets(dir: string, ext: string): (ts: seq<string>)
    ensures |ts| == |SaveOrder|
    ensures forall i | 0 <= i < |ts| :: ts[i] == Join(dir, Stem(SaveOrder[i]) + ext)
  {
    seq(|SaveOrder|, i requires 0 <= i < |SaveOrder| => Join(dir, Stem(SaveOrder[i]) + ext))
  }

  /** The journal entries of images written to `paths`, in order. */
  function Wrote(paths: seq<string>): (evs: seq<Event>)
    ensures |evs| == |paths|
    ensures forall i | 0 <= i < |paths| :: evs[i] == WroteImage(paths[i])
  {
    seq(|paths|, i requires 0 <= i < |paths| => WroteImage(paths[i]))
  }

  lemma WroteStep(ts: seq<string>, i: nat)
    requires i < |ts|
    ensures Wrote(ts[..i + 1]) == Wrote(ts[..i]) + [WroteImage(ts[i])]
  {
    assert Wrote(ts[..i + 1])[i] == WroteImage(ts[i]);
  }

  /** What step `i` of `save_all` raises or returns, computed from scratch. */
  function StepOutcome(e: Toolkit, p: string, dir: string, ext: string, i: nat): Result<()>
    requires i < |SaveOrder|
  {
    Then(Rendered(e, p, SaveOrder[i]), ImagePathCheck(Targets(dir, ext)[i]))
  }

  /** The arrays the eight saves hand to `_save_img`, in order. */
  function Pictures(e: Toolkit, p: string): (ps: seq<Result<Image>>)
    ensures |ps| == |SaveOrder|
    ensures forall i | 0 <= i < |ps| :: ps[i] == Rendered(e, p, SaveOrder[i])
  {
    seq(|SaveOrder|, i requires 0 <= i < |SaveOrder| => Rendered(e, p, SaveOrder[i]))
  }

  /** The first `n` steps of `save_all` succeed. */
  predicate Succeeds(e: Toolkit, p: string, dir: string, ext: string, n: nat)
    requires n <= |SaveOrder|
  {
    forall j | 0 <= j < n :: StepOutcome(e, p, dir, ext, j).Ok?
  }

  lemma SucceedsStep(e: Toolkit, p: string, dir: string, ext: string, n: nat)
    requires n < |SaveOrder| && Succeeds(e, p, dir, ext, n) && StepOutcome(e, p, dir, ext, n).Ok?
    ensures Succeeds(e, p, dir, ext, n + 1)
  {
  }

  /** The files after the first `n` writes of `pics` to `ts` succeeded: each
      target holds its array with the channels reversed. */
  function Stored(files: map<string, Entry>, ts: seq<string>, pics: seq<Result<Image>>, n: nat): map<string, Entry>
    requires n <= |ts| == |pics|
  {
    if n == 0 then files
    else
      var prev := Stored(files, ts, pics, n - 1);
      if pics[n - 1].Ok? then prev[ts[n - 1] := Picture(ReverseChannels(pics[n - 1].value))] else prev
  }

  /** Joining one directory with two relative names gives two paths that
      differ when the names do. */
  lemma JoinInjective(dir: string, a: string, b: string)
    requires |a| > 0 && a[0] != '/' && |b| > 0 && b[0] != '/'
    requires Join(dir, a) == Join(dir, b)
    ensures a == b
  {
    var x, y := Join(dir, a), Join(dir, b);
    var n := if |dir| == 0 || dir[|dir| - 1] == '/' then |dir| else |dir| + 1;
    assert x[n..] == a;
    assert y[n..] == b;
  }

  lemma CancelSuffix(a: string, b: string, ext: string)
    requires a + ext == b + ext
    ensures a == b
  {
    assert a == (a + ext)[..|a|];
    assert b == (b + ext)[..|b|];
  }

  /** Different artifacts have different stems: they differ in length or
      in their first letter. */
  lemma StemInjective(a: Artifact, b: Artifact)
    requires a != b
    ensures Stem(a) != Stem(b)
  {
    assert |Stem(a)| != |Stem(b)| || Stem(a)[0] != Stem(b)[0];
  }

  /** No artifact is saved twice. */
  lemma SaveOrderDistinct(i: nat, j: nat)
    requires i < j < |SaveOrder|
    ensures SaveOrder[i] != SaveOrder[j]
  {
  }

  /** Every stem is a relative name. */
  lemma StemShape(a: Artifact)
    ensures |Stem(a)| > 0 && Stem(a)[0] != '/'
  {
  }

  /** The eight targets are eight different paths. */
  lemma {:induction false} TargetsDistinct(dir: string, ext: string)
    ensures forall i, j | 0 <= i < j < |SaveOrder| :: Targets(dir, ext)[i] != Targets(dir, ext)[j]
  {
    var ts := Targets(dir, ext);
    forall i, j | 0 <= i < j < |SaveOrder|
      ensures ts[i] != ts[j]
    {
      var x, y := SaveOrder[i], SaveOrder[j];
      var a, b := Stem(x) + ext, Stem(y) + ext;
      StemShape(x);
      StemShape(y);
      assert a[0] == Stem(x)[0] && b[0] == Stem(y)[0];
      if ts[i] == ts[j] {
        JoinInjective(dir, a, b);
        CancelSuffix(Stem(x), Stem(y), ext);
        SaveOrderDistinct(i, j);
        StemInjective(x, y);
      }
    }
  }

  /** Every image target ends in 'g', the last letter of each accepted
      extension. */
  lemma {:induction false} TargetsEndInG(dir: string, ext: string)
    requires ext in SaveExtensions
    ensures forall i | 0 <= i < |Targets(dir, ext)| ::
              |Targets(dir, ext)[i]| > 0 && Targets(dir, ext)[i][|Targets(dir, ext)[i]| - 1] == 'g'
  {
    var ts := Targets(dir, ext);
    forall i | 0 <= i < |ts|
      ensures |ts[i]| > 0 && ts[i][|ts[i]| - 1] == 'g'
    {
      var b := Stem(SaveOrder[i]) + ext;
      assert b[|b| - 1] == 'g';
      assert ts[i][|ts[i]| - 1] == 'g' by {
        assert ts[i][|ts[i]| - |b|..] == b;
        assert ts[i][|ts[i]| - 1] == ts[i][|ts[i]| - |b|..][|b| - 1];
      }
    }
  }

  /** No image target is an accepted ledger path, whose last letter is
      never 'g'. */
  lemma TargetIsNotLedger(dir: string, ext: string, csv: string)
    requires ext in SaveExtensions && PathSyntax.IsCsvPath(csv)
    ensures csv !in Targets(dir, ext)
  {
    PathSyntax.CsvPathEnding(csv);
    TargetsEndInG(dir, ext);
  }

  /** After the first `n` writes succeeded, target `j < n` holds array `j`:
      no later write to a different path overwrites it. */
  lemma {:induction false} StoredTargets(files: map<string, Entry>, ts: seq<string>, pics: seq<Result<Image>>, n: nat)
    requires n <= |ts| == |pics|
    requires forall i, j | 0 <= i < j < |ts| :: ts[i] != ts[j]
    requires forall j | 0 <= j < n :: pics[j].Ok?
    ensures forall j | 0 <= j < n ::
              ts[j] in Stored(files, ts, pics, n)
              && Stored(files, ts, pics, n)[ts[j]] == Picture(ReverseChannels(pics[j].value))
  {
    if n > 0 {
      StoredTargets(files, ts, pics, n - 1);
    }
  }

  /** A path that is no target keeps its file, or its absence. */
  lemma {:induction false} StoredElsewhere(files: map<string, Entry>, ts: seq<string>, pics: seq<Result<Image>>, n: nat, q: string)
    requires n <= |ts| == |pics| && q !in ts
    ensures q in Stored(files, ts, pics, n) <==> q in files
    ensures q in files ==> Stored(files, ts, pics, n)[q] == files[q]
  {
    if n > 0 {
      StoredElsewhere(files, ts, pics, n - 1, q);
    }
  }

  /** Where `save_all` stands after its first `i` saves succeeded: the
      record is consistent and extends the one it started from; the journal
      lists the `i` targets in order; those targets hold their artifacts and
      no other file changed. */
  predicate After(e: Toolkit, w: WoundImage, fs: FileSystem, dir: string, ext: string, r: Saved, i: nat) {
    && i <= |SaveOrder|
    && Consistent(e, r.w) && Extends(w, r.w) && (Complete(w) ==> r.w == w)
    && Succeeds(e, w.imagePath, dir, ext, i)
    && r.fs.journal == fs.journal + Wrote(Targets(dir, ext)[..i])
    && r.fs.files == Stored(fs.files, Targets(dir, ext), Pictures(e, w.imagePath), i)
    && fs.dirs <= r.fs.dirs
  }

  /** Save number `i` of `save_all`. */
  method SaveStep(e: Toolkit, w: WoundImage, fs: FileSystem, dir: string, ext: string, cur: Saved, i: nat)
    returns (next: Saved)
    requires i < |SaveOrder| && After(e, w, fs, dir, ext, cur, i)
    ensures next.out == StepOutcome(e, w.imagePath, dir, ext, i)
    ensures next.out.Ok? ==> After(e, w, fs, dir, ext, next, i + 1)
    ensures next.out.Err? ==> After(e, w, fs, dir, ext, next, i)
  {
    next := Save(e, cur.w, cur.fs, SaveOrder[i], Targets(dir, ext)[i]);
    ExtendsTrans(w, cur.w, next.w);
    if next.out.Ok? {
      AfterSaved(e, w, fs, dir, ext, cur, next, i);
    } else {
      AfterFailed(e, w, fs, dir, ext, cur, next, i);
    }
  }

  lemma AfterSaved(e: Toolkit, w: WoundImage, fs: FileSystem, dir: string, ext: string, cur: Saved, next: Saved, i: nat)
    requires i < |SaveOrder| && After(e, w, fs, dir, ext, cur, i)
    requires Saves(e, cur.w, cur.fs, SaveOrder[i], Targets(dir, ext)[i], next) && Extends(w, next.w)
    requires next.out.Ok?
    ensures next.out == StepOutcome(e, w.imagePath, dir, ext, i)
    ensures After(e, w, fs, dir, ext, next, i + 1)
  {
    var ts, pics := Targets(dir, ext), Pictures(e, w.imagePath);
    var pic := Rendered(e, w.imagePath, SaveOrder[i]);
    assert pic.Ok? && pics[i] == pic && SaveImg(cur.fs, ts[i], pic.value) == Ok(next.fs);
    assert StepOutcome(e, w.imagePath, dir, ext, i).Ok? by {
      assert next.out == Then(pic, ImagePathCheck(ts[i]));
    }
    assert Succeeds(e, w.imagePath, dir, ext, i + 1) by {
      SucceedsStep(e, w.imagePath, dir, ext, i);
    }
    assert next.fs.journal == fs.journal + Wrote(ts[..i + 1]) by {
      WroteStep(ts, i);
    }
    assert next.fs.files == Stored(fs.files, ts, pics, i + 1);
  }

  lemma AfterFailed(e: Toolkit, w: WoundImage, fs: FileSystem, dir: string, ext: string, cur: Saved, next: Saved, i: nat)
    requires i < |SaveOrder| && After(e, w, fs, dir, ext, cur, i)
    requires Saves(e, cur.w, cur.fs, SaveOrder[i], Targets(dir, ext)[i], next) && Extends(w, next.w)
    requires next.out.Err?
    ensures next.out == StepOutcome(e, w.imagePath, dir, ext, i)
    ensures After(e, w, fs, dir, ext, next, i)
  {
  }

  /** The eight saves of `save_all`, in order, each at `<dir>/<stem><ext>`;
      the first failure ends them. `written` is how many succeeded: those
      files are on disk, and the error is the failed step's own. */
  method SaveImages(e: Toolkit, w: WoundImage, fs: FileSystem, dir: string, ext: string) returns (r: Saved, written: nat)
    requires Consistent(e, w)
    ensures After(e, w, fs, dir, ext, r, written)
    ensures written < |SaveOrder| ==> r.out == StepOutcome(e, w.imagePath, dir, ext, written)
    ensures r.out.Ok? <==> written == |SaveOrder|
  {
    var cur := Saved(w, fs, Ok(()));
    var i := 0;
    assert Wrote(Targets(dir, ext)[..0]) == [];
    while i < |SaveOrder|
      invariant After(e, w, fs, dir, ext, cur, i) && cur.out.Ok?
    {
      var next := SaveStep(e, w, fs, dir, ext, cur, i);
      if next.out.Err? {
        return next, i;
      }
      cur := next;
      i := i + 1;
    }
    return cur, i;
  }

  /** Every target holds its artifact, channels reversed. */
  predicate HoldsArtifacts(files: map<string, Entry>, e: Toolkit, p: string, dir: string, ext: string) {
    forall j | 0 <= j < |SaveOrder| ::
      var pic := Rendered(e, p, SaveOrder[j]);
      && pic.Ok? && Targets(dir, ext)[j] in files
      && files[Targets(dir, ext)[j]] == Picture(ReverseChannels(pic.value))
  }

  /** What a successful `save_all` leaves on disk: the eight artifacts at
      their targets, and the ledger grown by exactly this image's row after
      what it held before (or after the header of the ledger it created);
      the journal lists the eight images in order, then the ledger's
      creation if it was missing, then the appended row. */
  predicate Landed(e: Toolkit, p: string, fs: FileSystem, dir: string, csv: string, ext: string, now: string, after: FileSystem) {
    var predicted := RefPredicted(e, p);
    && predicted.Ok?
    && HoldsArtifacts(after.files, e, p, dir, ext)
    && csv in after.files
    && RowsAt(after, csv) == RowsBefore(fs, csv) + [LedgerRow(e, p, predicted.value, now)]
    && after.journal == fs.journal + Wrote(Targets(dir, ext))
                        + (if csv in fs.files then [] else [CreatedTable(csv)]) + [AppendedRow(csv)]
  }

  /** The ledger step of a `save_all` whose eight saves succeeded: the saves
      did not touch the ledger path, so the row lands after what the ledger
      held before `save_all`, and the images stay where they were written. */
  lemma {:induction false} Landing(e: Toolkit, p: string, fs: FileSystem, dir: string, csv: string, ext: string, now: string,
                                   w8: WoundImage, fs8: FileSystem, led: Saved)
    requires ext in SaveExtensions && PathSyntax.IsCsvPath(csv) && w8.imagePath == p
    requires Succeeds(e, p, dir, ext, |SaveOrder|)
    requires fs8.files == Stored(fs.files, Targets(dir, ext), Pictures(e, p), |SaveOrder|)
    requires fs8.journal == fs.journal + Wrote(Targets(dir, ext))
    requires Appends(e, w8, fs8, csv, now, led) && led.out.Ok?
    ensures Landed(e, p, fs, dir, csv, ext, now, led.fs)
  {
    var ts, pics := Targets(dir, ext), Pictures(e, p);
    TargetIsNotLedger(dir, ext, csv);
    StoredElsewhere(fs.files, ts, pics, |SaveOrder|, csv);
    assert RowsBefore(fs8, csv) == RowsBefore(fs, csv);
    TargetsDistinct(dir, ext);
    forall j | 0 <= j < |SaveOrder|
      ensures pics[j].Ok?
    {
      assert StepOutcome(e, p, dir, ext, j).Ok?;
    }
    StoredTargets(fs.files, ts, pics, |SaveOrder|);
    forall j | 0 <= j < |SaveOrder|
      ensures ts[j] in led.fs.files && led.fs.files[ts[j]] == Picture(ReverseChannels(pics[j].value))
    {
      assert ts[j] != csv;
    }
  }

  /** The ledger at `csv` as a failed `save_all` leaves it: the journal
      extends the one it started from, no row was appended to the ledger,
      and its rows are those it held before (a ledger the call created holds
      only the header). */
  predicate LedgerKept(fs: FileSystem, csv: string, after: FileSystem) {
    && fs.journal <= after.journal
    && RowsBefore(after, csv) == RowsBefore(fs, csv)
    && AppendedRow(csv) !in after.journal[|fs.journal|..]
  }

  lemma LedgerKeptTrans(a: FileSystem, b: FileSystem, c: FileSystem, csv: string)
    requires LedgerKept(a, csv, b) && LedgerKept(b, csv, c)
    ensures LedgerKept(a, csv, c)
  {
    assert c.journal[..|a.journal|] == b.journal[..|a.journal|];
    assert c.journal[|a.journal|..] == b.journal[|a.journal|..] + c.journal[|b.journal|..];
  }

  /** The image saves of `save_all` leave a path that is no target alone:
      its file or absence is kept, and they journal only images. */
  lemma {:induction false} ImagesKeepLedger(e: Toolkit, w: WoundImage, fs: FileSystem, dir: string, ext: string,
                                            images: Saved, i: nat, csv: string)
    requires After(e, w, fs, dir, ext, images, i) && csv !in Targets(dir, ext)
    ensures csv in images.fs.files <==> csv in fs.files
    ensures csv in fs.files ==> images.fs.files[csv] == fs.files[csv]
    ensures LedgerKept(fs, csv, images.fs)
  {
    StoredElsewhere(fs.files, Targets(dir, ext), Pictures(e, w.imagePath), i, csv);
    var evs := Wrote(Targets(dir, ext)[..i]);
    assert images.fs.journal[..|fs.journal|] == fs.journal;
    assert images.fs.journal[|fs.journal|..] == evs;
    assert AppendedRow(csv) !in evs by {
      forall k | 0 <= k < |evs|
        ensures evs[k] != AppendedRow(csv)
      {
        assert evs[k].WroteImage?;
      }
    }
  }

  /** What `save_pwat_to_csv` returns for a well-formed ledger path, read
      off the ledger as `fs` holds it: a directory or a file that does not
      start with the header is refused, and otherwise the outcome is that of
      the predicted PWAT. A ledger missing from `fs` may have become a
      directory before the call (the image saves create directories), hence
      the second outcome in that case. */
  predicate LedgerDecides(e: Toolkit, p: string, fs: FileSystem, csv: string, out: Result<()>) {
    match Inspect(fs, csv)
    case Directory => out == Err(IsADirectory(csv))
    case Incompatible => out == Err(HeaderMismatch(csv))
    case Compatible(_) => out == Then(RefPredicted(e, p), Ok(()))
    case Absent => out == Then(RefPredicted(e, p), Ok(())) || out == Err(IsADirectory(csv))
  }

  /** `save_pwat_to_csv` changes no file but the ledger. */
  lemma LedgerStepFiles(e: Toolkit, w: WoundImage, mid: FileSystem, csv: string, now: string, r: Saved)
    requires !PathSyntax.IsCsvPath(csv) ==> r == Saved(w, mid, Err(MalformedCsvPath(csv)))
    requires PathSyntax.IsCsvPath(csv) && Inspect(mid, csv).Directory? ==> r == Saved(w, mid, Err(IsADirectory(csv)))
    requires PathSyntax.IsCsvPath(csv) && Inspect(mid, csv).Incompatible? ==> r == Saved(w, mid, Err(HeaderMismatch(csv)))
    requires PathSyntax.IsCsvPath(csv) && (Inspect(mid, csv).Absent? || Inspect(mid, csv).Compatible?) ==>
               Appends(e, w, mid, csv, now, r)
    ensures r.fs.files - {csv} == mid.files - {csv}
  {
    if PathSyntax.IsCsvPath(csv) && (Inspect(mid, csv).Absent? || Inspect(mid, csv).Compatible?) {
      assert r.fs.files == mid.files[csv := r.fs.files[csv]];
    }
  }

  /** `save_pwat_to_csv` run on `mid`, a state that holds the same ledger
      entry as `fs` and has at least its directories: what it decides is
      read off the ledger as `fs` has it, and when it fails the ledger keeps
      its rows. */
  lemma {:induction false} LedgerStep(e: Toolkit, w: WoundImage, fs: FileSystem, mid: FileSystem, csv: string, now: string,
                                      r: Saved)
    requires csv in mid.files <==> csv in fs.files
    requires csv in fs.files ==> mid.files[csv] == fs.files[csv]
    requires fs.dirs <= mid.dirs && LedgerKept(fs, csv, mid)
    requires !PathSyntax.IsCsvPath(csv) ==> r == Saved(w, mid, Err(MalformedCsvPath(csv)))
    requires PathSyntax.IsCsvPath(csv) && Inspect(mid, csv).Directory? ==> r == Saved(w, mid, Err(IsADirectory(csv)))
    requires PathSyntax.IsCsvPath(csv) && Inspect(mid, csv).Incompatible? ==> r == Saved(w, mid, Err(HeaderMismatch(csv)))
    requires PathSyntax.IsCsvPath(csv) && (Inspect(mid, csv).Absent? || Inspect(mid, csv).Compatible?) ==>
               Appends(e, w, mid, csv, now, r)
    ensures r.out.Err? ==> LedgerKept(fs, csv, r.fs)
    ensures PathSyntax.IsCsvPath(csv) ==> LedgerDecides(e, w.imagePath, fs, csv, r.out)
  {
    if PathSyntax.IsCsvPath(csv) && (Inspect(mid, csv).Absent? || Inspect(mid, csv).Compatible?) {
      assert Appends(e, w, mid, csv, now, r);
      if r.out.Ok? {
        match r.out.value { case () => }  // `()` is the only value of its type
        assert r.out == Ok(());
      }
    }
    if r.out.Err? && r.fs != mid {
      assert PathSyntax.IsCsvPath(csv) && Appends(e, w, mid, csv, now, r);
      assert r.fs.journal[..|mid.journal|] == mid.journal;
      assert r.fs.journal[|mid.journal|..] == if csv in mid.files then [] else [CreatedTable(csv)];
      assert LedgerKept(mid, csv, r.fs);
      LedgerKeptTrans(fs, mid, r.fs, csv);
    }
  }

  /** `save_all(dir, csv, ext)`: the extension must be one of three, exactly
      as written; then the eight saves in order, then the ledger row. The
      first failure ends the call and nothing is rolled back: `written` of
      the images are on disk, and the error is that of the step that failed,
      as computing it from scratch gives it. */
  method SaveAll(e: Toolkit, w: WoundImage, fs: FileSystem, dir: string, csv: string, ext: string, now: string)
    returns (r: Saved, written: nat)
    requires Consistent(e, w)
    ensures Consistent(e, r.w) && Extends(w, r.w)
    ensures Complete(w) ==> r.w == w
    ensures |fs.journal| <= |r.fs.journal| && r.fs.journal[..|fs.journal|] == fs.journal
    ensures ext !in SaveExtensions ==> r == Saved(w, fs, Err(UnsupportedExtension(ext))) && written == 0
    ensures written <= |SaveOrder| && Succeeds(e, w.imagePath, dir, ext, written)
    ensures ext in SaveExtensions && written < |SaveOrder| ==>
              && r.out == StepOutcome(e, w.imagePath, dir, ext, written)
              && r.fs.journal == fs.journal + Wrote(Targets(dir, ext)[..written])
    ensures written == |SaveOrder| ==>
              && |fs.journal| + |SaveOrder| <= |r.fs.journal|
              && r.fs.journal[..|fs.journal| + |SaveOrder|] == fs.journal + Wrote(Targets(dir, ext))
    ensures written < |SaveOrder| ==> r.fs.files == Stored(fs.files, Targets(dir, ext), Pictures(e, w.imagePath), written)
    ensures written == |SaveOrder| ==>
              r.fs.files - {csv} == Stored(fs.files, Targets(dir, ext), Pictures(e, w.imagePath), |SaveOrder|) - {csv}
    ensures written == |SaveOrder| && !PathSyntax.IsCsvPath(csv) ==> r.out == Err(MalformedCsvPath(csv))
    ensures written == |SaveOrder| && PathSyntax.IsCsvPath(csv) ==> LedgerDecides(e, w.imagePath, fs, csv, r.out)
    ensures r.out.Err? && (ext in SaveExtensions ==> csv !in Targets(dir, ext)) ==> LedgerKept(fs, csv, r.fs)
    ensures r.out.Ok? ==> written == |SaveOrder| && Landed(e, w.imagePath, fs, dir, csv, ext, now, r.fs)
  {
    if ext !in SaveExtensions {
      assert fs.journal[|fs.journal|..] == [];
      return Saved(w, fs, Err(UnsupportedExtension(ext))), 0;
    }
    r, written := SaveAccepted(e, w, fs, dir, csv, ext, now);
  }

  /** `save_all` once its extension was accepted. */
  method SaveAccepted(e: Toolkit, w: WoundImage, fs: FileSystem, dir: string, csv: string, ext: string, now: string)
    returns (r: Saved, written: nat)
    requires ext in SaveExtensions && Consistent(e, w)
    ensures Consistent(e, r.w) && Extends(w, r.w)
    ensures Complete(w) ==> r.w == w
    ensures |fs.journal| <= |r.fs.journal| && r.fs.journal[..|fs.journal|] == fs.journal
    ensures written <= |SaveOrder| && Succeeds(e, w.imagePath, dir, ext, written)
    ensures written < |SaveOrder| ==>
              && r.out == StepOutcome(e, w.imagePath, dir, ext, written)
              && r.fs.journal == fs.journal + Wrote(Targets(dir, ext)[..written])
    ensures written == |SaveOrder| ==>
              && |fs.journal| + |SaveOrder| <= |r.fs.journal|
              && r.fs.journal[..|fs.journal| + |SaveOrder|] == fs.journal + Wrote(Targets(dir, ext))
    ensures written < |SaveOrder| ==> r.fs.files == Stored(fs.files, Targets(dir, ext), Pictures(e, w.imagePath), written)
    ensures written == |SaveOrder| ==>
              r.fs.files - {csv} == Stored(fs.files, Targets(dir, ext), Pictures(e, w.imagePath), |SaveOrder|) - {csv}
    ensures written == |SaveOrder| && !PathSyntax.IsCsvPath(csv) ==> r.out == Err(MalformedCsvPath(csv))
    ensures written == |SaveOrder| && PathSyntax.IsCsvPath(csv) ==> LedgerDecides(e, w.imagePath, fs, csv, r.out)
    ensures r.out.Err? && csv !in Targets(dir, ext) ==> LedgerKept(fs, csv, r.fs)
    ensures r.out.Ok? ==> written == |SaveOrder| && Landed(e, w.imagePath, fs, dir, csv, ext, now, r.fs)
  {
    var images;
    images, written := SaveImagesBefore(e, w, fs, dir, csv, ext);
    if written < |SaveOrder| {
      return images, written;
    }
    r := WriteRow(e, w, fs, dir, csv, ext, now, images);
  }

  /** The eight saves of `save_all` ahead of the ledger at `csv`: when one
      fails, what the call returns is settled here, and the ledger is left as
      it was; when all succeed, the state the ledger step starts from. */
  method SaveImagesBefore(e: Toolkit, w: WoundImage, fs: FileSystem, dir: string, csv: string, ext: string)
    returns (r: Saved, written: nat)
    requires Consistent(e, w)
    ensures written <= |SaveOrder| && Succeeds(e, w.imagePath, dir, ext, written)
    ensures written == |SaveOrder| ==> After(e, w, fs, dir, ext, r, |SaveOrder|)
    ensures written < |SaveOrder| ==>
              && Consistent(e, r.w) && Extends(w, r.w) && (Complete(w) ==> r.w == w)
              && |fs.journal| <= |r.fs.journal| && r.fs.journal[..|fs.journal|] == fs.journal
              && r.out == StepOutcome(e, w.imagePath, dir, ext, written)
              && r.fs.journal == fs.journal + Wrote(Targets(dir, ext)[..written])
              && r.fs.files == Stored(fs.files, Targets(dir, ext), Pictures(e, w.imagePath), written)
              && r.out.Err? && (csv !in Targets(dir, ext) ==> LedgerKept(fs, csv, r.fs))
  {
    r, written := SaveImages(e, w, fs, dir, ext);
    if written < |SaveOrder| {
      assert r.fs.journal[..|fs.journal|] == fs.journal;
      if csv !in Targets(dir, ext) {
        ImagesKeepLedger(e, w, fs, dir, ext, r, written, csv);
      }
    }
  }

  /** The ledger step of `save_all`, once its eight saves succeeded. */
  method WriteRow(e: Toolkit, w: WoundImage, fs: FileSystem, dir: string, csv: string, ext: string, now: string, images: Saved)
    returns (r: Saved)
    requires ext in SaveExtensions && After(e, w, fs, dir, ext, images, |SaveOrder|)
    ensures Consistent(e, r.w) && Extends(w, r.w)
    ensures Complete(w) ==> r.w == w
    ensures |fs.journal| + |SaveOrder| <= |r.fs.journal|
    ensures r.fs.journal[..|fs.journal| + |SaveOrder|] == fs.journal + Wrote(Targets(dir, ext))
    ensures r.fs.journal[..|fs.journal|] == fs.journal
    ensures r.fs.files - {csv} == Stored(fs.files, Targets(dir, ext), Pictures(e, w.imagePath), |SaveOrder|) - {csv}
    ensures !PathSyntax.IsCsvPath(csv) ==> r.out == Err(MalformedCsvPath(csv))
    ensures r.out.Err? && csv !in Targets(dir, ext) ==> LedgerKept(fs, csv, r.fs)
    ensures PathSyntax.IsCsvPath(csv) ==> LedgerDecides(e, w.imagePath, fs, csv, r.out)
    ensures r.out.Ok? ==> Landed(e, w.imagePath, fs, dir, csv, ext, now, r.fs)
  {
    assert Targets(dir, ext)[..|SaveOrder|] == Targets(dir, ext);
    r := SavePwatToCsv(e, images.w, images.fs, csv, now);
    ExtendsTrans(w, images.w, r.w);
    assert r.fs.journal[..|images.fs.journal|] == images.fs.journal;
    assert r.fs.journal[..|fs.journal|] == r.fs.journal[..|fs.journal| + |SaveOrder|][..|fs.journal|];
    LedgerStepFiles(e, images.w, images.fs, csv, now, r);
    if r.out.Ok? {
      Landing(e, w.imagePath, fs, dir, csv, ext, now, images.w, images.fs, r);
    }
    if PathSyntax.IsCsvPath(csv) {
      TargetIsNotLedger(dir, ext, csv);
    }
    if csv !in Targets(dir, ext) {
      ImagesKeepLedger(e, w, fs, dir, ext, images, |SaveOrder|, csv);
      LedgerStep(e, images.w, fs, images.fs, csv, now, r);
    }
  }
}
