# Wound artifact pipeline — a Dafny model

This project models the core of a wound-photograph pipeline: the
`WoundImage` class, the command-line batch driver and the colour helper.

`WoundImage` is bound to one image path. It lazily computes ten artifacts:
- the decoded image;
- the segmentation;
- the wound, body and background masks;
- the masked wound;
- the peri-wound mask and the masked peri-wound;
- the predicted and the clinical PWAT score.

Each artifact is computed at most once, unless `process()` recomputes
everything. `save_all` writes eight rendered images and then appends one row
to a CSV ledger with a fixed header. `CLI.run` opens every image file of a
folder and then calls `save_all` on each one, giving each image its own output
directory and sharing one ledger among them all.

The model is functional. A `WoundImage` is an immutable record of ten
`Option` slots plus counters of the engine calls made. Each getter, update
and save takes a record and returns the record it leaves behind, together
with its value or the error it raised.

The external engines are function-valued fields of a `Toolkit` record:
- the image codec;
- deepskin's segmentation, perilesion band, hole filling and PWAT score;
- contour and text drawing;
- float printing.

The file system is a map from path to an image or to a table of rows, plus a
set of directories and a journal of the writes made, in order.

Modules, leaves first:
- `Outcomes`: `Option`, `Result` and the error kinds.
- `Strings`: `endswith`, `replace`, `split(...)[-1]`.
- `OsPath`: posix `join`, `dirname`, `basename`, and `makedirs`.
- `Rgb`: `rgb.py`.
- `PathSyntax`: the two path patterns.
- `Pixels`: channel reversal, masking, `split`/`merge`, `|`.
- `Overlay`: the drawing commands of the overlays.
- `Engines`: the toolkit and its constants.
- `Files`: the file system.
- `WoundGraph`: the slots, the getters and updates, and `process`.
- `Memoisation`: what the getters promise on fresh records.
- `Masking`: the masking bounds.
- `Persistence`: `_save_img`, the `save_*` methods, the ledger, and `save_all`.
- `Batch`: `CLI.run`.

Every getter and update satisfies one central law, `WoundGraph.Law`. From a
record that is `Consistent`, the call:
- leaves a record that is still consistent;
- keeps every slot that was filled;
- changes nothing outside the slot's dependency closure;
- returns exactly what computing the artifact from scratch from the image
  path gives, whether a value or an error;
- on success, has made engine calls accounted for by the slots it filled.

A record is `Consistent` when every filled slot holds the from-scratch value
and everything below it is filled too.

Points where the code's behaviour is easy to misread; the model follows the
code as written:
- `save_all`'s extension check is exact and case-sensitive. Only the path
  pattern ignores case.
- `process()` recomputes every artifact even when it was already computed.
- The clinical PWAT is the constant `0.0`, not an optional value.
- An empty ledger file is rejected just like one with a different header.
- `save_pwat_to_csv` creates the ledger with its header before it computes
  the scores. If a score fails, the new ledger is left holding only its
  header.
- The batch has no failure-isolation switch. The whole loop sits in one
  `try`, so the first error ends the batch.

One consequence of the naming scheme is proved as a lemma. Two input files
whose names differ only by a '.' versus a '_', such as `a.b.png` and
`a_b.png`, get the same output directory (`Batch.OutputDirsCollide`).

## Model

| member | source | states |
|---|---|---|
| Rgb.Custom | test_deepskin/src/rgb.py:24-42 | accepts exactly when all three components lie in 0..255 and then returns (r, g, b) unchanged; otherwise the out-of-range error |
| Rgb.PredefinedAreCustom | test_deepskin/src/rgb.py:17-21 | every predefined colour has byte components, and `CUSTOM` accepts it and returns an equal tuple |
| Rgb.OverlayColoursDistinct | test_deepskin/src/rgb.py:17-21 | GREEN differs from BLUE (the two semantic contours) and BLACK from WHITE (text and its border); all five constants are pairwise distinct |
| PathSyntax.MatchIffInLanguage | test_deepskin/src/wound_image.py:720-721 | the recogniser accepts a string exactly when the pattern's grammar (optional drive or '/' root, non-empty `[\w\s.-]` directory segments each followed by '/' or '\\', a file name, a dot, a listed extension in any case) generates it |
| PathSyntax.RenderMatches | test_deepskin/src/wound_image.py:720-721 | soundness: every string the grammar generates is accepted |
| PathSyntax.MatchHasShape | test_deepskin/src/wound_image.py:720-721 | completeness: every accepted string is the rendering of a well-formed shape read back from it |
| PathSyntax.AcceptedPathShape | test_deepskin/src/wound_image.py:720-721 | an accepted path has no two separators in a row, does not end in a separator, and has a ':' only as the second character of a leading drive prefix |
| PathSyntax.ImagePathExtension | test_deepskin/src/wound_image.py:720-721 | the text after the last dot of an accepted image path is png, jpg or jpeg in some letter case |
| PathSyntax.TrailingNewlineAccepted | test_deepskin/src/wound_image.py:720-722 | Python's `$` lets one trailing newline through: every accepted image path that does not already end in a newline is still accepted with one added |
| PathSyntax.EmptySegmentRejected | test_deepskin/src/wound_image.py:720-722 | an empty directory segment ("a//b.png") fails the image check |
| PathSyntax.CsvPathExtension | test_deepskin/src/wound_image.py:471-472 | the text after the last dot of an accepted ledger path is csv in some letter case |
| PathSyntax.CsvPathEnding | test_deepskin/src/wound_image.py:471-475 | an accepted ledger path ends in 'v' or 'V', or in the newline Python's `$` allows |
| PathSyntax.DriveAndUpperCaseAccepted | test_deepskin/src/wound_image.py:471-472 | a drive prefix and an upper-case extension are accepted ("C:\\pwat.CSV") |
| Strings.LastFieldOfSuffix | test_deepskin/demo/cli.py:36 | when a string ends with a separator followed by separator-free text, `split(sep)[-1]` is exactly that text |
| OsPath.BaseNameOfJoin | test_deepskin/demo/cli.py:34-35 | joining a directory with a slash-free name, `basename` gives the name back |
| OsPath.DirNameOfJoin | test_deepskin/src/wound_image.py:451-455 | joining a proper directory name with a slash-free file name, `dirname` gives the directory back, so `_save_img` creates exactly that directory |
| Pixels.ReverseChannelsInvolution | test_deepskin/src/wound_image.py:538-539 | reversing the channel axis twice gives the image back, so a load followed by `_save_img`'s reversal (line 456) cancels out |
| Pixels.MaskImage | test_deepskin/src/wound_image.py:612-618 | `bitwise_and(img, img, mask=m)` fails on a size mismatch; otherwise each pixel is kept where the mask is nonzero and is all zeros elsewhere |
| Pixels.MaskImageIdempotent | test_deepskin/src/wound_image.py:612-618 | masking twice with the same mask is masking once |
| Pixels.FullMaskKeepsImage | test_deepskin/src/wound_image.py:612-618 | a mask that is nonzero everywhere keeps the whole image |
| Pixels.OrPlane | test_deepskin/src/wound_image.py:643-644 | the bitwise or of the body and wound masks fails on a size mismatch; otherwise it is zero exactly where both masks are zero |
| Pixels.Split | test_deepskin/src/wound_image.py:594-599 | unpacking `cv2.split` into three masks succeeds exactly when every pixel has three channels, giving three planes of the image's size |
| Pixels.MergeSplit | test_deepskin/src/wound_image.py:594-599 | merging the three masks gives the segmentation back, so no pixel is lost or moved |
| Pixels.SplitMerge | test_deepskin/src/wound_image.py:594-599 | splitting a merge of three planes gives the planes back |
| Overlay.Lines | test_deepskin/src/wound_image.py:393-416 | the overlay shows the title first and the predicted score last, and the clinical line between them exactly when the clinical score is positive |
| Overlay.PwatLayout | test_deepskin/src/wound_image.py:359-436 | the PWAT overlay is the GREEN wound contour of thickness 2, then each line i at (10, 30 + 20 i), drawn WHITE with thickness 2 and then BLACK with thickness 1 |
| Overlay.PlaceholderOverlay | test_deepskin/src/wound_image.py:393-416 | with the clinical score at 0.0 the overlay is one GREEN contour and exactly four text draws, two for the title and two for the predicted score |
| WoundGraph.New | test_deepskin/src/wound_image.py:48-80 | the constructor succeeds exactly when the path passes the pattern and exists. The pattern is checked first, so a malformed existing path gets the pattern error. On success all ten slots are empty and no engine has run |
| WoundGraph.DeriveByRefs | test_deepskin/src/wound_image.py:510-521 | computing all artifacts at once fails exactly where computing them one at a time in `process()` order first fails, with the same error; on success the two agree artifact by artifact, and the clinical value is the placeholder |
| WoundGraph.ClosureIsLeastClosed | test_deepskin/src/wound_image.py:523-708 | the set of slots a getter fills is the least set that holds the slot's update group and is closed under the getters each update calls |
| WoundGraph.UpdateImage | test_deepskin/src/wound_image.py:534-540 | satisfies the law for the image slot: the decoded pixels with their channels reversed, or the decode error; it decodes again even when the slot is filled |
| WoundGraph.GetImage | test_deepskin/src/wound_image.py:523-532 | satisfies the law with no extra engine calls; on a filled slot it returns the record unchanged |
| WoundGraph.UpdateSegmentation | test_deepskin/src/wound_image.py:553-559 | satisfies the law for the segmentation: the image through its getter, then one segmentation with tolerance 0.95 |
| WoundGraph.GetSegmentation | test_deepskin/src/wound_image.py:542-551 | satisfies the law with no extra engine calls; on a filled slot it returns the record unchanged |
| WoundGraph.UpdateMasks | test_deepskin/src/wound_image.py:594-599 | one split fills the wound, body and background masks together with the three planes of the segmentation |
| WoundGraph.GetWoundMask | test_deepskin/src/wound_image.py:561-570 | satisfies the law with no extra engine calls; on a filled slot it returns the record unchanged |
| WoundGraph.GetBodyMask | test_deepskin/src/wound_image.py:572-581 | satisfies the law with no extra engine calls; on a filled slot it returns the record unchanged |
| WoundGraph.GetBgMask | test_deepskin/src/wound_image.py:583-592 | satisfies the law with no extra engine calls; on a filled slot it returns the record unchanged |
| WoundGraph.UpdateWoundMasked | test_deepskin/src/wound_image.py:612-618 | satisfies the law for the masked wound: the image masked by the wound mask, both read through their getters |
| WoundGraph.GetWoundMasked | test_deepskin/src/wound_image.py:601-610 | satisfies the law with no extra engine calls; on a filled slot it returns the record unchanged |
| WoundGraph.UpdatePeriWoundMask | test_deepskin/src/wound_image.py:631-645 | satisfies the law for the peri-wound mask: the perilesion band with kernel (20, 20), kept where the hole-filled union of body and wound is nonzero; one perilesion call and one hole filling |
| WoundGraph.GetPeriWoundMask | test_deepskin/src/wound_image.py:620-629 | satisfies the law with no extra engine calls; on a filled slot it returns the record unchanged |
| WoundGraph.UpdatePeriWoundMasked | test_deepskin/src/wound_image.py:658-665 | satisfies the law for the masked peri-wound: the image masked by the peri-wound mask |
| WoundGraph.GetPeriWoundMasked | test_deepskin/src/wound_image.py:647-656 | satisfies the law with no extra engine calls; on a filled slot it returns the record unchanged |
| WoundGraph.UpdatePredictedPwat | test_deepskin/src/wound_image.py:678-688 | satisfies the law for the predicted PWAT: the score with kernel (65, 65) of the image and the segmentation, read in that order |
| WoundGraph.GetPredictedPwat | test_deepskin/src/wound_image.py:667-676 | satisfies the law with no extra engine calls; on a filled slot it returns the record unchanged |
| WoundGraph.UpdateClinicalPwat | test_deepskin/src/wound_image.py:701-708 | sets the clinical PWAT to the placeholder 0.0 and calls no engine |
| WoundGraph.GetClinicalPwat | test_deepskin/src/wound_image.py:690-699 | returns the placeholder; on a filled slot it returns the record unchanged |
| WoundGraph.Process | test_deepskin/src/wound_image.py:510-521 | fails exactly when computing all artifacts from scratch fails, with that error; on success every slot is filled and decode, segmentation, split, perilesion, hole filling and score each ran once more, whatever was filled before; filled slots keep their values |
| Memoisation.Get | test_deepskin/src/wound_image.py:523-699 | any getter returns the from-scratch value or error; on a filled slot it returns the record untouched; it fills only slots in the closure of its slot, and all of them when it succeeds |
| Memoisation.FreshIsConsistent | test_deepskin/src/wound_image.py:68-77 | a freshly constructed record satisfies the invariant for every toolkit and accounts for no engine work |
| Memoisation.GetOnFresh | test_deepskin/src/wound_image.py:523-699 | on a fresh record any getter that succeeds has resolved exactly its slot's closure, and each engine call it made filled a slot |
| Memoisation.PredictedOnFresh | test_deepskin/src/wound_image.py:667-688 | `get_predicted_pwat` on a fresh record resolves the image, the segmentation and the score, but no mask, with one decode, one segmentation and one score |
| Memoisation.MaskOnFresh | test_deepskin/src/wound_image.py:561-599 | each mask getter on a fresh record resolves all three masks from one split, with the image and segmentation beneath them |
| Memoisation.ProcessFresh | test_deepskin/src/wound_image.py:510-521 | `process()` on a fresh record resolves all ten slots and calls decode, segmentation, split, perilesion, hole filling and score exactly once each, or fails with the from-scratch error |
| Memoisation.SameArtifacts | test_deepskin/src/wound_image.py:510-708 | two completed consistent records of the same image hold the same artifacts and differ at most in their call counters |
| Memoisation.ProcessTwice | test_deepskin/src/wound_image.py:510-521 | a second `process()` succeeds or fails as the first did, recomputes the very same artifacts, and calls each engine once more |
| Masking.WoundMaskedBounds | test_deepskin/src/wound_image.py:612-618 | the masked wound equals the image where the wound mask is nonzero and is black elsewhere |
| Masking.PeriWoundMaskBounds | test_deepskin/src/wound_image.py:631-645 | the peri-wound mask is zero wherever the hole-filled union of body and wound is zero and wherever the perilesion band is zero, and equals the band elsewhere |
| Masking.PeriWoundMaskedBounds | test_deepskin/src/wound_image.py:658-665 | the masked peri-wound equals the image where the peri-wound mask is nonzero and is black elsewhere |
| Persistence.SaveImg | test_deepskin/src/wound_image.py:439-458 | a malformed path raises and touches nothing; otherwise the missing parent directory (and only its ancestors) is created and the array is stored with its channels reversed, replacing any file there, as one more write |
| Persistence.SaveImgRoundTrip | test_deepskin/src/wound_image.py:456-457 | reading back what `_save_img` stored and reversing its channels gives the array that was saved |
| Persistence.SaveOriginal | test_deepskin/src/wound_image.py:270-277 | the save law, and on success the file holds exactly the pixels the codec decoded |
| Persistence.SaveSegmentationMask | test_deepskin/src/wound_image.py:279-286 | the save law for the segmentation: the cached slots are kept, the error is the from-scratch one, nothing is written on failure, and on success the file is `_save_img` of the segmentation |
| Persistence.SaveSegmentationSemantic | test_deepskin/src/wound_image.py:288-304 | the save law for a copy of the image with the body contour in BLUE and then the wound contour in GREEN |
| Persistence.SaveMaskWound | test_deepskin/src/wound_image.py:306-318 | the save law for a copy of the image with the wound contour in GREEN |
| Persistence.SaveMaskPeriWound | test_deepskin/src/wound_image.py:320-332 | the save law for a copy of the image with the peri-wound contour in GREEN |
| Persistence.SaveMaskedWound | test_deepskin/src/wound_image.py:334-341 | the save law for the masked wound |
| Persistence.SaveMaskedPeriWound | test_deepskin/src/wound_image.py:343-350 | the save law for the masked peri-wound |
| Persistence.SavePwatEstimation | test_deepskin/src/wound_image.py:352-437 | the save law for a copy of the image with the PWAT overlay drawn on it |
| Persistence.Save | test_deepskin/src/wound_image.py:270-437 | the save of any of the eight artifacts obeys the save law for that artifact |
| Persistence.Inspect | test_deepskin/src/wound_image.py:479-497 | classifies the ledger path. It is absent when nothing exists there, a directory when only a directory does, and compatible exactly when a table whose first row is the header exists; an empty file or another first row is incompatible |
| Persistence.AppendKeepsSchema | test_deepskin/src/wound_image.py:477-508 | a ledger the append accepted is accepted again afterwards, with exactly one more row when the row was written |
| Persistence.SavePwatToCsv | test_deepskin/src/wound_image.py:460-508 | a malformed path, a directory or a header mismatch raises and changes nothing. Otherwise a missing ledger is created with the header, and the row (path, 0.0, predicted score, time) goes after the existing rows, or the score's error is raised after the creation |
| Persistence.WriteLedger | test_deepskin/src/wound_image.py:479-508 | on an absent or compatible ledger: create or keep, then append exactly one row or raise the score's error |
| Persistence.AppendRow | test_deepskin/src/wound_image.py:499-507 | the clinical and predicted scores are read first; on success exactly one row is appended to the file's rows |
| Persistence.TargetsDistinct | test_deepskin/src/wound_image.py:257-267 | the eight paths `save_all` writes are pairwise different, so no save overwrites another |
| Persistence.TargetsEndInG | test_deepskin/src/wound_image.py:253-267 | every path `save_all` writes an image to ends in 'g', the last letter of each accepted extension |
| Persistence.TargetIsNotLedger | test_deepskin/src/wound_image.py:257-268 | no image target is an accepted ledger path, so the image saves never touch the ledger |
| Persistence.StoredTargets | test_deepskin/src/wound_image.py:260-267 | after the first n saves succeeded, each of their targets holds its artifact with channels reversed |
| Persistence.SaveImages | test_deepskin/src/wound_image.py:260-267 | the eight saves run in the fixed order. When step k fails, the error is that step's from-scratch error and steps 1..k-1 stay written; success means all eight were written |
| Persistence.SaveAll | test_deepskin/src/wound_image.py:240-268 | an extension other than exactly .png, .jpg or .jpeg raises before any write. Otherwise the eight artifacts are written in order to `<dir>/<name><ext>` and then the ledger row. The first failure stops it and nothing is rolled back: the journal lists exactly the images written, and the file map is the one before the call with exactly those images stored; after all eight, no file but the ledger changes further. The ledger step's outcome is decided by the ledger as it was before the call: a malformed path, a directory or a header mismatch raises, and otherwise the outcome is the predicted score's error or success; a ledger that was missing may also have become a directory through the image saves' directory creation, and then raises as a directory. Any failure leaves the ledger's rows as they were, with no row appended. On success every target holds its artifact and the ledger has exactly one more row |
| Persistence.SaveAccepted | test_deepskin/src/wound_image.py:257-268 | `save_all` after its extension check, with the same promises as `SaveAll`, including the file map after a partial run |
| Persistence.WriteRow | test_deepskin/src/wound_image.py:268 | after the eight saves the ledger step adds writes only after the eight images and changes no file but the ledger, whatever its outcome. A malformed path, a directory or a header mismatch at the ledger path raises, otherwise the score's outcome is returned; on failure the ledger keeps its rows and gains no row; on success the outcome is as described for `SaveAll` |
| Persistence.ImagesKeepLedger | test_deepskin/src/wound_image.py:257-267 | the image saves leave a path that is none of their targets as it was, and journal only image writes |
| Persistence.LedgerStep | test_deepskin/src/wound_image.py:477-508 | `save_pwat_to_csv` after writes that left the ledger entry alone decides as it would have on the ledger before them (a missing ledger may have become a directory meanwhile), and a failure leaves the ledger's rows unchanged with no row appended |
| Persistence.LedgerStepFiles | test_deepskin/src/wound_image.py:460-508 | `save_pwat_to_csv` changes no file other than the ledger, whatever its outcome |
| Persistence.Landing | test_deepskin/src/wound_image.py:257-268 | the ledger append after eight successful saves lands after what the ledger held before `save_all`, and leaves the eight images where they were written |
| Batch.Selected | test_deepskin/demo/cli.py:25-26 | keeps exactly the listed names ending in ".png", ".jpg" or ".jpeg", with no case folding |
| Batch.SelectedDistributes | test_deepskin/demo/cli.py:25-26 | the filter keeps the listing order: filtering a concatenation is concatenating the filtered parts |
| Batch.UpperCaseSkipped | test_deepskin/demo/cli.py:26 | the filter does not fold case: no name ending in ".PNG", ".JPG" or ".JPEG" is selected |
| Batch.ListedExtensionAccepted | test_deepskin/demo/cli.py:25-36 | for every selected file the derived extension `"." + path.split(".")[-1]` is one `save_all` accepts |
| Batch.OutputDirName | test_deepskin/demo/cli.py:34-35 | an image's output directory ends in its file name with every '.' turned into '_', so that last component holds no '.' |
| Batch.OutputDirsCollide | test_deepskin/demo/cli.py:34-35 | "s.t" and "s_t" in one folder get the same output directory |
| Batch.OpenAll | test_deepskin/demo/cli.py:19-27 | opening succeeds exactly when every selected path passes the constructor, giving one record per name in order; otherwise the error is that of the first name that fails, every earlier name having opened |
| Batch.OpenedFresh | test_deepskin/demo/cli.py:19-27 | every record the comprehension made carries its own input path and is fresh |
| Batch.Run | test_deepskin/demo/cli.py:16-58 | when any selected file fails to open, the run writes nothing and reports that error. The journal only grows. On success the shared ledger holds what it held before (or the header), then one row per selected image in listing order, each stamped by the clock. When a save fails, the batch stops there: the ledger holds what it held before, then the rows of exactly the images before the failing one |
| Batch.RunSelected | test_deepskin/demo/cli.py:19-42 | the same promise as `Run` for an already filtered list of names |
| Batch.SaveEach | test_deepskin/demo/cli.py:33-42 | saves the images in order into the shared ledger, keeping one row per saved image; the first failure ends the loop, leaving the rows of the images before it and no more |
| Batch.LedgerIsNoTarget | test_deepskin/demo/cli.py:29-42 | the shared ledger `<out>/csv/pwat_data.csv` is never one of the paths an image's save writes |
| Batch.RunStep | test_deepskin/demo/cli.py:34-42 | one pass of the loop: `save_all` of image i into its own directory with its own extension. On success that image's eight artifacts are in its output directory and exactly its row was added to the shared ledger; when it fails the ledger keeps its rows and gains none |

## Left out

- The internals of the external engines, which are left uninterpreted as fields of `Engines.Toolkit`:
  - image decoding (cv2.imread), deepskin's segmentation, perilesion band, hole filling and PWAT score;
  - contour tracing and text drawing;
  - `str` of a float.
- Floating point: scores are `real` and are only compared with `> 0`. The `:.3f` formatting is part of the drawing engine.
- The clock: `datetime.now()` is a parameter (`now`, or `clock(i)` in the batch).
- Persistence.SaveImg: a regular file on the path of the target's directory is not modelled. `os.makedirs` raises `NotADirectoryError` when an ancestor of the directory is a file, and `cv2.imwrite` fails when the directory itself is one; the model records the directory and writes the file. The errors of the saves are computed from the record alone in this model, and this one depends on the file system. Because of this, `Persistence.SaveAll` and `Batch.Run` go on writing where the code would stop at the first image.
- Persistence.WriteLedger: the same gap for a missing ledger: where the ledger's directory path runs through a regular file, `os.makedirs` or `open(path, "w")` raises, and the model creates the ledger.
- Persistence.SavePwatToCsv: the same gap as `Persistence.WriteLedger`, which it calls.
- A failed `cv2.imwrite` (for instance a directory at the target) is not modelled: the file is recorded anyway. JPEG's lossy encoding is not modelled: a file holds the array handed to the codec.
- Image files are assumed unchanged during a run: decoding (`Engines.Toolkit.decode`) is a function of the path and does not see the model's own writes. A batch whose output overwrites one of its inputs before that input is decoded is not modelled, and `Memoisation.ProcessTwice` and `Memoisation.SameArtifacts` rely on the same assumption.
- Array shapes are flattened: `Pixels.MaskImage` and `Pixels.OrPlane` compare pixel counts only, so an H×W image with a W×H mask, which OpenCV rejects, is accepted here.
- The csv module's quoting and escaping: ledger rows are sequences of fields.
- The image decoded by cv2.imread when it reads nothing (`None`): the channel slicing raises, and this is folded into the decode engine's failure.
- Regular expressions:
  - `\w` and `\s` are read as ASCII classes, and case folding is ASCII only (Python's are Unicode);
  - the `os.path` functions are the posix ones ('/' separator).
- An image file sitting at the ledger path is treated as a header mismatch. Other text files are not modelled.
- Concurrency: one `WoundImage` per caller. Concurrent writers to one ledger are not modelled.
- `log`, `show_*`, `show_all` and the temporary directory (matplotlib display, uuid file names, deletion). These are display only.
- `CLI.run`'s folder opening (`os.startfile`, `open`, `xdg-open`) and its prints: the result is returned instead of printed. The folder listing is a parameter in listing order.
- The Qt front end, the HTTP API and its environment configuration are not part of this model.
- Batch.Run: on success it states the shared ledger and that the journal only grows, not each image's files at the end. Those files are stated per image by `Batch.RunStep` as the image is saved, but a later image can overwrite them, since two images can share an output directory (`Batch.OutputDirsCollide`).
- Batch.Run: when `save_all` fails partway through the batch it states which images have their rows, but not which error the failing image raised. That error depends on the directories and ledger the earlier images left behind, and `Persistence.SaveAll` states it for a single call.
- Batch.RunSelected: like `Batch.Run`, whose body it is, it states neither each image's files at the end nor the error of a failed save, for the reasons given there.
- Batch.SaveEach: like `Batch.Run`, it states neither each image's files at the end nor the error of a failed save, for the reasons given there.
- Batch.RunStep: on failure it states that the ledger keeps its rows, not which error `save_all` raised, for the reason given for `Batch.Run`; `Persistence.SaveAll` states that error.
