/** The external code the wound pipeline calls, as functions of their
    inputs, and the constants it passes them. */
module Engines {
  import opened Outcomes
  import opened Pixels
  import opened Overlay

  /** A `ksize` argument: kernel width and height. */
  type Kernel = (int, int)

  /** Each engine may fail (the Python call raises), except drawing on an
      in-memory copy and turning a float into text.
      - decode: cv2.imread of the path, in BGR order; a failed read makes the
        channel slicing raise, which is a failure here too.
      - segment: deepskin's wound_segmentation(img, tol); three channels per
        pixel (wound, body, background) when the split below is to succeed.
      - perilesion: get_perilesion_mask(mask, ksize).
      - imfill: hole filling of a mask.
      - score: evaluate_PWAT_score(ksize, img, mask).
      - render: contour tracing and text drawing on a copy of the image.
      - showFloat: `str` of a float, as csv.writer writes it. */
  datatype Toolkit = Toolkit(
    decode: string -> Result<Image>,
    segment: (Image, real) -> Result<Image>,
    perilesion: (Plane, Kernel) -> Result<Plane>,
    imfill: Plane -> Result<Plane>,
    score: (Kernel, Image, Image) -> Result<real>,
    render: (Image, seq<Draw>) -> Image,
    showFloat: real -> string)

  /** `tol` of the segmentation call. */
  const Tolerance: real := 0.95
  /** `ksize` of the perilesion mask. */
  const PeriKernel: Kernel := (20, 20)
  /** `ksize` of the PWAT score. */
  const ScoreKernel: Kernel := (65, 65)
  /** The clinical PWAT has no source yet: it is always this value. */
  const ClinicalPlaceholder: real := 0.0
}
