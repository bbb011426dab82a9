/** Geometry of the image preprocessing of the composite notebook: splitting a
    side-by-side composite, resizing, the joint random crop, the joint
    horizontal flip, and the random jitter that combines them. Images are
    rows of pixels; a pixel is an opaque value (three channels, by the
    decoder), so every operation keeps the channel axis as it is. The random
    draws are parameters. */
module Images {
  import opened Seqs

  type Image<T> = seq<seq<T>>

  /** `img` has `h` rows of `w` pixels. */
  predicate HasSize<T>(img: Image<T>, h: nat, w: nat)
  {
    |img| == h && forall i :: 0 <= i < h ==> |img[i]| == w
  }

  function Width<T>(img: Image<T>): nat
  {
    if img == [] then 0 else |img[0]|
  }

  /** Every row has the same length, as in any tensor. */
  predicate Rectangular<T>(img: Image<T>)
  {
    HasSize(img, |img|, Width(img))
  }

  /** Columns [lo, hi) of every row: `image[:, lo:hi, :]`. */
  function Columns<T>(img: Image<T>, lo: nat, hi: nat): Image<T>
    requires Rectangular(img) && lo <= hi <= Width(img)
  {
    seq(|img|, i requires 0 <= i < |img| => img[i][lo..hi])
  }

  /** The split done by `load`: with w the width and half = w // 2, the
      target is columns [0, half) and the input is columns [half, w). Returns
      (input, target). Every column lands in exactly one of the two halves. */
  function Load<T>(image: Image<T>): (r: (Image<T>, Image<T>))
    requires Rectangular(image)
    ensures var half := Width(image) / 2;
      HasSize(r.1, |image|, half) && HasSize(r.0, |image|, Width(image) - half) &&
      forall i, j :: 0 <= i < |image| && 0 <= j < Width(image) ==>
        if j < half then r.1[i][j] == image[i][j] else r.0[i][j - half] == image[i][j]
  {
    var half := Width(image) / 2;
    (Columns(image, half, Width(image)), Columns(image, 0, half))
  }

  /** Places two images of the same height side by side. */
  function Join<T>(left: Image<T>, right: Image<T>): Image<T>
    requires |left| == |right|
  {
    seq(|left|, i requires 0 <= i < |left| => left[i] + right[i])
  }

  /** Putting the target back to the left of the input rebuilds the
      composite, so the split loses and duplicates nothing. */
  lemma LoadRoundTrip<T>(image: Image<T>)
    requires Rectangular(image)
    ensures |Load(image).1| == |Load(image).0| && Join(Load(image).1, Load(image).0) == image
  {
    var (input, target) := Load(image);
    var half := Width(image) / 2;
    forall i | 0 <= i < |image|
      ensures target[i] + input[i] == image[i]
    {
      assert target[i] == image[i][..half] && input[i] == image[i][half..];
      assert image[i][..half] + image[i][half..] == image[i];
    }
  }

  /** The source row (or column) nearest-neighbour resizing reads for output
      row `i` when `src` rows are resized to `dst`; it is always a row of the
      source. */
  function SourceIndex(i: nat, src: nat, dst: nat): (r: nat)
    requires i < dst && src > 0
    ensures r < src
  {
    QuotientBelow(i, src, dst);
    i * src / dst
  }

  lemma QuotientBelow(i: nat, src: nat, dst: nat)
    requires i < dst && src > 0
    ensures i * src / dst < src
  {
    var q := i * src / dst;
    assert dst * q <= i * src;
    MulLess(i, dst, src);
    if q >= src {
      MulAtMost(src, q, dst);
    }
  }

  lemma MulLess(a: nat, b: nat, c: nat)
    requires a < b && c > 0
    ensures a * c < b * c
  {
  }

  lemma MulAtMost(a: nat, b: nat, c: nat)
    requires a <= b
    ensures a * c <= b * c
  {
  }

  /** Resizing to h x w: every output pixel is the source pixel at a row
      and a column that depend only on the two sizes. The sampling grid of
      the library is not modelled; only the sizes and that shared grid are
      claimed. */
  function Resize<T>(img: Image<T>, h: nat, w: nat): (r: Image<T>)
    requires Rectangular(img) && |img| > 0 && Width(img) > 0
    ensures HasSize(r, h, w)
    ensures forall i, j :: 0 <= i < h && 0 <= j < w ==>
      r[i][j] == img[SourceIndex(i, |img|, h)][SourceIndex(j, Width(img), w)]
  {
    seq(h, i requires 0 <= i < h =>
      seq(w, j requires 0 <= j < w => img[SourceIndex(i, |img|, h)][SourceIndex(j, Width(img), w)]))
  }

  /** The first output row that reads source row `c` when `src` rows are
      enlarged to `dst`: ceil(c * dst / src). */
  function Preimage(c: nat, src: nat, dst: nat): nat
    requires src > 0
  {
    (c * dst + src - 1) / src
  }

  /** a / b is q exactly when q * b <= a < q * b + b. */
  lemma QuotientIs(a: nat, b: nat, q: nat)
    requires b > 0 && q * b <= a < q * b + b
    ensures a / b == q
  {
    var d := a / b;
    assert b * d <= a < b * d + b;
    if d > q {
      MulAtMost(q + 1, d, b);
    } else if d < q {
      MulAtMost(d + 1, q, b);
    }
  }

  /** Enlarging never drops a source row: when src <= dst, every source row
      c is read by output row Preimage(c, src, dst). */
  lemma ResizeCovers(c: nat, src: nat, dst: nat)
    requires 0 < src <= dst && c < src
    ensures Preimage(c, src, dst) < dst
    ensures SourceIndex(Preimage(c, src, dst), src, dst) == c
  {
    var p := Preimage(c, src, dst);
    assert src * p <= c * dst + src - 1 && c * dst <= src * p;
    MulAtMost(c + 1, src, dst);
    assert src * p < dst * src;
    if p >= dst {
      MulAtMost(dst, p, src);
    }
    QuotientIs(p * src, dst, c);
  }

  /** `resize`: both images of a pair are resized to the same size. */
  function ResizePair<T>(input: Image<T>, target: Image<T>, h: nat, w: nat): (r: (Image<T>, Image<T>))
    requires Rectangular(input) && |input| > 0 && Width(input) > 0
    requires Rectangular(target) && |target| > 0 && Width(target) > 0
    ensures HasSize(r.0, h, w) && HasSize(r.1, h, w)
  {
    (Resize(input, h, w), Resize(target, h, w))
  }

  const ImgHeight: nat := 256
  const ImgWidth: nat := 256

  /** The offset the library's random crop takes along an axis of length
      `size` for a crop of length `crop`: the uniform draw modulo the number
      of possible positions. */
  function CropOffset(draw: nat, size: nat, crop: nat): (r: nat)
    requires crop <= size
    ensures r <= size - crop
  {
    draw % (size - crop + 1)
  }

  /** The h x w window of `img` whose top-left corner is (top, left). */
  function Window<T>(img: Image<T>, top: nat, left: nat, h: nat, w: nat): Image<T>
    requires Rectangular(img) && top + h <= |img| && left + w <= Width(img)
  {
    seq(h, i requires 0 <= i < h => img[top + i][left .. left + w])
  }

  datatype CropResult<T> =
    | Cropped(input: Image<T>, target: Image<T>)
    | StackMismatch   // the two images cannot be stacked: their sizes differ
    | TooSmall        // the stack is smaller than the crop

  /** `random_crop`: the two images are stacked and one 256x256 window of
      the stack is taken, so both images are cut at the same offset. The
      stack and channel axes have a single possible offset, 0. */
  function RandomCrop<T>(input: Image<T>, target: Image<T>, drawY: nat, drawX: nat): (r: CropResult<T>)
    requires Rectangular(input) && Rectangular(target)
    ensures r.StackMismatch? <==> |input| != |target| || Width(input) != Width(target)
    ensures r.Cropped? <==>
      |input| == |target| && Width(input) == Width(target) && |input| >= ImgHeight && Width(input) >= ImgWidth
    ensures r.Cropped? ==>
      var top, left := CropOffset(drawY, |input|, ImgHeight), CropOffset(drawX, Width(input), ImgWidth);
      HasSize(r.input, ImgHeight, ImgWidth) && HasSize(r.target, ImgHeight, ImgWidth) &&
      forall i, j :: 0 <= i < ImgHeight && 0 <= j < ImgWidth ==>
        r.input[i][j] == input[top + i][left + j] && r.target[i][j] == target[top + i][left + j]
  {
    if |input| != |target| || Width(input) != Width(target) then StackMismatch
    else if |input| < ImgHeight || Width(input) < ImgWidth then TooSmall
    else
      var top, left := CropOffset(drawY, |input|, ImgHeight), CropOffset(drawX, Width(input), ImgWidth);
      Cropped(Window(input, top, left, ImgHeight, ImgWidth), Window(target, top, left, ImgHeight, ImgWidth))
  }

  /** `flip_left_right`: every row reversed, so pixel j of a row becomes
      pixel |row| - 1 - j. */
  function FlipLeftRight<T>(img: Image<T>): (r: Image<T>)
    ensures |r| == |img|
    ensures forall i :: 0 <= i < |img| ==> |r[i]| == |img[i]|
    ensures forall i, j :: 0 <= i < |img| && 0 <= j < |img[i]| ==> r[i][j] == img[i][|img[i]| - 1 - j]
  {
    seq(|img|, i requires 0 <= i < |img| => Reverse(img[i]))
  }

  /** On a w-wide image, pixel j of a flipped row is pixel w - 1 - j of the
      original, and flipping twice gives the image back. */
  lemma FlipMirrors<T>(img: Image<T>, h: nat, w: nat)
    requires HasSize(img, h, w)
    ensures HasSize(FlipLeftRight(img), h, w)
    ensures forall i, j :: 0 <= i < h && 0 <= j < w ==> FlipLeftRight(img)[i][j] == img[i][w - 1 - j]
    ensures FlipLeftRight(FlipLeftRight(img)) == img
  {
    forall i | 0 <= i < h
      ensures FlipLeftRight(FlipLeftRight(img))[i] == img[i]
    {
      ReverseReverse(img[i]);
    }
  }

  const JitterSize: nat := 286

  /** The column of the 286x286 resized image that output column j of the
      jitter reads, for crop offset `left`. */
  function JitterColumn(j: nat, left: nat, mirror: bool): (r: nat)
    requires j < ImgWidth
    ensures left <= r < left + ImgWidth
  {
    if mirror then left + (ImgWidth - 1 - j) else left + j
  }

  /** The crop-and-flip half of the jitter, on a pair already resized to
      286x286: one window at one offset for both, one flip decision for both. */
  function CropAndFlip<T>(big: Image<T>, bigTarget: Image<T>, drawY: nat, drawX: nat, mirror: bool): (r: (Image<T>, Image<T>))
    requires HasSize(big, JitterSize, JitterSize) && HasSize(bigTarget, JitterSize, JitterSize)
    ensures HasSize(r.0, ImgHeight, ImgWidth) && HasSize(r.1, ImgHeight, ImgWidth)
    ensures var top, left := CropOffset(drawY, JitterSize, ImgHeight), CropOffset(drawX, JitterSize, ImgWidth);
      top <= 30 && left <= 30 &&
      forall i, j :: 0 <= i < ImgHeight && 0 <= j < ImgWidth ==>
        r.0[i][j] == big[top + i][JitterColumn(j, left, mirror)] &&
        r.1[i][j] == bigTarget[top + i][JitterColumn(j, left, mirror)]
  {
    var crop := RandomCrop(big, bigTarget, drawY, drawX);
    var top, left := CropOffset(drawY, JitterSize, ImgHeight), CropOffset(drawX, JitterSize, ImgWidth);
    FlippedWindow(crop.input, big, top, left, mirror);
    FlippedWindow(crop.target, bigTarget, top, left, mirror);
    (MaybeFlip(crop.input, mirror), MaybeFlip(crop.target, mirror))
  }

  function MaybeFlip<T>(img: Image<T>, mirror: bool): Image<T>
  {
    if mirror then FlipLeftRight(img) else img
  }

  /** A window cut at (top, left) and then flipped or not reads column
      JitterColumn(j, left, mirror) of the image it was cut from. */
  lemma FlippedWindow<T>(crop: Image<T>, big: Image<T>, top: nat, left: nat, mirror: bool)
    requires HasSize(big, JitterSize, JitterSize) && top <= 30 && left <= 30
    requires HasSize(crop, ImgHeight, ImgWidth)
    requires forall i, j :: 0 <= i < ImgHeight && 0 <= j < ImgWidth ==> crop[i][j] == big[top + i][left + j]
    ensures HasSize(MaybeFlip(crop, mirror), ImgHeight, ImgWidth)
    ensures forall i, j :: 0 <= i < ImgHeight && 0 <= j < ImgWidth ==>
      MaybeFlip(crop, mirror)[i][j] == big[top + i][JitterColumn(j, left, mirror)]
  {
    if mirror {
      FlipMirrors(crop, ImgHeight, ImgWidth);
    }
  }

  /** `random_jitter`: resize both images to 286x286, crop one 256x256
      window of the pair, and, when the coin (`mirror`, standing for the
      uniform draw being above 0.5) says so, flip both. Both come out
      256x256; the offset lies in [0, 30] x [0, 30]; the same offset and the
      same flip decision are applied to both images. */
  function RandomJitter<T>(input: Image<T>, target: Image<T>, drawY: nat, drawX: nat, mirror: bool): (r: (Image<T>, Image<T>))
    requires Rectangular(input) && |input| > 0 && Width(input) > 0
    requires Rectangular(target) && |target| > 0 && Width(target) > 0
    ensures HasSize(r.0, ImgHeight, ImgWidth) && HasSize(r.1, ImgHeight, ImgWidth)
    ensures var top, left := CropOffset(drawY, JitterSize, ImgHeight), CropOffset(drawX, JitterSize, ImgWidth);
      top <= 30 && left <= 30 &&
      forall i, j :: 0 <= i < ImgHeight && 0 <= j < ImgWidth ==>
        r.0[i][j] == Resize(input, JitterSize, JitterSize)[top + i][JitterColumn(j, left, mirror)] &&
        r.1[i][j] == Resize(target, JitterSize, JitterSize)[top + i][JitterColumn(j, left, mirror)]
  {
    var (big, bigTarget) := ResizePair(input, target, JitterSize, JitterSize);
    CropAndFlip(big, bigTarget, drawY, drawX, mirror)
  }

  /** The row of an h-row original that output row i of the jitter reads. */
  function JitterRow(i: nat, drawY: nat, h: nat): (r: nat)
    requires i < ImgHeight && h > 0
    ensures r < h
  {
    SourceIndex(CropOffset(drawY, JitterSize, ImgHeight) + i, h, JitterSize)
  }

  /** The column of a w-column original that output column j of the jitter
      reads. */
  function JitterCol(j: nat, drawX: nat, mirror: bool, w: nat): (r: nat)
    requires j < ImgWidth && w > 0
    ensures r < w
  {
    SourceIndex(JitterColumn(j, CropOffset(drawX, JitterSize, ImgWidth), mirror), w, JitterSize)
  }

  /** The correspondence the jitter preserves: when the two images have the
      same size, every output pixel of both images comes from the same
      position of the originals, so a marker placed at one position in both
      images ends up at one position in both outputs. */
  lemma JitterCorrespondence<T>(input: Image<T>, target: Image<T>, drawY: nat, drawX: nat, mirror: bool, i: nat, j: nat)
    requires Rectangular(input) && |input| > 0 && Width(input) > 0
    requires HasSize(target, |input|, Width(input))
    requires i < ImgHeight && j < ImgWidth
    ensures var row, col := JitterRow(i, drawY, |input|), JitterCol(j, drawX, mirror, Width(input));
      RandomJitter(input, target, drawY, drawX, mirror).0[i][j] == input[row][col] &&
      RandomJitter(input, target, drawY, drawX, mirror).1[i][j] == target[row][col]
  {
  }

  /** `load_image_test`: split the composite, then resize both halves to
      256x256. The target reads the left half and the input the right half
      of the composite, at the same rows, with each half's columns sampled
      by its own width. */
  function LoadImageTest<T>(image: Image<T>): (r: (Image<T>, Image<T>))
    requires Rectangular(image) && |image| > 0 && Width(image) >= 2
    ensures HasSize(r.0, ImgHeight, ImgWidth) && HasSize(r.1, ImgHeight, ImgWidth)
    ensures var half := Width(image) / 2;
      forall i, j :: 0 <= i < ImgHeight && 0 <= j < ImgWidth ==>
        var row := SourceIndex(i, |image|, ImgHeight);
        r.1[i][j] == image[row][SourceIndex(j, half, ImgWidth)] &&
        r.0[i][j] == image[row][half + SourceIndex(j, Width(image) - half, ImgWidth)]
  {
    var (input, target) := Load(image);
    ResizePair(input, target, ImgHeight, ImgWidth)
  }

  /** `load_image_train`: split the composite, then jitter the pair; both
      come out 256x256. */
  function LoadImageTrain<T>(image: Image<T>, drawY: nat, drawX: nat, mirror: bool): (r: (Image<T>, Image<T>))
    requires Rectangular(image) && |image| > 0 && Width(image) >= 2
    ensures HasSize(r.0, ImgHeight, ImgWidth) && HasSize(r.1, ImgHeight, ImgWidth)
  {
    var (input, target) := Load(image);
    RandomJitter(input, target, drawY, drawX, mirror)
  }

  /** Every output pixel of `load_image_train` comes from its own half of
      the composite: the target from the left half, the input from the
      right half, at the same row; each half is stretched by its own width. */
  lemma LoadImageTrainPixel<T>(image: Image<T>, drawY: nat, drawX: nat, mirror: bool, i: nat, j: nat)
    requires Rectangular(image) && |image| > 0 && Width(image) >= 2
    requires i < ImgHeight && j < ImgWidth
    ensures var half := Width(image) / 2;
      var r := LoadImageTrain(image, drawY, drawX, mirror);
      var row := JitterRow(i, drawY, |image|);
      r.1[i][j] == image[row][JitterCol(j, drawX, mirror, half)] &&
      r.0[i][j] == image[row][half + JitterCol(j, drawX, mirror, Width(image) - half)]
  {
    var (input, target) := Load(image);
    var half := Width(image) / 2;
    assert Width(target) == half && Width(input) == Width(image) - half;
    var row := JitterRow(i, drawY, |image|);
    var (tc, ic) := (JitterCol(j, drawX, mirror, half), JitterCol(j, drawX, mirror, Width(image) - half));
    assert RandomJitter(input, target, drawY, drawX, mirror).1[i][j] == target[row][tc];
    assert RandomJitter(input, target, drawY, drawX, mirror).0[i][j] == input[row][ic];
  }
}
