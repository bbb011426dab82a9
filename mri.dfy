/** Image loading of the inference notebook: each slice is a bitmap of its own
    (there is no side-by-side composite to split), resized to 256x256. */
module Mri {
  import opened Images

  const MriSize: nat := 256

  /** `load_image`: `load` decodes the bitmap and keeps it whole (its slice
      `image[:, :, :]` selects everything, the cast changes no value), and
      `resize` brings it to 256x256 whatever its size. Normalisation is a
      floating-point map of the values and is not modelled. */
  function LoadImage<T>(decoded: Image<T>): (r: Image<T>)
    requires Rectangular(decoded) && |decoded| > 0 && Width(decoded) > 0
    ensures HasSize(r, MriSize, MriSize)
    ensures forall i, j :: 0 <= i < MriSize && 0 <= j < MriSize ==>
      r[i][j] == decoded[SourceIndex(i, |decoded|, MriSize)][SourceIndex(j, Width(decoded), MriSize)]
  {
    Resize(decoded, MriSize, MriSize)
  }

  /** Nothing is split off: for a slice of at most 256x256, every pixel of
      the decoded image, in either half, appears in the loaded image. */
  lemma LoadImageKeepsEveryPixel<T>(decoded: Image<T>, row: nat, col: nat)
    requires Rectangular(decoded) && 0 < |decoded| <= MriSize && 0 < Width(decoded) <= MriSize
    requires row < |decoded| && col < Width(decoded)
    ensures var i, j := Preimage(row, |decoded|, MriSize), Preimage(col, Width(decoded), MriSize);
      i < MriSize && j < MriSize && LoadImage(decoded)[i][j] == decoded[row][col]
  {
    ResizeCovers(row, |decoded|, MriSize);
    ResizeCovers(col, Width(decoded), MriSize);
  }
}
