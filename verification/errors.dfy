/** The ways a construction or a forward call of the multi-modality
    perceiver stops without producing an output. Each constructor names the
    Python exception site it stands for. */
module Errors {

  datatype Error =
      /** `max()` over an empty list of modality descriptors (construction). */
    | NoModalityDescriptors
      /** `torch.eye(n, n)[index]` with `index >= n`. */
    | TagIndexOutOfRange(index: nat, count: nat)
      /** Dictionary lookup of a submitted name that was never registered. */
    | UnknownModality(name: string)
      /** `b, *axis, _ = data.shape` on a tensor with fewer than two dimensions. */
    | TooFewDimensions(name: string, rank: nat)
      /** The number of middle axes differs from the registered `input_axis`. */
    | AxisCountMismatch(name: string, expected: nat, actual: nat)
      /** A second, different batch size entered the set of batch sizes. */
    | BatchSizeMismatch(name: string, expected: nat, actual: nat)
      /** The coordinate grid is built from no axes at all. */
    | EmptyPositionGrid(name: string)
      /** A zero tensor of negative width was requested for the padding. */
    | NegativePadding(name: string, size: int)
      /** `pop()` from the empty set of batch sizes: nothing was submitted. */
    | NoModalities
      /** The per-modality tensors disagree on their feature width, so they
          cannot be concatenated along the sequence axis. */
    | SegmentWidthMismatch
      /** The cross-attention block was built for another context width. */
    | ContextWidthMismatch(width: nat, expected: nat)
      /** The layer loop never ran, so the blocks used after it are unbound. */
    | NoLayers
}
