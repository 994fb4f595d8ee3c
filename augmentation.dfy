/** `BaseStrategy.cut_chain` of `strategies/base.py`: a random contiguous sub-chain. */
module Augmentation {
  import opened Constants
  import opened Slicing

  /** The range `random.randint(MIN_SIZE, MAX_SIZE)` draws the window length from. */
  predicate ValidLength(length: int) {
    MinSize <= length <= MaxSize
  }

  /** The range `random.randint(0, max(0, len(sequence) - length))` draws the start from. */
  predicate ValidStart(sequence: string, length: int, start: int) {
    0 <= start <= Max(0, |sequence| - length)
  }

  /**
   * `cut_chain`, with the two draws passed in: the slice
   * `sequence[start:start + length]`. It is the contiguous piece at `start`
   * of length min(length, |sequence|): never longer than MAX_SIZE, at least
   * MIN_SIZE long when the sequence is, and the whole sequence (from start 0)
   * when the sequence is shorter than the drawn length.
   */
  function CutChain(sequence: string, length: int, start: int): (r: string)
    requires ValidLength(length) && ValidStart(sequence, length, start)
    ensures |r| == Min(length, |sequence|)
    ensures start + |r| <= |sequence| && r == sequence[start..start + |r|]
    ensures |r| <= MaxSize
    ensures MinSize <= |sequence| ==> MinSize <= |r|
    ensures |sequence| < length ==> start == 0 && r == sequence
  {
    Slice(sequence, start, start + length)
  }
}
