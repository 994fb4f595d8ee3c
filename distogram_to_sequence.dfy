/**
 * The data side of `strategies/distogram_to_sequence.py`: building one
 * training example (window, held-out target, one-hot ground truth, the
 * target's row of distances) and the weight and target-index computation at
 * the start of `forward`.
 *
 * MAX_TRAINING_SIZE is a parameter `maxLen`. The padded tensor that
 * `padd_sequence` returns is an input array; the window bounds that
 * `get_augmentation_indices` draws in training mode are inputs.
 */
module DistogramToSequence {
  import opened Wrappers
  import opened Constants
  import opened Slicing
  import opened Geometry

  /** `vocab_size`: one class per standard letter plus class 0 for padding. */
  const VocabSize: nat := |AminoAcids| + 1

  /** The exceptions `load_inputs_and_ground_truth` can raise, named by their cause. */
  datatype Error =
    | TargetOutOfRange    // IndexError at sequence_tensor[len(sequence) - 1]
    | ClassOutOfRange     // F.one_hot: the code is not in [0, vocab_size)
    | MissingCoordinates  // get_distogram(None): len(None) raises TypeError
    | NoDistogram         // get_distogram returned None and None[start:end] raises TypeError
    | EmptyWindow         // [-1] of an empty distogram block raises IndexError
    | ConstantRow         // max == min: the normalisation divides 0 by 0
    | RowTooLong          // np.pad with a negative width raises ValueError

  /** One training example: the target's row of distances and the one-hot ground truth. */
  datatype Example = Example(distances: seq<real>, groundTruth: seq<real>)

  lemma VocabSizeIs21()
    ensures VocabSize == 21
  {
    AminoAcidsDistinct();
  }

  /** `F.one_hot(cls, num_classes)`: a 1 at position `cls`, 0 elsewhere; out of range raises. */
  function OneHot(cls: int, numClasses: nat): (r: Result<seq<real>, Error>)
    ensures r.Success? <==> 0 <= cls < numClasses
    ensures r.Failure? ==> r.error == ClassOutOfRange
    ensures r.Success? ==> |r.value| == numClasses &&
                           forall k :: 0 <= k < numClasses ==> r.value[k] == if k == cls then 1.0 else 0.0
  {
    if 0 <= cls < numClasses then Success(seq(numClasses, k requires 0 <= k < numClasses => if k == cls then 1.0 else 0.0))
    else Failure(ClassOutOfRange)
  }

  /** The window `[start, end)`: drawn in training mode, `[0, MAX_TRAINING_SIZE)` in evaluation mode. */
  function Window(training: bool, augStart: nat, augEnd: nat, maxLen: nat): (w: (nat, nat))
    ensures !training ==> w == (0, maxLen)
    ensures training ==> w == (augStart, augEnd)
  {
    if training then (augStart, augEnd) else (0, maxLen)
  }

  /** In evaluation mode the window is the first MAX_TRAINING_SIZE residues, clipped to the sequence. */
  lemma EvalWindowIsPrefix(sequence: string, maxLen: nat)
    ensures var w := Window(false, 0, 0, maxLen);
      Slice(sequence, w.0, w.1) == sequence[..Min(maxLen, |sequence|)]
  {
  }

  /** The tensor slot `len(window) - 1`, with Python's wrap-around for -1. */
  function TargetSlot(windowLength: nat, tensorLength: nat): (r: Option<nat>)
    ensures 0 < windowLength <= tensorLength ==> r == Some(windowLength - 1)
    ensures windowLength == 0 && 0 < tensorLength ==> r == Some(tensorLength - 1)
    ensures windowLength > tensorLength ==> r == None
    ensures tensorLength == 0 ==> r == None
  {
    WrapIndex(windowLength - 1, tensorLength)
  }

  /**
   * `distogram[start:end, start:end][-1]`: the last row of the windowed
   * block, i.e. the distances from the window's last residue to every
   * residue of the window.
   */
  function LastRow(d: Matrix, start: nat, end: nat): (r: Result<seq<real>, Error>)
    requires IsSquare(d, |d|)
    ensures var m := |Slice(d, start, end)|;
      (r.Failure? <==> m == 0) && (r.Failure? ==> r.error == EmptyWindow) &&
      (r.Success? ==> |r.value| == m && forall k :: 0 <= k < m ==> r.value[k] == d[start + m - 1][start + k])
  {
    var rows := Slice(d, start, end);
    var block := seq(|rows|, i requires 0 <= i < |rows| => Slice(rows[i], start, end));
    if |block| == 0 then Failure(EmptyWindow) else Success(block[|block| - 1])
  }

  function MinOf(s: seq<real>): (m: real)
    requires |s| > 0
    ensures m in s && forall k :: 0 <= k < |s| ==> m <= s[k]
  {
    if |s| == 1 then s[0] else var m := MinOf(s[..|s| - 1]); if s[|s| - 1] < m then s[|s| - 1] else m
  }

  function MaxOf(s: seq<real>): (m: real)
    requires |s| > 0
    ensures m in s && forall k :: 0 <= k < |s| ==> s[k] <= m
  {
    if |s| == 1 then s[0] else var m := MaxOf(s[..|s| - 1]); if s[|s| - 1] > m then s[|s| - 1] else m
  }

  /** One normalised value. */
  function Scaled(x: real, lo: real, hi: real): real
    requires lo != hi
  {
    (x - lo) / (hi - lo)
  }

  /** `(d - d.min()) / (d.max() - d.min())`; when max == min this is 0/0. */
  function Normalize(s: seq<real>): (r: Result<seq<real>, Error>)
    requires |s| > 0
    ensures r.Failure? <==> MaxOf(s) == MinOf(s)
    ensures r.Failure? ==> r.error == ConstantRow
    ensures r.Success? ==> |r.value| == |s| && forall k :: 0 <= k < |s| ==> 0.0 <= r.value[k] <= 1.0
  {
    var lo, hi := MinOf(s), MaxOf(s);
    if hi == lo then Failure(ConstantRow)
    else
      var v := seq(|s|, k requires 0 <= k < |s| => Scaled(s[k], lo, hi));
      assert forall k :: 0 <= k < |s| ==> 0.0 <= v[k] <= 1.0 by {
        forall k | 0 <= k < |s| ensures 0.0 <= v[k] <= 1.0 {
          DivisionBounds(s[k] - lo, hi - lo);
        }
      }
      Success(v)
  }

  /**
   * When max > min, the smallest entry goes to 0, the largest to 1, and the
   * order of entries is kept.
   */
  lemma NormalizeRange(s: seq<real>)
    requires |s| > 0 && MinOf(s) < MaxOf(s)
    ensures forall k :: 0 <= k < |s| && s[k] == MinOf(s) ==> Normalize(s).value[k] == 0.0
    ensures forall k :: 0 <= k < |s| && s[k] == MaxOf(s) ==> Normalize(s).value[k] == 1.0
    ensures forall i, j :: 0 <= i < |s| && 0 <= j < |s| && s[i] <= s[j] ==> Normalize(s).value[i] <= Normalize(s).value[j]
  {
    var lo, hi := MinOf(s), MaxOf(s);
    var r := Normalize(s).value;
    forall k | 0 <= k < |s| && s[k] == lo ensures r[k] == 0.0 {
      NormalizeAt(s, k);
      ScaledEnds(lo, hi);
    }
    forall k | 0 <= k < |s| && s[k] == hi ensures r[k] == 1.0 {
      NormalizeAt(s, k);
      ScaledEnds(lo, hi);
    }
    forall i, j | 0 <= i < |s| && 0 <= j < |s| && s[i] <= s[j] ensures r[i] <= r[j] {
      NormalizeAt(s, i);
      NormalizeAt(s, j);
      ScaledMonotone(s[i], s[j], lo, hi);
    }
  }

  lemma ScaledEnds(lo: real, hi: real)
    requires lo < hi
    ensures Scaled(lo, lo, hi) == 0.0 && Scaled(hi, lo, hi) == 1.0
  {
    var w := hi - lo;
    assert w / w == 1.0;
  }

  lemma ScaledMonotone(x: real, y: real, lo: real, hi: real)
    requires x <= y && lo < hi
    ensures Scaled(x, lo, hi) <= Scaled(y, lo, hi)
  {
    DivisionMonotone(x - lo, y - lo, hi - lo);
  }

  lemma NormalizeAt(s: seq<real>, k: nat)
    requires k < |s| && MinOf(s) < MaxOf(s)
    ensures Normalize(s).value[k] == Scaled(s[k], MinOf(s), MaxOf(s))
  {
  }

  lemma DivisionBounds(x: real, y: real)
    requires 0.0 <= x <= y && 0.0 < y
    ensures 0.0 <= x / y <= 1.0
  {
  }

  lemma DivisionMonotone(x: real, z: real, y: real)
    requires x <= z && 0.0 < y
    ensures x / y <= z / y
  {
  }

  /** `np.pad(d, (0, n - len(d)))`: right-pads with zeros to length n; a negative width raises. */
  function PadTo(s: seq<real>, n: nat): (r: Result<seq<real>, Error>)
    ensures r.Failure? <==> |s| > n
    ensures r.Failure? ==> r.error == RowTooLong
    ensures r.Success? ==> |r.value| == n &&
                           (forall k :: 0 <= k < |s| ==> r.value[k] == s[k]) &&
                           forall k :: |s| <= k < n ==> r.value[k] == 0.0
  {
    if |s| > n then Failure(RowTooLong) else Success(s + seq(n - |s|, _ => 0.0))
  }

  /** The row as it is padded: normalised when `normalize_distogram` is set, raw otherwise. */
  function ScaleRow(row: seq<real>, normalize: bool): (r: Result<seq<real>, Error>)
    requires |row| > 0
    ensures r.Success? ==> |r.value| == |row|
    ensures r.Success? && normalize ==> forall k :: 0 <= k < |row| ==> 0.0 <= r.value[k] <= 1.0
    ensures !normalize ==> r == Success(row)
  {
    if normalize then Normalize(row) else Success(row)
  }

  /** Lines 45-49 of `load_inputs_and_ground_truth`: distogram, last row, normalisation, padding. */
  function Distances(coords: Option<seq<Point>>, sqrt: real -> real, start: nat, end: nat,
                     normalize: bool, maxLen: nat): (r: Result<seq<real>, Error>)
    ensures coords.None? ==> r == Failure(MissingCoordinates)
    ensures coords.Some? && Distogram(coords.value, sqrt).None? ==> r == Failure(NoDistogram)
    ensures r.Success? ==> |r.value| == maxLen
  {
    match coords
    case None => Failure(MissingCoordinates)
    case Some(c) =>
      match TargetRow(c, sqrt, start, end)
      case Failure(e) => Failure(e)
      case Success(row) =>
        match ScaleRow(row, normalize)
        case Failure(e) => Failure(e)
        case Success(values) => PadTo(values, maxLen)
  }

  /**
   * A successful row: the target's distances to every residue of the
   * window, min-max normalised when `normalize` is set (the row then was not
   * constant and every value is in [0, 1]), then zeros up to
   * MAX_TRAINING_SIZE.
   */
  lemma DistancesRow(coords: Option<seq<Point>>, sqrt: real -> real, start: nat, end: nat,
                     normalize: bool, maxLen: nat)
    requires Distances(coords, sqrt, start, end, normalize, maxLen).Success?
    ensures var r := Distances(coords, sqrt, start, end, normalize, maxLen).value;
      var c := coords.value; var m := |Slice(c, start, end)|;
      && 0 < m <= maxLen
      && (forall k :: m <= k < maxLen ==> r[k] == 0.0)
      && (!normalize ==> forall k :: 0 <= k < m ==> r[k] == Distance(c[start + m - 1], c[start + k], sqrt))
      && TargetRow(c, sqrt, start, end).Success?
      && (normalize ==> var row := TargetRow(c, sqrt, start, end).value;
            && MinOf(row) < MaxOf(row)
            && (forall k :: 0 <= k < m ==> r[k] == Scaled(row[k], MinOf(row), MaxOf(row)))
            && (forall k :: 0 <= k < maxLen ==> 0.0 <= r[k] <= 1.0))
  {
    var c := coords.value;
    var row := TargetRow(c, sqrt, start, end).value;
    var values := ScaleRow(row, normalize).value;
    assert Distances(coords, sqrt, start, end, normalize, maxLen) == PadTo(values, maxLen);
    if normalize {
      assert MaxOf(row) != MinOf(row);
      MinMaxOrdered(row);
      forall k | 0 <= k < |row| ensures values[k] == Scaled(row[k], MinOf(row), MaxOf(row)) {
        NormalizeAt(row, k);
      }
    }
  }

  /** The least entry of a row is at most its greatest. */
  lemma MinMaxOrdered(s: seq<real>)
    requires |s| > 0
    ensures MinOf(s) <= MaxOf(s)
  {
    assert MinOf(s) <= s[0] <= MaxOf(s);
  }

  /**
   * Once the distogram exists, an empty window raises; after that a window
   * longer than MAX_TRAINING_SIZE fails, and with normalisation so does a
   * constant row; nothing else fails.
   */
  lemma DistancesErrors(coords: Option<seq<Point>>, sqrt: real -> real, start: nat, end: nat,
                        normalize: bool, maxLen: nat)
    requires coords.Some? && Distogram(coords.value, sqrt).Some?
    ensures var r := Distances(coords, sqrt, start, end, normalize, maxLen);
      var m := |Slice(coords.value, start, end)|;
      && (m == 0 ==> r == Failure(EmptyWindow))
      && (0 < m && !normalize ==> (r.Failure? <==> maxLen < m))
      && (0 < m && r.Failure? ==> r.error == RowTooLong || (normalize && r.error == ConstantRow))
      && (0 < m && normalize ==> var row := TargetRow(coords.value, sqrt, start, end).value;
            (r.Failure? <==> maxLen < m || MinOf(row) == MaxOf(row)))
  {
    var c := coords.value;
    var t := TargetRow(c, sqrt, start, end);
    if t.Success? {
      assert Distances(coords, sqrt, start, end, normalize, maxLen) ==
        match ScaleRow(t.value, normalize)
        case Failure(e) => Failure(e)
        case Success(values) => PadTo(values, maxLen);
    }
  }

  /** Lines 45-46: the distogram of the coordinates, and its last row within the window. */
  function TargetRow(c: seq<Point>, sqrt: real -> real, start: nat, end: nat): (r: Result<seq<real>, Error>)
    ensures Distogram(c, sqrt).None? ==> r == Failure(NoDistogram)
    ensures Distogram(c, sqrt).Some? ==> (r.Failure? <==> |Slice(c, start, end)| == 0)
    ensures Distogram(c, sqrt).Some? && r.Failure? ==> r.error == EmptyWindow
    ensures r.Success? ==> var m := |Slice(c, start, end)|;
      0 < m && |r.value| == m &&
      forall k :: 0 <= k < m ==> r.value[k] == Distance(c[start + m - 1], c[start + k], sqrt)
  {
    match Distogram(c, sqrt)
    case None => Failure(NoDistogram)
    case Some(d) =>
      LastRowOfDistogram(c, sqrt, start, end);
      LastRow(d, start, end)
  }

  /** The last row of a distogram's window holds the distances from the window's last point. */
  lemma LastRowOfDistogram(c: seq<Point>, sqrt: real -> real, start: nat, end: nat)
    requires Distogram(c, sqrt).Some?
    ensures var r := LastRow(Distogram(c, sqrt).value, start, end); var m := |Slice(c, start, end)|;
      && (r.Failure? <==> m == 0)
      && (r.Failure? ==> r.error == EmptyWindow)
      && (r.Success? ==> |r.value| == m && forall k :: 0 <= k < m ==> r.value[k] == Distance(c[start + m - 1], c[start + k], sqrt))
  {
    LastRowOfDistances(Distogram(c, sqrt).value, c, sqrt, start, end);
  }

  /** The same, for any matrix whose entries are the pairwise distances of `c`. */
  lemma LastRowOfDistances(d: Matrix, c: seq<Point>, sqrt: real -> real, start: nat, end: nat)
    requires IsSquare(d, |c|)
    requires forall i, j :: 0 <= i < |c| && 0 <= j < |c| ==> d[i][j] == Distance(c[i], c[j], sqrt)
    ensures var r := LastRow(d, start, end); var m := |Slice(c, start, end)|;
      && (r.Failure? <==> m == 0)
      && (r.Failure? ==> r.error == EmptyWindow)
      && (r.Success? ==> |r.value| == m && forall k :: 0 <= k < m ==> r.value[k] == Distance(c[start + m - 1], c[start + k], sqrt))
  {
    var m := |Slice(c, start, end)|;
    assert |Slice(d, start, end)| == m;
    var r := LastRow(d, start, end);
    if r.Success? {
      forall k | 0 <= k < m ensures r.value[k] == Distance(c[start + m - 1], c[start + k], sqrt) {
        assert r.value[k] == d[start + m - 1][start + k];
      }
    }
  }

  /**
   * `load_inputs_and_ground_truth`: slices the window, reads the code at
   * slot `len(window) - 1` of the padded tensor as the one-hot ground truth,
   * overwrites that slot with 0 in place, and builds the target's distance
   * row. Each exception of the source is a `Failure`; the tensor is changed
   * only once the ground truth has been read.
   */
  method LoadInputsAndGroundTruth(sequence: string, coords: Option<seq<Point>>, training: bool,
                                  augStart: nat, augEnd: nat, maxLen: nat, sequenceTensor: array<int>,
                                  normalizeDistogram: bool, sqrt: real -> real)
    returns (r: Result<Example, Error>)
    modifies sequenceTensor
    ensures var w := Window(training, augStart, augEnd, maxLen);
      var slot := TargetSlot(|Slice(sequence, w.0, w.1)|, sequenceTensor.Length);
      if slot.None? then
        r == Failure(TargetOutOfRange) && sequenceTensor[..] == old(sequenceTensor[..])
      else if OneHot(old(sequenceTensor[slot.value]), VocabSize).Failure? then
        r == Failure(ClassOutOfRange) && sequenceTensor[..] == old(sequenceTensor[..])
      else
        sequenceTensor[..] == old(sequenceTensor[..])[slot.value := 0] &&
        match Distances(coords, sqrt, w.0, w.1, normalizeDistogram, maxLen)
        case Failure(e) => r == Failure(e)
        case Success(d) => r == Success(Example(d, OneHot(old(sequenceTensor[slot.value]), VocabSize).value))
  {
    var (start, end) := Window(training, augStart, augEnd, maxLen);
    var window := Slice(sequence, start, end);
    var slot := TargetSlot(|window|, sequenceTensor.Length);
    if slot.None? {
      return Failure(TargetOutOfRange);
    }
    var groundTruth := OneHot(sequenceTensor[slot.value], VocabSize);
    if groundTruth.Failure? {
      return Failure(ClassOutOfRange);
    }
    sequenceTensor[slot.value] := 0;
    var distances := Distances(coords, sqrt, start, end, normalizeDistogram, maxLen);
    if distances.Failure? {
      return Failure(distances.error);
    }
    return Success(Example(distances.value, groundTruth.value));
  }

  /** `weights = (1 - distances) * mask_tensor`, for one example. */
  function Weights(distances: seq<real>, mask: seq<int>): (w: seq<real>)
    requires |distances| == |mask|
    ensures |w| == |mask|
    ensures forall k :: 0 <= k < |w| ==> w[k] == (1.0 - distances[k]) * (mask[k] as real)
  {
    seq(|mask|, k requires 0 <= k < |mask| => (1.0 - distances[k]) * (mask[k] as real))
  }

  /**
   * Padded positions (mask 0) get weight 0; a valid position with a
   * normalised distance in [0, 1] gets `1 - d`, also in [0, 1], so nearer
   * residues weigh more.
   */
  lemma WeightsProperties(distances: seq<real>, mask: seq<int>, k: nat)
    requires |distances| == |mask| && k < |mask|
    ensures mask[k] == 0 ==> Weights(distances, mask)[k] == 0.0
    ensures mask[k] == 1 && 0.0 <= distances[k] <= 1.0 ==>
      Weights(distances, mask)[k] == 1.0 - distances[k] && 0.0 <= Weights(distances, mask)[k] <= 1.0
  {
  }

  /** `torch.argmin` over a row: the FIRST index holding the smallest value. */
  function ArgMin(s: seq<int>): (i: nat)
    requires |s| > 0
    ensures i < |s|
    ensures forall k :: 0 <= k < |s| ==> s[i] <= s[k]
    ensures forall k :: 0 <= k < i ==> s[i] < s[k]
  {
    if |s| == 1 then 0
    else
      var i := ArgMin(s[..|s| - 1]);
      if s[|s| - 1] < s[i] then |s| - 1 else i
  }

  /** `last_indices = mask_tensor.argmin(dim=1)`, for one row; an empty row raises. */
  function LastIndex(mask: seq<int>): (r: Option<nat>)
    ensures r.None? <==> mask == []
    ensures r.Some? ==> r.value < |mask| && (forall k :: 0 <= k < |mask| ==> mask[r.value] <= mask[k]) &&
                        (forall k :: 0 <= k < r.value ==> mask[r.value] < mask[k])
  {
    if mask == [] then None else Some(ArgMin(mask))
  }

  /** The validity mask of a window of `length` residues padded to `maxLen`: ones, then zeros. */
  function PaddingMask(length: nat, maxLen: nat): (m: seq<int>)
    ensures |m| == maxLen
    ensures forall k :: 0 <= k < maxLen ==> m[k] == if k < length then 1 else 0
  {
    seq(maxLen, k requires 0 <= k < maxLen => if k < length then 1 else 0)
  }

  /**
   * `~mask_tensor.to(bool)`: the key-padding mask handed to every attention
   * layer, true exactly at the padded positions.
   */
  function KeyPaddingMask(mask: seq<int>): (r: seq<bool>)
    ensures |r| == |mask|
    ensures forall k :: 0 <= k < |mask| ==> (r[k] <==> mask[k] == 0)
  {
    seq(|mask|, k requires 0 <= k < |mask| => !(mask[k] != 0))
  }

  /**
   * On a padded window, attention ignores exactly the positions from
   * `length` on; the position `argmin` selects is one of them, while the
   * held-out slot `length - 1` is not.
   */
  lemma ArgminSelectsKeyPadding(length: nat, maxLen: nat)
    requires 1 <= length < maxLen
    ensures var m := PaddingMask(length, maxLen); var key := KeyPaddingMask(m);
      && (forall k :: 0 <= k < maxLen ==> (key[k] <==> length <= k))
      && LastIndex(m).Some? && key[LastIndex(m).value]
      && !key[length - 1]
  {
    LastIndexOfPaddingMask(length, maxLen);
  }

  /**
   * What `argmin` returns on a padding mask: the first padding position
   * `length` when there is one, and 0 when the mask is all ones.
   */
  lemma LastIndexOfPaddingMask(length: nat, maxLen: nat)
    requires length <= maxLen && 0 < maxLen
    ensures LastIndex(PaddingMask(length, maxLen)) == Some(if length < maxLen then length else 0)
  {
    var m := PaddingMask(length, maxLen);
    FirstMinimumIsArgMin(m, if length < maxLen then length else 0);
  }

  /** A position holding a minimum, with only larger values before it, is what `argmin` returns. */
  lemma FirstMinimumIsArgMin(s: seq<int>, j: nat)
    requires j < |s|
    requires forall k :: 0 <= k < |s| ==> s[j] <= s[k]
    requires forall k :: 0 <= k < j ==> s[j] < s[k]
    ensures LastIndex(s) == Some(j)
  {
    var i := LastIndex(s).value;
    assert s[i] == s[j];
    assert !(i < j);
    assert !(j < i);
  }

  /**
   * As written, the index `forward` gathers at is never the slot that
   * `load_inputs_and_ground_truth` zeroed: for a window of 1..maxLen residues
   * (maxLen >= 2) the zeroed slot is `length - 1` and argmin gives `length`
   * or 0.
   */
  lemma ArgminMissesHeldOutSlot(length: nat, maxLen: nat)
    requires 1 <= length <= maxLen && 2 <= maxLen
    ensures TargetSlot(length, maxLen) == Some(length - 1)
    ensures LastIndex(PaddingMask(length, maxLen)) != Some(length - 1)
  {
    LastIndexOfPaddingMask(length, maxLen);
  }

  /** The worked example: a window of 4 residues padded to 8 zeroes slot 3, but argmin gives 4. */
  lemma ArgminExample()
    ensures PaddingMask(4, 8) == [1, 1, 1, 1, 0, 0, 0, 0]
    ensures TargetSlot(4, 8) == Some(3)
    ensures LastIndex(PaddingMask(4, 8)) == Some(4)
  {
    var m := PaddingMask(4, 8);
    assert m == [1, 1, 1, 1, 0, 0, 0, 0];
    LastIndexOfPaddingMask(4, 8);
  }

  /**
   * The index of the held-out slot: the last valid position, found from the
   * first padding position (one before it) or the end of the row when the
   * mask has no padding. None for a row that has no valid position.
   */
  function TargetIndex(mask: seq<int>): (r: Option<nat>)
    requires forall k :: 0 <= k < |mask| ==> mask[k] == 0 || mask[k] == 1
    ensures r.Some? ==> r.value < |mask| && mask[r.value] == 1
  {
    match LastIndex(mask)
    case None => None
    case Some(i) =>
      if mask[i] == 0 then (if i == 0 then None else Some(i - 1))
      else Some(|mask| - 1)
  }

  /** The intended index is exactly the slot that was zeroed as the target. */
  lemma TargetIndexIsHeldOutSlot(length: nat, maxLen: nat)
    requires 1 <= length <= maxLen
    ensures TargetIndex(PaddingMask(length, maxLen)) == TargetSlot(length, maxLen)
    ensures TargetIndex(PaddingMask(length, maxLen)) == Some(length - 1)
  {
    LastIndexOfPaddingMask(length, maxLen);
  }
}
