# ProtGen core in Dafny

This project models the data side of ProtGen, a protein-generation project.
It covers:

- how residue coordinates become a distogram, a contact map and a soft contact map;
- how the sequence and the coordinates are extracted from a parsed PDB structure;
- how a training window is cut from a chain;
- how the `DistogramToSequence` strategy builds one example and picks the position its network reads;
- how the trainer filters its data, averages losses and decides when to checkpoint.

Floating-point values are reals. Square root, `exp` and `log` are function-valued
parameters. Each lemma that needs a law about them states it as a precondition:
`IsSqrt` (a non-negative root that squares back) or `IsLogOfExp` (`log(exp(x)) == x`).
Random draws, the padded tensor from `padd_sequence` and the batches the data
loaders yield are inputs too.

Modules, one per file:

- `Wrappers`: `Option` and `Result`.
- `Constants`: the alphabet, the letter-to-code map, and MIN_SIZE and MAX_SIZE.
- `Geometry`: distogram, contact map, soft contact map and its inverse.
- `Extraction`: `get_sequence` and `get_coords_and_contact_map`, both imperative, written with loops.
- `Slicing`: Python slicing and negative indexing.
- `Augmentation`: `cut_chain`.
- `DistogramToSequence`: `load_inputs_and_ground_truth`, which writes into an array, and the weight and index computation of `forward`.
- `Training`: `Trainer` and `CustomDataset` as classes, with a `Strategy` class that records the train/eval mode.

Two places where the code behaves differently from what one might expect:

- `get_contact_map` compares the diagonal distance 0 with the threshold. So for any positive threshold the diagonal of the contact map is 1, and the three-point example gives an all-ones map, not a map with a zero diagonal.
- The loop in `get_coords_and_contact_map` only visits pairs with `i < j`, so its diagonal stays 0. It has no size limit: for 0, 1 or more than MAX_SIZE atoms it still builds a matrix, where `get_contact_map` returns None. For 2 to MAX_SIZE atoms it agrees with `get_contact_map` off the diagonal, as a float (`ExtractedVersusContactMap`).

## Model

| member | source | states |
|---|---|---|
| Constants.IndexMap | utils/constants.py:5 | the dictionary comprehension has exactly the letters of the alphabet as keys |
| Constants.IndexMapAt | utils/constants.py:5 | for an alphabet without repeats, the letter at position i maps to i + 1 |
| Constants.IndexMapRange | utils/constants.py:5 | every code lies in 1..len(alphabet), so 0 stays free for padding |
| Constants.IndexMapInjective | utils/constants.py:5 | distinct letters get distinct codes |
| Constants.AminoAcidsDistinct | utils/constants.py:3 | AMINO_ACIDS has 20 letters, strictly increasing and so pairwise distinct |
| Constants.AminoAcidCodes | utils/constants.py:3-5 | AMINO_ACID_TO_INDEX maps the 20 letters one-to-one onto 1..20 |
| Constants.NonStandardExcluded | utils/constants.py:3-8 | U, Z and X are neither standard letters nor keys of the map, and MIN_SIZE <= MAX_SIZE |
| Geometry.SquaredDistance | utils/structure_utils.py:18-19 | the squared norm of the coordinate difference is non-negative and 0 for identical points |
| Geometry.SquaredDistanceSymmetric | utils/structure_utils.py:18-19 | the squared distance does not depend on the order of the points |
| Geometry.DistanceLaws | utils/structure_utils.py:18-19 | with a true square root, distance is symmetric, non-negative and 0 from a point to itself |
| Geometry.Distogram | utils/structure_utils.py:13-21 | None exactly when there are <= 1 or > MAX_SIZE coordinates; otherwise an n×n matrix whose (i, j) entry is the distance between points i and j |
| Geometry.DistogramIsMetric | utils/structure_utils.py:17-19 | a distogram is symmetric, non-negative and has a zero diagonal |
| Geometry.Threshold | utils/structure_utils.py:27 | each entry is 1 exactly when the distance is strictly below the threshold, and 0 exactly when it is not |
| Geometry.ContactMap | utils/structure_utils.py:24-27 | None exactly when the distogram is None; otherwise n×n with entry 1 iff distance < threshold |
| Geometry.ContactMapShape | utils/structure_utils.py:27 | the contact map is symmetric, 0/1-valued and, for a positive threshold, 1 on the diagonal |
| Geometry.ContactMapMonotone | utils/structure_utils.py:27 | raising the threshold never turns a contact off |
| Geometry.Decay | utils/structure_utils.py:33 | every entry becomes exp(-rate · d) and the shape is kept |
| Geometry.Undecay | utils/structure_utils.py:49 | every entry becomes -log(c) / rate and the shape is kept |
| Geometry.SoftContactMap | utils/structure_utils.py:30-33 | None exactly when the distogram is None; otherwise entry (i, j) is exp(-rate · dist(i, j)) |
| Geometry.SoftContactMapShape | utils/structure_utils.py:31-33 | the soft contact map is symmetric with exp(0) on the diagonal |
| Geometry.Transpose | utils/structure_utils.py:50 | entry (i, j) of the transpose is entry (j, i) |
| Geometry.SymmetricPart | utils/structure_utils.py:50 | (D + Dᵀ) / 2 has entry (D[i][j] + D[j][i]) / 2 |
| Geometry.SymmetricPartProperties | utils/structure_utils.py:50 | the result is symmetric, and a symmetric matrix is left unchanged |
| Geometry.SymmetricPartIdempotent | utils/structure_utils.py:50 | applying the averaging step twice equals applying it once |
| Geometry.DistogramFromSoftContactMap | utils/structure_utils.py:48-51 | for any square input the result is square and symmetric, with entry the average of the two recovered distances |
| Geometry.RecoverSoftContact | utils/structure_utils.py:49 | when log inverts exp and rate ≠ 0, recovering a soft contact gives back the distance |
| Geometry.SoftContactMapRoundTrip | utils/structure_utils.py:48-51 | recovering the distogram from the soft contact map of valid coordinates gives back the distogram |
| Geometry.ThreePointDistogram | utils/structure_utils.py:13-21 | points (0,0,0), (1,0,0), (0,1,0) give [[0,1,1],[1,0,√2],[1,√2,0]] |
| Geometry.ThreePointContactMap | utils/structure_utils.py:24-27 | the same three points at threshold 8.0 give an all-ones contact map |
| Extraction.StandardResidues | extract_database.py:112 | keeps exactly the residues whose hetero field is blank; none kept when none is standard |
| Extraction.GetSequence | extract_database.py:107-114 | the string built by the triple loop equals the sequence of the structure |
| Extraction.ChainSequenceAppend | extract_database.py:111-113 | the letters of two concatenated residue runs are the concatenation of their letters |
| Extraction.ModelSequenceFlat | extract_database.py:110-113 | a model's sequence is the sequence of all its residues, chain after chain |
| Extraction.StructureSequenceFlat | extract_database.py:109-113 | a structure's sequence is the sequence of all its residues in model and chain order |
| Extraction.ChainSequenceIsFilterMap | extract_database.py:111-113 | a run's letters are seq1 of its standard residues, one letter each, in order |
| Extraction.SequenceIsFilterMap | extract_database.py:107-114 | the sequence has one letter per standard residue of the structure, the k-th being seq1 of the k-th standard residue |
| Extraction.NoStandardResiduesGiveEmptySequence | extract_database.py:107-114 | a structure with only hetero residues gives the empty sequence |
| Extraction.CoordsAndContactMap | extract_database.py:118-132 | coordinates are the atoms' coordinates in order, and the matrix is n×n with entry 1 exactly for distinct atoms closer than the threshold |
| Extraction.ExtractedContactShape | extract_database.py:125-131 | the filled matrix is symmetric, 0/1-valued and has a zero diagonal |
| Extraction.Coordinates | extract_database.py:119-126 | one coordinate per atom, in order |
| Extraction.ExtractedVersusContactMap | extract_database.py:125-131 | for 2 to MAX_SIZE atoms, off the diagonal the loop's matrix equals get_contact_map on the same coordinates (as a float); on the diagonal, 0 against 1 for a positive threshold |
| Slicing.Slice | strategies/base.py:17 | Python slicing: length max(0, min(stop, len) - start), element k is s[start + k] |
| Slicing.WrapIndex | strategies/distogram_to_sequence.py:39 | an index is valid exactly in [-n, n), and a negative one counts from the end |
| Augmentation.CutChain | strategies/base.py:14-17 | the cut is the infix at start of length min(length, len), at most MAX_SIZE, at least MIN_SIZE for a long enough chain, and the whole chain when it is shorter than length |
| DistogramToSequence.VocabSizeIs21 | strategies/distogram_to_sequence.py:19 | vocab_size is 20 letters plus the padding class, 21 |
| DistogramToSequence.OneHot | strategies/distogram_to_sequence.py:40 | a class in range gives a vector with one 1 at that class; out of range raises |
| DistogramToSequence.Window | strategies/distogram_to_sequence.py:31-34 | the drawn indices in training mode, [0, MAX_TRAINING_SIZE) in evaluation mode |
| DistogramToSequence.EvalWindowIsPrefix | strategies/distogram_to_sequence.py:34-35 | in evaluation mode the window is the first min(MAX_TRAINING_SIZE, len) residues |
| DistogramToSequence.TargetSlot | strategies/distogram_to_sequence.py:39 | slot len(window) - 1 when it fits the tensor, the last slot for an empty window, an error when the window is longer than the tensor or the tensor is empty |
| DistogramToSequence.LastRow | strategies/distogram_to_sequence.py:46 | an empty block raises; otherwise the row holds the entries from the window's last residue to each residue of the window |
| DistogramToSequence.MinOf | strategies/distogram_to_sequence.py:48 | a member of the row no larger than any entry |
| DistogramToSequence.MaxOf | strategies/distogram_to_sequence.py:48 | a member of the row no smaller than any entry |
| DistogramToSequence.Normalize | strategies/distogram_to_sequence.py:47-48 | fails exactly when max == min (0/0); otherwise every value lies in [0, 1] |
| DistogramToSequence.NormalizeRange | strategies/distogram_to_sequence.py:48 | minimum entries go to 0, maximum entries to 1, and the order of entries is kept |
| DistogramToSequence.NormalizeAt | strategies/distogram_to_sequence.py:48 | entry k becomes (d[k] - min) / (max - min) |
| DistogramToSequence.PadTo | strategies/distogram_to_sequence.py:49 | a negative pad width raises; otherwise the row keeps its entries and is zero-filled to the length |
| DistogramToSequence.ScaleRow | strategies/distogram_to_sequence.py:47-48 | with normalisation every value is in [0, 1]; without it the row is unchanged |
| DistogramToSequence.TargetRow | strategies/distogram_to_sequence.py:45-46 | no distogram raises, an empty window raises, and otherwise entry k is the distance from the window's last residue to its k-th |
| DistogramToSequence.Distances | strategies/distogram_to_sequence.py:45-49 | missing coordinates and a missing distogram raise; a result has MAX_TRAINING_SIZE entries |
| DistogramToSequence.DistancesRow | strategies/distogram_to_sequence.py:45-49 | a result holds the target's distances to the window's residues followed by zeros; when normalised the row was not constant and entry k is (d[k] - min) / (max - min), in [0, 1] |
| DistogramToSequence.DistancesErrors | strategies/distogram_to_sequence.py:45-49 | once the distogram exists, an empty window raises; otherwise the row fails exactly when the window exceeds MAX_TRAINING_SIZE (RowTooLong) or, with normalisation, when the row is constant (ConstantRow) |
| DistogramToSequence.LoadInputsAndGroundTruth | strategies/distogram_to_sequence.py:29-51 | the ground truth is the one-hot of the old code at slot len(window) - 1; that slot alone is zeroed, and only after its code is read; an out-of-range slot or class raises with the tensor unchanged, and every other exception comes after the slot is zeroed |
| DistogramToSequence.Weights | strategies/distogram_to_sequence.py:55 | entry k is (1 - d[k]) · mask[k] |
| DistogramToSequence.WeightsProperties | strategies/distogram_to_sequence.py:55 | padding gets weight 0; a valid position with d in [0, 1] gets 1 - d, also in [0, 1] |
| DistogramToSequence.ArgMin | strategies/distogram_to_sequence.py:56 | the first index of a minimum |
| DistogramToSequence.LastIndex | strategies/distogram_to_sequence.py:56 | argmin of a row: the first position of its minimum, and an error on an empty row |
| DistogramToSequence.PaddingMask | strategies/distogram_to_sequence.py:36 | the mask of a window of L residues padded to n: ones before L, zeros after |
| DistogramToSequence.KeyPaddingMask | strategies/distogram_to_sequence.py:60 | the key-padding mask is true exactly where the mask is 0 |
| DistogramToSequence.ArgminSelectsKeyPadding | strategies/distogram_to_sequence.py:56-60 | on a padded window attention ignores exactly the positions from L on; argmin selects one of them, and the held-out slot L - 1 is not ignored |
| DistogramToSequence.LastIndexOfPaddingMask | strategies/distogram_to_sequence.py:56 | argmin of a padding mask is L when there is padding, and 0 when there is none |
| DistogramToSequence.FirstMinimumIsArgMin | strategies/distogram_to_sequence.py:56 | argmin is determined: any first position of a minimum is the one returned |
| DistogramToSequence.ArgminMissesHeldOutSlot | strategies/distogram_to_sequence.py:39-56 | the slot zeroed for the target is L - 1, and argmin never returns it |
| DistogramToSequence.ArgminExample | strategies/distogram_to_sequence.py:56 | a window of 4 padded to 8: slot 3 is zeroed, argmin gives 4 |
| DistogramToSequence.TargetIndex | strategies/distogram_to_sequence.py:56 | the corrected index always points at a valid position of the mask |
| DistogramToSequence.TargetIndexIsHeldOutSlot | strategies/distogram_to_sequence.py:56 | the corrected index equals the zeroed slot L - 1 for every window of 1..n residues |
| Training.KeepTrainable | trainer.py:32 | keeps exactly the rows with at least MIN_SIZE residues, never more rows than given |
| Training.KeepTrainableAppend | trainer.py:32 | the filter works row by row, so the order of rows is kept |
| Training.KeepTrainableKeepsAll | trainer.py:32 | nothing is dropped exactly when every row is long enough |
| Training.TotalSamples | trainer.py:56 | the summed len(inputs) counts at least one sample per batch |
| Training.Average | trainer.py:74-77 | fails (division by zero) exactly when the loader yielded no batch; otherwise average × total samples = total loss |
| Training.TotalLossAtLeast | trainer.py:55-56 | per-sample lower bounds on every batch bound the total loss |
| Training.TotalLossAtMost | trainer.py:55-56 | per-sample upper bounds on every batch bound the total loss |
| Training.AverageWithin | trainer.py:74-77 | the average lies within any per-sample bounds that hold for every batch |
| Training.AverageAtLeast | trainer.py:74-77 | the average is at least any per-sample lower bound of every batch |
| Training.AverageAtMost | trainer.py:74-77 | the average is at most any per-sample upper bound of every batch |
| Training.Reports | trainer.py:59-62 | one report per 100 batches, the k-th being the average over the first 100(k+1) batches |
| Training.Strategy.Train | trainer.py:43 | the strategy is in training mode and no forward pass is recorded |
| Training.Strategy.Eval | trainer.py:67 | the strategy is in evaluation mode and no forward pass is recorded |
| Training.Strategy.Forward | trainer.py:51 | one forward pass is recorded, in the current mode |
| Training.TrainPass | trainer.py:45-64 | the accumulating loop computes the epoch average and the 100-batch reports, with one forward pass per batch in the current mode |
| Training.TestPass | trainer.py:68-77 | the accumulating loop computes the test average, with one forward pass per batch in the current mode |
| Training.EpochTrace | trainer.py:49-75 | an epoch's forward passes are its training batches in training mode, then its test batches in evaluation mode |
| Training.ReplayStopsAtCrash | trainer.py:42-85 | once an epoch raises, later epochs change nothing |
| Training.ReplayCrashesAtFirstEmptyLoader | trainer.py:64-77 | a run completes exactly when every epoch's loaders are non-empty; otherwise it stops at the first epoch with an empty loader, checking the training loader first |
| Training.BestIsLeast | trainer.py:38-83 | after a completed run, best_test_loss is the least of its starting value and every epoch's test average |
| Training.SavesAreRecords | trainer.py:81-83 | the model is saved after exactly those epochs whose test average is strictly below the starting best and every earlier test average, so equal losses do not save |
| Training.RecordStep | trainer.py:81-83 | an epoch beats the running best exactly when it sets a record |
| Training.BestNonIncreasing | trainer.py:81-83 | best_test_loss never increases from one epoch to a later one |
| Training.ThreeEpochScenario | trainer.py:38-83 | test averages 0.9, 0.7 and 0.8 cause saves after the first two epochs only, leaving best 0.7 |
| Training.CustomDataset.constructor | trainer.py:16-22 | the dataset holds its dataframe's rows, and its length is their count |
| Training.Trainer.constructor | trainer.py:31-38 | only trainable rows reach the two datasets, split in order at the train size, and best_test_loss starts at +∞ with no saves |
| Training.Trainer.Epoch | trainer.py:49-85 | one epoch: the training pass, evaluation mode, the test pass, a save exactly on strict improvement, and training mode again, or the division by zero that ends the run |
| Training.Trainer.Train | trainer.py:42-85 | best_test_loss and the saves follow the epoch-by-epoch replay; every training batch runs in training mode and every test batch in evaluation mode; the mode ends as training unless an empty test loader ended the run |

## Left out

- File, network and XML I/O are not modelled. This covers `download_pdb`, the UniProt and PDB queries, `save_model`'s directory and `torch.save`, printing, and the `__main__` blocks. Each save is recorded as the epoch after which it ran.
- The network is not modelled: attention layers, the linear layer, softmax, cross-entropy, autograd and Adam. Each batch enters as the loss it reported and its `len(inputs)`.
- MDS reconstruction, `align_points` and plotting are not modelled. They rely on foreign numerical code (sklearn, SVD, matplotlib).
- Floating-point rounding and float32 storage are not modelled; values are reals. NaN and infinity are not values here:
  - the 0/0 of normalising a constant row is the `ConstantRow` error;
  - `get_distogram_from_soft_contact_map` and the round trip require rate ≠ 0, where the source would produce inf or NaN.
- numpy broadcasting of non-square input to `get_distogram_from_soft_contact_map` is not modelled; the input must be square.
- `padd_sequence` is not part of this model. Its tensor is an input array, and its mask is taken to be ones over the window and zeros after it (`PaddingMask`).
- MAX_TRAINING_SIZE is a parameter, because its definition is not part of this model.
- `get_augmentation_indices` is not part of this model. The indices it draws are inputs.
- The random draws of `cut_chain` are inputs, constrained to the ranges `random.randint` returns.
- The Biopython parser, `get_atoms` and `seq1` are not modelled. A structure is nested sequences of residues and atoms, atom subtraction is `Distance`, and `seq1` is a parameter.
- DataLoader batching and shuffling are not modelled: each epoch's batches are an input, and every batch holds at least one sample.
- `train_test_split` rounding is not modelled: the train size is a parameter of the constructor, and the split keeps row order (`shuffle=False`).
- Training.Trainer.constructor: the ValueError `train_test_split` raises when a split would be empty (fewer than two trainable rows) is not modelled; the constructor accepts a train size of 0 or of all rows and builds an empty dataset instead.
- `CustomDataset.__getitem__` is not modelled as a member: it only hands a row to `load_inputs_and_ground_truth`, which is modelled on its own.
- Training.Trainer.Train: the epoch count is the length of the batch input rather than the `epochs` integer.

## Findings

| source | as written | input that shows it | evidently intended | confidence | as-written member | corrected member |
|---|---|---|---|---|---|---|
| strategies/distogram_to_sequence.py:56 | `last_indices = mask_tensor.argmin(dim=1)` picks the first padding position (or 0 when there is no padding). The network's output is read there, but `load_inputs_and_ground_truth` hid the target at `len(sequence) - 1` (line 43). | a window of 4 residues padded to 8: slot 3 is zeroed and holds the target, and argmin returns 4 | read the output at the held-out slot, the last valid position `len(sequence) - 1` | medium, not executed | DistogramToSequence.ArgminMissesHeldOutSlot | DistogramToSequence.TargetIndexIsHeldOutSlot |
