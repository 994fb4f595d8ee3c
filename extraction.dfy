/**
 * The two structure readers of `extract_database.py`: the one-letter
 * sequence of a parsed structure and the atom coordinates with their
 * contact map, both built by loops over the structure.
 *
 * A parsed structure is models, each of chains, each of residues, each of
 * atoms, in file order. Bio.PDB's `seq1` (three-letter name to one letter)
 * is a parameter.
 */
module Extraction {
  import opened Geometry
  import Constants

  /** An atom, as far as the readers use it: its coordinates. */
  datatype Atom = Atom(coord: Point)

  /**
   * A residue: the hetero field of its id (`" "` for a standard residue,
   * `"W"` or `"H_..."` for water and hetero groups), its residue name and
   * its atoms.
   */
  datatype Residue = Residue(hetField: string, resname: string, atoms: seq<Atom>)

  type Chain = seq<Residue>
  type Model = seq<Chain>
  type Structure = seq<Model>

  predicate IsStandard(r: Residue) {
    r.hetField == " "
  }

  /** What one residue adds to the sequence: its letter, or nothing for a hetero residue. */
  function ResidueLetters(r: Residue, seq1: string -> char): string {
    if IsStandard(r) then [seq1(r.resname)] else ""
  }

  /** The letters of a run of residues, in order. */
  function ChainSequence(rs: seq<Residue>, seq1: string -> char): string {
    if rs == [] then "" else ChainSequence(rs[..|rs| - 1], seq1) + ResidueLetters(rs[|rs| - 1], seq1)
  }

  function ModelSequence(m: Model, seq1: string -> char): string {
    if m == [] then "" else ModelSequence(m[..|m| - 1], seq1) + ChainSequence(m[|m| - 1], seq1)
  }

  function StructureSequence(s: Structure, seq1: string -> char): string {
    if s == [] then "" else StructureSequence(s[..|s| - 1], seq1) + ModelSequence(s[|s| - 1], seq1)
  }

  /** The residues of a model, chain after chain. */
  function ModelResidues(m: Model): seq<Residue> {
    if m == [] then [] else ModelResidues(m[..|m| - 1]) + m[|m| - 1]
  }

  /** `structure.get_residues()`: every residue, model after model. */
  function Residues(s: Structure): seq<Residue> {
    if s == [] then [] else Residues(s[..|s| - 1]) + ModelResidues(s[|s| - 1])
  }

  /** The standard residues of a run, in their original order. */
  function StandardResidues(rs: seq<Residue>): (r: seq<Residue>)
    ensures |r| <= |rs|
    ensures forall x :: x in r <==> x in rs && IsStandard(x)
    ensures (forall x :: x in rs ==> !IsStandard(x)) ==> r == []
  {
    if rs == [] then []
    else
      var last := rs[|rs| - 1];
      var init := StandardResidues(rs[..|rs| - 1]);
      assert rs == rs[..|rs| - 1] + [last];
      if IsStandard(last) then init + [last] else init
  }

  /** `structure.get_atoms()`: the atoms of every residue, hetero ones included, in order. */
  function AtomsOf(rs: seq<Residue>): seq<Atom> {
    if rs == [] then [] else AtomsOf(rs[..|rs| - 1]) + rs[|rs| - 1].atoms
  }

  function AllAtoms(s: Structure): seq<Atom> {
    AtomsOf(Residues(s))
  }

  /**
   * `get_sequence`: walks models, chains and residues and appends the letter
   * of every residue whose hetero field is `" "`.
   */
  method GetSequence(structure: Structure, seq1: string -> char) returns (sequence: string)
    ensures sequence == StructureSequence(structure, seq1)
  {
    sequence := "";
    for m := 0 to |structure|
      invariant sequence == StructureSequence(structure[..m], seq1)
    {
      var model := structure[m];
      ghost var beforeModel := sequence;
      for c := 0 to |model|
        invariant sequence == beforeModel + ModelSequence(model[..c], seq1)
      {
        var chain := model[c];
        ghost var beforeChain := sequence;
        for r := 0 to |chain|
          invariant sequence == beforeChain + ChainSequence(chain[..r], seq1)
        {
          var residue := chain[r];
          ChainSequenceStep(beforeChain, chain, r, seq1);
          if IsStandard(residue) {
            sequence := sequence + [seq1(residue.resname)];
          }
        }
        ModelSequenceStep(beforeModel, model, c, seq1);
      }
      StructureSequenceStep(structure, m, seq1);
    }
    assert structure[..|structure|] == structure;
  }

  lemma ChainSequenceStep(prefix: string, chain: Chain, r: nat, seq1: string -> char)
    requires r < |chain|
    ensures IsStandard(chain[r]) ==>
      prefix + ChainSequence(chain[..r + 1], seq1) == prefix + ChainSequence(chain[..r], seq1) + [seq1(chain[r].resname)]
    ensures !IsStandard(chain[r]) ==>
      prefix + ChainSequence(chain[..r + 1], seq1) == prefix + ChainSequence(chain[..r], seq1)
  {
    assert chain[..r + 1][..r] == chain[..r];
  }

  lemma ModelSequenceStep(prefix: string, model: Model, c: nat, seq1: string -> char)
    requires c < |model|
    ensures prefix + ModelSequence(model[..c + 1], seq1) == prefix + ModelSequence(model[..c], seq1) + ChainSequence(model[c][..|model[c]|], seq1)
  {
    assert model[..c + 1][..c] == model[..c];
    assert model[c][..|model[c]|] == model[c];
  }

  lemma StructureSequenceStep(structure: Structure, m: nat, seq1: string -> char)
    requires m < |structure|
    ensures StructureSequence(structure[..m + 1], seq1) == StructureSequence(structure[..m], seq1) + ModelSequence(structure[m][..|structure[m]|], seq1)
  {
    assert structure[..m + 1][..m] == structure[..m];
    assert structure[m][..|structure[m]|] == structure[m];
  }

  lemma {:induction false} ChainSequenceAppend(a: seq<Residue>, b: seq<Residue>, seq1: string -> char)
    ensures ChainSequence(a + b, seq1) == ChainSequence(a, seq1) + ChainSequence(b, seq1)
    decreases |b|
  {
    if b != [] {
      var b' := b[..|b| - 1];
      assert (a + b)[..|a + b| - 1] == a + b';
      ChainSequenceAppend(a, b', seq1);
    } else {
      assert a + b == a;
    }
  }

  lemma {:induction false} ModelSequenceFlat(m: Model, seq1: string -> char)
    ensures ModelSequence(m, seq1) == ChainSequence(ModelResidues(m), seq1)
  {
    if m != [] {
      ModelSequenceFlat(m[..|m| - 1], seq1);
      ChainSequenceAppend(ModelResidues(m[..|m| - 1]), m[|m| - 1], seq1);
    }
  }

  /** The letters of a structure are the letters of its residues read in model, chain, residue order. */
  lemma {:induction false} StructureSequenceFlat(s: Structure, seq1: string -> char)
    ensures StructureSequence(s, seq1) == ChainSequence(Residues(s), seq1)
  {
    if s != [] {
      StructureSequenceFlat(s[..|s| - 1], seq1);
      ModelSequenceFlat(s[|s| - 1], seq1);
      ChainSequenceAppend(Residues(s[..|s| - 1]), ModelResidues(s[|s| - 1]), seq1);
    }
  }

  /** Over a flat run: the letters are `seq1` mapped over the standard residues. */
  lemma {:induction false} ChainSequenceIsFilterMap(rs: seq<Residue>, seq1: string -> char)
    ensures var f := StandardResidues(rs);
      |ChainSequence(rs, seq1)| == |f| &&
      forall k :: 0 <= k < |f| ==> ChainSequence(rs, seq1)[k] == seq1(f[k].resname)
  {
    if rs != [] {
      ChainSequenceIsFilterMap(rs[..|rs| - 1], seq1);
    }
  }

  /**
   * `get_sequence` is an ordered filter-map: the k-th letter is `seq1` of the
   * k-th standard residue of the structure, and there are exactly as many
   * letters as standard residues.
   */
  lemma SequenceIsFilterMap(s: Structure, seq1: string -> char)
    ensures var f := StandardResidues(Residues(s));
      |StructureSequence(s, seq1)| == |f| &&
      forall k :: 0 <= k < |f| ==> StructureSequence(s, seq1)[k] == seq1(f[k].resname)
  {
    StructureSequenceFlat(s, seq1);
    ChainSequenceIsFilterMap(Residues(s), seq1);
  }

  /** A structure whose residues are all hetero yields the empty string. */
  lemma NoStandardResiduesGiveEmptySequence(s: Structure, seq1: string -> char)
    requires forall r :: r in Residues(s) ==> !IsStandard(r)
    ensures StructureSequence(s, seq1) == ""
  {
    SequenceIsFilterMap(s, seq1);
  }

  /**
   * The contact value `get_coords_and_contact_map` leaves at (a, b): 1 for two
   * different atoms closer than the threshold, 0 otherwise. The diagonal is
   * never written, so it keeps the 0 of `np.zeros`.
   */
  function ExtractedContact(atoms: seq<Atom>, sqrt: real -> real, threshold: real, a: nat, b: nat): real
    requires a < |atoms| && b < |atoms|
  {
    if a != b && Distance(atoms[a].coord, atoms[b].coord, sqrt) < threshold then 1.0 else 0.0
  }

  /** Whether the loops have already examined the pair {a, b} when they are at row i, column j. */
  ghost predicate Visited(i: nat, j: nat, a: nat, b: nat) {
    a != b && (var lo, hi := if a < b then a else b, if a < b then b else a; lo < i || (lo == i && hi < j))
  }

  /**
   * `get_coords_and_contact_map`: the coordinates of all atoms in order, and
   * an atoms-by-atoms matrix filled from zeros by visiting every pair j > i
   * and writing 1 at both [i, j] and [j, i] when the atoms are closer than
   * the threshold. No size cap applies: any atom count, 0 included, gives a
   * matrix.
   */
  method CoordsAndContactMap(structure: Structure, sqrt: real -> real, threshold: real)
    returns (coords: seq<Point>, contactMap: array2<real>)
    ensures var atoms := AllAtoms(structure);
      |coords| == |atoms| && (forall k :: 0 <= k < |atoms| ==> coords[k] == atoms[k].coord)
    ensures contactMap.Length0 == |AllAtoms(structure)| && contactMap.Length1 == |AllAtoms(structure)|
    ensures forall a, b :: 0 <= a < contactMap.Length0 && 0 <= b < contactMap.Length1 ==>
      contactMap[a, b] == ExtractedContact(AllAtoms(structure), sqrt, threshold, a, b)
  {
    var atoms := AllAtoms(structure);
    var numAtoms := |atoms|;
    coords := [];
    contactMap := new real[numAtoms, numAtoms]((_, _) => 0.0);
    for i := 0 to numAtoms
      invariant |coords| == i && forall k :: 0 <= k < i ==> coords[k] == atoms[k].coord
      invariant forall a, b :: 0 <= a < numAtoms && 0 <= b < numAtoms ==>
        contactMap[a, b] == if Visited(i, i + 1, a, b) then ExtractedContact(atoms, sqrt, threshold, a, b) else 0.0
    {
      coords := coords + [atoms[i].coord];
      for j := i + 1 to numAtoms
        invariant forall a, b :: 0 <= a < numAtoms && 0 <= b < numAtoms ==>
          contactMap[a, b] == if Visited(i, j, a, b) then ExtractedContact(atoms, sqrt, threshold, a, b) else 0.0
      {
        var distance := Distance(atoms[i].coord, atoms[j].coord, sqrt);
        SquaredDistanceSymmetric(atoms[i].coord, atoms[j].coord);
        if distance < threshold {
          contactMap[i, j] := 1.0;
          contactMap[j, i] := 1.0;
        }
      }
    }
  }

  /** The extracted map is symmetric, has only 0 and 1 entries, and a zero diagonal. */
  lemma ExtractedContactShape(atoms: seq<Atom>, sqrt: real -> real, threshold: real, a: nat, b: nat)
    requires a < |atoms| && b < |atoms|
    ensures ExtractedContact(atoms, sqrt, threshold, a, b) == ExtractedContact(atoms, sqrt, threshold, b, a)
    ensures ExtractedContact(atoms, sqrt, threshold, a, b) in {0.0, 1.0}
    ensures ExtractedContact(atoms, sqrt, threshold, a, a) == 0.0
  {
    SquaredDistanceSymmetric(atoms[a].coord, atoms[b].coord);
  }

  function Coordinates(atoms: seq<Atom>): (coords: seq<Point>)
    ensures |coords| == |atoms| && forall k :: 0 <= k < |atoms| ==> coords[k] == atoms[k].coord
  {
    seq(|atoms|, k requires 0 <= k < |atoms| => atoms[k].coord)
  }

  /**
   * Off the diagonal the extracted map agrees with `get_contact_map` over the
   * same coordinates (as a float instead of an int); on the diagonal, for a
   * positive threshold, the extracted map has 0 where `get_contact_map` has 1.
   */
  lemma ExtractedVersusContactMap(atoms: seq<Atom>, sqrt: real -> real, threshold: real, a: nat, b: nat)
    requires IsSqrt(sqrt)
    requires 1 < |atoms| <= Constants.MaxSize
    requires a < |atoms| && b < |atoms|
    ensures var c := ContactMap(Coordinates(atoms), sqrt, threshold);
      c.Some? &&
      (a != b ==> ExtractedContact(atoms, sqrt, threshold, a, b) == c.value[a][b] as real) &&
      (a == b && 0.0 < threshold ==> ExtractedContact(atoms, sqrt, threshold, a, b) == 0.0 && c.value[a][b] == 1)
  {
    var coords := Coordinates(atoms);
    DistanceLaws(coords[a], coords[b], sqrt);
  }
}
