/** The configuration constants of `utils/constants.py`. */
module Constants {

  /** The 20 standard amino-acid letters, in the order that fixes their codes. */
  const AminoAcids: string := "ACDEFGHIKLMNPQRSTVWY"

  /** Letters for non-standard residues; they get no code. */
  const NonStandardAminoAcids: string := "UZX"

  /** Smallest and largest chain length the strategies accept. */
  const MinSize: nat := 10
  const MaxSize: nat := 250

  /**
   * The dictionary comprehension `{aa: i + 1 for i, aa in enumerate(s)}`:
   * keys are inserted left to right, so a later occurrence of a letter
   * would overwrite an earlier one.
   */
  function IndexMap(s: string): (m: map<char, int>)
    ensures m.Keys == set c | c in s
  {
    if s == [] then map[] else IndexMap(s[..|s| - 1])[s[|s| - 1] := |s|]
  }

  /** The code table: 1-based, so that 0 stays free for padding. */
  const AminoAcidToIndex: map<char, int> := IndexMap(AminoAcids)

  predicate StrictlyIncreasing(s: string) {
    forall i, j :: 0 <= i < j < |s| ==> s[i] < s[j]
  }

  predicate Distinct(s: string) {
    forall i, j :: 0 <= i < j < |s| ==> s[i] != s[j]
  }

  /** For letters without repeats, each letter is mapped to its 1-based position. */
  lemma {:induction false} IndexMapAt(s: string, i: nat)
    requires Distinct(s)
    requires i < |s|
    ensures s[i] in IndexMap(s) && IndexMap(s)[s[i]] == i + 1
  {
    var p := s[..|s| - 1];
    if i < |s| - 1 {
      assert p[i] == s[i];
      IndexMapAt(p, i);
    }
  }

  /** Every code of the table built from `s` lies in 1..|s|. */
  lemma {:induction false} IndexMapRange(s: string)
    ensures forall c :: c in IndexMap(s) ==> 1 <= IndexMap(s)[c] <= |s|
  {
    if s != [] {
      IndexMapRange(s[..|s| - 1]);
    }
  }

  /** For letters without repeats, distinct letters get distinct codes. */
  lemma IndexMapInjective(s: string)
    requires Distinct(s)
    ensures forall c, d :: c in IndexMap(s) && d in IndexMap(s) && IndexMap(s)[c] == IndexMap(s)[d] ==> c == d
  {
    forall c, d | c in IndexMap(s) && d in IndexMap(s) && IndexMap(s)[c] == IndexMap(s)[d]
      ensures c == d
    {
      var i :| 0 <= i < |s| && s[i] == c;
      var j :| 0 <= j < |s| && s[j] == d;
      IndexMapAt(s, i);
      IndexMapAt(s, j);
    }
  }

  /** The standard alphabet is written in increasing order, hence without repeats. */
  lemma AminoAcidsDistinct()
    ensures |AminoAcids| == 20
    ensures StrictlyIncreasing(AminoAcids) && Distinct(AminoAcids)
  {
    assert forall i :: 0 <= i < 19 ==> AminoAcids[i] < AminoAcids[i + 1];
    assert StrictlyIncreasing(AminoAcids) by {
      forall i, j | 0 <= i < j < |AminoAcids| ensures AminoAcids[i] < AminoAcids[j] {
        IncreasingStep(AminoAcids, i, j);
      }
    }
  }

  lemma {:induction false} IncreasingStep(s: string, i: nat, j: nat)
    requires forall k :: 0 <= k < |s| - 1 ==> s[k] < s[k + 1]
    requires i < j < |s|
    ensures s[i] < s[j]
    decreases j - i
  {
    if i + 1 < j {
      IncreasingStep(s, i + 1, j);
    }
  }

  /**
   * The code table: `AminoAcids[i]` has code `i + 1`, every code lies in 1..20
   * (so 0 is never a code), codes are injective, and the keys are exactly the
   * standard letters.
   */
  lemma AminoAcidCodes()
    ensures AminoAcidToIndex.Keys == set c | c in AminoAcids
    ensures forall i :: 0 <= i < |AminoAcids| ==> AminoAcidToIndex[AminoAcids[i]] == i + 1
    ensures forall c :: c in AminoAcidToIndex ==> 1 <= AminoAcidToIndex[c] <= 20
    ensures forall c, d :: c in AminoAcidToIndex && d in AminoAcidToIndex && AminoAcidToIndex[c] == AminoAcidToIndex[d] ==> c == d
  {
    AminoAcidsDistinct();
    forall i | 0 <= i < |AminoAcids| ensures AminoAcidToIndex[AminoAcids[i]] == i + 1 {
      IndexMapAt(AminoAcids, i);
    }
    IndexMapRange(AminoAcids);
    IndexMapInjective(AminoAcids);
  }

  /** U, Z and X are neither standard letters nor keys of the code table; MIN_SIZE <= MAX_SIZE. */
  lemma NonStandardExcluded()
    ensures forall c :: c in NonStandardAminoAcids ==> c !in AminoAcids && c !in AminoAcidToIndex
    ensures MinSize <= MaxSize
  {
  }
}
