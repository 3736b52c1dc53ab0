/** Which versions of one batch's document a reviewer may compare
    (`generate_comparison_pairs` in src/utils.py). */
module ComparisonPairs {

  /** A (left, right) pair of version numbers, shown as "Ver left vs right". */
  type Pair = (int, int)

  /** The caller's promise about the version list: sorted and de-duplicated. */
  predicate StrictlyAscending(v: seq<int>) {
    forall i, j :: 0 <= i < j < |v| ==> v[i] < v[j]
  }

  /** Every adjacent pair in input order and then, when there are more than
      two versions, the first against the last. Fewer than two versions give
      no pair at all. */
  function GenerateComparisonPairs(versions: seq<int>): (pairs: seq<Pair>)
    ensures |versions| < 2 ==> pairs == []
    ensures |versions| == 2 ==> |pairs| == 1
    ensures |versions| > 2 ==> |pairs| == |versions|
    ensures forall i :: 0 <= i < |versions| - 1 ==> pairs[i] == (versions[i], versions[i + 1])
    ensures |versions| > 2 ==> pairs[|versions| - 1] == (versions[0], versions[|versions| - 1])
  {
    if |versions| < 2 then []
    else
      var adjacent := seq(|versions| - 1, i requires 0 <= i < |versions| - 1 => (versions[i], versions[i + 1]));
      if |versions| > 2 then adjacent + [(versions[0], versions[|versions| - 1])] else adjacent
  }

  /** `p` is the adjacent pair starting at index `i` of the input. */
  predicate IsAdjacentPair(versions: seq<int>, p: Pair, i: int) {
    0 <= i < |versions| - 1 && p == (versions[i], versions[i + 1])
  }

  /** A pair is offered exactly when it is an adjacent pair of the input, or
      the first against the last of more than two versions. */
  lemma PairMembership(versions: seq<int>, p: Pair)
    ensures p in GenerateComparisonPairs(versions) <==>
      (exists i | 0 <= i < |versions| :: IsAdjacentPair(versions, p, i)) ||
      (|versions| > 2 && p == (versions[0], versions[|versions| - 1]))
  {
    var pairs := GenerateComparisonPairs(versions);
    if p in pairs {
      var k :| 0 <= k < |pairs| && pairs[k] == p;
      if k < |versions| - 1 {
        assert IsAdjacentPair(versions, p, k);
      }
    }
    if i :| 0 <= i < |versions| && IsAdjacentPair(versions, p, i) {
      assert pairs[i] == p;
    }
    if |versions| > 2 && p == (versions[0], versions[|versions| - 1]) {
      assert pairs[|versions| - 1] == p;
    }
  }

  /** Both sides of every pair are versions from the input. */
  lemma PairsDrawnFromVersions(versions: seq<int>)
    ensures forall p :: p in GenerateComparisonPairs(versions) ==> p.0 in versions && p.1 in versions
  {
    forall p | p in GenerateComparisonPairs(versions)
      ensures p.0 in versions && p.1 in versions
    {
      PairMembership(versions, p);
    }
  }

  /** For a sorted, de-duplicated input the left side is always the older
      version, so no version is ever compared with itself. */
  lemma AscendingPairsOrdered(versions: seq<int>)
    requires StrictlyAscending(versions)
    ensures forall p :: p in GenerateComparisonPairs(versions) ==> p.0 < p.1
  {
    forall p | p in GenerateComparisonPairs(versions) ensures p.0 < p.1 {
      PairMembership(versions, p);
    }
  }

  /** For a sorted, de-duplicated input no pair is offered twice: the closing
      pair cannot repeat an adjacent one because it is only added when there
      are more than two versions. */
  lemma AscendingPairsDistinct(versions: seq<int>)
    requires StrictlyAscending(versions)
    ensures forall i, j :: 0 <= i < j < |GenerateComparisonPairs(versions)| ==>
      GenerateComparisonPairs(versions)[i] != GenerateComparisonPairs(versions)[j]
  {
    var pairs := GenerateComparisonPairs(versions);
    var n := |versions|;
    forall i, j | 0 <= i < j < |pairs| ensures pairs[i] != pairs[j] {
      if j < n - 1 {
        assert pairs[i].0 == versions[i] < versions[j] == pairs[j].0;
      } else {
        assert pairs[j].1 == versions[n - 1];
        if i < n - 2 {
          assert pairs[i].1 == versions[i + 1] < versions[n - 1];
        } else {
          assert pairs[i].0 == versions[n - 2] && pairs[j].0 == versions[0];
          assert versions[0] < versions[n - 2];
        }
      }
    }
  }

  /** The cases of tests/test_utils.py, stated as exact outputs, and
      [1, 2, 3, 4]. */
  lemma PinnedCases()
    ensures GenerateComparisonPairs([]) == []
    ensures GenerateComparisonPairs([1]) == []
    ensures GenerateComparisonPairs([1, 2]) == [(1, 2)]
    ensures GenerateComparisonPairs([1, 2, 3]) == [(1, 2), (2, 3), (1, 3)]
    ensures GenerateComparisonPairs([1, 2, 3, 4]) == [(1, 2), (2, 3), (3, 4), (1, 4)]
  {
  }
}
