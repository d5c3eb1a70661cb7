/**
 * The spread universe (index.js:61-69): every ordered pair of distinct
 * letters, written `X_Y`, in row-major order over the pair of indices.
 */
module Spreads {
  import opened JsStrings
  import opened Letters

  const Underscore: char := '_'

  /** `letterArray[i] + "_" + letterArray[j]`. */
  function Spread(a: string, b: string): string {
    a + [Underscore] + b
  }

  /** Row `i` of the loop, over the columns `j < n` that differ from `i`. */
  function Row(letters: seq<string>, i: nat, n: nat): (r: seq<string>)
    requires i < |letters| && n <= |letters|
    ensures |r| == if i < n then n - 1 else n
    decreases n
  {
    if n == 0 then []
    else Row(letters, i, n - 1) + (if i != n - 1 then [Spread(letters[i], letters[n - 1])] else [])
  }

  /** The first `m` complete rows. */
  function Rows(letters: seq<string>, m: nat): (r: seq<string>)
    requires m <= |letters|
    ensures |r| == m * (|letters| - 1)
    decreases m
  {
    if m == 0 then []
    else Rows(letters, m - 1) + Row(letters, m - 1, |letters|)
  }

  /** The whole universe, as the nested loop leaves it. */
  function AllSpreads(letters: seq<string>): seq<string> {
    Rows(letters, |letters|)
  }

  /** The nested loop of index.js:61-69, pushing one spread per pair `i != j`. */
  method BuildAllSpreads(letterArray: seq<string>) returns (allSpreads: seq<string>)
    ensures allSpreads == AllSpreads(letterArray)
  {
    allSpreads := [];
    var i := 0;
    while i < |letterArray|
      invariant 0 <= i <= |letterArray|
      invariant allSpreads == Rows(letterArray, i)
    {
      var j := 0;
      while j < |letterArray|
        invariant 0 <= j <= |letterArray|
        invariant allSpreads == Rows(letterArray, i) + Row(letterArray, i, j)
      {
        if i != j {
          allSpreads := allSpreads + [Spread(letterArray[i], letterArray[j])];
        }
        j := j + 1;
      }
      i := i + 1;
    }
  }

  /** The column that the `c`-th entry of row `i` pairs with: column `i` is skipped. */
  function Column(i: nat, c: nat): nat {
    if c < i then c else c + 1
  }

  /** Where in the universe of `k` letters the pair `(i, j)` lands. */
  function PairIndex(k: nat, i: nat, j: nat): int {
    i * (k - 1) + (if j < i then j else j - 1)
  }

  /** Entry `c` of row `i` is the spread of `i` with `Column(i, c)`. */
  lemma {:induction false} RowAt(letters: seq<string>, i: nat, n: nat, c: nat)
    requires i < |letters| && n <= |letters|
    requires c < |Row(letters, i, n)|
    ensures Column(i, c) < n && Column(i, c) != i
    ensures Row(letters, i, n)[c] == Spread(letters[i], letters[Column(i, c)])
    decreases n
  {
    if c < |Row(letters, i, n - 1)| {
      RowAt(letters, i, n - 1, c);
    }
  }

  /** Arithmetic behind the row layout: row `i` sits after `i` full rows. */
  lemma RowsPrefix(k: nat, i: nat, m: nat, c: nat)
    requires i < m && c < k - 1
    ensures i * (k - 1) + c < m * (k - 1)
  {
    assert (i + 1) * (k - 1) <= m * (k - 1) by {
      MulMonotone(i + 1, m, k - 1);
    }
  }

  lemma MulMonotone(a: nat, b: nat, c: nat)
    requires a <= b
    ensures a * c <= b * c
  {
  }

  /**
   * Every entry of the first `m` rows is the spread of two different
   * letters `i < m`, `j`, found at `PairIndex(k, i, j)`.
   */
  lemma {:induction false} RowsEntry(letters: seq<string>, m: nat, p: nat)
    requires m <= |letters| && p < |Rows(letters, m)|
    ensures exists i: nat, j: nat :: i < m && j < |letters| && i != j
              && p == PairIndex(|letters|, i, j)
              && Rows(letters, m)[p] == Spread(letters[i], letters[j])
    decreases m
  {
    var k := |letters|;
    var prev := Rows(letters, m - 1);
    if p < |prev| {
      RowsEntry(letters, m - 1, p);
      var i: nat, j: nat :| i < m - 1 && j < k && i != j && p == PairIndex(k, i, j)
                            && prev[p] == Spread(letters[i], letters[j]);
      assert Rows(letters, m)[p] == prev[p];
    } else {
      var i := m - 1;
      var c := p - |prev|;
      RowAt(letters, i, k, c);
      var j := Column(i, c);
      assert p == PairIndex(k, i, j);
      assert Rows(letters, m)[p] == Spread(letters[i], letters[j]);
    }
  }

  /** Every pair `(i, j)` of distinct indices with `i < m` sits at `PairIndex(k, i, j)`. */
  lemma {:induction false} RowsAt(letters: seq<string>, m: nat, i: nat, j: nat)
    requires m <= |letters| && i < m && j < |letters| && i != j
    ensures 0 <= PairIndex(|letters|, i, j) < |Rows(letters, m)|
    ensures Rows(letters, m)[PairIndex(|letters|, i, j)] == Spread(letters[i], letters[j])
    decreases m
  {
    var k := |letters|;
    var c := if j < i then j else j - 1;
    var prev := Rows(letters, m - 1);
    if i < m - 1 {
      RowsAt(letters, m - 1, i, j);
      RowsPrefix(k, i, m - 1, c);
    } else {
      assert Column(i, c) == j;
      RowAt(letters, i, k, c);
      assert |prev| == i * (k - 1);
    }
  }

  /** The universe over `k` letters has exactly `k * (k - 1)` entries. */
  lemma AllSpreadsLength(letters: seq<string>)
    ensures |AllSpreads(letters)| == |letters| * (|letters| - 1)
  {
  }

  /** Every pair of distinct indices `(i, j)` is in the universe, at `PairIndex`. */
  lemma AllSpreadsAt(letters: seq<string>, i: nat, j: nat)
    requires i < |letters| && j < |letters| && i != j
    ensures 0 <= PairIndex(|letters|, i, j) < |AllSpreads(letters)|
    ensures AllSpreads(letters)[PairIndex(|letters|, i, j)] == Spread(letters[i], letters[j])
  {
    RowsAt(letters, |letters|, i, j);
  }

  /** Every entry of the universe is the spread of a pair of distinct indices. */
  lemma AllSpreadsEntry(letters: seq<string>, p: nat)
    requires p < |AllSpreads(letters)|
    ensures exists i: nat, j: nat :: i < |letters| && j < |letters| && i != j
              && p == PairIndex(|letters|, i, j)
              && AllSpreads(letters)[p] == Spread(letters[i], letters[j])
  {
    RowsEntry(letters, |letters|, p);
  }

  /** Both directions of every pair are present: `X_Y` and `Y_X`. */
  lemma AllSpreadsBothDirections(letters: seq<string>, i: nat, j: nat)
    requires i < |letters| && j < |letters| && i != j
    ensures Spread(letters[i], letters[j]) in AllSpreads(letters)
    ensures Spread(letters[j], letters[i]) in AllSpreads(letters)
  {
    AllSpreadsAt(letters, i, j);
    AllSpreadsAt(letters, j, i);
  }

  /**
   * The order is row-major: a pair earlier in `(i, j)` lexicographic
   * order comes strictly earlier in the universe.
   */
  lemma PairIndexRowMajor(k: nat, i: nat, j: nat, i': nat, j': nat)
    requires i < k && j < k && i != j && i' < k && j' < k && i' != j'
    requires i < i' || (i == i' && j < j')
    ensures PairIndex(k, i, j) < PairIndex(k, i', j')
  {
    if i < i' {
      var m: nat := k - 1;
      var c := if j < i then j else j - 1;
      assert c < m;
      MulMonotone(i + 1, i', m);
      assert (i + 1) * m == i * m + m;
      assert PairIndex(k, i, j) == i * m + c;
    }
  }

  /** With letters free of `_`, a spread splits back into its two letters. */
  lemma SplitSpread(a: string, b: string)
    requires Underscore !in a && Underscore !in b
    ensures Split(Spread(a, b), Underscore) == [a, b]
  {
    SplitPair(a, Underscore, b);
  }

  /** Letters of the asset list never contain `_`. */
  lemma LetterHasNoUnderscore(letters: seq<string>, i: nat)
    requires WellFormed(letters) && i < |letters|
    ensures Underscore !in letters[i]
  {
    assert IsLetter(letters[i]);
  }

  /**
   * Over a well-formed asset list no spread is a self-pair, and no spread
   * occurs twice: the universe is a set of `k * (k - 1)` ordered pairs.
   */
  lemma AllSpreadsDistinct(letters: seq<string>)
    requires WellFormed(letters)
    ensures forall p :: 0 <= p < |AllSpreads(letters)| ==>
              |Split(AllSpreads(letters)[p], Underscore)| == 2 &&
              Split(AllSpreads(letters)[p], Underscore)[0] != Split(AllSpreads(letters)[p], Underscore)[1]
    ensures Distinct(AllSpreads(letters))
  {
    var all := AllSpreads(letters);
    WellFormedDistinct(letters);
    forall p | 0 <= p < |all|
      ensures |Split(all[p], Underscore)| == 2
      ensures Split(all[p], Underscore)[0] != Split(all[p], Underscore)[1]
    {
      AllSpreadsEntry(letters, p);
      var i: nat, j: nat :| i < |letters| && j < |letters| && i != j
                            && p == PairIndex(|letters|, i, j) && all[p] == Spread(letters[i], letters[j]);
      LetterHasNoUnderscore(letters, i);
      LetterHasNoUnderscore(letters, j);
      SplitSpread(letters[i], letters[j]);
    }
    forall p, q | 0 <= p < |all| && 0 <= q < |all| && all[p] == all[q]
      ensures p == q
    {
      AllSpreadsEntry(letters, p);
      var i: nat, j: nat :| i < |letters| && j < |letters| && i != j
                            && p == PairIndex(|letters|, i, j) && all[p] == Spread(letters[i], letters[j]);
      AllSpreadsEntry(letters, q);
      var i': nat, j': nat :| i' < |letters| && j' < |letters| && i' != j'
                              && q == PairIndex(|letters|, i', j') && all[q] == Spread(letters[i'], letters[j']);
      LetterHasNoUnderscore(letters, i);
      LetterHasNoUnderscore(letters, j);
      LetterHasNoUnderscore(letters, i');
      LetterHasNoUnderscore(letters, j');
      SplitSpread(letters[i], letters[j]);
      SplitSpread(letters[i'], letters[j']);
      assert letters[i] == letters[i'] && letters[j] == letters[j'];
      assert i == i' && j == j';
    }
  }
}
