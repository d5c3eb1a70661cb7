/**
 * The asset list (index.js:11-14): the upper-case alphabet split into
 * one-letter strings and cut to `numCPUs - 1` entries by `slice`.
 */
module Letters {
  import opened JsStrings

  const Lowercase: string := "abcdefghijklmnopqrstuvwxyz"

  /** `"abc...z".toUpperCase().split("")`. */
  function Alphabet(): seq<string> {
    SplitChars(ToUpperCase(Lowercase))
  }

  function Min(a: int, b: int): int {
    if a <= b then a else b
  }

  /**
   * `Array.prototype.slice(0, end)`: a negative end counts back from
   * the length, and the end is clamped to `[0, |s|]`.
   */
  function SliceTo<T>(s: seq<T>, end: int): (r: seq<T>)
    ensures end >= 0 ==> |r| == Min(end, |s|)
    ensures end < 0 ==> |r| == if |s| + end < 0 then 0 else |s| + end
    ensures r == s[..|r|]
  {
    var stop := if end < 0 then (if |s| + end < 0 then 0 else |s| + end)
                else Min(end, |s|);
    s[..stop]
  }

  /** `letterArray`: the letters owned by the order-book workers. */
  function LetterArray(numCPUs: nat): seq<string> {
    SliceTo(Alphabet(), numCPUs - 1)
  }

  /** One upper-case letter A-Z, as a one-character string. */
  predicate IsLetter(s: string) {
    |s| == 1 && 'A' <= s[0] <= 'Z'
  }

  /** One-letter entries in strictly increasing alphabetical order. */
  predicate WellFormed(letters: seq<string>) {
    && (forall i :: 0 <= i < |letters| ==> IsLetter(letters[i]))
    && (forall i, j :: 0 <= i < j < |letters| ==> letters[i][0] < letters[j][0])
  }

  /** No entry occurs twice. */
  predicate Distinct<T(==)>(s: seq<T>) {
    forall i, j :: 0 <= i < |s| && 0 <= j < |s| && i != j ==> s[i] != s[j]
  }

  /** The alphabet is the 26 letters "A" to "Z" in order. */
  lemma AlphabetIsAToZ()
    ensures |Alphabet()| == 26
    ensures forall i :: 0 <= i < 26 ==> Alphabet()[i] == [('A' as int + i) as char]
  {
    var up := ToUpperCase(Lowercase);
    forall i | 0 <= i < 26
      ensures up[i] == ('A' as int + i) as char
    {
      assert Lowercase[i] == ('a' as int + i) as char;
    }
  }

  /** Letters in strictly increasing order are pairwise distinct. */
  lemma WellFormedDistinct(letters: seq<string>)
    requires WellFormed(letters)
    ensures Distinct(letters)
  {
    forall i, j | 0 <= i < |letters| && 0 <= j < |letters| && i != j
      ensures letters[i] != letters[j]
    {
      if i < j {
        assert letters[i][0] < letters[j][0];
      } else {
        assert letters[j][0] < letters[i][0];
      }
    }
  }

  /**
   * For at least one CPU the asset list has `min(numCPUs - 1, 26)`
   * entries, is a prefix of A-Z, and is well formed (one letter each,
   * alphabetical, hence distinct).
   */
  lemma LetterArrayShape(numCPUs: nat)
    requires numCPUs >= 1
    ensures |LetterArray(numCPUs)| == Min(numCPUs - 1, 26)
    ensures LetterArray(numCPUs) == Alphabet()[..|LetterArray(numCPUs)|]
    ensures forall i :: 0 <= i < |LetterArray(numCPUs)| ==>
              LetterArray(numCPUs)[i] == [('A' as int + i) as char]
    ensures WellFormed(LetterArray(numCPUs))
    ensures Distinct(LetterArray(numCPUs))
  {
    AlphabetIsAToZ();
    var letters := LetterArray(numCPUs);
    assert forall i :: 0 <= i < |letters| ==> letters[i] == Alphabet()[i];
    WellFormedDistinct(letters);
  }

  /** With one CPU there are no order-book letters. */
  lemma LetterArrayOneCpu()
    ensures LetterArray(1) == []
  {
  }

  /**
   * `os.cpus()` may report no CPU at all; `slice(0, -1)` then drops only
   * the last letter, leaving 25. With no CPU the fork loop (index.js:19)
   * starts no worker, so this list only reaches the primary's log line
   * (index.js:18); no order-book worker owns any of its letters.
   */
  lemma LetterArrayNoCpu()
    ensures |LetterArray(0)| == 25
    ensures LetterArray(0) == Alphabet()[..25]
  {
    AlphabetIsAToZ();
  }
}
