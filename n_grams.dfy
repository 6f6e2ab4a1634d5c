/**
 * Sliding-window n-grams over the characters of a string: bigrams, trigrams
 * and the dispatcher that checks n.
 */
module NGramAlgorithms {
  import opened SearchTypes

  /** The message of the error thrown for a bad n. */
  const INVALID_N := "Value of n must be either 2 or 3"

  /**
   * Reference definition: the window of the first n characters, followed by
   * the windows of the text without its first character.
   */
  function SlidingWindows(text: string, n: nat): (grams: seq<string>)
    requires n > 0
    ensures |grams| == if |text| < n then 0 else |text| - n + 1
    ensures forall i :: 0 <= i < |grams| ==> grams[i] == text[i..i + n]
    decreases |text|
  {
    if |text| < n then []
    else
      var rest := SlidingWindows(text[1..], n);
      forall i | 0 <= i < |rest|
        ensures rest[i] == text[i + 1..i + 1 + n]
      {
        assert text[1..][i..i + n] == text[i + 1..i + 1 + n];
      }
      [text[..n]] + rest
  }

  /** Every window of two consecutive characters, filled into a pre-allocated array. */
  method CreateBigrams(text: string) returns (bigrams: seq<string>)
    ensures bigrams == SlidingWindows(text, 2)
    ensures |bigrams| == if |text| < 2 then 0 else |text| - 1
    ensures forall i :: 0 <= i < |bigrams| ==> |bigrams[i]| == 2 && bigrams[i] == text[i..i + 2]
  {
    var length := |text|;
    if length < 2 {
      return [];
    }
    var arr := new string[length - 1];
    for i := 0 to length - 1
      invariant forall k :: 0 <= k < i ==> arr[k] == text[k..k + 2]
    {
      arr[i] := [text[i]] + [text[i + 1]];
    }
    bigrams := arr[..];
  }

  /** Every window of three consecutive characters, filled into a pre-allocated array. */
  method CreateTrigrams(text: string) returns (trigrams: seq<string>)
    ensures trigrams == SlidingWindows(text, 3)
    ensures |trigrams| == if |text| < 3 then 0 else |text| - 2
    ensures forall i :: 0 <= i < |trigrams| ==> |trigrams[i]| == 3 && trigrams[i] == text[i..i + 3]
  {
    var length := |text|;
    if length < 3 {
      return [];
    }
    var arr := new string[length - 2];
    for i := 0 to length - 2
      invariant forall k :: 0 <= k < i ==> arr[k] == text[k..k + 3]
    {
      arr[i] := [text[i]] + [text[i + 1]] + [text[i + 2]];
    }
    trigrams := arr[..];
  }

  /** Checks n and dispatches: bigrams tagged BI for 2, trigrams tagged TRI for 3, an error otherwise. */
  method NGrams(n: int, text: string) returns (r: Result<GramResult>)
    ensures r.Failure? <==> n != 2 && n != 3
    ensures r.Failure? ==> r.error == INVALID_N
    ensures n == 2 ==> r == Success(GramResult(BI, SlidingWindows(text, 2)))
    ensures n == 3 ==> r == Success(GramResult(TRI, SlidingWindows(text, 3)))
  {
    if n != 2 && n != 3 {
      return Failure(INVALID_N);
    }
    var gramType := if n == 2 then BI else TRI;
    var arr;
    if gramType == TRI {
      arr := CreateTrigrams(text);
    } else {
      arr := CreateBigrams(text);
    }
    return Success(GramResult(gramType, arr));
  }

  /** Edge cases: a text shorter than n has no window; a text of exactly n characters is its only window. */
  lemma WindowEdgeCases(text: string, n: nat)
    requires n > 0
    ensures |text| < n ==> SlidingWindows(text, n) == []
    ensures |text| == n ==> SlidingWindows(text, n) == [text]
  {
    if |text| == n {
      assert text[..n] == text;
    }
  }

  /** t occurs in text starting at offset i. */
  predicate OccursAt(text: string, t: string, i: int) {
    0 <= i && i + |t| <= |text| && text[i..i + |t|] == t
  }

  /** Membership in the windows: a token occurs iff it has length n and sits at some offset of the text. */
  lemma WindowMembership(text: string, n: nat, t: string)
    requires n > 0
    ensures t in SlidingWindows(text, n) <==> |t| == n && exists i :: OccursAt(text, t, i)
  {
    var grams := SlidingWindows(text, n);
    if t in grams {
      var i :| 0 <= i < |grams| && grams[i] == t;
      assert OccursAt(text, t, i);
    }
    if |t| == n && exists i :: OccursAt(text, t, i) {
      var i :| OccursAt(text, t, i);
      assert grams[i] == t;
    }
  }

  /** Worked bigram example: every adjacent pair, the doubled "p" included. */
  lemma BigramExample()
    ensures SlidingWindows("apple", 2) == ["ap", "pp", "pl", "le"]
  {
    var text := "apple";
    var apple := SlidingWindows(text, 2);
    assert apple[0] == text[0..2] == "ap";
    assert apple[1] == text[1..3] == "pp";
    assert apple[2] == text[2..4] == "pl";
    assert apple[3] == text[3..5] == "le";
  }

  /** Worked trigram example: the repeated "ana" of "banana" is kept twice. */
  lemma BananaTrigrams()
    ensures SlidingWindows("banana", 3) == ["ban", "ana", "nan", "ana"]
  {
    var text := "banana";
    var grams := SlidingWindows(text, 3);
    assert grams[0] == text[0..3] == "ban";
    assert grams[1] == text[1..4] == "ana";
    assert grams[2] == text[2..5] == "nan";
    assert grams[3] == text[3..6] == "ana";
  }

  /** Worked trigram example: a four-letter word has two trigrams. */
  lemma TestTrigrams()
    ensures SlidingWindows("test", 3) == ["tes", "est"]
  {
    var text := "test";
    var grams := SlidingWindows(text, 3);
    assert grams[0] == text[0..3] == "tes";
    assert grams[1] == text[1..4] == "est";
  }

  /** Worked edge cases: texts shorter than n, the empty text, and texts of exactly n characters. */
  lemma ShortTextExamples()
    ensures SlidingWindows("hi", 2) == ["hi"] && SlidingWindows("cat", 3) == ["cat"]
    ensures SlidingWindows("a", 2) == [] && SlidingWindows("be", 3) == []
    ensures SlidingWindows("", 2) == [] && SlidingWindows("", 3) == []
  {
    WindowEdgeCases("hi", 2);
    WindowEdgeCases("cat", 3);
  }
}
