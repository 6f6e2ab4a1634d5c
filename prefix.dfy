/**
 * Word prefixes for autocomplete: lowercase the text, split it into words at
 * runs of whitespace, and emit every leading prefix of every word in order.
 */
module PrefixAlgorithms {
  import opened SearchTypes

  /**
   * The code points that the ECMAScript pattern \s matches: the WhiteSpace
   * and LineTerminator characters of ECMA-262 (tab, line feed, vertical tab,
   * form feed, carriage return, space, no-break space, the Unicode space
   * separators, line and paragraph separators, and the byte order mark).
   */
  const WHITESPACE: set<char> := {
    '\t', '\n', '\U{000B}', '\U{000C}', '\r', ' ', '\U{00A0}', '\U{1680}',
    '\U{2000}', '\U{2001}', '\U{2002}', '\U{2003}', '\U{2004}', '\U{2005}', '\U{2006}',
    '\U{2007}', '\U{2008}', '\U{2009}', '\U{200A}', '\U{2028}', '\U{2029}', '\U{202F}',
    '\U{205F}', '\U{3000}', '\U{FEFF}'
  }

  predicate IsSpace(c: char) {
    c in WHITESPACE
  }

  predicate IsUpper(c: char) {
    'A' <= c <= 'Z'
  }

  predicate AllSpace(s: string) {
    forall i :: 0 <= i < |s| ==> IsSpace(s[i])
  }

  predicate NoSpace(s: string) {
    forall i :: 0 <= i < |s| ==> !IsSpace(s[i])
  }

  predicate IsLowerCased(s: string) {
    forall i :: 0 <= i < |s| ==> !IsUpper(s[i])
  }

  /** ASCII lowercasing of one character. */
  function LowerChar(c: char): char {
    if IsUpper(c) then (c as int + 32) as char else c
  }

  /** Lowercasing keeps the length, leaves whitespace and non-letters alone and leaves no capital. */
  function ToLowerCase(s: string): (r: string)
    ensures |r| == |s|
    ensures IsLowerCased(r)
    ensures forall i :: 0 <= i < |s| && !IsUpper(s[i]) ==> r[i] == s[i]
    ensures forall i :: 0 <= i < |s| && IsUpper(s[i]) ==> r[i] as int == s[i] as int + ('a' as int - 'A' as int)
    ensures forall i :: 0 <= i < |s| ==> (IsSpace(r[i]) <==> IsSpace(s[i]))
  {
    seq(|s|, i requires 0 <= i < |s| => LowerChar(s[i]))
  }

  /** The longest whitespace-free prefix of s. */
  function LeadingWord(s: string): (w: string)
    ensures |w| <= |s| && w == s[..|w|]
    ensures NoSpace(w)
    ensures |w| == |s| || IsSpace(s[|w|])
  {
    if s == [] || IsSpace(s[0]) then []
    else [s[0]] + LeadingWord(s[1..])
  }

  /**
   * The words of s: the pieces between runs of whitespace, with the empty
   * pieces that leading, trailing or repeated whitespace would leave dropped.
   */
  function Words(s: string): (words: seq<string>)
    ensures |words| <= |s|
    decreases |s|
  {
    if s == [] then []
    else if IsSpace(s[0]) then Words(s[1..])
    else
      var w := LeadingWord(s);
      [w] + Words(s[|w|..])
  }

  /** Every word is non-empty and free of whitespace. */
  lemma {:induction false} WordsShape(s: string)
    ensures forall w :: w in Words(s) ==> w != [] && NoSpace(w)
    decreases |s|
  {
    if s != [] {
      if IsSpace(s[0]) {
        WordsShape(s[1..]);
      } else {
        WordsShape(s[|LeadingWord(s)|..]);
      }
    }
  }

  /** A text has no words iff it is all whitespace (the empty text included). */
  lemma {:induction false} NoWordsIffBlank(s: string)
    ensures Words(s) == [] <==> AllSpace(s)
    decreases |s|
  {
    if s != [] && IsSpace(s[0]) {
      NoWordsIffBlank(s[1..]);
      assert AllSpace(s) <==> AllSpace(s[1..]) by {
        if AllSpace(s[1..]) {
          forall i | 0 <= i < |s|
            ensures IsSpace(s[i])
          {
            if i > 0 {
              assert s[i] == s[1..][i - 1];
            }
          }
        }
      }
    }
  }

  /** Words are made of the characters of the text: lowercase text has lowercase words. */
  lemma {:induction false} WordsOfLowerCased(s: string)
    requires IsLowerCased(s)
    ensures forall w :: w in Words(s) ==> IsLowerCased(w)
    decreases |s|
  {
    if s != [] {
      if IsSpace(s[0]) {
        WordsOfLowerCased(s[1..]);
      } else {
        var w := LeadingWord(s);
        WordsOfLowerCased(s[|w|..]);
      }
    }
  }

  /** The prefixes of w of length 1, 2, ..., |w|: those of w without its last character, then w itself. */
  function WordPrefixes(w: string): (ps: seq<string>)
    ensures |ps| == |w|
  {
    if w == [] then [] else WordPrefixes(w[..|w| - 1]) + [w]
  }

  /** The j-th prefix of a word is its leading part of length j + 1; the last is the word itself. */
  lemma {:induction false} WordPrefixesElements(w: string)
    ensures forall j :: 0 <= j < |w| ==> WordPrefixes(w)[j] == w[..j + 1]
    ensures w != [] ==> WordPrefixes(w)[|w| - 1] == w
    decreases |w|
  {
    if w != [] {
      var init := w[..|w| - 1];
      WordPrefixesElements(init);
      forall j | 0 <= j < |w|
        ensures WordPrefixes(w)[j] == w[..j + 1]
      {
        if j < |init| {
          assert init[..j + 1] == w[..j + 1];
        } else {
          assert w[..j + 1] == w;
        }
      }
    }
  }

  /**
   * The prefixes of every word, concatenated in word order; there is one per
   * character of every word, the size the generator allocates.
   */
  function AllPrefixes(words: seq<string>): (ps: seq<string>)
    ensures |ps| == SumLengths(words)
  {
    if words == [] then []
    else AllPrefixes(words[..|words| - 1]) + WordPrefixes(words[|words| - 1])
  }

  /** Total length of the words: the number of prefixes they have, and at least the length of each word. */
  function SumLengths(words: seq<string>): (total: nat)
    ensures forall i :: 0 <= i < |words| ==> |words[i]| <= total
  {
    if words == [] then 0
    else SumLengths(words[..|words| - 1]) + |words[|words| - 1]|
  }

  /**
   * What generatePrefixes returns for an input; it is empty exactly for
   * whitespace-only input, the empty string included.
   */
  function PrefixesOf(input: string): (ps: seq<string>)
    ensures ps == [] <==> AllSpace(input)
  {
    var lowered := ToLowerCase(input);
    NoWordsIffBlank(lowered);
    WordsShape(lowered);
    assert AllSpace(lowered) <==> AllSpace(input);
    var words := Words(lowered);
    assert words != [] ==> words[0] in words;
    AllPrefixes(words)
  }

  /** t is a non-empty leading part of w. */
  predicate IsWordPrefix(t: string, w: string) {
    0 < |t| <= |w| && w[..|t|] == t
  }

  /** A prefix of the word list has no more characters than the whole list. */
  lemma {:induction false} SumLengthsPrefix(words: seq<string>, i: nat)
    requires i <= |words|
    ensures SumLengths(words[..i]) <= SumLengths(words)
    decreases |words|
  {
    if i < |words| {
      var init := words[..|words| - 1];
      SumLengthsPrefix(init, i);
      assert init[..i] == words[..i];
    } else {
      assert words[..i] == words;
    }
  }

  /** Dropping the last element of a concatenation drops it from the right part. */
  lemma DropLastOfConcat<T>(xs: seq<T>, ys: seq<T>)
    requires ys != []
    ensures (xs + ys)[..|xs + ys| - 1] == xs + ys[..|ys| - 1]
    ensures (xs + ys)[|xs + ys| - 1] == ys[|ys| - 1]
  {
  }

  /** Prefix generation distributes over concatenation of word lists. */
  lemma {:induction false} AllPrefixesConcat(xs: seq<string>, ys: seq<string>)
    ensures AllPrefixes(xs + ys) == AllPrefixes(xs) + AllPrefixes(ys)
    decreases |ys|
  {
    if ys == [] {
      assert xs + ys == xs;
    } else {
      DropLastOfConcat(xs, ys);
      AllPrefixesConcat(xs, ys[..|ys| - 1]);
    }
  }

  /** The prefixes of one word are exactly its non-empty leading parts. */
  lemma WordPrefixMembership(w: string, t: string)
    ensures t in WordPrefixes(w) <==> IsWordPrefix(t, w)
  {
    var ps := WordPrefixes(w);
    WordPrefixesElements(w);
    if IsWordPrefix(t, w) {
      assert ps[|t| - 1] == t;
    }
  }

  /**
   * A token is stored for autocomplete iff it is a non-empty leading part of
   * one of the words, so a lookup of such a token finds the document.
   */
  lemma {:induction false} PrefixMembership(words: seq<string>, t: string)
    ensures t in AllPrefixes(words) <==> exists w :: w in words && IsWordPrefix(t, w)
    decreases |words|
  {
    if words != [] {
      var init, last := words[..|words| - 1], words[|words| - 1];
      PrefixMembership(init, t);
      WordPrefixMembership(last, t);
      assert words == init + [last];
      if exists w :: w in words && IsWordPrefix(t, w) {
        var w :| w in words && IsWordPrefix(t, w);
        assert w in init || w == last;
      }
    }
  }

  /** Every emitted token is non-empty, whitespace-free and lowercase. */
  lemma TokensShape(input: string, t: string)
    requires t in PrefixesOf(input)
    ensures t != [] && NoSpace(t) && IsLowerCased(t)
  {
    var lowered := ToLowerCase(input);
    var words := Words(lowered);
    PrefixMembership(words, t);
    var w :| w in words && IsWordPrefix(t, w);
    WordsShape(lowered);
    WordsOfLowerCased(lowered);
    forall j | 0 <= j < |t|
      ensures !IsSpace(t[j]) && !IsUpper(t[j])
    {
      assert t[j] == w[j];
    }
  }

  /** Lowercasing a text around a whitespace character lowercases the two sides. */
  lemma LowerAroundSpace(a: string, c: char, b: string)
    requires IsSpace(c)
    ensures ToLowerCase(a + [c] + b) == ToLowerCase(a) + [c] + ToLowerCase(b)
  {
    var l, r := ToLowerCase(a + [c] + b), ToLowerCase(a) + [c] + ToLowerCase(b);
    forall i | 0 <= i < |l|
      ensures l[i] == r[i]
    {
      if i < |a| {
        assert (a + [c] + b)[i] == a[i];
      } else if i == |a| {
        assert (a + [c] + b)[i] == c;
      } else {
        assert (a + [c] + b)[i] == b[i - |a| - 1];
      }
    }
  }

  /** Dropping a leading part of a + [c] + b that lies within a. */
  lemma DropWithinLeft(a: string, c: char, b: string, k: nat)
    requires k <= |a|
    ensures (a + [c] + b)[k..] == a[k..] + [c] + b
    ensures (a + [c] + b)[0] == if a == [] then c else a[0]
    ensures a == [] ==> (a + [c] + b)[1..] == b
  {
  }

  /** The leading word stops at the first whitespace character. */
  lemma {:induction false} LeadingWordBeforeSpace(a: string, c: char, b: string)
    requires IsSpace(c)
    ensures LeadingWord(a + [c] + b) == LeadingWord(a)
    decreases |a|
  {
    if a != [] && !IsSpace(a[0]) {
      LeadingWordBeforeSpace(a[1..], c, b);
      DropWithinLeft(a, c, b, 1);
    }
  }

  /** Splitting at a whitespace character: the words of the two sides, in order. */
  lemma {:induction false} WordsAroundSpace(a: string, c: char, b: string)
    requires IsSpace(c)
    ensures Words(a + [c] + b) == Words(a) + Words(b)
    decreases |a|
  {
    if a == [] {
      DropWithinLeft(a, c, b, 0);
    } else if IsSpace(a[0]) {
      DropWithinLeft(a, c, b, 1);
      WordsAroundSpace(a[1..], c, b);
    } else {
      var w := LeadingWord(a);
      LeadingWordBeforeSpace(a, c, b);
      DropWithinLeft(a, c, b, |w|);
      WordsAroundSpace(a[|w|..], c, b);
    }
  }

  /** A single whitespace-free, non-empty word is its own only word. */
  lemma SingleWord(w: string)
    requires w != [] && NoSpace(w)
    ensures Words(w) == [w]
  {
    assert !IsSpace(w[0]);
    var lead := LeadingWord(w);
    assert |lead| == |w|;
    assert lead == w;
    assert w[|lead|..] == [];
  }

  /**
   * Whitespace between two parts of a text splits their prefixes apart: the
   * result is the prefixes of the left part followed by those of the right.
   */
  lemma PrefixesAroundSpace(a: string, c: char, b: string)
    requires IsSpace(c)
    ensures PrefixesOf(a + [c] + b) == PrefixesOf(a) + PrefixesOf(b)
  {
    LowerAroundSpace(a, c, b);
    WordsAroundSpace(ToLowerCase(a), c, ToLowerCase(b));
    AllPrefixesConcat(Words(ToLowerCase(a)), Words(ToLowerCase(b)));
  }

  /** Leading whitespace does not change the prefixes. */
  lemma LeadingSpaceIgnored(c: char, b: string)
    requires IsSpace(c)
    ensures PrefixesOf([c] + b) == PrefixesOf(b)
  {
    PrefixesAroundSpace([], c, b);
    assert [] + [c] + b == [c] + b;
  }

  /** Trailing whitespace does not change the prefixes. */
  lemma TrailingSpaceIgnored(a: string, c: char)
    requires IsSpace(c)
    ensures PrefixesOf(a + [c]) == PrefixesOf(a)
  {
    PrefixesAroundSpace(a, c, []);
    assert a + [c] + [] == a + [c];
  }

  /** A run of two whitespace characters separates words like a single one. */
  lemma RepeatedSpaceCollapses(a: string, c: char, d: char, b: string)
    requires IsSpace(c) && IsSpace(d)
    ensures PrefixesOf(a + [c] + ([d] + b)) == PrefixesOf(a + [c] + b)
  {
    PrefixesAroundSpace(a, c, [d] + b);
    LeadingSpaceIgnored(d, b);
    PrefixesAroundSpace(a, c, b);
  }

  /** Which whitespace character separates two words does not matter. */
  lemma SpaceKindIrrelevant(a: string, c: char, d: char, b: string)
    requires IsSpace(c) && IsSpace(d)
    ensures PrefixesOf(a + [c] + b) == PrefixesOf(a + [d] + b)
  {
    PrefixesAroundSpace(a, c, b);
    PrefixesAroundSpace(a, d, b);
  }

  /** A single whitespace-free word yields the prefixes of its lowercase form. */
  lemma OneWordPrefixes(w: string)
    requires w != [] && NoSpace(w)
    ensures PrefixesOf(w) == WordPrefixes(ToLowerCase(w))
  {
    var lowered := ToLowerCase(w);
    assert NoSpace(lowered);
    SingleWord(lowered);
    assert AllPrefixes([lowered]) == AllPrefixes([]) + WordPrefixes(lowered);
  }

  /** Worked example: ASCII lowercasing of capitalised words. */
  lemma LowerCaseExamples()
    ensures ToLowerCase("Hello") == "hello" && ToLowerCase("World") == "world"
  {
  }

  /** The prefixes of a five-character word, shortest first, ending with the word. */
  lemma FiveCharPrefixes(w: string)
    requires |w| == 5
    ensures WordPrefixes(w) == [[w[0]], [w[0], w[1]], [w[0], w[1], w[2]], [w[0], w[1], w[2], w[3]], w]
  {
    WordPrefixesElements(w);
    assert w[..1] == [w[0]] && w[..2] == [w[0], w[1]];
    assert w[..3] == [w[0], w[1], w[2]] && w[..4] == [w[0], w[1], w[2], w[3]];
  }

  /** A capitalised five-character word gives the five prefixes of its lowercase form. */
  lemma FiveCharWordPrefixes(w: string, lower: string)
    requires |w| == 5 && NoSpace(w) && ToLowerCase(w) == lower
    ensures PrefixesOf(w) == [[lower[0]], [lower[0], lower[1]], [lower[0], lower[1], lower[2]], [lower[0], lower[1], lower[2], lower[3]], lower]
  {
    OneWordPrefixes(w);
    FiveCharPrefixes(lower);
  }

  /** Two lists of five, concatenated, element by element. */
  lemma ConcatFives<T>(xs: seq<T>, ys: seq<T>)
    requires |xs| == 5 && |ys| == 5
    ensures xs + ys == [xs[0], xs[1], xs[2], xs[3], xs[4], ys[0], ys[1], ys[2], ys[3], ys[4]]
  {
  }

  /**
   * Worked example: "Hello World" gives the prefixes of "Hello" followed by
   * those of "World".
   */
  lemma HelloWorldSplit()
    ensures PrefixesOf("Hello World") == PrefixesOf("Hello") + PrefixesOf("World")
  {
    assert "Hello World" == "Hello" + [' '] + "World";
    PrefixesAroundSpace("Hello", ' ', "World");
  }

  /** The two words of the worked example hold no whitespace. */
  lemma HelloWorldWordsUnspaced()
    ensures NoSpace("Hello") && NoSpace("World")
  {
  }

  /** Worked example: a capitalised word gives the prefixes of its lowercase form, shortest first. */
  lemma CapitalisedWordExamples()
    ensures PrefixesOf("Hello") == ["h", "he", "hel", "hell", "hello"]
    ensures PrefixesOf("World") == ["w", "wo", "wor", "worl", "world"]
  {
    assert PrefixesOf("Hello") == ["h", "he", "hel", "hell", "hello"] by {
      HelloWorldWordsUnspaced();
      LowerCaseExamples();
      FiveCharWordPrefixes("Hello", "hello");
    }
    assert PrefixesOf("World") == ["w", "wo", "wor", "worl", "world"] by {
      HelloWorldWordsUnspaced();
      LowerCaseExamples();
      FiveCharWordPrefixes("World", "world");
    }
  }

  /** Worked example: the ten tokens of "Hello World", word by word, shortest first. */
  lemma HelloWorldExample()
    ensures PrefixesOf("Hello World")
         == ["h", "he", "hel", "hell", "hello", "w", "wo", "wor", "worl", "world"]
  {
    HelloWorldSplit();
    CapitalisedWordExamples();
    ConcatFives(PrefixesOf("Hello"), PrefixesOf("World"));
  }

  /** The prefixes of a four-character word, shortest first, ending with the word. */
  lemma FourCharPrefixes(w: string)
    requires |w| == 4
    ensures WordPrefixes(w) == [[w[0]], [w[0], w[1]], [w[0], w[1], w[2]], w]
  {
    WordPrefixesElements(w);
    assert w[..1] == [w[0]] && w[..2] == [w[0], w[1]] && w[..3] == [w[0], w[1], w[2]];
  }

  /** Worked example: a lowercase word gives its own prefixes, shortest first. */
  lemma TestPrefixes()
    ensures PrefixesOf("test") == ["t", "te", "tes", "test"]
  {
    var w := "test";
    assert NoSpace(w);
    assert ToLowerCase(w) == w by {
      assert IsLowerCased(w);
    }
    OneWordPrefixes(w);
    FourCharPrefixes(w);
  }

  /** Worked examples: empty and whitespace-only inputs give no prefixes. */
  lemma BlankExamples()
    ensures PrefixesOf("") == []
    ensures PrefixesOf("  \n\t  ") == []
  {
  }

  /**
   * Where a prefix lands: the prefix of length j of word i sits right after
   * the prefixes of the words before it.
   */
  lemma AllPrefixesIndex(words: seq<string>, i: nat, j: nat)
    requires i < |words| && 1 <= j <= |words[i]|
    ensures SumLengths(words[..i]) + j - 1 < |AllPrefixes(words)|
    ensures AllPrefixes(words)[SumLengths(words[..i]) + j - 1] == words[i][..j]
  {
    var front, back := words[..i + 1], words[i + 1..];
    WordListStep(words, i);
    WordPrefixesElements(words[i]);
    assert words == front + back;
    AllPrefixesConcat(front, back);
  }

  /** One more word adds its length to the count and its prefixes to the output. */
  lemma WordListStep(words: seq<string>, i: nat)
    requires i < |words|
    ensures SumLengths(words[..i + 1]) == SumLengths(words[..i]) + |words[i]|
    ensures AllPrefixes(words[..i + 1]) == AllPrefixes(words[..i]) + WordPrefixes(words[i])
  {
    assert words[..i + 1][..i] == words[..i];
  }

  /** Size, token shape and emptiness of the prefixes of an input, gathered for the generator. */
  lemma PrefixesOfFacts(input: string)
    ensures |PrefixesOf(input)| == SumLengths(Words(ToLowerCase(input)))
    ensures forall k :: 0 <= k < |PrefixesOf(input)| ==>
      PrefixesOf(input)[k] != [] && NoSpace(PrefixesOf(input)[k]) && IsLowerCased(PrefixesOf(input)[k])
    ensures PrefixesOf(input) == [] <==> AllSpace(input)
  {
    var ps := PrefixesOf(input);
    forall k | 0 <= k < |ps|
      ensures ps[k] != [] && NoSpace(ps[k]) && IsLowerCased(ps[k])
    {
      TokensShape(input, ps[k]);
    }
  }

  /** The counting loop of the generator: the total length of the words, the number of prefixes to allocate. */
  method CountPrefixes(words: seq<string>) returns (totalPrefixes: nat)
    ensures totalPrefixes == SumLengths(words)
  {
    totalPrefixes := 0;
    for i := 0 to |words|
      invariant totalPrefixes == SumLengths(words[..i])
    {
      WordListStep(words, i);
      totalPrefixes := totalPrefixes + |words[i]|;
    }
    assert words[..|words|] == words;
  }

  /**
   * The inner loop of the generator: writes the prefixes of one word, shortest
   * first, into the array from a cursor on, and returns the advanced cursor.
   */
  method FillWordPrefixes(arr: array<string>, start: nat, word: string) returns (next: nat)
    requires start + |word| <= arr.Length
    modifies arr
    ensures next == start + |word|
    ensures arr[..start] == old(arr[..start])
    ensures arr[start..next] == WordPrefixes(word)
    ensures arr[next..] == old(arr[next..])
  {
    next := start;
    for j := 1 to |word| + 1
      invariant next == start + j - 1
      invariant forall k :: 0 <= k < start ==> arr[k] == old(arr[k])
      invariant forall k :: start + |word| <= k < arr.Length ==> arr[k] == old(arr[k])
      invariant forall k :: start <= k < next ==> arr[k] == word[..k - start + 1]
    {
      arr[next] := word[..j];
      next := next + 1;
    }
    WordPrefixesElements(word);
    forall m | 0 <= m < |word|
      ensures arr[start..next][m] == WordPrefixes(word)[m]
    {
      assert arr[start + m] == word[..m + 1];
    }
    assert |arr[next..]| == |old(arr[next..])|;
    forall m | 0 <= m < arr.Length - next
      ensures arr[next..][m] == old(arr[next..])[m]
    {
      assert arr[next + m] == old(arr[next + m]);
    }
  }

  /**
   * The filling part of the generator: pre-allocates an array of the counted
   * size and fills it word by word with each word's prefixes through a
   * running cursor.
   */
  method FillPrefixes(words: seq<string>) returns (prefixes: seq<string>)
    ensures prefixes == AllPrefixes(words)
    ensures |prefixes| == SumLengths(words)
  {
    var totalPrefixes := CountPrefixes(words);
    var arr := new string[totalPrefixes];
    var prefixIndex := 0;
    for i := 0 to |words|
      invariant prefixIndex == SumLengths(words[..i]) <= totalPrefixes
      invariant arr[..prefixIndex] == AllPrefixes(words[..i])
    {
      WordListStep(words, i);
      SumLengthsPrefix(words, i + 1);
      var next := FillWordPrefixes(arr, prefixIndex, words[i]);
      assert arr[..next] == arr[..prefixIndex] + arr[prefixIndex..next];
      prefixIndex := next;
    }
    assert words[..|words|] == words;
    assert arr[..] == arr[..prefixIndex];
    prefixes := arr[..];
  }

  /**
   * Lowercases and splits the input, returns nothing for a text without
   * words, and otherwise counts and fills the prefixes of its words.
   */
  method GeneratePrefixes(input: string) returns (prefixes: seq<string>)
    ensures prefixes == PrefixesOf(input)
    ensures |prefixes| == SumLengths(Words(ToLowerCase(input)))
    ensures forall k :: 0 <= k < |prefixes| ==> prefixes[k] != [] && NoSpace(prefixes[k]) && IsLowerCased(prefixes[k])
    ensures prefixes == [] <==> AllSpace(input)
  {
    var lowered := ToLowerCase(input);
    var words := Words(lowered);
    PrefixesOfFacts(input);
    if |words| == 0 {
      return [];
    }
    prefixes := FillPrefixes(words);
  }

  /** The prefix generator tagged with the PRE gram kind. */
  method Prefix(text: string) returns (r: GramResult)
    ensures r.gramType == PRE
    ensures r.arr == PrefixesOf(text)
  {
    var arr := GeneratePrefixes(text);
    r := GramResult(PRE, arr);
  }
}
