/**
 * Tokenizing a passage into words and joining words back into text:
 * `sentence.split(/\s+/g).filter(Boolean)` and `Array.prototype.join`.
 */
module Words {
  import opened Wrappers

  /** The characters of the JavaScript regular-expression class `\s`. */
  predicate IsWhitespace(c: char) {
    var k := c as int;
    (0x09 <= k <= 0x0D)          // \t \n \v \f \r
    || k == 0x20 || k == 0xA0 || k == 0x1680
    || (0x2000 <= k <= 0x200A)
    || k == 0x2028 || k == 0x2029 || k == 0x202F || k == 0x205F
    || k == 0x3000 || k == 0xFEFF
  }

  /** A word: a non-empty run of characters none of which is whitespace. */
  predicate IsWord(w: string) {
    |w| > 0 && forall i :: 0 <= i < |w| ==> !IsWhitespace(w[i])
  }

  /** A list whose every element is a word. */
  predicate AllWords(ws: seq<string>) {
    forall i :: 0 <= i < |ws| ==> IsWord(ws[i])
  }

  /** The length of the longest prefix of `s` that holds no whitespace. */
  function WordLength(s: string): (k: nat)
    ensures k <= |s|
    ensures forall i :: 0 <= i < k ==> !IsWhitespace(s[i])
    ensures k < |s| ==> IsWhitespace(s[k])
  {
    if s == [] || IsWhitespace(s[0]) then 0 else 1 + WordLength(s[1..])
  }

  /**
   * The maximal whitespace-free runs of `s`, in order: splitting on runs of
   * whitespace and dropping the empty strings the split leaves at either end.
   */
  function Split(s: string): (ws: seq<string>)
    ensures AllWords(ws)
    decreases |s|
  {
    if s == [] then []
    else if IsWhitespace(s[0]) then Split(s[1..])
    else
      var k := WordLength(s);
      [s[..k]] + Split(s[k..])
  }

  /** `getWords`: a missing or empty sentence has no words; otherwise split it. */
  function GetWords(sentence: Option<string>): (ws: seq<string>)
    ensures sentence == None || sentence == Some([]) ==> ws == []
    ensures AllWords(ws)
  {
    match sentence
    case None => []
    case Some(s) => if s == [] then [] else Split(s)
  }

  /** `getWords` loses only whitespace: its words, glued together, are the sentence without it. */
  lemma GetWordsConcat(s: string)
    ensures Join(GetWords(Some(s)), "") == RemoveWhitespace(s)
  {
    SplitConcat(s);
  }

  /** `ws.join(sep)`: the elements in order with `sep` between neighbours. */
  function Join(ws: seq<string>, sep: string): string {
    if ws == [] then []
    else if |ws| == 1 then ws[0]
    else ws[0] + sep + Join(ws[1..], sep)
  }

  /** `s` with every whitespace character deleted. */
  function RemoveWhitespace(s: string): string {
    if s == [] then []
    else (if IsWhitespace(s[0]) then [] else [s[0]]) + RemoveWhitespace(s[1..])
  }

  lemma JoinCons(w: string, rest: seq<string>, sep: string)
    ensures Join([w] + rest, sep) == if rest == [] then w else w + sep + Join(rest, sep)
  {
    assert ([w] + rest)[1..] == rest;
  }

  lemma {:induction false} RemoveWhitespaceAppend(a: string, b: string)
    ensures RemoveWhitespace(a + b) == RemoveWhitespace(a) + RemoveWhitespace(b)
  {
    if a != [] {
      assert (a + b)[1..] == a[1..] + b;
      RemoveWhitespaceAppend(a[1..], b);
    } else {
      assert a + b == b;
    }
  }

  lemma {:induction false} RemoveWhitespaceOfRun(w: string)
    requires forall i :: 0 <= i < |w| ==> !IsWhitespace(w[i])
    ensures RemoveWhitespace(w) == w
  {
    if w != [] {
      RemoveWhitespaceOfRun(w[1..]);
    }
  }

  /** The words, glued together, are the sentence with its whitespace deleted. */
  lemma {:induction false} SplitConcat(s: string)
    ensures Join(Split(s), "") == RemoveWhitespace(s)
    decreases |s|
  {
    if s == [] {
    } else if IsWhitespace(s[0]) {
      SplitConcat(s[1..]);
    } else {
      var k := WordLength(s);
      assert s == s[..k] + s[k..];
      SplitConcat(s[k..]);
      JoinCons(s[..k], Split(s[k..]), "");
      RemoveWhitespaceAppend(s[..k], s[k..]);
      RemoveWhitespaceOfRun(s[..k]);
    }
  }

  lemma {:induction false} WordLengthAppend(a: string, b: string)
    requires WordLength(a) < |a| || (b != [] && IsWhitespace(b[0]))
    ensures WordLength(a + b) == WordLength(a)
  {
    if a != [] && !IsWhitespace(a[0]) {
      assert (a + b)[1..] == a[1..] + b;
      WordLengthAppend(a[1..], b);
    }
  }

  /** Every whitespace character separates words: splitting distributes over it. */
  lemma {:induction false} SplitAtWhitespace(a: string, c: char, b: string)
    requires IsWhitespace(c)
    ensures Split(a + [c] + b) == Split(a) + Split(b)
    decreases |a|
  {
    var s := a + [c] + b;
    if a == [] {
      assert s[1..] == b;
    } else if IsWhitespace(a[0]) {
      assert s[1..] == a[1..] + [c] + b;
      SplitAtWhitespace(a[1..], c, b);
    } else {
      assert s == a + ([c] + b);
      WordLengthAppend(a, [c] + b);
      var k := WordLength(a);
      assert s[..k] == a[..k];
      assert s[k..] == a[k..] + [c] + b;
      SplitAtWhitespace(a[k..], c, b);
    }
  }

  /** A single word splits into itself. */
  lemma SplitWord(w: string)
    requires IsWord(w)
    ensures Split(w) == [w]
  {
    assert WordLength(w) == |w|;
    assert w[..|w|] == w && w[|w|..] == [];
  }

  /** Joining words with a space and splitting again gives the same words back. */
  lemma {:induction false} SplitJoin(ws: seq<string>)
    requires AllWords(ws)
    ensures Split(Join(ws, " ")) == ws
  {
    if ws == [] {
    } else if |ws| == 1 {
      SplitWord(ws[0]);
    } else {
      SplitJoin(ws[1..]);
      SplitWord(ws[0]);
      assert ws[0] + " " + Join(ws[1..], " ") == ws[0] + [' '] + Join(ws[1..], " ");
      SplitAtWhitespace(ws[0], ' ', Join(ws[1..], " "));
      assert ws == [ws[0]] + ws[1..];
    }
  }

  /** A sentence has no words exactly when it is all whitespace. */
  lemma SplitEmpty(s: string)
    ensures Split(s) == [] <==> forall i :: 0 <= i < |s| ==> IsWhitespace(s[i])
  {
    if forall i :: 0 <= i < |s| ==> IsWhitespace(s[i]) {
      AllWhitespaceSplit(s);
    } else {
      var i :| 0 <= i < |s| && !IsWhitespace(s[i]);
      SplitNonBlank(s, i);
    }
  }

  lemma {:induction false} SplitNonBlank(s: string, i: nat)
    requires i < |s| && !IsWhitespace(s[i])
    ensures Split(s) != []
  {
    if IsWhitespace(s[0]) {
      SplitNonBlank(s[1..], i - 1);
    }
  }

  lemma {:induction false} AllWhitespaceSplit(s: string)
    requires forall i :: 0 <= i < |s| ==> IsWhitespace(s[i])
    ensures Split(s) == []
  {
    if s != [] {
      AllWhitespaceSplit(s[1..]);
    }
  }

  /** Leading whitespace contributes no words. */
  lemma {:induction false} SplitLeadingWhitespace(pre: string, rest: string)
    requires forall i :: 0 <= i < |pre| ==> IsWhitespace(pre[i])
    ensures Split(pre + rest) == Split(rest)
  {
    if pre != [] {
      assert (pre + rest)[1..] == pre[1..] + rest;
      SplitLeadingWhitespace(pre[1..], rest);
    } else {
      assert pre + rest == rest;
    }
  }

  /** A word followed by any non-empty run of whitespace is the first word. */
  lemma SplitWordThenRest(w: string, sep: string, rest: string)
    requires IsWord(w) && sep != []
    requires forall i :: 0 <= i < |sep| ==> IsWhitespace(sep[i])
    ensures Split(w + sep + rest) == [w] + Split(rest)
  {
    assert w + sep + rest == w + [sep[0]] + (sep[1..] + rest);
    SplitAtWhitespace(w, sep[0], sep[1..] + rest);
    SplitWord(w);
    SplitLeadingWhitespace(sep[1..], rest);
  }

  /** The sentences of the tokenizer tests. */
  lemma GetWordsMissing()
    ensures GetWords(None) == [] && GetWords(Some("")) == []
  {
  }

  lemma GetWordsOneWord()
    ensures GetWords(Some("This")) == ["This"]
  {
    SplitWord("This");
  }

  lemma GetWordsSpaced()
    ensures GetWords(Some("This is a test")) == ["This", "is", "a", "test"]
  {
    assert "This is a test" == "This" + " " + ("is" + " " + ("a" + " " + "test"));
    SplitFourWords("This", " ", "is", " ", "a", " ", "test");
  }

  lemma GetWordsMixedWhitespace()
    ensures GetWords(Some("This \nis a  test")) == ["This", "is", "a", "test"]
  {
    assert "This \nis a  test" == "This" + " \n" + ("is" + " " + ("a" + "  " + "test"));
    SplitFourWords("This", " \n", "is", " ", "a", "  ", "test");
  }

  /** Four words separated by runs of whitespace split into those four words. */
  lemma SplitFourWords(w1: string, s1: string, w2: string, s2: string, w3: string, s3: string, w4: string)
    requires IsWord(w1) && IsWord(w2) && IsWord(w3) && IsWord(w4)
    requires s1 != [] && forall i :: 0 <= i < |s1| ==> IsWhitespace(s1[i])
    requires s2 != [] && forall i :: 0 <= i < |s2| ==> IsWhitespace(s2[i])
    requires s3 != [] && forall i :: 0 <= i < |s3| ==> IsWhitespace(s3[i])
    ensures Split(w1 + s1 + (w2 + s2 + (w3 + s3 + w4))) == [w1, w2, w3, w4]
  {
    var t3 := w3 + s3 + w4;
    var t2 := w2 + s2 + t3;
    SplitWord(w4);
    SplitWordThenRest(w3, s3, w4);
    SplitWordThenRest(w2, s2, t3);
    SplitWordThenRest(w1, s1, t2);
  }
}
