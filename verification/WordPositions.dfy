/** Where the second word of a text stands, byte by byte: both status lines are judged by it. */
module WordPositions {
  import opened Bytes
  import opened Text

  predicate AllWhite(s: seq<byte>) {
    forall i :: 0 <= i < |s| ==> IsWhite(s[i])
  }

  /** White space up to `w`, a word from `w` to `e`, white space from `e` to `a`. */
  predicate Spans(s: seq<byte>, w: nat, e: nat, a: nat)
    requires a <= |s|
  {
    && w < e < a
    && (forall i :: 0 <= i < w ==> IsWhite(s[i]))
    && (forall i :: w <= i < e ==> !IsWhite(s[i]))
    && (forall i :: e <= i < a ==> IsWhite(s[i]))
  }

  /** Before offset `a` stand white space that may be missing, one word, and white space. */
  ghost predicate OneWordBefore(s: seq<byte>, a: nat)
    requires a <= |s|
  {
    exists w: nat, e: nat :: Spans(s, w, e, a)
  }

  /** The second word of `s` begins at offset `a`. */
  ghost predicate SecondWordAt(s: seq<byte>, a: nat) {
    a < |s| && !IsWhite(s[a]) && OneWordBefore(s, a)
  }

  /** A whole word of `s` stands at offsets `a` to `e`. */
  predicate WordSpan(s: seq<byte>, a: nat, e: nat) {
    a < e <= |s| && IsWord(s[a..e]) && (e == |s| || IsWhite(s[e]))
  }

  // ---------------------------------------------------------------------
  // White space between words
  // ---------------------------------------------------------------------

  lemma {:induction false} TrimStartIs(s: seq<byte>) returns (k: nat)
    ensures k <= |s| && AllWhite(s[..k]) && s[k..] == TrimStart(s)
    ensures k == |s| || !IsWhite(s[k])
  {
    if s != [] && IsWhite(s[0]) {
      var j := TrimStartIs(s[1..]);
      k := j + 1;
      assert s[..k] == [s[0]] + s[1..][..j];
    } else {
      k := 0;
    }
  }

  lemma {:induction false} WordIs(t: seq<byte>)
    ensures Word(t) == t[..|Word(t)|]
    ensures forall i :: 0 <= i < |Word(t)| ==> !IsWhite(t[i])
    ensures |Word(t)| == |t| || IsWhite(t[|Word(t)|])
  {
    if t != [] && !IsWhite(t[0]) {
      WordIs(t[1..]);
    }
  }

  lemma {:induction false} WordsSkipWhite(pad: seq<byte>, s: seq<byte>)
    requires AllWhite(pad)
    ensures Words(pad + s) == Words(s)
  {
    if pad == [] {
      assert pad + s == s;
    } else {
      WordsSkipWhite(pad[1..], s);
      assert (pad + s)[1..] == pad[1..] + s;
      WordsSkipOne(pad + s);
    }
  }

  lemma {:induction false} WordsSkipOne(s: seq<byte>)
    requires s != [] && IsWhite(s[0])
    ensures Words(s) == Words(s[1..])
  {
  }

  lemma {:induction false} TrimStartAppend(s: seq<byte>, b: byte)
    requires IsWhite(b)
    ensures TrimStart(s + [b]) == if TrimStart(s) == [] then [] else TrimStart(s) + [b]
  {
    if s == [] {
      assert s + [b] == [b] && [b][1..] == [];
    } else if IsWhite(s[0]) {
      assert (s + [b])[1..] == s[1..] + [b];
      TrimStartAppend(s[1..], b);
    }
  }

  lemma {:induction false} TrimAppendWhite(s: seq<byte>, b: byte)
    requires IsWhite(b)
    ensures Trim(s + [b]) == Trim(s)
  {
    TrimStartAppend(s, b);
    var t := TrimStart(s);
    assert (t + [b])[..|t|] == t;
  }

  /** `s` is `core` with white space around it. */
  ghost predicate Padded(s: seq<byte>, core: seq<byte>) {
    exists a: seq<byte>, b: seq<byte> :: AllWhite(a) && AllWhite(b) && s == a + core + b
  }

  lemma {:induction false} TrimIs(s: seq<byte>)
    ensures Trimmed(Trim(s)) && Padded(s, Trim(s))
  {
    var k := TrimStartIs(s);
    var t := TrimStart(s);
    var b := TrimEndIs(t);
    assert s == s[..k] + Trim(s) + b;
  }

  lemma {:induction false} TrimEndIs(s: seq<byte>) returns (b: seq<byte>)
    ensures AllWhite(b) && s == TrimEnd(s) + b
    ensures TrimEnd(s) == [] || !IsWhite(TrimEnd(s)[|TrimEnd(s)| - 1])
    ensures TrimEnd(s) != [] ==> TrimEnd(s)[0] == s[0]
  {
    if s != [] && IsWhite(s[|s| - 1]) {
      var c := TrimEndIs(DropLast(s));
      b := c + [s[|s| - 1]];
      assert s == DropLast(s) + [s[|s| - 1]];
    } else {
      b := [];
    }
  }

  lemma {:induction false} TrimBehindPad(a: seq<byte>, s: seq<byte>)
    requires AllWhite(a)
    ensures TrimStart(a + s) == TrimStart(s)
  {
    if a == [] {
      assert a + s == s;
    } else {
      TrimBehindPad(a[1..], s);
      assert (a + s)[1..] == a[1..] + s;
    }
  }

  lemma {:induction false} TrimBeforePad(s: seq<byte>, b: seq<byte>)
    requires AllWhite(b)
    ensures Trim(s + b) == Trim(s)
  {
    if b == [] {
      assert s + b == s;
    } else {
      TrimBeforePad(s, DropLast(b));
      TrimAppendWhite(s + DropLast(b), b[|b| - 1]);
      assert s + b == s + DropLast(b) + [b[|b| - 1]];
    }
  }

  /** Trimming takes off exactly the white space around. */
  lemma {:induction false} TrimIff(s: seq<byte>, core: seq<byte>)
    requires Trimmed(core)
    ensures Trim(s) == core <==> Padded(s, core)
  {
    TrimIs(s);
    if Padded(s, core) {
      var a: seq<byte>, b: seq<byte> :| AllWhite(a) && AllWhite(b) && s == a + core + b;
      TrimBeforePad(a + core, b);
      TrimBehindPad(a, core);
      TrimTrimmed(core);
    }
  }

  lemma {:induction false} WordAppend(t: seq<byte>, b: byte)
    requires IsWhite(b)
    ensures Word(t + [b]) == Word(t)
  {
    WordIs(t);
    var n := |Word(t)|;
    assert t + [b] == t[..n] + (t[n..] + [b]);
    WordFirst(t[..n], t[n..] + [b]);
  }

  /** White space at the end holds no word. */
  lemma {:induction false} WordsAppendWhite(s: seq<byte>, b: byte)
    requires IsWhite(b)
    ensures Words(s + [b]) == Words(s)
    decreases |s|
  {
    TrimStartShrinks(s);
    TrimStartAppend(s, b);
    var t := TrimStart(s);
    if t != [] {
      WordAppend(t, b);
      assert (t + [b])[|Word(t)|..] == t[|Word(t)|..] + [b];
      WordsAppendWhite(t[|Word(t)|..], b);
      WordsUnfold(s + [b]);
      WordsUnfold(s);
    }
  }

  lemma {:induction false} WordsUnfold(s: seq<byte>)
    requires TrimStart(s) != []
    ensures var t := TrimStart(s);
            Words(s) == [Word(t)] + Words(t[|Word(t)|..])
  {
  }

  lemma {:induction false} WordsDropWhite(s: seq<byte>)
    requires s != [] && IsWhite(s[|s| - 1])
    ensures Words(DropLast(s)) == Words(s)
  {
    WordsAppendWhite(DropLast(s), s[|s| - 1]);
    assert DropLast(s) + [s[|s| - 1]] == s;
  }

  lemma {:induction false} WordsOfTrimEnd(s: seq<byte>)
    ensures Words(TrimEnd(s)) == Words(s)
  {
    if s != [] && IsWhite(s[|s| - 1]) {
      WordsDropWhite(s);
      WordsOfTrimEnd(s[..|s| - 1]);
    }
  }

  /** Trimming changes no word. */
  lemma {:induction false} WordsOfTrim(s: seq<byte>)
    ensures Words(Trim(s)) == Words(s)
  {
    WordsOfTrimEnd(TrimStart(s));
    var k := TrimStartIs(s);
    WordsSkipWhite(s[..k], TrimStart(s));
    assert s == s[..k] + s[k..];
  }

  // ---------------------------------------------------------------------
  // The second word
  // ---------------------------------------------------------------------

  lemma {:induction false} SecondWordFound(s: seq<byte>, a: nat, e: nat)
    requires SecondWordAt(s, a) && WordSpan(s, a, e)
    ensures |Words(s)| >= 2 && Words(s)[1] == s[a..e]
  {
    var w: nat, f: nat :| Spans(s, w, f, a);
    WordsFromParts(s[..w], s[w..f], s[f..a], s[a..e], s[e..]);
    FiveParts(s, w, f, a, e);
  }

  lemma {:induction false} FiveParts(s: seq<byte>, w: nat, f: nat, a: nat, e: nat)
    requires w <= f <= a <= e <= |s|
    ensures s == s[..w] + (s[w..f] + (s[f..a] + (s[a..e] + s[e..])))
  {
  }

  lemma {:induction false} WordsFromParts(pad: seq<byte>, first: seq<byte>, gap: seq<byte>, second: seq<byte>, rest: seq<byte>)
    requires AllWhite(pad) && IsWord(first) && AllWhite(gap) && gap != [] && IsWord(second)
    requires rest == [] || IsWhite(rest[0])
    ensures Words(pad + (first + (gap + (second + rest)))) == [first] + ([second] + Words(rest))
  {
    WordsSkipWhite(pad, first + (gap + (second + rest)));
    WordsFirst(first, gap + (second + rest));
    WordsSkipWhite(gap, second + rest);
    WordsFirst(second, rest);
  }

  lemma {:induction false} PlaceOfParts(s: seq<byte>, pad: seq<byte>, first: seq<byte>, gap: seq<byte>,
                                        second: seq<byte>, rest: seq<byte>, a: nat)
    requires AllWhite(pad) && IsWord(first) && AllWhite(gap) && gap != [] && IsWord(second)
    requires rest == [] || IsWhite(rest[0])
    requires s == pad + (first + (gap + (second + rest))) && a == |pad| + |first| + |gap|
    ensures SecondWordAt(s, a) && WordSpan(s, a, a + |second|) && s[a..a + |second|] == second
  {
    assert Spans(s, |pad|, |pad| + |first|, a);
    assert s[a..a + |second|] == second;
  }

  /** White space, the first word, and what follows it. */
  lemma {:induction false} CutFirstWord(s: seq<byte>) returns (pad: seq<byte>, word: seq<byte>, rest: seq<byte>)
    requires Words(s) != []
    ensures s == pad + (word + rest) && AllWhite(pad) && IsWord(word) && (rest == [] || IsWhite(rest[0]))
    ensures s != [] && (pad == [] ==> !IsWhite(s[0]))
    ensures Words(s) == [word] + Words(rest)
  {
    var k := TrimStartIs(s);
    var t := TrimStart(s);
    WordsUnfold(s);
    WordIs(t);
    pad, word, rest := s[..k], Word(t), t[|Word(t)|..];
    assert t == word + rest;
    assert s == pad + t;
  }

  lemma {:induction false} WordBehindFirst(s: seq<byte>, pad: seq<byte>, first: seq<byte>, after: seq<byte>)
    returns (a: nat, e: nat)
    requires AllWhite(pad) && IsWord(first) && s == pad + (first + after)
    requires Words(after) != [] && IsWhite(after[0])
    ensures SecondWordAt(s, a) && WordSpan(s, a, e) && s[a..e] == Words(after)[0]
  {
    var gap, second, rest := CutFirstWord(after);
    a := |pad| + |first| + |gap|;
    e := a + |second|;
    PlaceOfParts(s, pad, first, gap, second, rest, a);
  }

  lemma {:induction false} SecondWordExists(s: seq<byte>) returns (a: nat, e: nat)
    requires |Words(s)| >= 2
    ensures SecondWordAt(s, a) && WordSpan(s, a, e) && s[a..e] == Words(s)[1]
  {
    var pad, first, after := CutFirstWord(s);
    a, e := WordBehindFirst(s, pad, first, after);
  }

  /** The second word and its place. */
  lemma {:induction false} SecondWordIff(s: seq<byte>, word: seq<byte>)
    ensures |Words(s)| >= 2 && Words(s)[1] == word <==>
            exists a: nat, e: nat :: SecondWordAt(s, a) && WordSpan(s, a, e) && s[a..e] == word
  {
    if |Words(s)| >= 2 {
      var a, e := SecondWordExists(s);
      assert SecondWordAt(s, a) && WordSpan(s, a, e) && s[a..e] == Words(s)[1];
    }
    forall a: nat, e: nat | SecondWordAt(s, a) && WordSpan(s, a, e)
      ensures |Words(s)| >= 2 && Words(s)[1] == s[a..e]
    {
      SecondWordFound(s, a, e);
    }
  }

  lemma {:induction false} SecondWordIsUnique(s: seq<byte>, a: nat, b: nat)
    requires SecondWordAt(s, a) && SecondWordAt(s, b)
    ensures a == b
  {
    var w: nat, e: nat :| Spans(s, w, e, a);
    var v: nat, f: nat :| Spans(s, v, f, b);
    assert !IsWhite(s[w]) && !IsWhite(s[v]) && IsWhite(s[e]) && IsWhite(s[f]);
  }

  lemma {:induction false} SecondWordInPrefix(s: seq<byte>, n: nat, a: nat)
    requires n <= |s|
    ensures SecondWordAt(s[..n], a) <==> a < n && SecondWordAt(s, a)
  {
    if a < n {
      forall w: nat, e: nat
        ensures Spans(s[..n], w, e, a) <==> Spans(s, w, e, a)
      {
      }
    }
  }
}
