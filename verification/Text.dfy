/** The string operations of the Rust standard library used on header text: `lines`, `trim`,
    `split_whitespace`, `eq_ignore_ascii_case` and parsing a `u16`. */
module Text {
  import opened Prelude
  import opened Bytes

  predicate IsWhite(b: byte) {
    b == 32 || 9 <= b <= 13
  }

  /** The ASCII part of `char::is_whitespace`: tab, line feed, vertical tab, form feed, carriage
      return and space. */
  lemma {:induction false} WhiteIff(b: byte)
    ensures IsWhite(b) <==> b in Ascii("\t\n\r ") || b == 11 || b == 12
  {
    var w := Ascii("\t\n\r ");
    assert w[0] == 9 && w[1] == 10 && w[2] == 13 && w[3] == 32;
  }

  function TrimStart(s: seq<byte>): seq<byte> {
    if s != [] && IsWhite(s[0]) then TrimStart(s[1..]) else s
  }

  function TrimEnd(s: seq<byte>): seq<byte> {
    if s != [] && IsWhite(s[|s| - 1]) then TrimEnd(s[..|s| - 1]) else s
  }

  function Trim(s: seq<byte>): seq<byte> {
    TrimEnd(TrimStart(s))
  }

  /** Nothing to trim. */
  predicate Trimmed(s: seq<byte>) {
    s == [] || (!IsWhite(s[0]) && !IsWhite(s[|s| - 1]))
  }

  lemma {:induction false} TrimTrimmed(s: seq<byte>)
    requires Trimmed(s)
    ensures Trim(s) == s
  {
  }

  lemma {:induction false} TrimLeadingSpace(s: seq<byte>)
    requires Trimmed(s)
    ensures Trim([SP] + s) == s
  {
    assert ([SP] + s)[0] == SP && ([SP] + s)[1..] == s;
    assert TrimStart([SP] + s) == TrimStart(s);
    TrimTrimmed(s);
  }

  function DropLast(s: seq<byte>): seq<byte>
    requires s != []
  {
    s[..|s| - 1]
  }

  /** `str::lines`: split after each LF; a line that had one loses it and a CR before it. */
  function Lines(s: seq<byte>): seq<seq<byte>>
    decreases |s|
  {
    match Find(s, [LF])
    case None => if s == [] then [] else [s]
    case Some(i) =>
      var line := s[..i];
      [if line != [] && line[i - 1] == CR then DropLast(line) else line] + Lines(s[i + 1..])
  }

  function CutCr(line: seq<byte>): seq<byte> {
    if line != [] && line[|line| - 1] == CR then DropLast(line) else line
  }

  /** Raw lines, each ended by LF, and what stands behind the last LF. */
  function TextOf(raws: seq<seq<byte>>, last: seq<byte>): seq<byte> {
    if raws == [] then last else raws[0] + [LF] + TextOf(raws[1..], last)
  }

  lemma {:induction false} LineBefore(l: seq<byte>, rest: seq<byte>)
    requires LF !in l
    ensures Lines(l + [LF] + rest) == [CutCr(l)] + Lines(rest)
  {
    var s := l + [LF] + rest;
    FindFirst(s, LF, |l|);
    assert s[..|l|] == l && s[|l| + 1..] == rest;
  }

  /** The lines of a text: what its line feeds separate, without one carriage return before each;
      an empty piece behind the last line feed is no line. */
  lemma {:induction false} LinesAre(raws: seq<seq<byte>>, last: seq<byte>)
    requires LF !in last && forall i :: 0 <= i < |raws| ==> LF !in raws[i]
    ensures var ls := Lines(TextOf(raws, last));
            && |ls| == |raws| + (if last == [] then 0 else 1)
            && (forall i :: 0 <= i < |raws| ==> ls[i] == CutCr(raws[i]))
            && (last != [] ==> ls[|raws|] == last)
  {
    var s := TextOf(raws, last);
    if raws == [] {
      FindAbsent(s, LF);
    } else {
      LineBefore(raws[0], TextOf(raws[1..], last));
      LinesAre(raws[1..], last);
    }
  }

  /** Lines joined by CRLF, without a final one. */
  function Joined(ls: seq<seq<byte>>): seq<byte>
    requires ls != []
  {
    if |ls| == 1 then ls[0] else ls[0] + CRLF + Joined(ls[1..])
  }

  /** A non-empty line that holds no CR and no LF. */
  predicate CleanLine(l: seq<byte>) {
    l != [] && CR !in l && LF !in l
  }

  predicate CleanLines(ls: seq<seq<byte>>) {
    ls != [] && forall i :: 0 <= i < |ls| ==> CleanLine(ls[i])
  }

  lemma {:induction false} FindFirst(s: seq<byte>, b: byte, i: nat)
    requires i < |s| && s[i] == b && forall j :: 0 <= j < i ==> s[j] != b
    ensures Find(s, [b]) == Some(i)
  {
    assert Occurs(s, [b], i);
    forall j: nat | j < i
      ensures !Occurs(s, [b], j)
    {
      if j + 1 <= |s| {
        assert s[j..j + 1] == [s[j]];
      }
    }
  }

  lemma {:induction false} FindAbsent(s: seq<byte>, b: byte)
    requires b !in s
    ensures Find(s, [b]) == None
  {
    forall j: nat
      ensures !Occurs(s, [b], j)
    {
      if j + 1 <= |s| {
        assert s[j..j + 1] == [s[j]];
      }
    }
  }

  /** What searching for one byte finds. */
  lemma {:induction false} ByteAt(s: seq<byte>, b: byte)
    ensures match Find(s, [b])
            case None => b !in s
            case Some(f) => f < |s| && s[f] == b && b !in s[..f]
  {
    var end := if Find(s, [b]).Some? then Find(s, [b]).value else |s|;
    if end < |s| {
      assert s[end..end + 1] == [s[end]];
    }
    forall i | 0 <= i < end
      ensures s[i] != b
    {
      assert !Occurs(s, [b], i);
      assert s[i..i + 1] == [s[i]];
    }
  }

  /** Reading lines back. */
  lemma {:induction false} LinesOfJoined(ls: seq<seq<byte>>)
    requires CleanLines(ls)
    ensures Lines(Joined(ls)) == ls
  {
    var l := ls[0];
    if |ls| == 1 {
      FindAbsent(l, LF);
      assert ls == [l];
    } else {
      var s := Joined(ls);
      var tail := Joined(ls[1..]);
      assert s == l + CRLF + tail;
      FindFirst(s, LF, |l| + 1);
      assert s[..|l| + 1] == l + [CR];
      assert DropLast(l + [CR]) == l;
      assert s[|l| + 2..] == tail;
      LinesOfJoined(ls[1..]);
      assert ls == [l] + ls[1..];
    }
  }

  /** After clean lines, the first empty line is the one that follows them. */
  lemma {:induction false} HeadEndsAtEmptyLine(ls: seq<seq<byte>>, rest: seq<byte>)
    requires CleanLines(ls)
    ensures Find(Joined(ls) + CRLFCRLF + rest, CRLFCRLF) == Some(|Joined(ls)|)
  {
    var t := Joined(ls);
    var s := t + CRLFCRLF + rest;
    assert s[|t|..|t| + 4] == CRLFCRLF;
    assert Occurs(s, CRLFCRLF, |t|);
    forall j: nat | j < |t|
      ensures !Occurs(s, CRLFCRLF, j)
    {
      NoEmptyLineInside(ls, rest, j);
    }
  }

  lemma {:induction false} JoinedStarts(ls: seq<seq<byte>>)
    requires CleanLines(ls)
    ensures |Joined(ls)| >= |ls[0]| > 0 && Joined(ls)[0] == ls[0][0]
  {
  }

  lemma {:induction false} NoEmptyLineInside(ls: seq<seq<byte>>, rest: seq<byte>, j: nat)
    requires CleanLines(ls) && j < |Joined(ls)|
    ensures !Occurs(Joined(ls) + CRLFCRLF + rest, CRLFCRLF, j)
  {
    var l := ls[0];
    var s := Joined(ls) + CRLFCRLF + rest;
    if Occurs(s, CRLFCRLF, j) {
      assert s[j] == s[j..j + 4][0] && s[j + 1] == s[j..j + 4][1] && s[j + 2] == s[j..j + 4][2];
    }
    if j < |l| {
      assert s[j] == l[j];
    } else {
      var tail := Joined(ls[1..]);
      var s' := tail + CRLFCRLF + rest;
      assert s == l + CRLF + s';
      JoinedStarts(ls[1..]);
      if j < |l| + 2 {
        assert s[|l| + 1] == LF && s[|l| + 2] == ls[1][0];
      } else {
        NoEmptyLineInside(ls[1..], rest, j - |l| - 2);
        ShiftOccurrence(l + CRLF, s', CRLFCRLF, j - |l| - 2);
      }
    }
  }

  lemma {:induction false} ShiftOccurrence(a: seq<byte>, s: seq<byte>, pat: seq<byte>, j: nat)
    ensures Occurs(a + s, pat, |a| + j) <==> Occurs(s, pat, j)
  {
  }

  // ---------------------------------------------------------------------
  // Words
  // ---------------------------------------------------------------------

  function Word(s: seq<byte>): (w: seq<byte>)
    ensures |w| <= |s|
    ensures s != [] && !IsWhite(s[0]) ==> w != []
  {
    if s == [] || IsWhite(s[0]) then [] else [s[0]] + Word(s[1..])
  }

  lemma {:induction false} TrimStartShrinks(s: seq<byte>)
    ensures |TrimStart(s)| <= |s|
    ensures TrimStart(s) != [] ==> !IsWhite(TrimStart(s)[0])
  {
    if s != [] && IsWhite(s[0]) {
      TrimStartShrinks(s[1..]);
    }
  }

  /** `split_whitespace`. */
  function Words(s: seq<byte>): seq<seq<byte>>
    decreases |s|
  {
    TrimStartShrinks(s);
    var t := TrimStart(s);
    if t == [] then [] else [Word(t)] + Words(t[|Word(t)|..])
  }

  predicate IsWord(w: seq<byte>) {
    w != [] && forall i :: 0 <= i < |w| ==> !IsWhite(w[i])
  }

  lemma {:induction false} VisibleIsWord(s: string)
    requires s != "" && forall i :: 0 <= i < |s| ==> '!' <= s[i] <= '~'
    ensures IsWord(Ascii(s))
  {
  }

  lemma {:induction false} WordFirst(w: seq<byte>, rest: seq<byte>)
    requires forall i :: 0 <= i < |w| ==> !IsWhite(w[i])
    requires rest == [] || IsWhite(rest[0])
    ensures Word(w + rest) == w
  {
    if w == [] {
      assert w + rest == rest;
    } else {
      assert (w + rest)[1..] == w[1..] + rest;
      WordFirst(w[1..], rest);
    }
  }

  lemma {:induction false} WordsFirst(w: seq<byte>, rest: seq<byte>)
    requires IsWord(w) && (rest == [] || IsWhite(rest[0]))
    ensures Words(w + rest) == [w] + Words(rest)
  {
    WordFirst(w, rest);
    assert (w + rest)[|w|..] == rest;
  }

  lemma {:induction false} WordsSkipSpace(s: seq<byte>)
    ensures Words([SP] + s) == Words(s)
  {
  }

  // ---------------------------------------------------------------------
  // Case folding and numerals
  // ---------------------------------------------------------------------

  function Lower(b: byte): byte {
    if 65 <= b <= 90 then b + 32 else b
  }

  function LowerAll(s: seq<byte>): (r: seq<byte>)
    ensures |r| == |s|
  {
    seq(|s|, i requires 0 <= i < |s| => Lower(s[i]))
  }

  predicate SameIgnoringCase(a: seq<byte>, b: seq<byte>) {
    LowerAll(a) == LowerAll(b)
  }

  /** The same letter in either case, or the same byte. */
  predicate SameLetter(a: byte, b: byte) {
    a == b || (65 <= a <= 90 && b == a + 32) || (65 <= b <= 90 && a == b + 32)
  }

  lemma {:induction false} SameIgnoringCaseIff(a: seq<byte>, b: seq<byte>)
    ensures SameIgnoringCase(a, b) <==> |a| == |b| && forall i :: 0 <= i < |a| ==> SameLetter(a[i], b[i])
  {
    if |a| == |b| {
      forall i | 0 <= i < |a|
        ensures LowerAll(a)[i] == LowerAll(b)[i] <==> SameLetter(a[i], b[i])
      {
      }
      if SameIgnoringCase(a, b) {
        forall i | 0 <= i < |a|
          ensures SameLetter(a[i], b[i])
        {
          assert LowerAll(a)[i] == LowerAll(b)[i];
        }
      }
    }
  }

  predicate IsDigit(b: byte) {
    48 <= b <= 57
  }

  predicate AllDigits(s: seq<byte>) {
    forall i :: 0 <= i < |s| ==> IsDigit(s[i])
  }

  function DigitsValue(s: seq<byte>): nat
    requires AllDigits(s)
  {
    if s == [] then 0 else 10 * DigitsValue(DropLast(s)) + (s[|s| - 1] - 48)
  }

  /** `str::parse::<u16>`: an optional plus sign, then digits, at most 65535 in value. */
  function ParseU16(s: seq<byte>): (r: Option<nat>)
    ensures r.Some? ==> r.value <= 65535
  {
    var digits := if s != [] && s[0] == 43 then s[1..] else s;
    if digits == [] || !AllDigits(digits) then None
    else if DigitsValue(digits) > 65535 then None
    else Some(DigitsValue(digits))
  }

  /** Decimal printing, as `format!("{}", n)` does: no leading zero. */
  function PrintNat(n: nat): (s: seq<byte>)
    ensures s != [] && AllDigits(s)
    ensures n > 0 ==> s[0] != 48
  {
    if n < 10 then [(48 + n) as byte] else PrintNat(n / 10) + [(48 + n % 10) as byte]
  }

  lemma {:induction false} PrintNatValue(n: nat)
    ensures DigitsValue(PrintNat(n)) == n
  {
    if n >= 10 {
      PrintNatValue(n / 10);
      assert DropLast(PrintNat(n)) == PrintNat(n / 10);
    }
  }

  lemma {:induction false} ParsePrinted(n: nat)
    requires n <= 65535
    ensures ParseU16(PrintNat(n)) == Some(n)
  {
    PrintNatValue(n);
    assert IsDigit(PrintNat(n)[0]);
  }

  // ---------------------------------------------------------------------
  // Numerals
  // ---------------------------------------------------------------------

  function Zeros(n: nat): (s: seq<byte>)
    ensures |s| == n && forall i :: 0 <= i < n ==> s[i] == 48
  {
    seq(n, i => 48)
  }

  /** A u16 in decimal, with zeros before it, and a plus sign before these, or without. */
  ghost predicate Numeral(s: seq<byte>, n: nat) {
    n <= 65535 && exists zeros: nat :: s == Zeros(zeros) + PrintNat(n) || s == [43] + (Zeros(zeros) + PrintNat(n))
  }

  lemma {:induction false} ZerosValue(zeros: nat, n: nat)
    ensures var s := Zeros(zeros) + PrintNat(n);
            AllDigits(s) && DigitsValue(s) == n
  {
    var s := Zeros(zeros) + PrintNat(n);
    PaddedValue(zeros, PrintNat(n));
    PrintNatValue(n);
  }

  lemma {:induction false} PaddedValue(zeros: nat, s: seq<byte>)
    requires AllDigits(s)
    ensures AllDigits(Zeros(zeros) + s) && DigitsValue(Zeros(zeros) + s) == DigitsValue(s)
  {
    if s != [] {
      PaddedValue(zeros, DropLast(s));
      assert DropLast(Zeros(zeros) + s) == Zeros(zeros) + DropLast(s);
    } else if zeros > 0 {
      PaddedValue(zeros - 1, []);
      assert Zeros(zeros) + s == Zeros(zeros - 1) + [] + [48];
      assert DropLast(Zeros(zeros) + s) == Zeros(zeros - 1) + [];
    }
  }

  /** Digits are zeros and the printed value. */
  lemma {:induction false} DigitsArePrinted(s: seq<byte>) returns (zeros: nat)
    requires s != [] && AllDigits(s)
    ensures s == Zeros(zeros) + PrintNat(DigitsValue(s))
  {
    var rest, digit := DropLast(s), s[|s| - 1];
    if rest == [] {
      zeros := 0;
    } else {
      zeros := DigitsArePrinted(rest);
      assert s == Zeros(zeros) + PrintNat(DigitsValue(rest)) + [digit];
      if DigitsValue(rest) == 0 {
        zeros := zeros + 1;
      }
    }
  }

  lemma {:induction false} NumeralParses(s: seq<byte>, zeros: nat, n: nat)
    requires n <= 65535
    requires var digits := Zeros(zeros) + PrintNat(n); s == digits || s == [43] + digits
    ensures ParseU16(s) == Some(n)
  {
    var digits := Zeros(zeros) + PrintNat(n);
    ZerosValue(zeros, n);
    assert IsDigit(digits[0]);
    assert ([43] + digits)[1..] == digits;
  }

  lemma {:induction false} ParsedIsNumeral(s: seq<byte>, n: nat)
    requires ParseU16(s) == Some(n)
    ensures Numeral(s, n)
  {
    var digits := if s != [] && s[0] == 43 then s[1..] else s;
    var zeros := DigitsArePrinted(digits);
    assert s == digits || s == [43] + digits;
  }

  /** What `str::parse::<u16>` accepts, exactly. */
  lemma {:induction false} NumeralIff(s: seq<byte>, n: nat)
    ensures ParseU16(s) == Some(n) <==> Numeral(s, n)
  {
    if ParseU16(s) == Some(n) {
      ParsedIsNumeral(s, n);
    }
    if Numeral(s, n) {
      var zeros: nat :| s == Zeros(zeros) + PrintNat(n) || s == [43] + (Zeros(zeros) + PrintNat(n));
      NumeralParses(s, zeros, n);
    }
  }
}
