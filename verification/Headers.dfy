/** Header fields and their printed form. */
module Headers {
  import opened Bytes
  import opened Text

  datatype Field = Field(name: seq<byte>, value: seq<byte>)

  function ConnectionName(): seq<byte> {
    Ascii("connection")
  }

  /** A field that can be printed as a line: a name without white space or colon, a trimmed value,
      no CR or LF. */
  predicate CleanField(f: Field) {
    && IsWord(f.name) && COLON !in f.name
    && Trimmed(f.value) && CR !in f.value && LF !in f.value
  }

  /** A byte of a token, section 5.6.2 of RFC 9110. */
  predicate IsTokenByte(b: byte) {
    || b == 33 || 35 <= b <= 39 || b == 42 || b == 43 || b == 45 || b == 46
    || 48 <= b <= 57 || 65 <= b <= 90 || 94 <= b <= 122 || b == 124 || b == 126
  }

  lemma {:induction false} TokenByteIff(b: byte)
    ensures IsTokenByte(b) <==>
            b in Ascii("!#$%&'*+-.^_`|~") || '0' as int <= b <= '9' as int ||
            'A' as int <= b <= 'Z' as int || 'a' as int <= b <= 'z' as int
  {
    var marks := Ascii("!#$%&'*+-.^_`|~");
    assert |marks| == 15;
    assert marks[0] == 33 && marks[1] == 35 && marks[2] == 36 && marks[3] == 37 && marks[4] == 38;
    assert marks[5] == 39 && marks[6] == 42 && marks[7] == 43 && marks[8] == 45 && marks[9] == 46;
    assert marks[10] == 94 && marks[11] == 95 && marks[12] == 96 && marks[13] == 124 && marks[14] == 126;
  }

  const MAX_NAME: nat := 65535

  /** A name the http library takes: a token that is not too long. */
  predicate IsFieldName(name: seq<byte>) {
    0 < |name| <= MAX_NAME && forall i :: 0 <= i < |name| ==> IsTokenByte(name[i])
  }

  /** Visible ASCII, the space and the tab. */
  predicate IsTextByte(b: byte) {
    b == 9 || 32 <= b <= 126
  }

  /** A value the http library takes, among ASCII texts. */
  predicate IsText(s: seq<byte>) {
    forall i :: 0 <= i < |s| ==> IsTextByte(s[i])
  }

  /** A field as servers send it. */
  predicate WellFormed(f: Field) {
    IsFieldName(f.name) && Trimmed(f.value) && IsText(f.value)
  }

  lemma {:induction false} WellFormedIsClean(f: Field)
    requires WellFormed(f)
    ensures CleanField(f)
  {
  }

  function PrintField(f: Field): seq<byte> {
    f.name + [COLON, SP] + f.value
  }

  function PrintFields(fs: seq<Field>): (ls: seq<seq<byte>>)
    ensures |ls| == |fs| && forall i :: 0 <= i < |fs| ==> ls[i] == PrintField(fs[i])
  {
    seq(|fs|, i requires 0 <= i < |fs| => PrintField(fs[i]))
  }

  lemma {:induction false} PrintFieldsLast(fs: seq<Field>)
    requires fs != []
    ensures PrintFields(fs) == PrintFields(fs[..|fs| - 1]) + [PrintField(fs[|fs| - 1])]
  {
  }

  lemma {:induction false} PrintedFieldsAreClean(fs: seq<Field>)
    requires forall i :: 0 <= i < |fs| ==> CleanField(fs[i])
    ensures forall i :: 0 <= i < |fs| ==> CleanLine(PrintFields(fs)[i])
  {
  }
}
