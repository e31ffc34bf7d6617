/**
 * The header of a Radiance picture as a writer of the format lays it out, and the
 * header reads of src/Hdri.cpp:10-22 on it: every written header parses back to the
 * sizes and flips written into it.
 */
module RgbeHeader {
  import opened Base
  import opened Hdri
  import opened RgbeFormat

  /** The separator a writer puts between the fields of the resolution line. */
  const SPACE: Byte := 32
  /** The end of each header line. */
  const NEWLINE: Byte := 10

  /** The bytes `w` sit at position `i` of `data`. */
  predicate At(data: seq<Byte>, i: nat, w: seq<Byte>)
  {
    i + |w| <= |data| && forall k :: 0 <= k < |w| ==> data[i + k] == w[k]
  }

  /** Every byte from `i` up to `j` is whitespace. */
  predicate SpacesBetween(data: seq<Byte>, i: nat, j: nat)
  {
    i <= j <= |data| && forall k :: i <= k < j ==> IsSpace(data[k])
  }

  /** A non-empty word without whitespace sits at `j` and a whitespace byte follows it. */
  predicate WordAt(data: seq<Byte>, j: nat, w: seq<Byte>)
  {
    && |w| > 0 && At(data, j, w) && j + |w| < |data| && IsSpace(data[j + |w|])
    && forall k :: 0 <= k < |w| ==> !IsSpace(w[k])
  }

  /** The decimal digits of `n`, which fits a `uint32_t`, sit at `j` and a non-digit follows them. */
  predicate NumberAt(data: seq<Byte>, j: nat, n: nat)
  {
    n <= UINT32_MAX && At(data, j, Digits(n)) && j + |Digits(n)| < |data| && !IsDigit(data[j + |Digits(n)|])
  }

  /** The decimal digits of `n`, most significant first, without leading zeros: they read back as `n`. */
  function Digits(n: nat): (ds: seq<Byte>)
    ensures |ds| >= 1 && forall k :: 0 <= k < |ds| ==> IsDigit(ds[k])
    ensures DecimalValue(ds) == n
  {
    if n < 10 then [48 + n]
    else
      var front := Digits(n / 10);
      var ds := front + [48 + n % 10];
      assert ds[..|ds| - 1] == front;
      ds
  }

  /** Whitespace skipping stops at the first byte that is not a space. */
  lemma {:induction false} SkipSpaceTo(data: seq<Byte>, i: nat, j: nat)
    requires SpacesBetween(data, i, j) && j < |data| && !IsSpace(data[j])
    ensures SkipSpace(Stream(data, i, false)) == Stream(data, j, false)
    decreases j - i
  {
    if i < j {
      SkipSpaceTo(data, i + 1, j);
    }
  }

  /** `>> std::string` over whitespace and then a word. */
  lemma ReadWordAt(data: seq<Byte>, i: nat, j: nat, w: seq<Byte>)
    requires SpacesBetween(data, i, j) && WordAt(data, j, w)
    ensures ReadWord(Stream(data, i, false)) == (w, Stream(data, j + |w|, false))
  {
    assert data[j] == w[0];
    SkipSpaceTo(data, i, j);
    assert forall k :: j <= k < j + |w| ==> !IsSpace(data[k]) by {
      forall k | j <= k < j + |w| ensures !IsSpace(data[k]) {
        assert data[j + (k - j)] == w[k - j];
      }
    }
    var e := WordEnd(data, j);
    assert e == j + |w|;
    assert data[j..e] == w;
  }

  /** `>> char` over whitespace and then a byte `c` that is not a space. */
  lemma ReadCharAt(data: seq<Byte>, i: nat, j: nat, c: Byte)
    requires SpacesBetween(data, i, j) && j < |data| && data[j] == c && !IsSpace(c)
    ensures ReadChar(Stream(data, i, false)) == (Some(c), Stream(data, j + 1, false))
  {
    SkipSpaceTo(data, i, j);
  }

  /** `>> uint32_t` over whitespace and then the digits of a value. */
  lemma ReadUnsignedAt(data: seq<Byte>, i: nat, j: nat, n: nat)
    requires SpacesBetween(data, i, j) && NumberAt(data, j, n)
    ensures ReadUnsigned(Stream(data, i, false)) == (n, Stream(data, j + |Digits(n)|, false))
  {
    var ds := Digits(n);
    assert data[j] == ds[0];
    SkipSpaceTo(data, i, j);
    assert forall k :: j <= k < j + |ds| ==> IsDigit(data[k]) by {
      forall k | j <= k < j + |ds| ensures IsDigit(data[k]) {
        assert data[j + (k - j)] == ds[k - j];
      }
    }
    var e := DigitsEnd(data, j);
    assert e == j + |ds|;
    assert data[j..e] == ds;
  }

  /** The sign written before an axis letter: '-' for a flipped axis. */
  function SignByte(flip: bool): Byte
  {
    if flip then MINUS else PLUS
  }

  /** One group `±L size` of the resolution line, for the axis letter `L`. */
  function AxisGroup(flip: bool, letter: Byte, size: Word): (g: seq<Byte>)
    ensures |g| == 3 + |Digits(size)|
  {
    [SignByte(flip), letter, SPACE] + Digits(size)
  }

  /** An axis group sits at `i`, with a non-digit after it. */
  predicate AxisGroupAt(data: seq<Byte>, i: nat, flip: bool, letter: Byte, size: Word)
  {
    && !IsSpace(letter) && i + 2 < |data|
    && data[i] == SignByte(flip) && data[i + 1] == letter && data[i + 2] == SPACE
    && NumberAt(data, i + 3, size)
  }

  /** The bytes of a written axis group. */
  lemma AxisGroupBytes(data: seq<Byte>, i: nat, flip: bool, letter: Byte, size: Word)
    requires At(data, i, AxisGroup(flip, letter, size)) && !IsSpace(letter)
    requires i + |AxisGroup(flip, letter, size)| < |data| && !IsDigit(data[i + |AxisGroup(flip, letter, size)|])
    requires size <= UINT32_MAX
    ensures AxisGroupAt(data, i, flip, letter, size)
  {
    var w := AxisGroup(flip, letter, size);
    assert data[i] == w[0] && data[i + 1] == w[1] && data[i + 2] == w[2];
    forall k | 0 <= k < |Digits(size)|
      ensures data[i + 3 + k] == Digits(size)[k]
    {
      assert data[i + (3 + k)] == w[3 + k];
    }
  }

  /** The reads of an axis group in terms of their results. */
  lemma AxisSteps(s: Stream, s1: Stream, s2: Stream, s3: Stream, flip: bool, letter: Byte, size: Word)
    requires ReadChar(s) == (Some(SignByte(flip)), s1) && ReadChar(s1) == (Some(letter), s2)
    requires ReadUnsigned(s2) == (size, s3)
    ensures ReadAxis(s, letter) == Some((flip, size, s3))
  {
  }

  /** The three reads of a written axis group after whitespace: its sign, its letter and its size. */
  lemma ReadAxisAt(data: seq<Byte>, start: nat, i: nat, flip: bool, letter: Byte, size: Word)
    requires SpacesBetween(data, start, i) && AxisGroupAt(data, i, flip, letter, size)
    ensures ReadChar(Stream(data, start, false)) == (Some(SignByte(flip)), Stream(data, i + 1, false))
    ensures ReadChar(Stream(data, i + 1, false)) == (Some(letter), Stream(data, i + 2, false))
    ensures ReadUnsigned(Stream(data, i + 2, false)) == (size, Stream(data, i + 3 + |Digits(size)|, false))
  {
    ReadCharAt(data, start, i, SignByte(flip));
    ReadCharAt(data, i + 1, i + 1, letter);
    ReadUnsignedAt(data, i + 2, i + 3, size);
  }

  /** The header lines a writer starts with: the program type, the format, and the empty line ending the header. */
  const HEADER_LINES: seq<Byte> := MAGIC + [NEWLINE] + FORMAT + [NEWLINE, NEWLINE]

  /** The resolution line `±Y sizeY ±X sizeX` and its newline. */
  function ResolutionLine(h: Header): seq<Byte>
  {
    AxisGroup(h.flipY, Y_LETTER, h.sizeY) + [SPACE] + AxisGroup(h.flipX, X_LETTER, h.sizeX) + [NEWLINE]
  }

  /**
   * The header a writer of the format produces: the program type and format lines, the
   * empty line that ends the header, and the resolution line.
   */
  function WriteHeader(h: Header): (bs: seq<Byte>)
  {
    HEADER_LINES + ResolutionLine(h)
  }

  /** Neither header word contains whitespace. */
  lemma WordsHaveNoSpace()
    ensures forall k :: 0 <= k < |MAGIC| ==> !IsSpace(MAGIC[k])
    ensures forall k :: 0 <= k < |FORMAT| ==> !IsSpace(FORMAT[k])
  {
  }

  /**
   * Where the parts of a written header sit: the two words, the whitespace after each,
   * and the two axis groups, the Y group ending at `y` and the X group at `e`.
   */
  predicate HeaderLaidOut(data: seq<Byte>, h: Header, y: nat, e: nat)
  {
    && WordAt(data, 0, MAGIC) && SpacesBetween(data, 10, 11) && WordAt(data, 11, FORMAT)
    && GroupWritten(data, 33, 35, h.flipY, Y_LETTER, h.sizeY, y)
    && GroupWritten(data, y, y + 1, h.flipX, X_LETTER, h.sizeX, e)
  }

  /** The program type and format lines of a written header, and the empty line after them. */
  lemma WordsLaidOut(data: seq<Byte>, rest: seq<Byte>)
    requires data == HEADER_LINES + rest
    ensures WordAt(data, 0, MAGIC) && SpacesBetween(data, 10, 11) && WordAt(data, 11, FORMAT)
    ensures SpacesBetween(data, 33, 35)
  {
    assert |HEADER_LINES| == 35;
    WordsHaveNoSpace();
    assert At(data, 0, MAGIC);
    assert At(data, 11, FORMAT);
    assert data[10] == NEWLINE && data[33] == NEWLINE && data[34] == NEWLINE;
  }

  /** The two axis groups of a written resolution line, the Y group ending at `y` and the X group at `e`. */
  lemma GroupsLaidOut(data: seq<Byte>, h: Header, rest: seq<Byte>, y: nat, e: nat)
    requires var gy, gx := AxisGroup(h.flipY, Y_LETTER, h.sizeY), AxisGroup(h.flipX, X_LETTER, h.sizeX);
      && data == HEADER_LINES + (gy + ([SPACE] + (gx + ([NEWLINE] + rest))))
      && y == 35 + |gy| && e == y + 1 + |gx|
    requires SpacesBetween(data, 33, 35)
    ensures GroupWritten(data, 33, 35, h.flipY, Y_LETTER, h.sizeY, y)
    ensures GroupWritten(data, y, y + 1, h.flipX, X_LETTER, h.sizeX, e)
  {
    var gy, gx := AxisGroup(h.flipY, Y_LETTER, h.sizeY), AxisGroup(h.flipX, X_LETTER, h.sizeX);
    assert |HEADER_LINES| == 35;
    assert At(data, 35, gy);
    assert data[y] == SPACE;
    assert At(data, y + 1, gx);
    assert data[e] == NEWLINE;
  }

  /** A written header, whatever follows it, is laid out as `HeaderLaidOut` says. */
  lemma LaidOut(h: Header, rest: seq<Byte>, y: nat, e: nat)
    requires y == 35 + |AxisGroup(h.flipY, Y_LETTER, h.sizeY)| && e == |WriteHeader(h)| - 1
    ensures HeaderLaidOut(WriteHeader(h) + rest, h, y, e)
  {
    var data := WriteHeader(h) + rest;
    var gy, gx := AxisGroup(h.flipY, Y_LETTER, h.sizeY), AxisGroup(h.flipX, X_LETTER, h.sizeX);
    var line := gy + ([SPACE] + (gx + ([NEWLINE] + rest)));
    assert data == HEADER_LINES + line;
    WordsLaidOut(data, line);
    GroupsLaidOut(data, h, rest, y, e);
  }

  /** An axis group is written at `i`, after whitespace from `start`, and ends at `end` before a non-digit. */
  predicate GroupWritten(data: seq<Byte>, start: nat, i: nat, flip: bool, letter: Byte, size: Word, end: nat)
  {
    && SpacesBetween(data, start, i) && At(data, i, AxisGroup(flip, letter, size)) && !IsSpace(letter)
    && end == i + |AxisGroup(flip, letter, size)| && end < |data| && !IsDigit(data[end])
  }

  /** An axis group written at `i`, after whitespace from `start`, reads back. */
  lemma ReadAxisLaidOut(data: seq<Byte>, start: nat, i: nat, flip: bool, letter: Byte, size: Word, end: nat)
    requires GroupWritten(data, start, i, flip, letter, size, end)
    ensures ReadAxis(Stream(data, start, false), letter) == Some((flip, size, Stream(data, end, false)))
  {
    AxisGroupBytes(data, i, flip, letter, size);
    ReadAxisAt(data, start, i, flip, letter, size);
    AxisSteps(Stream(data, start, false), Stream(data, i + 1, false), Stream(data, i + 2, false),
      Stream(data, end, false), flip, letter, size);
  }

  /** The two word reads of a laid-out header. */
  lemma ReadWordsLaidOut(data: seq<Byte>, h: Header, y: nat, e: nat)
    requires HeaderLaidOut(data, h, y, e)
    ensures ReadWord(Stream(data, 0, false)) == (MAGIC, Stream(data, 10, false))
    ensures ReadWord(Stream(data, 10, false)) == (FORMAT, Stream(data, 33, false))
  {
    ReadWordAt(data, 0, 0, MAGIC);
    ReadWordAt(data, 10, 11, FORMAT);
  }

  /** The two axis reads of a laid-out header. */
  lemma ReadAxesLaidOut(data: seq<Byte>, h: Header, y: nat, e: nat)
    requires HeaderLaidOut(data, h, y, e)
    ensures ReadAxis(Stream(data, 33, false), Y_LETTER) == Some((h.flipY, h.sizeY, Stream(data, y, false)))
    ensures ReadAxis(Stream(data, y, false), X_LETTER) == Some((h.flipX, h.sizeX, Stream(data, e, false)))
  {
    var x := y + 1;
    assert GroupWritten(data, y, x, h.flipX, X_LETTER, h.sizeX, e);
    ReadAxisLaidOut(data, 33, 35, h.flipY, Y_LETTER, h.sizeY, y);
    ReadAxisLaidOut(data, y, x, h.flipX, X_LETTER, h.sizeX, e);
  }

  /** The reads of a written header, each with the stream it leaves. */
  lemma ReadsWritten(h: Header, rest: seq<Byte>, y: nat, e: nat)
    requires y == 35 + |AxisGroup(h.flipY, Y_LETTER, h.sizeY)| && e == |WriteHeader(h)| - 1
    ensures var data := WriteHeader(h) + rest;
      && ReadWord(Stream(data, 0, false)) == (MAGIC, Stream(data, 10, false))
      && ReadWord(Stream(data, 10, false)) == (FORMAT, Stream(data, 33, false))
      && ReadAxis(Stream(data, 33, false), Y_LETTER) == Some((h.flipY, h.sizeY, Stream(data, y, false)))
      && ReadAxis(Stream(data, y, false), X_LETTER) == Some((h.flipX, h.sizeX, Stream(data, e, false)))
  {
    LaidOut(h, rest, y, e);
    ReadWordsLaidOut(WriteHeader(h) + rest, h, y, e);
    ReadAxesLaidOut(WriteHeader(h) + rest, h, y, e);
  }

  /** The header reads in terms of the results of its four parts. */
  lemma ParseSteps(s0: Stream, s1: Stream, s2: Stream, h: Header, s5: Stream, s8: Stream)
    requires ReadWord(s0) == (MAGIC, s1) && ReadWord(s1) == (FORMAT, s2)
    requires ReadAxis(s2, Y_LETTER) == Some((h.flipY, h.sizeY, s5))
    requires ReadAxis(s5, X_LETTER) == Some((h.flipX, h.sizeX, s8))
    ensures ParseHeader(s0) == Ok((h, s8))
  {
  }

  /**
   * A written header parses back to the sizes and flips written into it, and leaves
   * the stream on the newline that ends the resolution line, whatever follows.
   */
  lemma HeaderRoundTrip(h: Header, rest: seq<Byte>)
    ensures var data := WriteHeader(h) + rest;
      ParseHeader(Stream(data, 0, false)) == Ok((h, Stream(data, |WriteHeader(h)| - 1, false)))
  {
    var data := WriteHeader(h) + rest;
    var y, e := 35 + |AxisGroup(h.flipY, Y_LETTER, h.sizeY)|, |WriteHeader(h)| - 1;
    ReadsWritten(h, rest, y, e);
    ParseSteps(Stream(data, 0, false), Stream(data, 10, false), Stream(data, 33, false), h,
      Stream(data, y, false), Stream(data, e, false));
  }
}
