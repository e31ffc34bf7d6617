/**
 * The Radiance RGBE (.hdr) environment-map loader of src/Hdri.cpp.
 *
 * The file is a byte sequence read through a model of `std::ifstream`: formatted
 * extraction (`>>`) of the two header words, of the two sign/axis characters and of
 * the two image sizes, then unformatted `get()` calls for the run-length-encoded
 * scanlines. Decoding packs the four byte planes of each pixel into a 32-bit word,
 * and extraction reads the words back through the flip-aware index mapping and
 * splits each one into its R, G, B and E bytes.
 */
module Hdri {
  import opened Base

  const WORD_MODULUS: int := 0x1_0000_0000
  const UINT32_MAX: int := 0xFFFF_FFFF

  /** One byte of the file; also the range of an `unsigned char`. */
  type Byte = b: int | 0 <= b < 256

  /** A `uint32_t`. */
  type Word = w: int | 0 <= w < 0x1_0000_0000

  /** What `std::istream::get()` returns at end of file. */
  const EOF: int := -1

  // ---------------------------------------------------------------------------
  // The input stream
  // ---------------------------------------------------------------------------

  /**
   * An input file stream: its bytes, the read position and the stream's failbit.
   * Once `failed` is set, every extraction fails and `get()` returns EOF.
   */
  datatype Stream = Stream(data: seq<Byte>, pos: nat, failed: bool)

  /** `std::istream::get()`: the next byte, or EOF (setting the failbit) at end of file. */
  function Get(s: Stream): (int, Stream)
  {
    if s.failed || s.pos >= |s.data| then (EOF, s.(failed := true))
    else (s.data[s.pos], s.(pos := s.pos + 1))
  }

  /** `k` calls of `get()` whose results are thrown away. */
  function Skip(s: Stream, k: nat): Stream
    decreases k
  {
    if k == 0 then s else Skip(Get(s).1, k - 1)
  }

  /** `isspace` in the "C" locale: space, tab, newline, vertical tab, form feed, carriage return. */
  predicate IsSpace(b: int)
  {
    b == 32 || 9 <= b <= 13
  }

  predicate IsDigit(b: int)
  {
    48 <= b <= 57
  }

  /** The whitespace skipping that every formatted extraction performs first. */
  function SkipSpace(s: Stream): (r: Stream)
    ensures r.data == s.data && r.failed == s.failed && r.pos >= s.pos
    decreases |s.data| - s.pos
  {
    if !s.failed && s.pos < |s.data| && IsSpace(s.data[s.pos]) then SkipSpace(s.(pos := s.pos + 1))
    else s
  }

  /** The end of the run of non-space bytes that starts at `i`. */
  function WordEnd(data: seq<Byte>, i: nat): (e: nat)
    requires i <= |data|
    ensures i <= e <= |data|
    ensures forall k :: i <= k < e ==> !IsSpace(data[k])
    ensures e < |data| ==> IsSpace(data[e])
    decreases |data| - i
  {
    if i < |data| && !IsSpace(data[i]) then WordEnd(data, i + 1) else i
  }

  /** The end of the run of decimal digits that starts at `i`. */
  function DigitsEnd(data: seq<Byte>, i: nat): (e: nat)
    requires i <= |data|
    ensures i <= e <= |data|
    ensures forall k :: i <= k < e ==> IsDigit(data[k])
    ensures e < |data| ==> !IsDigit(data[e])
    decreases |data| - i
  {
    if i < |data| && IsDigit(data[i]) then DigitsEnd(data, i + 1) else i
  }

  /** `stream >> std::string`: skip whitespace, then read up to the next whitespace byte. */
  function ReadWord(s: Stream): (seq<Byte>, Stream)
  {
    var t := SkipSpace(s);
    if t.failed || t.pos >= |t.data| then ([], t.(failed := true))
    else
      var e := WordEnd(t.data, t.pos);
      (t.data[t.pos..e], t.(pos := e))
  }

  /** `stream >> char`: skip whitespace, then read one byte. */
  function ReadChar(s: Stream): (Option<Byte>, Stream)
  {
    var t := SkipSpace(s);
    if t.failed || t.pos >= |t.data| then (None, t.(failed := true))
    else (Some(t.data[t.pos]), t.(pos := t.pos + 1))
  }

  /** The value of a string of decimal digits. */
  function DecimalValue(ds: seq<Byte>): nat
    requires forall k :: 0 <= k < |ds| ==> IsDigit(ds[k])
  {
    if ds == [] then 0
    else
      assert IsDigit(ds[|ds| - 1]);
      DecimalValue(ds[..|ds| - 1]) * 10 + (ds[|ds| - 1] as int - 48)
  }

  const PLUS: Byte := 43
  const MINUS: Byte := 45

  /**
   * `stream >> uint32_t` as the C++ library's `num_get` performs it: an optional sign,
   * then decimal digits. No digits: value 0 and the failbit. A value above
   * UINT32_MAX: UINT32_MAX and the failbit. A leading minus negates modulo 2^32.
   */
  function ReadUnsigned(s: Stream): (Word, Stream)
  {
    var t := SkipSpace(s);
    if t.failed || t.pos >= |t.data| then (0, t.(failed := true))
    else
      var negate := t.data[t.pos] == MINUS;
      var start := if negate || t.data[t.pos] == PLUS then t.pos + 1 else t.pos;
      var e := DigitsEnd(t.data, start);
      if e == start then (0, t.(pos := start, failed := true))
      else
        var n := DecimalValue(t.data[start..e]);
        if n > UINT32_MAX then (UINT32_MAX, t.(pos := e, failed := true))
        else (if negate then (WORD_MODULUS - n) % WORD_MODULUS else n, t.(pos := e))
  }

  // ---------------------------------------------------------------------------
  // The header, src/Hdri.cpp:10-22
  // ---------------------------------------------------------------------------

  /** The bytes of an ASCII string. */
  function Ascii(s: string): (r: seq<Byte>)
    requires forall k :: 0 <= k < |s| ==> s[k] as int < 256
    ensures |r| == |s|
  {
    seq(|s|, k requires 0 <= k < |s| => s[k] as int)
  }

  const MAGIC: seq<Byte> := Ascii("#?RADIANCE")
  const FORMAT: seq<Byte> := Ascii("FORMAT=32-bit_rle_rgbe")
  const Y_LETTER: Byte := 89
  const X_LETTER: Byte := 88

  /** The image sizes and axis flips of the resolution line `±Y sizeY ±X sizeX`. */
  datatype Header = Header(sizeX: Word, sizeY: Word, flipX: bool, flipY: bool)

  /** Why a load is abandoned: each is a `throw` in src/Hdri.cpp. */
  datatype LoadError = CannotOpen | NotRadiance | NotRleRgbe | NotYAxis | NotXAxis

  /**
   * One `sign coord size` group of the resolution line, src/Hdri.cpp:16-18 and 20-22:
   * the flip (a '-' sign), the size and the stream after them, or `None` when the
   * axis character is not `letter`. A failed read of the sign leaves that `char`
   * uninitialised in the source; the model rejects the group there.
   */
  function ReadAxis(s: Stream, letter: Byte): Option<(bool, Word, Stream)>
  {
    var (sign, s1) := ReadChar(s);
    var (axis, s2) := ReadChar(s1);
    if sign.None? || axis != Some(letter) then None
    else
      var (size, s3) := ReadUnsigned(s2);
      Some((sign.value == MINUS, size, s3))
  }

  /**
   * The header reads of src/Hdri.cpp:10-22. A failed read of the second axis
   * character leaves `coord` holding 'Y', so the X check rejects the file, as the
   * model's `None` does.
   */
  function ParseHeader(s: Stream): Result<(Header, Stream), LoadError>
  {
    var (magic, s1) := ReadWord(s);
    if magic != MAGIC then Err(NotRadiance)
    else
      var (format, s2) := ReadWord(s1);
      if format != FORMAT then Err(NotRleRgbe)
      else
        match ReadAxis(s2, Y_LETTER)
        case None => Err(NotYAxis)
        case Some((flipY, sizeY, s5)) =>
          match ReadAxis(s5, X_LETTER)
          case None => Err(NotXAxis)
          case Some((flipX, sizeX, s8)) => Ok((Header(sizeX, sizeY, flipX, flipY), s8))
  }

  /**
   * The header checks in the order the source makes them: the first word must be
   * `#?RADIANCE`, the second `FORMAT=32-bit_rle_rgbe`, the first axis letter 'Y' and
   * the second 'X', and each failing check has its own error. An accepted header's
   * Y flip is set exactly when the first sign read is '-', and its sizes are the two
   * values read after the letters.
   */
  lemma HeaderChecks(s: Stream)
    ensures var (magic, s1) := ReadWord(s);
      var (format, s2) := ReadWord(s1);
      var (ySign, s3) := ReadChar(s2);
      var (yAxis, s4) := ReadChar(s3);
      var r := ParseHeader(s);
      && (magic != MAGIC ==> r == Err(NotRadiance))
      && (magic == MAGIC && format != FORMAT ==> r == Err(NotRleRgbe))
      && (magic == MAGIC && format == FORMAT && yAxis != Some(Y_LETTER) ==> r == Err(NotYAxis))
      && (r.Ok? ==> magic == MAGIC && format == FORMAT && yAxis == Some(Y_LETTER))
      && (r.Ok? ==> (r.value.0.flipY <==> ySign == Some(MINUS)) && r.value.0.sizeY == ReadUnsigned(s4).0)
      && (r.Ok? ==> ReadAxis(ReadUnsigned(s4).1, X_LETTER) == Some((r.value.0.flipX, r.value.0.sizeX, r.value.1)))
  {
  }

  // ---------------------------------------------------------------------------
  // Run-length decoding of the scanlines, src/Hdri.cpp:24, 33-54
  // ---------------------------------------------------------------------------

  /**
   * The state the decoding loop carries from pixel to pixel, from plane to plane and
   * from scanline to scanline: the `unsigned char` locals `ctr`, `mode` and `last`
   * and the stream. It is never reset between planes or scanlines.
   */
  datatype Decoder = Decoder(ctr: Byte, mode: bool, last: Byte, s: Stream)

  /** The decoder before the first scanline; `ctr` is uninitialised in the source and starts at 0 here. */
  function Initial(s: Stream): Decoder
  {
    Decoder(0, false, 0, s)
  }

  /** Conversion of an `int` to `unsigned char`. */
  function Trunc8(v: int): Byte
  {
    v % 256
  }

  /**
   * One pass of the innermost loop body, src/Hdri.cpp:41-50: when the counter is
   * exhausted, read a count byte; a count above 128 starts a run of `count - 128`
   * copies of the next byte, any other count a literal run of `count` bytes. Then the
   * counter is decremented (wrapping from 0 to 255) and the pixel's next byte is the
   * run byte or a freshly read one. Returns that byte (EOF past the end) and the new state.
   */
  function Step(d: Decoder): (int, Decoder)
  {
    var d1 :=
      if d.ctr != 0 then d
      else
        var (count, s1) := Get(d.s);
        var c := Trunc8(count);
        var mode := c > 128;
        var (l, s2) := if mode then Get(s1) else (0, s1);
        Decoder(if mode then c - 128 else c, mode, Trunc8(l), s2);
    var (v, s3) := if d1.mode then (d1.last, d1.s) else Get(d1.s);
    (v, Decoder((d1.ctr - 1) % 256, d1.mode, d1.last, s3))
  }

  /** `data <<= 8; data += v;` on a `uint32_t`, src/Hdri.cpp:49-50. */
  function ShiftIn(w: Word, v: int): Word
  {
    ((w * 256) % WORD_MODULUS + v) % WORD_MODULUS
  }

  function Zeros(n: nat): (z: seq<Word>)
    ensures |z| == n && forall k :: 0 <= k < n ==> z[k] == 0
  {
    seq(n, _ => 0)
  }

  /** The column that pass `n` of a scanline's plane loops writes: `n % width`, by repeated subtraction. */
  function Column(n: nat, width: nat): (j: nat)
    requires width > 0
    ensures j < width
  {
    if n < width then n else Column(n - width, width)
  }

  lemma ColumnWrap(n: nat, width: nat)
    ensures width > 0 ==> Column(n + width, width) == Column(n, width)
  {
  }

  /** Passes `n0`, `n0 + 1`, ... of a plane that starts at column 0 write columns 0, 1, ... */
  lemma {:induction false} ColumnShift(n0: nat, width: nat, j: nat)
    requires j < width && Column(n0, width) == 0
    ensures Column(n0 + j, width) == j
  {
    if n0 >= width {
      ColumnShift(n0 - width, width, j);
    }
  }

  /**
   * A scanline's `width` words after the first `n` passes of its plane and column
   * loops, starting from decoder `d`: pass `n` shifts a byte into column `n % width`.
   */
  function RowAfter(d: Decoder, width: nat, n: nat): (r: (seq<Word>, Decoder))
    requires width > 0 || n == 0
    ensures |r.0| == width
  {
    if n == 0 then (Zeros(width), d)
    else
      var (row, d1) := RowAfter(d, width, n - 1);
      var (v, d2) := Step(d1);
      var j := Column(n - 1, width);
      (row[j := ShiftIn(row[j], v)], d2)
  }

  /** One whole scanline: four skipped bytes, then four planes of `width` bytes each. */
  function Scanline(d: Decoder, width: nat): (r: (seq<Word>, Decoder))
    ensures |r.0| == width
  {
    RowAfter(d.(s := Skip(d.s, 4)), width, 4 * width)
  }

  /** The words of the first `rows` scanlines, in file order, and the decoder after them. */
  function Scanlines(d: Decoder, width: nat, rows: nat): (r: (seq<Word>, Decoder))
    ensures |r.0| == rows * width
  {
    if rows == 0 then ([], d)
    else
      var (words, d1) := Scanlines(d, width, rows - 1);
      var (row, d2) := Scanline(d1, width);
      assert |words + row| == rows * width by { assert (rows - 1) * width + width == rows * width; }
      (words + row, d2)
  }

  /** The bytes of the first `k` passes from decoder `d`, in the order they are read, and the decoder after them. */
  function Steps(d: Decoder, k: nat): (r: (seq<int>, Decoder))
    ensures |r.0| == k
  {
    if k == 0 then ([], d)
    else
      var (bs, d1) := Steps(d, k - 1);
      var (v, d2) := Step(d1);
      (bs + [v], d2)
  }

  /** The bytes among `bs` that land in column `k` of a scanline `width` words wide, in order. */
  function Lane(bs: seq<int>, width: nat, k: nat): seq<int>
    requires width > 0
  {
    if bs == [] then []
    else Lane(bs[..|bs| - 1], width, k) + (if Column(|bs| - 1, width) == k then [bs[|bs| - 1]] else [])
  }

  /** A word that starts at 0 and has the bytes `vs` shifted in, in order. */
  function ShiftAll(vs: seq<int>): Word
  {
    if vs == [] then 0 else ShiftIn(ShiftAll(vs[..|vs| - 1]), vs[|vs| - 1])
  }

  /**
   * After `n` passes every word of the scanline holds exactly the bytes that were
   * read for its column, shifted in in reading order, and the decoder has consumed
   * exactly the bytes of those `n` passes.
   */
  lemma {:induction false} RowAfterLanes(d: Decoder, width: nat, n: nat)
    requires width > 0
    ensures RowAfter(d, width, n).1 == Steps(d, n).1
    ensures forall k :: 0 <= k < width ==> RowAfter(d, width, n).0[k] == ShiftAll(Lane(Steps(d, n).0, width, k))
  {
    if n > 0 {
      RowAfterLanes(d, width, n - 1);
      var bs := Steps(d, n).0;
      assert bs[..n - 1] == Steps(d, n - 1).0;
      forall k | 0 <= k < width
        ensures RowAfter(d, width, n).0[k] == ShiftAll(Lane(bs, width, k))
      {
        var lane := Lane(bs, width, k);
        if Column(n - 1, width) == k {
          assert lane[..|lane| - 1] == Lane(bs[..n - 1], width, k);
        } else {
          assert lane == Lane(bs[..n - 1], width, k);
        }
      }
    }
  }

  /** Bytes read one whole scanline-width apart land in the same columns. */
  lemma {:induction false} LaneAppend(a: seq<int>, b: seq<int>, width: nat, k: nat)
    requires width > 0 && |a| == width
    ensures Lane(a + b, width, k) == Lane(a, width, k) + Lane(b, width, k)
    decreases |b|
  {
    if b != [] {
      var ab := a + b;
      assert ab[..|ab| - 1] == a + b[..|b| - 1];
      assert ab[|ab| - 1] == b[|b| - 1];
      LaneAppend(a, b[..|b| - 1], width, k);
      ColumnWrap(|b| - 1, width);
      var tail := if Column(|b| - 1, width) == k then [b[|b| - 1]] else [];
      assert Lane(ab, width, k) == Lane(a + b[..|b| - 1], width, k) + tail;
      assert Lane(b, width, k) == Lane(b[..|b| - 1], width, k) + tail;
    } else {
      assert a + b == a;
    }
  }

  /** Within the first scanline-width of bytes, column `k` receives only byte `k`. */
  lemma {:induction false} LaneWithinWidth(a: seq<int>, width: nat, k: nat)
    requires k < width && |a| <= width
    ensures Lane(a, width, k) == if k < |a| then [a[k]] else []
    decreases |a|
  {
    if a != [] {
      LaneWithinWidth(a[..|a| - 1], width, k);
    }
  }

  /**
   * The four byte planes of a scanline: word `k` receives byte `k` of each plane, the
   * first plane's byte ending up in the most significant position.
   */
  lemma FourPlanes(bs: seq<int>, width: nat, k: nat)
    requires k < width && |bs| == 4 * width
    ensures Lane(bs, width, k) == [bs[k], bs[width + k], bs[2 * width + k], bs[3 * width + k]]
  {
    SplitFour(bs, width);
    LaneOfPlanes(bs[..width], bs[width..2 * width], bs[2 * width..3 * width], bs[3 * width..], width, k);
  }

  /** Four planes one scanline-width each, read back to back: column `k` receives byte `k` of each, in order. */
  lemma LaneOfPlanes(p0: seq<int>, p1: seq<int>, p2: seq<int>, p3: seq<int>, width: nat, k: nat)
    requires k < width && |p0| == width && |p1| == width && |p2| == width && |p3| == width
    ensures Lane(p0 + (p1 + (p2 + p3)), width, k) == [p0[k], p1[k], p2[k], p3[k]]
  {
    OnePlane(p0, width, k);
    OnePlane(p1, width, k);
    OnePlane(p2, width, k);
    OnePlane(p3, width, k);
    var tail := p2 + p3;
    LaneAppend(p2, p3, width, k);
    assert Lane(tail, width, k) == [p2[k], p3[k]];
    var tail' := p1 + tail;
    LaneAppend(p1, tail, width, k);
    assert Lane(tail', width, k) == [p1[k], p2[k], p3[k]];
    LaneAppend(p0, tail', width, k);
  }

  lemma SplitFour(bs: seq<int>, width: nat)
    requires |bs| == 4 * width
    ensures bs == bs[..width] + (bs[width..2 * width] + (bs[2 * width..3 * width] + bs[3 * width..]))
  {
    var a, b, c := width, 2 * width, 3 * width;
    assert bs[b..] == bs[b..c] + bs[c..];
    assert bs[a..] == bs[a..b] + bs[b..];
    assert bs == bs[..a] + bs[a..];
  }

  /** A plane of exactly one scanline-width contributes its byte `k` to column `k`. */
  lemma OnePlane(p: seq<int>, width: nat, k: nat)
    requires k < width && |p| == width
    ensures Lane(p, width, k) == [p[k]]
  {
    LaneWithinWidth(p, width, k);
  }

  /**
   * One scanline as the source decodes it: after the four skipped bytes, `4 * width`
   * run-length decoded bytes, the four planes of `width` bytes each; word `k` is built
   * from byte `k` of each plane in plane order.
   */
  lemma ScanlineWords(d: Decoder, width: nat)
    ensures var bs := Steps(d.(s := Skip(d.s, 4)), 4 * width);
      && Scanline(d, width).1 == bs.1
      && forall k :: 0 <= k < width ==>
           Scanline(d, width).0[k] == ShiftAll([bs.0[k], bs.0[width + k], bs.0[2 * width + k], bs.0[3 * width + k]])
  {
    if width > 0 {
      var d' := d.(s := Skip(d.s, 4));
      RowAfterLanes(d', width, 4 * width);
      forall k | 0 <= k < width
        ensures Lane(Steps(d', 4 * width).0, width, k) ==
                [Steps(d', 4 * width).0[k], Steps(d', 4 * width).0[width + k],
                 Steps(d', 4 * width).0[2 * width + k], Steps(d', 4 * width).0[3 * width + k]]
      {
        FourPlanes(Steps(d', 4 * width).0, width, k);
      }
    }
  }

  /** Pass `n` of a scanline, in terms of the state after pass `n - 1`. */
  lemma PassStep(d0: Decoder, width: nat, n: nat, j: nat, row: seq<Word>, d: Decoder, v: int, d': Decoder)
    requires j < width && Column(n, width) == j
    requires row == RowAfter(d0, width, n).0 && d == RowAfter(d0, width, n).1
    requires v == Step(d).0 && d' == Step(d).1
    ensures RowAfter(d0, width, n + 1).0 == row[j := ShiftIn(row[j], v)]
    ensures RowAfter(d0, width, n + 1).1 == d'
  {
  }

  /**
   * The run-length state update at the head of the innermost loop body,
   * src/Hdri.cpp:41-47 and the read of line 50, on the locals `ctr`, `mode` and
   * `last` and the stream: returns the byte to shift into the pixel word.
   */
  method NextByte(ctr0: Byte, mode0: bool, last0: Byte, s0: Stream)
    returns (v: int, ctr: Byte, mode: bool, last: Byte, s: Stream)
    ensures (v, Decoder(ctr, mode, last, s)) == Step(Decoder(ctr0, mode0, last0, s0))
  {
    ctr, mode, last, s := ctr0, mode0, last0, s0;
    if ctr == 0 {
      var g := Get(s);
      s := g.1;
      ctr := Trunc8(g.0);
      mode := ctr > 128;
      if mode {
        g := Get(s);
        s := g.1;
        last := Trunc8(g.0);
      } else {
        last := 0;
      }
      ctr := if mode then ctr - 128 else ctr;
    }
    ctr := (ctr - 1) % 256;
    if mode {
      v := last;
    } else {
      var g := Get(s);
      v, s := g.0, g.1;
    }
  }

  /**
   * One pass of the innermost loop, src/Hdri.cpp:41-51: the next byte is shifted into
   * column `j` of the scanline whose words start at `base`.
   */
  method DecodePass(work: array<Word>, base: nat, width: nat, j: nat, ghost d0: Decoder, ghost n: nat,
                    ctr0: Byte, mode0: bool, last0: Byte, s0: Stream)
    returns (ctr: Byte, mode: bool, last: Byte, s: Stream)
    requires base + width <= work.Length && j < width && Column(n, width) == j
    requires work[base..base + width] == RowAfter(d0, width, n).0
    requires Decoder(ctr0, mode0, last0, s0) == RowAfter(d0, width, n).1
    modifies work
    ensures work[base..base + width] == RowAfter(d0, width, n + 1).0
    ensures Decoder(ctr, mode, last, s) == RowAfter(d0, width, n + 1).1
    ensures work[..base] == old(work[..base]) && work[base + width..] == old(work[base + width..])
  {
    ghost var row := work[base..base + width];
    ghost var d := Decoder(ctr0, mode0, last0, s0);
    var v;
    v, ctr, mode, last, s := NextByte(ctr0, mode0, last0, s0);
    PassStep(d0, width, n, j, row, d, v, Decoder(ctr, mode, last, s));
    var data := work[base + j];
    data := (data * 256) % WORD_MODULUS;
    data := (data + v) % WORD_MODULUS;
    work[base + j] := data;
    assert work[base..base + width] == row[j := ShiftIn(row[j], v)];
  }

  /** One byte plane of a scanline: the column loop of src/Hdri.cpp:40-52. */
  method DecodePlane(work: array<Word>, base: nat, width: nat, ghost d0: Decoder, ghost n0: nat,
                     ctr0: Byte, mode0: bool, last0: Byte, s0: Stream)
    returns (ctr: Byte, mode: bool, last: Byte, s: Stream)
    requires base + width <= work.Length
    requires (width == 0 && n0 == 0) || (width > 0 && Column(n0, width) == 0)
    requires work[base..base + width] == RowAfter(d0, width, n0).0
    requires Decoder(ctr0, mode0, last0, s0) == RowAfter(d0, width, n0).1
    modifies work
    ensures work[base..base + width] == RowAfter(d0, width, n0 + width).0
    ensures Decoder(ctr, mode, last, s) == RowAfter(d0, width, n0 + width).1
    ensures work[..base] == old(work[..base]) && work[base + width..] == old(work[base + width..])
  {
    ctr, mode, last, s := ctr0, mode0, last0, s0;
    var j := 0;
    ghost var n := n0;
    while j < width
      invariant 0 <= j <= width && n == n0 + j
      invariant work[base..base + width] == RowAfter(d0, width, n).0
      invariant Decoder(ctr, mode, last, s) == RowAfter(d0, width, n).1
      invariant work[..base] == old(work[..base]) && work[base + width..] == old(work[base + width..])
    {
      ColumnShift(n0, width, j);
      ctr, mode, last, s := DecodePass(work, base, width, j, d0, n, ctr, mode, last, s);
      n, j := n + 1, j + 1;
    }
  }

  /**
   * The four byte planes of one scanline, src/Hdri.cpp:39-53, on the `width` zeroed
   * words of `work` that start at `base`.
   */
  method DecodePlanes(work: array<Word>, base: nat, width: nat, d0: Decoder) returns (d: Decoder)
    requires base + width <= work.Length
    requires work[base..base + width] == Zeros(width)
    modifies work
    ensures work[base..base + width] == RowAfter(d0, width, 4 * width).0
    ensures d == RowAfter(d0, width, 4 * width).1
    ensures work[..base] == old(work[..base]) && work[base + width..] == old(work[base + width..])
  {
    var ctr, mode, last, s := d0.ctr, d0.mode, d0.last, d0.s;
    var p := 0;
    ghost var n := 0;
    while p < 4
      invariant 0 <= p <= 4 && n == p * width
      invariant (width == 0 && n == 0) || (width > 0 && Column(n, width) == 0)
      invariant work[base..base + width] == RowAfter(d0, width, n).0
      invariant Decoder(ctr, mode, last, s) == RowAfter(d0, width, n).1
      invariant work[..base] == old(work[..base]) && work[base + width..] == old(work[base + width..])
    {
      ctr, mode, last, s := DecodePlane(work, base, width, d0, n, ctr, mode, last, s);
      RowFits(p, 4, width);
      ColumnWrap(n, width);
      n, p := n + width, p + 1;
    }
    d := Decoder(ctr, mode, last, s);
  }

  /**
   * One scanline, src/Hdri.cpp:35-53: four unchecked `get()`s, then its four byte
   * planes, decoded into the `width` words of `work` that start at `base`, where the
   * words from `base` on are still zero.
   */
  method DecodeScanline(work: array<Word>, base: nat, width: nat, d0: Decoder) returns (d: Decoder)
    requires base + width <= work.Length
    requires work[base..] == Zeros(work.Length - base)
    modifies work
    ensures work[..base + width] == old(work[..base]) + Scanline(d0, width).0
    ensures work[base + width..] == Zeros(work.Length - base - width)
    ensures d == Scanline(d0, width).1
  {
    ghost var done, rest := work[..base], work[base..];
    assert work[base..base + width] == rest[..width];
    ZerosSplit(work.Length - base, width);
    var s := Get(d0.s).1;
    s := Get(s).1;
    s := Get(s).1;
    s := Get(s).1;
    assert s == Skip(d0.s, 4);
    d := DecodePlanes(work, base, width, d0.(s := s));
    assert work[..base + width] == done + work[base..base + width];
    assert work[base + width..] == rest[width..];
  }

  /**
   * The in-place decoding loops of src/Hdri.cpp:34-54 over a zeroed work buffer of
   * `sizeY` scanlines of `sizeX` words.
   */
  method DecodeScanlines(work: array<Word>, s0: Stream, sizeX: nat, sizeY: nat) returns (s: Stream)
    requires work.Length == sizeY * sizeX
    requires work[..] == Zeros(work.Length)
    modifies work
    ensures work[..] == Scanlines(Initial(s0), sizeX, sizeY).0
    ensures s == Scanlines(Initial(s0), sizeX, sizeY).1.s
  {
    var d := Initial(s0);
    var i := 0;
    var base: nat := 0;
    while i < sizeY
      invariant 0 <= i <= sizeY && base <= work.Length
      invariant d == Scanlines(Initial(s0), sizeX, i).1
      invariant work[..base] == Scanlines(Initial(s0), sizeX, i).0
      invariant work[base..] == Zeros(work.Length - base)
    {
      d := DecodeRow(work, s0, sizeX, sizeY, i, base, d);
      i, base := i + 1, base + sizeX;
    }
    assert work[..] == work[..base];
    s := d.s;
  }

  /** One iteration of the row loop of src/Hdri.cpp:34-54: scanline `i` decoded into the words at `base`. */
  method DecodeRow(work: array<Word>, s0: Stream, sizeX: nat, sizeY: nat, i: nat, base: nat, d0: Decoder)
    returns (d: Decoder)
    requires work.Length == sizeY * sizeX && i < sizeY && base <= work.Length
    requires d0 == Scanlines(Initial(s0), sizeX, i).1
    requires work[..base] == Scanlines(Initial(s0), sizeX, i).0
    requires work[base..] == Zeros(work.Length - base)
    modifies work
    ensures base + sizeX <= work.Length
    ensures d == Scanlines(Initial(s0), sizeX, i + 1).1
    ensures work[..base + sizeX] == Scanlines(Initial(s0), sizeX, i + 1).0
    ensures work[base + sizeX..] == Zeros(work.Length - (base + sizeX))
  {
    RowFits(i, sizeY, sizeX);
    ScanlinesStep(Initial(s0), sizeX, i);
    d := DecodeScanline(work, base, sizeX, d0);
  }

  /** One more scanline: the words of the next row follow those already decoded. */
  lemma ScanlinesStep(d: Decoder, width: nat, rows: nat)
    ensures Scanlines(d, width, rows + 1).0
      == Scanlines(d, width, rows).0 + Scanline(Scanlines(d, width, rows).1, width).0
    ensures Scanlines(d, width, rows + 1).1 == Scanline(Scanlines(d, width, rows).1, width).1
  {
  }

  /** Scanline `i` of `rows` lies inside a buffer of `rows * width` words. */
  lemma ZerosSplit(n: nat, m: nat)
    requires m <= n
    ensures Zeros(n)[..m] == Zeros(m) && Zeros(n)[m..] == Zeros(n - m)
  {
  }

  // ---------------------------------------------------------------------------
  // Packing and unpacking of the pixel words, src/Hdri.cpp:48-51, 58-61
  // ---------------------------------------------------------------------------

  /** The four bytes of an RGBE pixel: red, green and blue mantissas and a shared exponent. */
  datatype Rgbe = Rgbe(r: Byte, g: Byte, b: Byte, e: Byte)

  /** The word whose bits 31..24, 23..16, 15..8 and 7..0 hold R, G, B and E. */
  function Pack(x: Rgbe): (w: Word)
  {
    x.r * 0x100_0000 + x.g * 0x1_0000 + x.b * 0x100 + x.e
  }

  /** `(data >> 24) & 0xff`, `(data >> 16) & 0xff`, `(data >> 8) & 0xff` and `data & 0xff`. */
  function Unpack(w: Word): (x: Rgbe)
  {
    Rgbe((w / 0x100_0000) % 256, (w / 0x1_0000) % 256, (w / 0x100) % 256, w % 256)
  }

  /** Extraction recovers the four bytes of a packed word exactly. */
  lemma UnpackPack(x: Rgbe)
    ensures Unpack(Pack(x)) == x
  {
    var w := Pack(x);
    assert w / 0x100_0000 == x.r;
    assert w / 0x1_0000 == x.r * 0x100 + x.g;
    assert w / 0x100 == x.r * 0x1_0000 + x.g * 0x100 + x.b;
  }

  /** Every word is the packing of its extracted bytes, so packing is a bijection. */
  lemma PackUnpack(w: Word)
    ensures Pack(Unpack(w)) == w
  {
    var x := Unpack(w);
    PeelByte(w / 0x1_0000);
    PeelByte(w / 0x100);
    PeelByte(w);
    DivideTwice(w);
    assert x.r == w / 0x100_0000;
  }

  /** A number is its quotient by 256, shifted back, plus its low byte. */
  lemma PeelByte(v: nat)
    ensures v == (v / 0x100) * 0x100 + v % 256
  {
  }

  /** Dividing by 256 twice divides by 65536, and three times by 2^24. */
  lemma DivideTwice(v: nat)
    ensures v / 0x100 / 0x100 == v / 0x1_0000
    ensures v / 0x1_0000 / 0x100 == v / 0x100_0000
  {
  }

  /**
   * A word that starts at 0 and has four bytes shifted in holds the first byte in
   * bits 31..24 and the last in bits 7..0: it is their packing.
   */
  lemma ShiftFour(x: Rgbe)
    ensures ShiftAll([x.r, x.g, x.b, x.e]) == Pack(x)
  {
    var vs := [x.r, x.g, x.b, x.e];
    assert vs[..1][..0] == [];
    assert vs[..2][..1] == vs[..1] && vs[..3][..2] == vs[..2] && vs[..3] == vs[..|vs| - 1];
    ShiftInByte(ShiftAll(vs[..0]), x.r);
    ShiftInByte(ShiftAll(vs[..1]), x.g);
    ShiftInByte(ShiftAll(vs[..2]), x.b);
    ShiftInByte(ShiftAll(vs[..3]), x.e);
  }

  /** Shifting a byte into a word whose top byte is clear loses nothing. */
  lemma ShiftInByte(w: Word, v: Byte)
    requires w < 0x100_0000
    ensures ShiftIn(w, v) == w * 256 + v
  {
  }

  // ---------------------------------------------------------------------------
  // The flip-aware read-back, src/Hdri.cpp:55-65
  // ---------------------------------------------------------------------------

  /** The stored row that output row `i` reads. */
  function SourceRow(h: Header, i: nat): (r: nat)
    requires i < h.sizeY
    ensures r < h.sizeY
  {
    if h.flipY then h.sizeY - i - 1 else i
  }

  /** The stored column that output column `j` reads. */
  function SourceColumn(h: Header, j: nat): (c: nat)
    requires j < h.sizeX
    ensures c < h.sizeX
  {
    if h.flipX then h.sizeX - j - 1 else j
  }

  /** The work-buffer index that output pixel (`i`, `j`) reads, src/Hdri.cpp:57. */
  function SourceIndex(h: Header, i: nat, j: nat): (k: nat)
    requires i < h.sizeY && j < h.sizeX
    ensures k < h.sizeY * h.sizeX
  {
    CellInRange(h.sizeX, h.sizeY, SourceRow(h, i), SourceColumn(h, j));
    Cell(h.sizeX, SourceRow(h, i), SourceColumn(h, j))
  }

  /** Reading back twice through the mapping is the identity, on each axis. */
  lemma SourceInvolution(h: Header, i: nat, j: nat)
    requires i < h.sizeY && j < h.sizeX
    ensures SourceRow(h, SourceRow(h, i)) == i && SourceColumn(h, SourceColumn(h, j)) == j
  {
  }

  /** Every output pixel reads inside the work buffer, and distinct pixels read distinct words. */
  lemma SourceInjective(h: Header, i: nat, j: nat, i': nat, j': nat)
    requires i < h.sizeY && j < h.sizeX && i' < h.sizeY && j' < h.sizeX
    ensures SourceIndex(h, i, j) == SourceIndex(h, i', j') <==> i == i' && j == j'
  {
    CellDecompose(h.sizeX, SourceRow(h, i), SourceColumn(h, j));
    CellDecompose(h.sizeX, SourceRow(h, i'), SourceColumn(h, j'));
  }

  /** Every word of the work buffer is read by exactly the output pixel the mapping sends back to it. */
  lemma SourceSurjective(h: Header, k: nat)
    requires k < h.sizeY * h.sizeX
    ensures var i, j := SourceRow(h, k / h.sizeX), SourceColumn(h, k % h.sizeX);
      i < h.sizeY && j < h.sizeX && SourceIndex(h, i, j) == k
  {
    CellOf(h.sizeX, h.sizeY, k);
  }

  /** Output row `i`: each pixel's bytes, extracted from the word the mapping selects. */
  function RowTexels(words: seq<Word>, h: Header, i: nat): (row: seq<Rgbe>)
    requires |words| == h.sizeY * h.sizeX && i < h.sizeY
    ensures |row| == h.sizeX
  {
    seq(h.sizeX, j requires 0 <= j < h.sizeX => Unpack(words[SourceIndex(h, i, j)]))
  }

  /** The first `n` output rows, row-major. */
  function Texels(words: seq<Word>, h: Header, n: nat): (t: seq<Rgbe>)
    requires |words| == h.sizeY * h.sizeX && n <= h.sizeY
    ensures |t| == n * h.sizeX
  {
    if n == 0 then []
    else
      assert (n - 1) * h.sizeX + h.sizeX == n * h.sizeX;
      Texels(words, h, n - 1) + RowTexels(words, h, n - 1)
  }

  /** Output pixel (`i`, `j`) sits at `i * sizeX + j` and holds the bytes of the word the mapping selects. */
  lemma {:induction false} TexelAt(words: seq<Word>, h: Header, n: nat, i: nat, j: nat)
    requires |words| == h.sizeY * h.sizeX && n <= h.sizeY && i < n && j < h.sizeX
    ensures Cell(h.sizeX, i, j) < n * h.sizeX
    ensures Texels(words, h, n)[Cell(h.sizeX, i, j)] == Unpack(words[SourceIndex(h, i, j)])
  {
    CellInRange(h.sizeX, n, i, j);
    var prefix := Texels(words, h, n - 1);
    assert Texels(words, h, n) == prefix + RowTexels(words, h, n - 1);
    if i < n - 1 {
      TexelAt(words, h, n - 1, i, j);
    } else {
      assert Cell(h.sizeX, i, j) == |prefix| + j;
    }
  }

  /** The column loop of src/Hdri.cpp:56-64 for output row `i`, whose pixels start at `base`. */
  method ExtractRow(work: array<Word>, texture: array<Rgbe>, h: Header, i: nat, base: nat)
    requires work.Length == h.sizeY * h.sizeX && i < h.sizeY && base + h.sizeX <= texture.Length
    modifies texture
    ensures texture[..base + h.sizeX] == old(texture[..base]) + RowTexels(work[..], h, i)
  {
    var j := 0;
    while j < h.sizeX
      invariant 0 <= j <= h.sizeX
      invariant forall k :: base <= k < base + j ==> texture[k] == RowTexels(work[..], h, i)[k - base]
      invariant texture[..base] == old(texture[..base])
    {
      var data := work[SourceIndex(h, i, j)];
      var r := (data / 0x100_0000) % 256;
      var g := (data / 0x1_0000) % 256;
      var b := (data / 0x100) % 256;
      var e := data % 256;
      texture[base + j] := Rgbe(r, g, b, e);
      j := j + 1;
    }
  }

  /** The extraction loops of src/Hdri.cpp:55-65. */
  method ExtractTexels(work: array<Word>, h: Header) returns (texture: array<Rgbe>)
    requires work.Length == h.sizeY * h.sizeX
    ensures fresh(texture)
    ensures texture[..] == Texels(work[..], h, h.sizeY)
  {
    var cells := h.sizeX * h.sizeY;
    assert cells == work.Length;
    texture := new Rgbe[cells];
    var i := 0;
    var base := 0;
    while i < h.sizeY
      invariant 0 <= i <= h.sizeY && base == i * h.sizeX
      invariant texture.Length == work.Length
      invariant texture[..base] == Texels(work[..], h, i)
    {
      RowFits(i, h.sizeY, h.sizeX);
      ExtractRow(work, texture, h, i, base);
      i, base := i + 1, base + h.sizeX;
    }
    assert texture[..] == texture[..base];
  }

  // ---------------------------------------------------------------------------
  // The whole load, src/Hdri.cpp:3-72
  // ---------------------------------------------------------------------------

  /** The zeroing loops of src/Hdri.cpp:27-31. */
  method ZeroFill(work: array<Word>, sizeX: nat, sizeY: nat)
    requires work.Length == sizeY * sizeX
    modifies work
    ensures work[..] == Zeros(work.Length)
  {
    var i := 0;
    var base := 0;
    while i < sizeY
      invariant 0 <= i <= sizeY && base == i * sizeX <= work.Length
      invariant forall k :: 0 <= k < base ==> work[k] == 0
    {
      RowFits(i, sizeY, sizeX);
      var j := 0;
      while j < sizeX
        invariant 0 <= j <= sizeX
        invariant forall k :: 0 <= k < base + j ==> work[k] == 0
      {
        work[base + j] := 0;
        j := j + 1;
      }
      i, base := i + 1, base + sizeX;
    }
  }

  /**
   * A loaded environment map: the sizes and flips of its header (what `getSizeX`,
   * `getSizeY`, `getFlipX` and `getFlipY` return) and the pixel bytes of its data
   * buffer, row-major, `sizeX * sizeY` of them.
   */
  datatype Image = Image(sizeX: Word, sizeY: Word, flipX: bool, flipY: bool, texels: seq<Rgbe>)

  /**
   * The number of words in the work buffer and of pixels in the output buffer, with
   * the product taken without wrap-around.
   */
  function BufferLength(h: Header): nat
  {
    h.sizeX * h.sizeY
  }

  /** Every pixel the loops of src/Hdri.cpp:27-65 address lies inside a buffer of `BufferLength` entries. */
  lemma BufferHoldsEveryPixel(h: Header, i: nat, j: nat)
    requires i < h.sizeY && j < h.sizeX
    ensures Cell(h.sizeX, i, j) < BufferLength(h)
    ensures SourceIndex(h, i, j) < BufferLength(h)
  {
    CellInRange(h.sizeX, h.sizeY, i, j);
  }

  /**
   * The length `new uint32_t[this->_sizeX * this->_sizeY]` receives as written: both
   * sizes are `uint32_t`, so the product is taken modulo 2^32.
   */
  function WorkLengthAsWritten(h: Header): (n: Word)
    ensures n == h.sizeX * h.sizeY <==> h.sizeX * h.sizeY < WORD_MODULUS
    ensures n <= h.sizeX * h.sizeY
  {
    var product := h.sizeX * h.sizeY;
    WrapKeeps(product);
    product % WORD_MODULUS
  }

  /** Reduction modulo 2^32 leaves a natural number unchanged exactly when it is below 2^32, and never enlarges it. */
  lemma WrapKeeps(p: nat)
    ensures p % WORD_MODULUS == p <==> p < WORD_MODULUS
    ensures p % WORD_MODULUS <= p
  {
    if p >= WORD_MODULUS {
      assert p % WORD_MODULUS < WORD_MODULUS <= p;
    }
  }

  /**
   * A 65536 by 65536 picture gets buffers of length 0, yet the zeroing loop writes
   * entry 0 of the work buffer and the decoding loop every one of its 2^32 pixels.
   */
  lemma WorkLengthWraps()
    ensures var h := Header(65536, 65536, false, false);
      WorkLengthAsWritten(h) == 0 && Cell(h.sizeX, 0, 0) >= WorkLengthAsWritten(h)
      && BufferLength(h) == WORD_MODULUS
  {
  }

  /**
   * What loading a file yields: `None` is a file that cannot be opened. After the
   * header one byte is skipped unchecked (src/Hdri.cpp:33), then the scanlines are
   * decoded from a fresh decoder and read back through the flip mapping.
   */
  function LoadSpec(file: Option<seq<Byte>>): (r: Result<Image, LoadError>)
    ensures r.Ok? ==> |r.value.texels| == BufferLength(Header(r.value.sizeX, r.value.sizeY, r.value.flipX, r.value.flipY))
  {
    if file.None? then Err(CannotOpen)
    else
      match ParseHeader(Stream(file.value, 0, false))
      case Err(e) => Err(e)
      case Ok((h, s)) =>
        var words := Scanlines(Initial(Get(s).1), h.sizeX, h.sizeY).0;
        Ok(Image(h.sizeX, h.sizeY, h.flipX, h.flipY, Texels(words, h, h.sizeY)))
  }

  /**
   * Loading fails exactly when the file cannot be opened or its header is rejected,
   * and then with that reason; a file whose header parses always loads.
   */
  lemma LoadFailures(file: Option<seq<Byte>>)
    ensures file.None? ==> LoadSpec(file) == Err(CannotOpen)
    ensures file.Some? ==> var p := ParseHeader(Stream(file.value, 0, false));
      && (p.Err? ==> LoadSpec(file) == Err(p.error))
      && (p.Ok? ==> LoadSpec(file).Ok? && LoadSpec(file).value.sizeX == p.value.0.sizeX
                    && LoadSpec(file).value.sizeY == p.value.0.sizeY
                    && LoadSpec(file).value.flipX == p.value.0.flipX
                    && LoadSpec(file).value.flipY == p.value.0.flipY)
  {
  }

  /** `Hdri::Hdri`: the header checks, the buffers, the decoding loops and the read-back. */
  method Load(file: Option<seq<Byte>>) returns (r: Result<Image, LoadError>)
    ensures r == LoadSpec(file)
  {
    if file.None? {
      return Err(CannotOpen);
    }
    var header := ParseHeader(Stream(file.value, 0, false));
    if header.Err? {
      return Err(header.error);
    }
    var (h, s) := header.value;
    var work := new Word[BufferLength(h)];
    ZeroFill(work, h.sizeX, h.sizeY);
    s := Get(s).1;
    s := DecodeScanlines(work, s, h.sizeX, h.sizeY);
    var texture := ExtractTexels(work, h);
    r := Ok(Image(h.sizeX, h.sizeY, h.flipX, h.flipY, texture[..]));
  }
}
