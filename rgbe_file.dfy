/**
 * A whole Radiance picture as a writer lays it out, a header and one run-length
 * scanline per stored row, and what the loader of src/Hdri.cpp:3-72 makes of it: every
 * scanline decodes to the packed pixels of its row, and the loaded image holds, at each
 * output position, the stored pixel the flips of the header map it to.
 */
module RgbeFile {
  import opened Base
  import opened Hdri
  import opened RgbeFormat
  import opened RgbeHeader

  /** The four bytes that open a scanline of the run-length format: 2, 2 and the width, high byte first. */
  function ScanlineStart(width: nat): (m: seq<Byte>)
    ensures |m| == 4
  {
    [2, 2, (width / 256) % 256, width % 256]
  }

  /** A scanline's bytes laid out as four planes: every red byte, then every green, blue and exponent byte. */
  function Planes(row: seq<Rgbe>): (p: seq<Byte>)
    ensures |p| == 4 * |row|
  {
    var n := |row|;
    var r, g := seq(n, k requires 0 <= k < n => row[k].r), seq(n, k requires 0 <= k < n => row[k].g);
    var b, e := seq(n, k requires 0 <= k < n => row[k].b), seq(n, k requires 0 <= k < n => row[k].e);
    r + g + b + e
  }

  /** Pixel `k`'s four bytes sit at `k` in each plane. */
  lemma PlaneBytes(row: seq<Rgbe>, k: nat)
    requires k < |row|
    ensures var p, n := Planes(row), |row|;
      p[k] == row[k].r && p[n + k] == row[k].g && p[2 * n + k] == row[k].b && p[3 * n + k] == row[k].e
  {
  }

  /** The packets `ps` encode the scanline `row`: they expand to its four planes. */
  predicate EncodesRow(ps: seq<Packet>, row: seq<Rgbe>)
  {
    ValidPackets(ps) && Expand(ps) == Planes(row)
  }

  /** The words of a scanline once decoded: each pixel packed with red in the top byte. */
  function PackRow(row: seq<Rgbe>): (ws: seq<Word>)
    ensures |ws| == |row| && forall k :: 0 <= k < |row| ==> ws[k] == Pack(row[k])
  {
    seq(|row|, k requires 0 <= k < |row| => Pack(row[k]))
  }

  /** `get()` over good bytes moves the stream past them. */
  lemma {:induction false} SkipAhead(s: Stream, bs: seq<Byte>)
    requires Ahead(s, bs)
    ensures Skip(s, |bs|) == Advance(s, |bs|)
    decreases |bs|
  {
    if bs != [] {
      AheadSplit(s, [bs[0]], bs[1..]);
      assert [bs[0]] + bs[1..] == bs;
      assert Get(s).1 == Advance(s, 1);
      SkipAhead(Advance(s, 1), bs[1..]);
    }
  }

  /** The opening bytes of a scanline are skipped, leaving the stream on its packets. */
  lemma OpeningSkipped(s: Stream, width: nat, rest: seq<Byte>)
    requires Ahead(s, ScanlineStart(width) + rest)
    ensures Skip(s, 4) == Advance(s, 4) && Ahead(Advance(s, 4), rest)
  {
    AheadSplit(s, ScanlineStart(width), rest);
    SkipAhead(s, ScanlineStart(width));
  }

  /** The packets after a scanline's four opening bytes decode to its four planes. */
  lemma PlanesDecoded(d: Decoder, row: seq<Rgbe>, ps: seq<Packet>, d': Decoder)
    requires d.ctr == 0 && EncodesRow(ps, row) && Ahead(d.s, ScanlineStart(|row|) + Encode(ps))
    requires d' == d.(s := Advance(d.s, 4))
    ensures Steps(d', 4 * |row|).0 == Planes(row)
    ensures Steps(d', 4 * |row|).1.ctr == 0 && Steps(d', 4 * |row|).1.s == Advance(d.s, 4 + |Encode(ps)|)
  {
    OpeningSkipped(d.s, |row|, Encode(ps));
    DecodePackets(d', ps);
  }

  /** Pixel `k` of a row, shifted in from its four planes, is the packing of its bytes. */
  lemma PixelOfPlanes(p: seq<Byte>, row: seq<Rgbe>, k: nat)
    requires p == Planes(row) && k < |row|
    ensures ShiftAll([p[k], p[|row| + k], p[2 * |row| + k], p[3 * |row| + k]]) == Pack(row[k])
  {
    PlaneBytes(row, k);
    ShiftFour(row[k]);
  }

  /** Decoded planes give each word of the scanline the packing of its pixel. */
  lemma WordsOfPlanes(d: Decoder, row: seq<Rgbe>, d': Decoder)
    requires d' == d.(s := Skip(d.s, 4)) && Steps(d', 4 * |row|).0 == Planes(row)
    ensures Scanline(d, |row|).0 == PackRow(row)
    ensures Scanline(d, |row|).1 == Steps(d', 4 * |row|).1
  {
    ScanlineWords(d, |row|);
    forall k | 0 <= k < |row|
      ensures Scanline(d, |row|).0[k] == Pack(row[k])
    {
      PixelOfPlanes(Planes(row), row, k);
    }
  }

  /**
   * A scanline written as its opening bytes and the packets of its four planes decodes,
   * from a decoder between packets, to the packed pixels of the row, and leaves the
   * decoder between packets just past it.
   */
  lemma ScanlineRoundTrip(d: Decoder, row: seq<Rgbe>, ps: seq<Packet>)
    requires d.ctr == 0 && EncodesRow(ps, row) && Ahead(d.s, ScanlineStart(|row|) + Encode(ps))
    ensures Scanline(d, |row|).0 == PackRow(row)
    ensures Scanline(d, |row|).1.ctr == 0
    ensures Scanline(d, |row|).1.s == Advance(d.s, 4 + |Encode(ps)|)
  {
    var d' := d.(s := Advance(d.s, 4));
    OpeningSkipped(d.s, |row|, Encode(ps));
    PlanesDecoded(d, row, ps, d');
    WordsOfPlanes(d, row, d');
  }

  /** A row's packets are well formed and expand to its planes, for every row of an image `width` pixels wide. */
  predicate EncodesRows(width: nat, rows: seq<seq<Rgbe>>, lines: seq<seq<Packet>>)
  {
    |rows| == |lines| && forall i :: 0 <= i < |rows| ==> |rows[i]| == width && EncodesRow(lines[i], rows[i])
  }

  /** The scanlines of an image, in file order: each its opening bytes and its packets. */
  function Body(width: nat, lines: seq<seq<Packet>>): seq<Byte>
    requires forall i :: 0 <= i < |lines| ==> ValidPackets(lines[i])
  {
    if lines == [] then []
    else Body(width, lines[..|lines| - 1]) + (ScanlineStart(width) + Encode(lines[|lines| - 1]))
  }

  /** The work buffer a decoded image fills: the packed rows, one after the other. */
  function Words(width: nat, rows: seq<seq<Rgbe>>): (ws: seq<Word>)
    requires forall k :: 0 <= k < |rows| ==> |rows[k]| == width
    ensures |ws| == |rows| * width
  {
    if rows == [] then []
    else
      var n := |rows|;
      assert (n - 1) * width + width == n * width;
      Words(width, rows[..n - 1]) + PackRow(rows[n - 1])
  }

  /** The word of row `i`, column `j` sits at its row-major cell and packs that pixel. */
  lemma {:induction false} WordsAt(width: nat, rows: seq<seq<Rgbe>>, i: nat, j: nat)
    requires (forall k :: 0 <= k < |rows| ==> |rows[k]| == width) && i < |rows| && j < width
    ensures Cell(width, i, j) < |rows| * width && Words(width, rows)[Cell(width, i, j)] == Pack(rows[i][j])
  {
    var n := |rows|;
    var front := rows[..n - 1];
    CellInRange(width, n, i, j);
    if i < n - 1 {
      WordsAt(width, front, i, j);
      assert front[i] == rows[i];
    } else {
      assert Cell(width, i, j) == |Words(width, front)| + j;
    }
  }

  /** The scanlines of `rows`, written as `lines`, are ahead of a decoder between packets. */
  predicate Written(d: Decoder, width: nat, rows: seq<seq<Rgbe>>, lines: seq<seq<Packet>>)
  {
    d.ctr == 0 && EncodesRows(width, rows, lines) && Ahead(d.s, Body(width, lines))
  }

  /**
   * Decoding `|rows|` scanlines from `d` gives the packed rows in file order and leaves
   * the decoder between packets, just past their bytes.
   */
  predicate DecodesTo(d: Decoder, width: nat, rows: seq<seq<Rgbe>>, lines: seq<seq<Packet>>)
    requires EncodesRows(width, rows, lines)
  {
    var (words, d') := Scanlines(d, width, |rows|);
    words == Words(width, rows) && d'.ctr == 0 && d'.s == Advance(d.s, |Body(width, lines)|)
  }

  /** The scanlines before the last are ahead of the decoder too. */
  lemma WrittenFront(d: Decoder, width: nat, rows: seq<seq<Rgbe>>, lines: seq<seq<Packet>>)
    requires Written(d, width, rows, lines) && rows != []
    ensures Written(d, width, rows[..|rows| - 1], lines[..|rows| - 1])
  {
    var n := |rows|;
    assert EncodesRows(width, rows[..n - 1], lines[..n - 1]);
    AheadSplit(d.s, Body(width, lines[..n - 1]), ScanlineStart(width) + Encode(lines[n - 1]));
  }

  /** One more scanline decoded after the others adds the packed last row to the words. */
  lemma ScanlinesStep(d: Decoder, width: nat, rows: seq<seq<Rgbe>>, lines: seq<seq<Packet>>)
    requires Written(d, width, rows, lines) && rows != []
    requires DecodesTo(d, width, rows[..|rows| - 1], lines[..|rows| - 1])
    ensures DecodesTo(d, width, rows, lines)
  {
    var n := |rows|;
    var front, last := lines[..n - 1], lines[n - 1];
    var before, line := Body(width, front), ScanlineStart(width) + Encode(last);
    assert Body(width, lines) == before + line;
    AheadSplit(d.s, before, line);
    var d1 := Scanlines(d, width, n - 1).1;
    ScanlineRoundTrip(d1, rows[n - 1], last);
  }

  /**
   * The scanlines of `rows`, each written as its opening bytes and packets, decode from
   * a decoder between packets to the packed rows in file order, leaving the decoder
   * between packets just past them.
   */
  lemma {:induction false} ScanlinesRoundTrip(d: Decoder, width: nat, rows: seq<seq<Rgbe>>, lines: seq<seq<Packet>>)
    requires Written(d, width, rows, lines)
    ensures DecodesTo(d, width, rows, lines)
  {
    if rows != [] {
      var n := |rows|;
      WrittenFront(d, width, rows, lines);
      ScanlinesRoundTrip(d, width, rows[..n - 1], lines[..n - 1]);
      ScanlinesStep(d, width, rows, lines);
    }
  }

  /** A whole file: the header, then one scanline per stored row. */
  function WriteImage(h: Header, lines: seq<seq<Packet>>): seq<Byte>
    requires forall i :: 0 <= i < |lines| ==> ValidPackets(lines[i])
  {
    WriteHeader(h) + Body(h.sizeX, lines)
  }

  /** The bytes between a prefix and a suffix are ahead of a stream just past the prefix. */
  lemma MiddleAhead(a: seq<Byte>, b: seq<Byte>, c: seq<Byte>)
    ensures Ahead(Stream(a + b + c, |a|, false), b)
  {
    assert (a + b + c)[|a|..|a| + |b|] == b;
  }

  lemma Regroup(a: seq<Byte>, b: seq<Byte>, c: seq<Byte>)
    ensures a + b + c == a + (b + c)
  {
  }

  /**
   * The header of a written file parses back, the byte after it is the resolution
   * line's newline, and the scanlines follow.
   */
  lemma FileHeader(h: Header, lines: seq<seq<Packet>>, rest: seq<Byte>, file: seq<Byte>, hs: Stream, bs: Stream)
    requires forall i :: 0 <= i < |lines| ==> ValidPackets(lines[i])
    requires file == WriteImage(h, lines) + rest
    requires hs == Stream(file, |WriteHeader(h)| - 1, false) && bs == Stream(file, |WriteHeader(h)|, false)
    ensures ParseHeader(Stream(file, 0, false)) == Ok((h, hs))
    ensures Get(hs).1 == bs && Ahead(bs, Body(h.sizeX, lines))
  {
    var header, body := WriteHeader(h), Body(h.sizeX, lines);
    Regroup(header, body, rest);
    HeaderRoundTrip(h, body + rest);
    MiddleAhead(header, body, rest);
  }

  /** `LoadSpec` of a file whose header parses and whose scanlines decode to `words`. */
  lemma LoadSteps(file: seq<Byte>, h: Header, hs: Stream, words: seq<Word>)
    requires ParseHeader(Stream(file, 0, false)) == Ok((h, hs))
    requires Scanlines(Initial(Get(hs).1), h.sizeX, h.sizeY).0 == words
    ensures |words| == h.sizeY * h.sizeX
    ensures LoadSpec(Some(file)) == Ok(Image(h.sizeX, h.sizeY, h.flipX, h.flipY, Texels(words, h, h.sizeY)))
  {
  }

  /**
   * Loading an image written as a header and run-length scanlines, whatever follows
   * it, succeeds with the written size and flips, and output pixel (`i`, `j`) is the
   * stored pixel the flips map it to.
   */
  lemma LoadRoundTrip(h: Header, rows: seq<seq<Rgbe>>, lines: seq<seq<Packet>>, rest: seq<Byte>)
    requires |rows| == h.sizeY && EncodesRows(h.sizeX, rows, lines)
    ensures var r := LoadSpec(Some(WriteImage(h, lines) + rest));
      r.Ok? && r.value.sizeX == h.sizeX && r.value.sizeY == h.sizeY
      && r.value.flipX == h.flipX && r.value.flipY == h.flipY
      && forall i, j :: 0 <= i < h.sizeY && 0 <= j < h.sizeX ==>
        Cell(h.sizeX, i, j) < |r.value.texels| && r.value.texels[Cell(h.sizeX, i, j)] == rows[SourceRow(h, i)][SourceColumn(h, j)]
  {
    var file := WriteImage(h, lines) + rest;
    var hs, bs := Stream(file, |WriteHeader(h)| - 1, false), Stream(file, |WriteHeader(h)|, false);
    FileHeader(h, lines, rest, file, hs, bs);
    ScanlinesRoundTrip(Initial(bs), h.sizeX, rows, lines);
    var words := Words(h.sizeX, rows);
    assert Scanlines(Initial(bs), h.sizeX, h.sizeY).0 == words;
    LoadSteps(file, h, hs, words);
    TexelsOfRows(h, rows);
  }

  /** Read back through the flips, output pixel (`i`, `j`) of the packed rows is the stored pixel the flips map it to. */
  lemma TexelsOfRows(h: Header, rows: seq<seq<Rgbe>>)
    requires |rows| == h.sizeY && forall k :: 0 <= k < |rows| ==> |rows[k]| == h.sizeX
    ensures forall i, j :: 0 <= i < h.sizeY && 0 <= j < h.sizeX ==>
      Cell(h.sizeX, i, j) < h.sizeY * h.sizeX
      && Texels(Words(h.sizeX, rows), h, h.sizeY)[Cell(h.sizeX, i, j)] == rows[SourceRow(h, i)][SourceColumn(h, j)]
  {
    var words := Words(h.sizeX, rows);
    forall i, j | 0 <= i < h.sizeY && 0 <= j < h.sizeX
      ensures Cell(h.sizeX, i, j) < h.sizeY * h.sizeX
      ensures Texels(words, h, h.sizeY)[Cell(h.sizeX, i, j)] == rows[SourceRow(h, i)][SourceColumn(h, j)]
    {
      TexelAt(words, h, h.sizeY, i, j);
      WordsAt(h.sizeX, rows, SourceRow(h, i), SourceColumn(h, j));
      UnpackPack(rows[SourceRow(h, i)][SourceColumn(h, j)]);
    }
  }
}
