/**
 * The adaptive run-length packets of the Radiance picture format, as a writer would
 * produce them, and the decoding loop of src/Hdri.cpp:41-50 on them: the packets decode
 * to the bytes they stand for and leave the decoder between packets. The header and
 * the whole file are built on this in `RgbeHeader` and `RgbeFile`.
 */
module RgbeFormat {
  import opened Base
  import opened Hdri

  // ---------------------------------------------------------------------------
  // Run-length packets
  // ---------------------------------------------------------------------------

  /**
   * A packet of the adaptive run-length encoding: a run of `count` copies of one
   * byte, or a literal sequence of bytes.
   */
  datatype Packet = Run(count: nat, value: Byte) | Literal(bytes: seq<Byte>)

  /** The packets a count byte can announce: runs of 1 to 127 bytes, literals of 1 to 128. */
  predicate ValidPacket(p: Packet)
  {
    match p
    case Run(count, _) => 1 <= count <= 127
    case Literal(bytes) => 1 <= |bytes| <= 128
  }

  /** A packet as it is stored: a count byte above 128 and the run byte, or a count byte and the literal bytes. */
  function EncodePacket(p: Packet): (e: seq<Byte>)
    requires ValidPacket(p)
  {
    match p
    case Run(count, value) => [128 + count, value]
    case Literal(bytes) => [|bytes|] + bytes
  }

  /** The bytes a packet stands for. */
  function ExpandPacket(p: Packet): (x: seq<Byte>)
    ensures ValidPacket(p) ==> |x| >= 1
  {
    match p
    case Run(count, value) => seq(count, _ => value)
    case Literal(bytes) => bytes
  }

  predicate ValidPackets(ps: seq<Packet>)
  {
    forall k :: 0 <= k < |ps| ==> ValidPacket(ps[k])
  }

  function Encode(ps: seq<Packet>): seq<Byte>
    requires ValidPackets(ps)
  {
    if ps == [] then [] else EncodePacket(ps[0]) + Encode(ps[1..])
  }

  function Expand(ps: seq<Packet>): seq<Byte>
  {
    if ps == [] then [] else ExpandPacket(ps[0]) + Expand(ps[1..])
  }

  /** The stream is good and its next bytes are `bs`. */
  predicate Ahead(s: Stream, bs: seq<Byte>)
  {
    !s.failed && s.pos + |bs| <= |s.data| && s.data[s.pos..s.pos + |bs|] == bs
  }

  /** The stream after `n` more bytes have been read. */
  function Advance(s: Stream, n: nat): Stream
  {
    s.(pos := s.pos + n)
  }

  lemma AheadSplit(s: Stream, a: seq<Byte>, b: seq<Byte>)
    requires Ahead(s, a + b)
    ensures Ahead(s, a) && Ahead(Advance(s, |a|), b)
  {
    assert s.data[s.pos..s.pos + |a|] == (a + b)[..|a|];
    assert s.data[s.pos + |a|..s.pos + |a| + |b|] == (a + b)[|a|..];
  }

  // ---------------------------------------------------------------------------
  // Decoding packets
  // ---------------------------------------------------------------------------

  /** Unrolling the decoder from the front: the first pass, then the remaining ones. */
  lemma {:induction false} StepsFront(d: Decoder, k: nat)
    ensures Steps(d, k + 1).0 == [Step(d).0] + Steps(Step(d).1, k).0
    ensures Steps(d, k + 1).1 == Steps(Step(d).1, k).1
  {
    if k > 0 {
      StepsFront(d, k - 1);
    }
  }

  /** Passes split at any point: the decoder state carries over unchanged. */
  lemma {:induction false} StepsAdd(d: Decoder, a: nat, b: nat)
    ensures Steps(d, a + b).0 == Steps(d, a).0 + Steps(Steps(d, a).1, b).0
    ensures Steps(d, a + b).1 == Steps(Steps(d, a).1, b).1
  {
    if b > 0 {
      StepsAdd(d, a, b - 1);
    }
  }

  /** Inside a run, each pass yields the run byte without reading. */
  lemma {:induction false} RunTail(d: Decoder, k: nat)
    requires d.mode && k <= d.ctr
    ensures Steps(d, k).0 == seq(k, _ => d.last)
    ensures Steps(d, k).1 == d.(ctr := d.ctr - k)
  {
    if k > 0 {
      RunTail(d, k - 1);
    }
  }

  /** Inside a literal run, each pass reads one byte. */
  lemma {:induction false} LiteralTail(d: Decoder, bs: seq<Byte>)
    requires !d.mode && |bs| <= d.ctr && Ahead(d.s, bs)
    ensures Steps(d, |bs|).0 == bs
    ensures Steps(d, |bs|).1 == d.(ctr := d.ctr - |bs|, s := Advance(d.s, |bs|))
    decreases |bs|
  {
    if bs != [] {
      var k := |bs| - 1;
      AheadSplit(d.s, bs[..k], [bs[k]]);
      assert bs[..k] + [bs[k]] == bs;
      LiteralTail(d, bs[..k]);
    }
  }

  /** The count byte of a run and the run byte are read by the pass that starts the run. */
  lemma RunStart(d: Decoder, count: nat, value: Byte)
    requires d.ctr == 0 && 1 <= count <= 127 && Ahead(d.s, [128 + count, value])
    ensures Step(d) == (value as int, Decoder(count - 1, true, value, Advance(d.s, 2)))
  {
    assert d.s.data[d.s.pos] == 128 + count && d.s.data[d.s.pos + 1] == value;
  }

  /** The count byte of a literal run and its first byte are read by the pass that starts the run. */
  lemma LiteralStart(d: Decoder, bytes: seq<Byte>)
    requires d.ctr == 0 && 1 <= |bytes| <= 128 && Ahead(d.s, [|bytes|] + bytes)
    ensures Step(d) == (bytes[0] as int, Decoder(|bytes| - 1, false, 0, Advance(d.s, 2)))
  {
    assert d.s.data[d.s.pos] == |bytes| && d.s.data[d.s.pos + 1] == bytes[0];
  }

  /** A run packet: the decoder reads its two bytes and yields `count` copies of the run byte. */
  lemma DecodeRun(d: Decoder, count: nat, value: Byte)
    requires d.ctr == 0 && 1 <= count <= 127 && Ahead(d.s, [128 + count, value])
    ensures Steps(d, count).0 == seq(count, _ => value)
    ensures Steps(d, count).1.ctr == 0
    ensures Steps(d, count).1.s == Advance(d.s, 2)
  {
    RunStart(d, count, value);
    var d1 := Decoder(count - 1, true, value, Advance(d.s, 2));
    RunTail(d1, count - 1);
    StepsFrontAt(d, count - 1, count, value as int, d1);
  }

  /** A literal packet: the decoder reads its count byte and then its bytes, one per pass. */
  lemma DecodeLiteral(d: Decoder, bytes: seq<Byte>)
    requires d.ctr == 0 && 1 <= |bytes| <= 128 && Ahead(d.s, [|bytes|] + bytes)
    ensures Steps(d, |bytes|).0 == bytes
    ensures Steps(d, |bytes|).1.ctr == 0
    ensures Steps(d, |bytes|).1.s == Advance(d.s, 1 + |bytes|)
  {
    var n := |bytes| - 1;
    LiteralAhead(d.s, bytes);
    LiteralStart(d, bytes);
    var d1 := Decoder(n, false, 0, Advance(d.s, 2));
    LiteralTail(d1, bytes[1..]);
    StepsFrontAt(d, n, |bytes|, bytes[0] as int, d1);
    assert [bytes[0]] + bytes[1..] == bytes;
  }

  /** After the count byte and the first byte of a literal run, its remaining bytes lie ahead. */
  lemma LiteralAhead(s: Stream, bytes: seq<Byte>)
    requires 1 <= |bytes| <= 128 && Ahead(s, [|bytes|] + bytes)
    ensures Ahead(Advance(s, 2), bytes[1..])
  {
    AheadSplit(s, [|bytes|], bytes);
    assert [bytes[0]] + bytes[1..] == bytes;
    AheadSplit(Advance(s, 1), [bytes[0]], bytes[1..]);
  }

  /** `StepsFront` for a first pass whose result is already known. */
  lemma StepsFrontAt(d: Decoder, k: nat, m: nat, v: int, d1: Decoder)
    requires m == k + 1 && Step(d) == (v, d1)
    ensures Steps(d, m).0 == [v] + Steps(d1, k).0
    ensures Steps(d, m).1 == Steps(d1, k).1
  {
    StepsFront(d, k);
  }

  /**
   * A count byte above 128 starts a run of `count - 128` copies of the byte after it;
   * any other non-zero count starts a literal run of `count` bytes. Either way the
   * decoder reads exactly the packet and its counter is exhausted at the end.
   */
  lemma DecodePacket(d: Decoder, p: Packet)
    requires d.ctr == 0 && ValidPacket(p) && Ahead(d.s, EncodePacket(p))
    ensures Steps(d, |ExpandPacket(p)|).0 == ExpandPacket(p)
    ensures Steps(d, |ExpandPacket(p)|).1.ctr == 0
    ensures Steps(d, |ExpandPacket(p)|).1.s == Advance(d.s, |EncodePacket(p)|)
  {
    match p
    case Run(count, value) =>
      DecodeRun(d, count, value);
    case Literal(bytes) =>
      DecodeLiteral(d, bytes);
  }

  /** A sequence of packets decodes to the concatenation of the bytes they stand for. */
  lemma {:induction false} DecodePackets(d: Decoder, ps: seq<Packet>)
    requires d.ctr == 0 && ValidPackets(ps) && Ahead(d.s, Encode(ps))
    ensures Steps(d, |Expand(ps)|).0 == Expand(ps)
    ensures Steps(d, |Expand(ps)|).1.ctr == 0
    ensures Steps(d, |Expand(ps)|).1.s == Advance(d.s, |Encode(ps)|)
    decreases |ps|
  {
    if ps == [] {
      assert Steps(d, 0).1 == d;
    } else {
      var p, rest := ps[0], ps[1..];
      assert ValidPacket(p);
      assert ValidPackets(rest) by {
        forall k | 0 <= k < |rest| ensures ValidPacket(rest[k]) {
          assert rest[k] == ps[k + 1];
        }
      }
      var e0, x0 := EncodePacket(p), ExpandPacket(p);
      assert Encode(ps) == e0 + Encode(rest);
      assert Expand(ps) == x0 + Expand(rest);
      AheadSplit(d.s, e0, Encode(rest));
      DecodePacket(d, p);
      var d1 := Steps(d, |x0|).1;
      DecodePackets(d1, rest);
      StepsCompose(d, |x0|, |Expand(rest)|, |Expand(ps)|);
    }
  }

  /** Passes split at any point, stated for a total count given separately. */
  lemma StepsCompose(d: Decoder, a: nat, b: nat, n: nat)
    requires n == a + b
    ensures Steps(d, n).0 == Steps(d, a).0 + Steps(Steps(d, a).1, b).0
    ensures Steps(d, n).1 == Steps(Steps(d, a).1, b).1
  {
    StepsAdd(d, a, b);
  }

  /**
   * A zero count byte wraps the `unsigned char` counter to 255: it starts a literal
   * run of 256 bytes.
   */
  lemma ZeroCount(d: Decoder, bs: seq<Byte>)
    requires d.ctr == 0 && |bs| == 256 && Ahead(d.s, [0] + bs)
    ensures Steps(d, 256).0 == bs
    ensures Steps(d, 256).1.ctr == 0 && Steps(d, 256).1.s == Advance(d.s, 257)
  {
    AheadSplit(d.s, [0], bs);
    AheadSplit(Advance(d.s, 1), [bs[0]], bs[1..]);
    var d1 := Decoder(255, false, 0, Advance(d.s, 2));
    assert Step(d) == (bs[0] as int, d1) by {
      assert d.s.data[d.s.pos] == 0 && d.s.data[d.s.pos + 1] == bs[0];
    }
    LiteralTail(d1, bs[1..]);
    StepsFrontAt(d, 255, 256, bs[0] as int, d1);
    assert [bs[0]] + bs[1..] == bs;
  }
}
