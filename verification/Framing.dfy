/** The length-prefix protocol: the camera's encoder, the gateway's reassembler
    and the law that connects the two under every TCP chunking. */
module Framing {
  import opened Bytes

  const MAX_FRAME_SIZE := 2 * 1024 * 1024
  const PREFIX_BYTES := 4

  // ----- the 32-bit prefix in network byte order

  /** The low `width` bytes of n, most significant first. */
  function ToBytes(n: nat, width: nat): (s: Chunk)
    ensures |s| == width
  {
    if width == 0 then [] else ToBytes(n / 256, width - 1) + [n % 256]
  }

  function FromBytes(s: Chunk): nat {
    if s == [] then 0 else FromBytes(s[..|s| - 1]) * 256 + s[|s| - 1] as int
  }

  function Pow256(width: nat): nat {
    if width == 0 then 1 else 256 * Pow256(width - 1)
  }

  lemma {:induction false} FromToBytes(n: nat, width: nat)
    requires n < Pow256(width)
    ensures FromBytes(ToBytes(n, width)) == n
  {
    if width > 0 {
      FromToBytes(n / 256, width - 1);
      var s := ToBytes(n, width);
      assert s[..|s| - 1] == ToBytes(n / 256, width - 1);
    }
  }

  lemma {:induction false} ToFromBytes(s: Chunk)
    ensures FromBytes(s) < Pow256(|s|)
    ensures ToBytes(FromBytes(s), |s|) == s
  {
    if s != [] {
      ToFromBytes(s[..|s| - 1]);
      assert s == s[..|s| - 1] + [s[|s| - 1]];
    }
  }

  function Be32(n: nat): (s: Chunk)
    ensures |s| == PREFIX_BYTES
  {
    ToBytes(n, PREFIX_BYTES)
  }

  function ReadBe32(s: Chunk): nat
    requires |s| >= PREFIX_BYTES
  {
    FromBytes(s[..PREFIX_BYTES])
  }

  /** The prefix is in network byte order: most significant byte first. */
  lemma NetworkOrder(n: nat)
    requires n < TWO_TO_THE_32
    ensures Be32(n) == [n / 0x100_0000, n / 0x1_0000 % 256, n / 0x100 % 256, n % 256]
  {
    assert n / 256 / 256 == n / 0x1_0000 && n / 256 / 256 / 256 == n / 0x100_0000;
    assert ToBytes(n / 0x1_0000, 2) == ToBytes(n / 0x100_0000, 1) + [n / 0x1_0000 % 256];
    assert ToBytes(n / 0x100, 3) == ToBytes(n / 0x1_0000, 2) + [n / 0x100 % 256];
  }

  lemma ReadOfBe32(n: nat, tail: Chunk)
    requires n < TWO_TO_THE_32
    ensures ReadBe32(Be32(n) + tail) == n
  {
    assert TWO_TO_THE_32 == Pow256(PREFIX_BYTES) by {
      assert Pow256(2) == 0x1_0000;
    }
    FromToBytes(n, PREFIX_BYTES);
    assert (Be32(n) + tail)[..PREFIX_BYTES] == Be32(n);
  }

  lemma Be32OfRead(s: Chunk)
    requires |s| >= PREFIX_BYTES
    ensures Be32(ReadBe32(s)) == s[..PREFIX_BYTES]
  {
    ToFromBytes(s[..PREFIX_BYTES]);
  }

  // ----- encoder

  predicate LegalSize(n: nat) {
    0 < n <= MAX_FRAME_SIZE
  }

  predicate AllLegal(packets: seq<Chunk>) {
    forall i :: 0 <= i < |packets| ==> LegalSize(|packets[i]|)
  }

  /** What one sendPacket call puts on the wire. The size is cast to 32 bits. */
  function Frame(packet: Chunk): (s: Chunk)
    ensures |s| == PREFIX_BYTES + |packet|
  {
    Be32(|packet| % TWO_TO_THE_32) + packet
  }

  function EncodeAll(packets: seq<Chunk>): Chunk {
    if packets == [] then [] else Frame(packets[0]) + EncodeAll(packets[1..])
  }

  lemma {:induction false} EncodeAllAppend(a: seq<Chunk>, b: seq<Chunk>)
    ensures EncodeAll(a + b) == EncodeAll(a) + EncodeAll(b)
  {
    if a == [] {
      assert a + b == b;
    } else {
      EncodeAllAppend(a[1..], b);
      ConsAppend(a, b);
      AppendAssoc(Frame(a[0]), EncodeAll(a[1..]), EncodeAll(b));
    }
  }

  // ----- reassembler

  /** Frames completed, bytes of the unfinished frame, and whether an illegal length was met. */
  datatype Parsed = Parsed(frames: seq<Chunk>, rest: Chunk, bad: bool)

  /** The ideal parse of a byte string. */
  function Drain(buf: Chunk): Parsed
    decreases |buf|
  {
    if |buf| < PREFIX_BYTES then
      Parsed([], buf, false)
    else
      var size := ReadBe32(buf);
      var needed := PREFIX_BYTES + size;
      if !LegalSize(size) then
        Parsed([], buf, true)
      else if |buf| < needed then
        Parsed([], buf, false)
      else
        var tail := Drain(buf[needed..]);
        Parsed([buf[PREFIX_BYTES..needed]] + tail.frames, tail.rest, tail.bad)
  }

  predicate StartsWithFrame(buf: Chunk) {
    && |buf| >= PREFIX_BYTES
    && LegalSize(ReadBe32(buf))
    && |buf| >= PREFIX_BYTES + ReadBe32(buf)
  }

  lemma FirstFrame(buf: Chunk)
    requires StartsWithFrame(buf)
    ensures var needed := PREFIX_BYTES + ReadBe32(buf);
            Frame(buf[PREFIX_BYTES..needed]) + buf[needed..] == buf
  {
    var size := ReadBe32(buf);
    Be32OfRead(buf);
    assert size % TWO_TO_THE_32 == size;
    SliceThenRest(buf, PREFIX_BYTES, PREFIX_BYTES + size);
    SliceThenRest(buf, 0, PREFIX_BYTES);
    AppendAssoc(buf[..PREFIX_BYTES], buf[PREFIX_BYTES..PREFIX_BYTES + size], buf[PREFIX_BYTES + size..]);
  }

  lemma EncodeAllCons(packet: Chunk, packets: seq<Chunk>, tail: Chunk)
    ensures EncodeAll([packet] + packets) + tail == Frame(packet) + (EncodeAll(packets) + tail)
  {
    assert ([packet] + packets)[1..] == packets;
  }

  lemma {:induction false} OnlyLegalFrames(buf: Chunk)
    ensures AllLegal(Drain(buf).frames)
    ensures forall i :: 0 <= i < |Drain(buf).frames| ==> 1 <= |Drain(buf).frames[i]| <= 2_097_152
    decreases |buf|
  {
    if StartsWithFrame(buf) {
      OnlyLegalFrames(buf[PREFIX_BYTES + ReadBe32(buf)..]);
    }
  }

  /** Nothing is invented or lost: re-encoding what was parsed gives back the input. */
  lemma {:induction false} DrainSound(buf: Chunk)
    ensures EncodeAll(Drain(buf).frames) + Drain(buf).rest == buf
    decreases |buf|
  {
    if StartsWithFrame(buf) {
      var needed := PREFIX_BYTES + ReadBe32(buf);
      DrainSound(buf[needed..]);
      FirstFrame(buf);
      EncodeAllCons(buf[PREFIX_BYTES..needed], Drain(buf[needed..]).frames, Drain(buf[needed..]).rest);
    }
  }

  lemma DrainFrame(packet: Chunk, tail: Chunk)
    requires LegalSize(|packet|)
    ensures Drain(Frame(packet) + tail)
         == Parsed([packet] + Drain(tail).frames, Drain(tail).rest, Drain(tail).bad)
  {
    var buf := Frame(packet) + tail;
    assert buf == Be32(|packet|) + (packet + tail);
    ReadOfBe32(|packet|, packet + tail);
    assert buf[PREFIX_BYTES..PREFIX_BYTES + |packet|] == packet;
    assert buf[PREFIX_BYTES + |packet|..] == tail;
  }

  /** Parsing inverts encoding, whatever follows the encoded packets. */
  lemma {:induction false} DrainEncodeAll(packets: seq<Chunk>, tail: Chunk)
    requires AllLegal(packets)
    ensures Drain(EncodeAll(packets) + tail)
         == Parsed(packets + Drain(tail).frames, Drain(tail).rest, Drain(tail).bad)
  {
    if packets == [] {
      assert EncodeAll(packets) + tail == tail;
      assert packets + Drain(tail).frames == Drain(tail).frames;
    } else {
      var p, ps, t := packets[0], packets[1..], Drain(tail).frames;
      DrainEncodeAll(ps, tail);
      DrainFrame(p, EncodeAll(ps) + tail);
      assert EncodeAll(packets) + tail == Frame(p) + (EncodeAll(ps) + tail) by {
        assert packets == [p] + ps;
        EncodeAllCons(p, ps, tail);
      }
      ConsAppend(packets, t);
    }
  }

  /** A frame cut short yields nothing yet. */
  lemma DrainPartial(packet: Chunk, n: nat)
    requires LegalSize(|packet|) && n < |Frame(packet)|
    ensures Drain(Frame(packet)[..n]) == Parsed([], Frame(packet)[..n], false)
  {
    var cut := Frame(packet)[..n];
    if n >= PREFIX_BYTES {
      assert cut == Be32(|packet|) + packet[..n - PREFIX_BYTES];
      ReadOfBe32(|packet|, packet[..n - PREFIX_BYTES]);
    }
  }

  /** Parsing can be resumed from the unfinished bytes. */
  lemma DrainResume(a: Chunk, b: Chunk)
    requires !Drain(a).bad
    ensures var more := Drain(Drain(a).rest + b);
            Drain(a + b) == Parsed(Drain(a).frames + more.frames, more.rest, more.bad)
  {
    DrainSound(a);
    OnlyLegalFrames(a);
    DrainEncodeAll(Drain(a).frames, Drain(a).rest + b);
    AppendAssoc(EncodeAll(Drain(a).frames), Drain(a).rest, b);
  }

  /** What is left over is itself unparsable. */
  lemma {:induction false} DrainRest(buf: Chunk)
    ensures Drain(Drain(buf).rest) == Parsed([], Drain(buf).rest, Drain(buf).bad)
    decreases |buf|
  {
    if StartsWithFrame(buf) {
      DrainRest(buf[PREFIX_BYTES + ReadBe32(buf)..]);
    }
  }

  lemma BadRest(a: Chunk, b: Chunk)
    requires Drain(a).bad
    ensures Drain(Drain(a).rest + b) == Parsed([], Drain(a).rest + b, true)
  {
    DrainRest(a);
    assert (Drain(a).rest + b)[..PREFIX_BYTES] == Drain(a).rest[..PREFIX_BYTES];
  }

  /** An illegal length is final. */
  lemma BadIsFinal(a: Chunk, b: Chunk)
    requires Drain(a).bad
    ensures Drain(a + b) == Parsed(Drain(a).frames, Drain(a).rest + b, true)
  {
    var frames, rest := Drain(a).frames, Drain(a).rest;
    BadRest(a, b);
    DrainSound(a);
    OnlyLegalFrames(a);
    AppendAssoc(EncodeAll(frames), rest, b);
    DrainEncodeAll(frames, rest + b);
    assert frames + [] == frames;
  }

  // ----- one connection as the gateway sees it

  /** The first four bytes of an HTTP request, "GET ". */
  const GET_PROBE: Chunk := [0x47, 0x45, 0x54, 0x20]

  datatype Role = Probing(probe: Chunk) | Watching | Producing(buffer: Chunk) | Closed

  /** A connection's role and the frames it has handed to the broadcaster. */
  datatype Conn = Conn(role: Role, emitted: seq<Chunk>)

  /** A producer's bytes: the frames finished in a chunk that also shows an illegal
      length are thrown away with it. */
  function Produce(buffer: Chunk, data: Chunk): Conn {
    var p := Drain(buffer + data);
    if p.bad then Conn(Closed, []) else Conn(Producing(p.rest), p.frames)
  }

  /** The effect of one successful read. */
  function OnBytes(role: Role, data: Chunk): Conn {
    match role
    case Closed => Conn(Closed, [])
    case Watching => Conn(Watching, [])
    case Producing(buffer) => Produce(buffer, data)
    case Probing(probe) =>
      var seen := probe + data;
      if |seen| < |GET_PROBE| then Conn(Probing(seen), [])
      else if seen[..|GET_PROBE|] == GET_PROBE then Conn(Watching, [])
      else Produce([], seen)
  }

  /** A fresh connection after the given reads. */
  function Receive(chunks: seq<Chunk>): Conn {
    if chunks == [] then
      Conn(Probing([]), [])
    else
      var before := Receive(chunks[..|chunks| - 1]);
      var now := OnBytes(before.role, chunks[|chunks| - 1]);
      Conn(now.role, before.emitted + now.emitted)
  }

  /** What a connection must have become after the byte string s, however it was cut up.
      Only a closed producer leaves a choice, and even it has delivered a prefix. */
  predicate Explains(s: Chunk, c: Conn) {
    if |s| < |GET_PROBE| then
      c == Conn(Probing(s), [])
    else if s[..|GET_PROBE|] == GET_PROBE then
      c == Conn(Watching, [])
    else if Drain(s).bad then
      c.role == Closed && c.emitted <= Drain(s).frames
    else
      c == Conn(Producing(Drain(s).rest), Drain(s).frames)
  }

  lemma ReceiveStep(s: Chunk, before: Conn, data: Chunk)
    requires Explains(s, before)
    ensures var now := OnBytes(before.role, data);
            Explains(s + data, Conn(now.role, before.emitted + now.emitted))
  {
    var all := s + data;
    if Drain(s).bad {
      BadIsFinal(s, data);
    } else {
      DrainResume(s, data);
    }
    if |s| >= |GET_PROBE| {
      assert all[..|GET_PROBE|] == s[..|GET_PROBE|];
      if before.role.Closed? {
        assert before.emitted + [] == before.emitted;
      }
    } else {
      assert [] + all == all;
    }
  }

  lemma ReceiveSnoc(init: seq<Chunk>, last: Chunk)
    ensures var before, now := Receive(init), OnBytes(Receive(init).role, last);
            Receive(init + [last]) == Conn(now.role, before.emitted + now.emitted)
  {
    assert (init + [last])[..|init|] == init;
  }

  /** Chunking independence: every way of cutting a byte string into reads gives the
      same verdict, and the same frames unless an illegal length is met. */
  lemma {:induction false} ChunkingIndependence(chunks: seq<Chunk>)
    ensures Explains(Flatten(chunks), Receive(chunks))
  {
    if chunks != [] {
      var init, last := chunks[..|chunks| - 1], chunks[|chunks| - 1];
      assert chunks == init + [last];
      ChunkingIndependence(init);
      ReceiveSnoc(init, last);
      FlattenSnoc(init, last);
      ReceiveStep(Flatten(init), Receive(init), last);
    }
  }

  /** The illegal length shows up between the two byte strings, and what was complete
      in the first is all that was delivered. */
  predicate IllegalBetween(before: Chunk, after: Chunk, emitted: seq<Chunk>) {
    && !Drain(before).bad
    && Drain(after).bad
    && emitted == (if |before| < |GET_PROBE| then [] else Drain(before).frames)
  }

  lemma ClosingRead(s: Chunk, before: Conn, data: Chunk)
    requires Explains(s, before) && before.role != Closed
    requires OnBytes(before.role, data).role == Closed
    ensures OnBytes(before.role, data).emitted == []
    ensures !Drain(s).bad
    ensures before.emitted == (if |s| < |GET_PROBE| then [] else Drain(s).frames)
  {
  }

  lemma FatalStep(init: seq<Chunk>, last: Chunk)
    requires Receive(init + [last]).role == Closed && Receive(init).role != Closed
    ensures IllegalBetween(Flatten(init), Flatten(init + [last]), Receive(init + [last]).emitted)
  {
    ReceiveSnoc(init, last);
    ChunkingIndependence(init);
    ChunkingIndependence(init + [last]);
    ClosingRead(Flatten(init), Receive(init), last);
  }

  /** On an illegal stream the frames delivered are exactly those completed before
      the read that shows the illegal length. */
  lemma {:induction false} FatalRead(chunks: seq<Chunk>) returns (k: nat)
    requires Receive(chunks).role == Closed
    ensures k < |chunks|
    ensures IllegalBetween(Flatten(chunks[..k]), Flatten(chunks[..k + 1]), Receive(chunks).emitted)
  {
    var init, last := chunks[..|chunks| - 1], chunks[|chunks| - 1];
    assert chunks == init + [last];
    ReceiveSnoc(init, last);
    if Receive(init).role == Closed {
      k := FatalRead(init);
      SnocTake(init, last, k);
      SnocTake(init, last, k + 1);
    } else {
      FatalStep(init, last);
      k := |init|;
      assert chunks[..k + 1] == chunks;
    }
  }

  /** No legal length prefix reads as "GET ": the probe never mistakes a camera. */
  lemma GetIsNoLegalLength(s: Chunk)
    requires |s| >= |GET_PROBE| && s[..|GET_PROBE|] == GET_PROBE
    ensures Drain(s).bad
  {
    assert FromBytes(GET_PROBE[..3]) >= 0x47_0000 by {
      assert GET_PROBE[..3][..2] == [0x47, 0x45];
      assert [0x47, 0x45][..1] == [0x47];
    }
  }

  /** The law of the protocol, with its exact domain: a fresh connection that reads the
      encoding of some packets, cut up in any way, ends with exactly those packets
      delivered if and only if each of them holds 1 to 2 MiB. */
  lemma CodecLaw(packets: seq<Chunk>, chunks: seq<Chunk>)
    requires Flatten(chunks) == EncodeAll(packets)
    ensures Receive(chunks).emitted == packets <==>
              forall i :: 0 <= i < |packets| ==> 1 <= |packets[i]| <= 2_097_152
    ensures AllLegal(packets) && packets != [] ==> Receive(chunks).role == Producing([])
  {
    var s := Flatten(chunks);
    ChunkingIndependence(chunks);
    OnlyLegalFrames(s);
    if AllLegal(packets) {
      DrainEncodeAll(packets, []);
      assert EncodeAll(packets) + [] == s;
      assert packets + [] == packets;
      if |s| >= |GET_PROBE| && s[..|GET_PROBE|] == GET_PROBE {
        GetIsNoLegalLength(s);
        assert false;
      }
    }
  }
}
