/** The camera's side of the framed link: sendAll, sendPacket and the streaming loop. */
module Client {
  import opened Bytes
  import opened Framing
  import opened Sockets

  datatype Status = Done | Failed | Waiting

  /** How many bytes a call got onto the wire, how it ended, and the answers left. */
  datatype Sent = Sent(taken: nat, status: Status, left: Script)

  /** Offering n bytes until all are taken or an answer is fatal. */
  function Offer(n: nat, script: Script): Sent
    decreases |script|
  {
    if n == 0 then Sent(0, Done, script)
    else if script == [] then Sent(0, Waiting, [])
    else match script[0]
      case Accept(room) =>
        if room == 0 then Sent(0, Failed, script[1..])
        else
          var m := Min(room, n);
          var more := Offer(n - m, script[1..]);
          more.(taken := m + more.taken)
      case Interrupted => Offer(n, script[1..])
      case WouldBlock => Offer(n, script[1..])
      case Broken => Sent(0, Failed, script[1..])
  }

  /** A call takes at most what it is offered and succeeds exactly when it took it all. */
  lemma {:induction false} OfferMeaning(n: nat, script: Script)
    ensures Offer(n, script).taken <= n
    ensures Offer(n, script).status == Done <==> Offer(n, script).taken == n
    decreases |script|
  {
    if n > 0 && script != [] && !Fatal(script[0]) {
      OfferMeaning(if script[0].Accept? then n - Min(script[0].room, n) else n, script[1..]);
    }
  }

  /** A call uses up a prefix of the answers. It fails only on a fatal answer, its last
      one, and never reads past one. */
  lemma {:induction false} OfferStops(n: nat, script: Script) returns (used: nat)
    ensures used <= |script| && Offer(n, script).left == script[used..]
    ensures forall i :: 0 <= i < used && Fatal(script[i]) ==> i == used - 1
    ensures Offer(n, script).status == Failed <==> used > 0 && Fatal(script[used - 1])
    ensures Offer(n, script).status == Waiting ==> used == |script|
    decreases |script|
  {
    used := 0;
    if n > 0 && script != [] {
      if !Fatal(script[0]) {
        used := OfferStops(if script[0].Accept? then n - Min(script[0].room, n) else n, script[1..]);
      }
      used := used + 1;
    }
  }

  /** The bytes that the answers have room for. */
  function Rooms(script: Script): nat {
    if script == [] then 0 else Rooms(script[1..]) + if script[0].Accept? then script[0].room else 0
  }

  /** A call takes all that its answers have room for, up to what it offers. */
  lemma {:induction false} OfferTakes(n: nat, script: Script) returns (used: nat)
    ensures used <= |script| && Offer(n, script).left == script[used..]
    ensures Offer(n, script).taken == Min(n, Rooms(script[..used]))
    decreases |script|
  {
    used := 0;
    if n > 0 && script != [] {
      if !Fatal(script[0]) {
        used := OfferTakes(if script[0].Accept? then n - Min(script[0].room, n) else n, script[1..]);
      }
      used := used + 1;
      assert script[..used][1..] == script[1..][..used - 1];
    }
  }

  /** The two sendAll calls of sendPacket; taken counts prefix and payload bytes. */
  function OfferPacket(packet: Chunk, script: Script): Sent {
    var head := Offer(PREFIX_BYTES, script);
    if head.status != Done then head
    else
      var body := Offer(|packet|, head.left);
      body.(taken := PREFIX_BYTES + body.taken)
  }

  /** The streaming loop: packets are sent in order until one call does not succeed. */
  datatype Streamed = Streamed(wire: Chunk, confirmed: nat)

  function Stream(packets: seq<Chunk>, script: Script): (run: Streamed)
    ensures run.confirmed <= |packets|
    decreases |packets|
  {
    if packets == [] then Streamed([], 0)
    else
      OfferPacketMeaning(packets[0], script);
      var r := OfferPacket(packets[0], script);
      if r.status != Done then Streamed(Frame(packets[0])[..r.taken], 0)
      else
        var more := Stream(packets[1..], r.left);
        Streamed(Frame(packets[0]) + more.wire, 1 + more.confirmed)
  }

  lemma OfferPacketMeaning(packet: Chunk, script: Script)
    ensures var r := OfferPacket(packet, script);
            && r.taken <= |Frame(packet)|
            && (r.status == Done <==> r.taken == |Frame(packet)|)
  {
    OfferMeaning(PREFIX_BYTES, script);
    OfferMeaning(|packet|, Offer(PREFIX_BYTES, script).left);
  }

  lemma StreamFrom(packets: seq<Chunk>, k: nat, script: Script)
    requires k < |packets|
    ensures var r := OfferPacket(packets[k], script);
            var frame, more := Frame(packets[k]), Stream(packets[k + 1..], r.left);
            && r.taken <= |frame|
            && (r.status == Done ==>
                  && frame[..r.taken] == frame
                  && Stream(packets[k..], script) == Streamed(frame + more.wire, 1 + more.confirmed))
            && (r.status != Done ==> Stream(packets[k..], script) == Streamed(frame[..r.taken], 0))
  {
    OfferPacketMeaning(packets[k], script);
    assert packets[k..][1..] == packets[k + 1..];
  }

  class FramedTcpClient {
    var sock: int
    /** Every byte the operating system has taken from this client. */
    ghost var wire: Chunk

    constructor (sock: int)
      ensures this.sock == sock && wire == []
    {
      this.sock := sock;
      wire := [];
    }

    method SendAll(data: Chunk, script: Script) returns (r: Sent)
      modifies this`wire
      ensures r == Offer(|data|, script) && r.taken <= |data|
      ensures wire == old(wire) + data[..r.taken]
    {
      var totalSent: nat := 0;
      var left := script;
      OfferMeaning(|data|, script);
      while totalSent < |data|
        invariant totalSent <= |data|
        invariant wire == old(wire) + data[..totalSent]
        invariant var more := Offer(|data| - totalSent, left);
                  Offer(|data|, script) == more.(taken := totalSent + more.taken)
        decreases |left|
      {
        if left == [] {
          return Sent(totalSent, Waiting, []);
        }
        var answer := left[0];
        left := left[1..];
        if answer.Accept? && answer.room > 0 {
          var sent := Min(answer.room, |data| - totalSent);
          wire := wire + data[totalSent..totalSent + sent];
          totalSent := totalSent + sent;
        } else if answer.Interrupted? || answer.WouldBlock? {
          continue;
        } else {
          return Sent(totalSent, Failed, left);
        }
      }
      r := Sent(totalSent, Done, left);
    }

    method SendPacket(packet: Chunk, script: Script) returns (r: Sent)
      modifies this`wire
      ensures sock < 0 ==> r == Sent(0, Failed, script) && wire == old(wire)
      ensures sock >= 0 ==> r == OfferPacket(packet, script) && r.taken <= |Frame(packet)|
                            && wire == old(wire) + Frame(packet)[..r.taken]
    {
      if sock < 0 {
        return Sent(0, Failed, script);
      }
      var prefix := Be32(|packet| % TWO_TO_THE_32);
      r := SendAll(prefix, script);
      assert Frame(packet)[..r.taken] == prefix[..r.taken];
      if r.status != Done {
        OfferMeaning(PREFIX_BYTES, script);
        return;
      }
      OfferMeaning(PREFIX_BYTES, script);
      var body := SendAll(packet, r.left);
      assert Frame(packet)[..PREFIX_BYTES + body.taken] == prefix + packet[..body.taken];
      r := body.(taken := PREFIX_BYTES + body.taken);
    }

    /** The encode thread's loop over its packets. */
    method StreamPackets(packets: seq<Chunk>, script: Script) returns (confirmed: nat)
      requires sock >= 0
      modifies this`wire
      ensures confirmed == Stream(packets, script).confirmed
      ensures wire == old(wire) + Stream(packets, script).wire
    {
      confirmed := 0;
      var left := script;
      while confirmed < |packets|
        invariant confirmed <= |packets|
        invariant Stream(packets, script).confirmed == confirmed + Stream(packets[confirmed..], left).confirmed
        invariant old(wire) + Stream(packets, script).wire == wire + Stream(packets[confirmed..], left).wire
      {
        StreamFrom(packets, confirmed, left);
        ghost var before := wire;
        var r := SendPacket(packets[confirmed], left);
        if r.status != Done {
          return;
        }
        left := r.left;
        AppendAssoc(before, Frame(packets[confirmed]), Stream(packets[confirmed + 1..], left).wire);
        confirmed := confirmed + 1;
      }
    }
  }

  /** The wire holds the confirmed packets, then at most a strict part of the next frame. */
  lemma {:induction false} WireShape(packets: seq<Chunk>, script: Script)
    ensures var run := Stream(packets, script);
            && EncodeAll(packets[..run.confirmed]) <= run.wire
            && var cut := run.wire[|EncodeAll(packets[..run.confirmed])|..];
               if run.confirmed == |packets| then cut == []
               else cut < Frame(packets[run.confirmed])
    decreases |packets|
  {
    if packets != [] {
      OfferPacketMeaning(packets[0], script);
      var r := OfferPacket(packets[0], script);
      if r.status == Done {
        WireShape(packets[1..], r.left);
        var more := Stream(packets[1..], r.left);
        var run := Stream(packets, script);
        var sent := packets[1..][..more.confirmed];
        assert packets[..run.confirmed] == [packets[0]] + sent;
        EncodeAllCons(packets[0], sent, []);
        assert EncodeAll([packets[0]] + sent) == Frame(packets[0]) + EncodeAll(sent);
        assert run.wire[|Frame(packets[0]) + EncodeAll(sent)|..] == more.wire[|EncodeAll(sent)|..];
      }
    }
  }

  /** Parsing more bytes only adds frames. */
  lemma ParseGrows(a: Chunk, b: Chunk)
    requires a <= b
    ensures Drain(a).frames <= Drain(b).frames
  {
    assert b == a + b[|a|..];
    if Drain(a).bad {
      BadIsFinal(a, b[|a|..]);
    } else {
      DrainResume(a, b[|a|..]);
    }
  }

  lemma PrefixNotBad(a: Chunk, b: Chunk)
    requires a <= b && !Drain(b).bad
    ensures !Drain(a).bad && Drain(a).frames <= Drain(b).frames
  {
    ParseGrows(a, b);
    assert b == a + b[|a|..];
    if Drain(a).bad {
      BadIsFinal(a, b[|a|..]);
    }
  }

  lemma UnfinishedFrame(packet: Chunk, cut: Chunk)
    requires LegalSize(|packet|) && cut < Frame(packet)
    ensures Drain(cut) == Parsed([], cut, false)
  {
    DrainPartial(packet, |cut|);
    assert cut == Frame(packet)[..|cut|];
  }

  lemma EncodedThenCut(confirmed: seq<Chunk>, cut: Chunk)
    requires AllLegal(confirmed) && Drain(cut) == Parsed([], cut, false)
    ensures Drain(EncodeAll(confirmed) + cut) == Parsed(confirmed, cut, false)
  {
    DrainEncodeAll(confirmed, cut);
    assert confirmed + [] == confirmed;
  }

  /** With the whole wire parsed, the frames are the confirmed packets. */
  lemma WireParses(packets: seq<Chunk>, script: Script)
    requires AllLegal(packets)
    ensures var run := Stream(packets, script);
            && Drain(run.wire).frames == packets[..run.confirmed]
            && !Drain(run.wire).bad
  {
    var run := Stream(packets, script);
    WireShape(packets, script);
    var confirmed := packets[..run.confirmed];
    var cut := run.wire[|EncodeAll(confirmed)|..];
    if run.confirmed < |packets| {
      UnfinishedFrame(packets[run.confirmed], cut);
    }
    EncodedThenCut(confirmed, cut);
    assert run.wire == EncodeAll(confirmed) + cut;
  }

  /** Bytes that can still grow into a legal stream are never a request. */
  lemma NotARequest(a: Chunk, b: Chunk)
    requires a <= b && !Drain(b).bad && |a| >= |GET_PROBE|
    ensures !Drain(a).bad && a[..|GET_PROBE|] != GET_PROBE
  {
    PrefixNotBad(a, b);
    if a[..|GET_PROBE|] == GET_PROBE {
      GetIsNoLegalLength(a);
    }
  }

  /** Sender to gateway, over every schedule of partial writes, errors and reads: whatever
      has arrived was delivered as a prefix of the packets whose sendPacket succeeded, and
      once everything written has arrived it is exactly those packets. */
  lemma ConfirmedIsDelivered(packets: seq<Chunk>, script: Script, arrived: seq<Chunk>)
    requires AllLegal(packets)
    requires Flatten(arrived) <= Stream(packets, script).wire
    ensures var confirmed := packets[..Stream(packets, script).confirmed];
            && Receive(arrived).emitted <= confirmed
            && (Flatten(arrived) == Stream(packets, script).wire ==> Receive(arrived).emitted == confirmed)
  {
    var wire, s := Stream(packets, script).wire, Flatten(arrived);
    WireParses(packets, script);
    ParseGrows(s, wire);
    ChunkingIndependence(arrived);
    if |s| >= |GET_PROBE| {
      NotARequest(s, wire);
    }
  }
}
