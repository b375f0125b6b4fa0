/** From the camera's packets to a viewer's bytes, over every run of the two processes. */
module EndToEnd {
  import opened Bytes
  import opened Sockets
  import opened Framing
  import opened AnnexB
  import opened Viewers
  import opened Delivery
  import opened Gateway
  import opened GatewaySafety
  import Client
  import TcpServers

  /** The gateway after any inputs since its start. */
  ghost function Reached(inputs: seq<Input>): Server {
    Gateway.Run(EMPTY, inputs)
  }

  lemma ReachedInv(inputs: seq<Input>)
    ensures Inv(Reached(inputs))
  {
    EmptyInv();
    RunKeeps(EMPTY, inputs);
  }

  lemma {:induction false} RunSnoc(s: Server, inputs: seq<Input>, e: Input)
    requires WellFormedViewers(s)
    ensures Gateway.Run(s, inputs + [e]) == Advance(Gateway.Run(s, inputs), e)
    decreases |inputs|
  {
    if inputs == [] {
      assert inputs + [e] == [e];
    } else {
      AdvanceWellFormed(s, inputs[0]);
      ConsAppend(inputs, [e]);
      RunSnoc(Advance(s, inputs[0]), inputs[1..], e);
    }
  }

  lemma ReachedNext(inputs: seq<Input>, e: Input)
    ensures WellFormedViewers(Reached(inputs))
    ensures Reached(inputs + [e]) == Advance(Reached(inputs), e)
  {
    RunSnoc(EMPTY, inputs, e);
  }

  lemma ReachedSettled(inputs: seq<Input>)
    ensures Settled(Reached(inputs))
  {
    ReachedInv(inputs);
  }

  // ----- the object over whole runs

  /** Connection ids are not reused. */
  predicate FreshIds(inputs: seq<Input>) {
    forall i, j :: 0 <= i < j < |inputs| && inputs[i].Accepted? && inputs[j].Accepted? ==> inputs[i].fd != inputs[j].fd
  }

  function Accepts(inputs: seq<Input>): set<int> {
    set i | 0 <= i < |inputs| && inputs[i].Accepted? :: inputs[i].fd
  }

  lemma {:induction false} PublishAllSeen(s: Server, from: int, frames: seq<Chunk>)
    ensures PublishAll(s, from, frames).seen == s.seen
  {
    if frames != [] {
      PublishAllSeen(s, from, frames[..|frames| - 1]);
    }
  }

  lemma IngestSeen(s: Server, fd: int, data: Chunk)
    requires fd in s.producers
    ensures Ingest(s, fd, data).seen == s.seen
  {
    var p := Drain(s.producers[fd] + data);
    PublishAllSeen(s.(producers := s.producers[fd := p.rest]), fd, p.frames);
  }

  lemma ProbeSeen(s: Server, fd: int, data: Chunk)
    requires fd in s.pending
    ensures Probe(s, fd, data).seen == s.seen
  {
    IngestSeen(s.(pending := s.pending - {fd}, producers := s.producers[fd := []]), fd, s.pending[fd] + data);
  }

  lemma ReadSeen(s: Server, fd: int, data: Chunk)
    requires fd in Open(s) && fd in s.seen
    ensures ReadBytes(s, fd, data).seen == s.seen[fd := s.seen[fd] + data]
  {
    var t := s.(seen := s.seen[fd := s.seen[fd] + data]);
    if fd in t.producers {
      IngestSeen(t, fd, data);
    } else if fd in t.pending {
      ProbeSeen(t, fd, data);
    }
  }

  lemma TurnSeen(s: Server, scripts: Scripts)
    requires WellFormedViewers(s)
    ensures SenderTurn(s, scripts).seen == s.seen
  {
  }

  lemma CloseSeen(s: Server, fd: int)
    ensures Close(s, {fd}).seen == s.seen
  {
  }

  lemma AcceptSeen(s: Server, fd: int)
    ensures AddConnection(s, fd).seen.Keys == s.seen.Keys + {fd}
  {
  }

  lemma SeenIsAccepted(s: Server, e: Input)
    requires WellFormedViewers(s) && forall fd :: fd in Open(s) ==> fd in s.seen
    ensures Advance(s, e).seen.Keys == s.seen.Keys + if e.Accepted? then {e.fd} else {}
  {
    match e {
      case Accepted(fd) => AcceptSeen(s, fd);
      case Received(fd, data) =>
        if fd in Open(s) {
          ReadSeen(s, fd, data);
        } else {
          CloseSeen(s, fd);
        }
      case Lost(fd) => CloseSeen(s, fd);
      case Flushed(scripts) => TurnSeen(s, scripts);
    }
  }

  lemma OpenAreSeen(inputs: seq<Input>)
    ensures var s := Reached(inputs); forall fd :: fd in Open(s) ==> fd in s.seen
  {
    var s := Reached(inputs);
    ReachedInv(inputs);
    forall fd | fd in Open(s) ensures fd in s.seen {
      OpenIsSeen(s, fd);
    }
  }

  /** The connections ever seen are those accepted, so the next accept is of a new one. */
  lemma {:induction false} SeenSoFar(inputs: seq<Input>, k: nat)
    requires FreshIds(inputs) && k <= |inputs|
    ensures Reached(inputs[..k]).seen.Keys == Accepts(inputs[..k])
    ensures k < |inputs| && inputs[k].Accepted? ==> inputs[k].fd !in Reached(inputs[..k]).seen
  {
    if k > 0 {
      SeenSoFar(inputs, k - 1);
      OpenAreSeen(inputs[..k - 1]);
      ReachedSnoc(inputs, k - 1);
      SeenIsAccepted(Reached(inputs[..k - 1]), inputs[k - 1]);
      AcceptsSnoc(inputs[..k - 1], inputs[k - 1]);
    }
  }

  lemma AcceptsSnoc(inputs: seq<Input>, e: Input)
    ensures Accepts(inputs + [e]) == Accepts(inputs) + if e.Accepted? then {e.fd} else {}
  {
    var all := inputs + [e];
    forall fd ensures fd in Accepts(all) <==> fd in Accepts(inputs) + if e.Accepted? then {e.fd} else {} {
      if fd in Accepts(inputs) {
        var i :| 0 <= i < |inputs| && inputs[i].Accepted? && inputs[i].fd == fd;
        assert all[i] == inputs[i];
      } else if e.Accepted? && e.fd == fd {
        assert all[|inputs|] == e;
      }
    }
  }

  lemma ReachedSnoc(inputs: seq<Input>, k: nat)
    requires k < |inputs|
    ensures inputs[..k + 1] == inputs[..k] + [inputs[k]]
    ensures WellFormedViewers(Reached(inputs[..k]))
    ensures Reached(inputs[..k + 1]) == Advance(Reached(inputs[..k]), inputs[k])
  {
    TakeOneMore(inputs, k);
    RunSnoc(EMPTY, inputs[..k], inputs[k]);
  }

  method HandleNext(server: TcpServers.TcpServer, inputs: seq<Input>, i: nat)
    requires FreshIds(inputs) && i < |inputs|
    requires server.Valid() && server.model == Reached(inputs[..i])
    modifies server, server.viewers.Values
    ensures server.Valid() && server.model == Reached(inputs[..i + 1])
    ensures fresh(server.viewers.Values - old(server.viewers.Values))
  {
    ReachedSnoc(inputs, i);
    SeenSoFar(inputs, i);
    server.Handle(inputs[i]);
  }

  /** The gateway's object, created and driven through any inputs, is in the state that the
      machine reaches. So what holds of every reachable state holds of the object. */
  method Serve(inputs: seq<Input>) returns (server: TcpServers.TcpServer)
    requires FreshIds(inputs)
    ensures fresh(server) && server.Valid()
    ensures server.model == Reached(inputs) && Inv(server.model)
  {
    server := new TcpServers.TcpServer();
    for i := 0 to |inputs|
      invariant fresh(server) && fresh(server.viewers.Values) && server.Valid()
      invariant server.model == Reached(inputs[..i])
    {
      HandleNext(server, inputs, i);
    }
    assert inputs[..|inputs|] == inputs;
    ReachedInv(inputs);
  }

  /** What each input does to the role of each connection, in every reachable state: an
      accept of a new connection starts its probe, bytes move it as they call for, a hang-up
      closes it, a sender turn closes the viewers it finds broken, and nothing else moves. */
  lemma InputMoves(inputs: seq<Input>, e: Input, g: int)
    ensures var s, t := Reached(inputs), Reached(inputs + [e]);
            && WellFormedViewers(s)
            && RoleOf(t, g)
               == match e
                  case Accepted(fd) => if g == fd && fd !in s.seen then Probing([]) else RoleOf(s, g)
                  case Received(fd, data) => if g == fd then OnBytes(RoleOf(s, fd), data).role else RoleOf(s, g)
                  case Lost(fd) => if g == fd then Closed else RoleOf(s, g)
                  case Flushed(scripts) =>
                    if g in s.viewers && !SendPass(s.viewers[g], ScriptOf(scripts, g)).active then Closed
                    else RoleOf(s, g)
  {
    var s := Reached(inputs);
    ReachedInv(inputs);
    ReachedNext(inputs, e);
    match e {
      case Accepted(fd) => AcceptedMoves(s, fd, g);
      case Received(fd, data) => ReceivedMoves(s, fd, data, g);
      case Lost(fd) => LostMoves(s, fd, g);
      case Flushed(scripts) => FlushedMoves(s, scripts, g);
    }
  }

  // ----- cameras

  /** A camera: the packets it sends and how its socket answers. */
  datatype Camera = Camera(packets: seq<Chunk>, script: Script)

  function Wire(c: Camera): Chunk {
    Client.Stream(c.packets, c.script).wire
  }

  /** The packets whose sendPacket succeeded. */
  function Confirmed(c: Camera): seq<Chunk> {
    c.packets[..Client.Stream(c.packets, c.script).confirmed]
  }

  /** The bytes read so far on connection p are the beginning of the camera's stream. */
  predicate Feeds(c: Camera, s: Server, p: int) {
    AllLegal(c.packets) && p in s.seen && s.seen[p] <= Wire(c)
  }

  /** A viewer's bytes never parse as a legal camera stream: the probe cannot err. */
  lemma NoCameraIsAViewer(inputs: seq<Input>, fd: int)
    requires fd in Reached(inputs).viewers
    ensures fd in Reached(inputs).seen && Drain(Reached(inputs).seen[fd]).bad
  {
    ReachedInv(inputs);
    var s := Reached(inputs);
    assert RoleOf(s, fd) == Watching && fd in s.seen;
    assert Explained(s.seen, fd, ConnOf(s, fd));
    GetIsNoLegalLength(s.seen[fd]);
  }

  lemma {:induction false} OneSource(log: seq<Broadcast>, p: int)
    requires forall i :: 0 <= i < |log| ==> log[i].from == p
    ensures From(log, p) == Frames(log)
  {
    if log != [] {
      OneSource(log[..|log| - 1], p);
      assert log == log[..|log| - 1] + [log[|log| - 1]];
      FramesSnoc(log[..|log| - 1], log[|log| - 1]);
    }
  }

  /** What the gateway has broadcast of a camera's packets: exactly those that have arrived
      whole, which are the first of the confirmed ones, and all of those once every byte
      has arrived. */
  predicate Relayed(c: Camera, s: Server, p: int)
    requires p in s.seen
  {
    && From(s.log, p) == Drain(s.seen[p]).frames
    && From(s.log, p) <= Confirmed(c)
    && (s.seen[p] == Wire(c) ==> From(s.log, p) == Confirmed(c))
  }

  /** In every reachable state, whether the camera is still connected or has hung up, and
      whatever other cameras and viewers do. */
  lemma CameraBroadcast(c: Camera, inputs: seq<Input>, p: int)
    requires Feeds(c, Reached(inputs), p)
    ensures Relayed(c, Reached(inputs), p)
  {
    ReachedInv(inputs);
    var s := Reached(inputs);
    assert Explained(s.seen, p, ConnOf(s, p));
    Client.WireParses(c.packets, c.script);
    Client.PrefixNotBad(s.seen[p], Wire(c));
    if |s.seen[p]| >= |GET_PROBE| {
      Client.NotARequest(s.seen[p], Wire(c));
    }
  }

  /** The four bytes that make a viewer. */
  lemma ProbeIsGet()
    ensures GET_PROBE == Ascii("GET ")
  {
  }

  // ----- what a viewer is owed, in bytes

  lemma FlattenOptional(chunk: Chunk)
    ensures Flatten(if chunk != [] then [chunk] else []) == chunk
  {
  }

  lemma WelcomeBytes(config: Chunk, idr: Chunk)
    ensures Flatten(WelcomeChunks(config, idr)) == Ascii(HEADER_TEXT) + config + idr
  {
    ThreeParts(Ascii(HEADER_TEXT), config, idr);
  }

  lemma ThreeParts(header: Chunk, config: Chunk, idr: Chunk)
    requires header != []
    ensures Flatten([header] + (if config != [] then [config] else []) + (if idr != [] then [idr] else []))
         == header + config + idr
  {
    var a, b := if config != [] then [config] else [], if idr != [] then [idr] else [];
    FlattenAppend([header] + a, b);
    FlattenAppend([header], a);
    FlattenOptional(header);
    FlattenOptional(config);
    FlattenOptional(idr);
  }

  lemma OwedBytes(frames: seq<Chunk>, j: nat)
    requires j <= |frames|
    ensures Flatten(Owed(frames, j))
         == Ascii(HEADER_TEXT) + LastConfig(frames[..j]) + LastIdr(frames[..j]) + Flatten(frames[j..])
  {
    WelcomeBytes(LastConfig(frames[..j]), LastIdr(frames[..j]));
    FlattenAppend(WelcomeChunks(LastConfig(frames[..j]), LastIdr(frames[..j])), frames[j..]);
  }

  /** The cached configuration is that of frame k, the latest that carries any; k is -1 if none does. */
  lemma {:induction false} LatestConfig(frames: seq<Chunk>, k: int)
    requires -1 <= k < |frames|
    requires forall i :: k < i < |frames| ==> Extract(frames[i]) == []
    requires k >= 0 ==> Extract(frames[k]) != []
    ensures LastConfig(frames) == if k < 0 then [] else Extract(frames[k])
  {
    if k < |frames| - 1 {
      LatestConfig(frames[..|frames| - 1], k);
    }
  }

  /** The cached key frame is frame k, the latest that holds an IDR slice; k is -1 if none does. */
  lemma {:induction false} LatestIdr(frames: seq<Chunk>, k: int)
    requires -1 <= k < |frames|
    requires forall i :: k < i < |frames| ==> !Contains(frames[i], SLICE_IDR)
    requires k >= 0 ==> Contains(frames[k], SLICE_IDR)
    ensures LastIdr(frames) == if k < 0 then [] else frames[k]
  {
    if k < |frames| - 1 {
      LatestIdr(frames[..|frames| - 1], k);
    }
  }

  /** A frame that is a conforming byte stream refreshes the caches by its units' types. */
  lemma CachesFromUnits(nals: seq<Nal>, cached: Chunk)
    requires AllConforming(nals)
    ensures NewConfig(cached, Stream(nals)) == if ConfigOnly(nals) == [] then cached else Stream(ConfigOnly(nals))
    ensures NewIdr(cached, Stream(nals))
         == if exists i :: 0 <= i < |nals| && NalType(nals[i].body[0]) == SLICE_IDR then Stream(nals) else cached
  {
    ExtractFilters(nals);
    ContainsFinds(nals, SLICE_IDR);
  }

  /** Every camera on the table of connections feeds it. */
  ghost predicate AllFeed(cameras: map<int, Camera>, s: Server) {
    forall p :: p in cameras ==> Feeds(cameras[p], s, p)
  }

  /** What a viewer has: whole chunks, in order, of the header, the latest configuration and
      key frame of the j frames before it joined and the frames since; and, if none was
      dropped, exactly the part of those bytes that its queue and offset do not still hold. */
  ghost predicate ServedBytes(v: ViewerState, frames: seq<Chunk>, j: nat) {
    && v.active && Sound(v) && j <= |frames|
    && v.history == Owed(frames, j)
    && (v.drops == 0 ==>
          v.wire + Remaining(v)
          == Ascii(HEADER_TEXT) + LastConfig(frames[..j]) + LastIdr(frames[..j]) + Flatten(frames[j..]))
  }

  /** Cameras to viewers. Any number of cameras stream legal packets against any answers of
      their sockets; any part of each stream has arrived, in any pieces; the gateway has
      taken any inputs besides, hang-ups of cameras included. Then the frames broadcast
      are, camera by camera, the packets that have arrived whole, and every viewer is
      served those frames. */
  lemma CameraToViewer(cameras: map<int, Camera>, inputs: seq<Input>, fd: int)
    requires AllFeed(cameras, Reached(inputs))
    requires fd in Reached(inputs).viewers
    ensures forall p :: p in cameras ==> Relayed(cameras[p], Reached(inputs), p)
    ensures var s := Reached(inputs);
            fd in s.joined && ServedBytes(s.viewers[fd], Frames(s.log), s.joined[fd])
  {
    forall p | p in cameras ensures Relayed(cameras[p], Reached(inputs), p) {
      CameraBroadcast(cameras[p], inputs, p);
    }
    ReachedInv(inputs);
    var s := Reached(inputs);
    assert Served(s.viewers[fd], Frames(s.log), s.joined[fd]);
    OwedBytes(Frames(s.log), s.joined[fd]);
  }

  /** When nobody else has delivered a frame, what viewers get is one camera's packets. */
  lemma OneCamera(c: Camera, inputs: seq<Input>, p: int)
    requires Feeds(c, Reached(inputs), p)
    requires var log := Reached(inputs).log; forall i :: 0 <= i < |log| ==> log[i].from == p
    ensures Frames(Reached(inputs).log) <= Confirmed(c)
  {
    CameraBroadcast(c, inputs, p);
    OneSource(Reached(inputs).log, p);
  }

  // ----- the response header

  /** In every reachable state in which a viewer has been sent nothing: the header is still
      in front of its queue if and only if at most 15 chunks have been enqueued for it,
      and otherwise the header is gone. */
  lemma HeaderInFront(inputs: seq<Input>, fd: int)
    requires fd in Reached(inputs).viewers && Reached(inputs).viewers[fd].wire == []
    ensures var v := Reached(inputs).viewers[fd];
            && v.history != [] && v.history[0] == Ascii(HEADER_TEXT)
            && v.drops < |v.history| && v.queue == v.history[v.drops..]
            && (v.drops == 0 <==> |v.history| <= 15)
  {
    ReachedInv(inputs);
    var s := Reached(inputs);
    assert Served(s.viewers[fd], Frames(s.log), s.joined[fd]);
  }

  // ----- what a sender turn does for a viewer

  lemma {:induction false} LoggedIsFrom(log: seq<Broadcast>, i: nat)
    requires i < |log|
    ensures log[i].frame in From(log, log[i].from)
  {
    if i < |log| - 1 {
      LoggedIsFrom(log[..|log| - 1], i);
    }
  }

  lemma FramesNotEmpty(s: Server)
    requires Streams(s)
    ensures NoEmptyChunk(Frames(s.log))
  {
    forall i | 0 <= i < |s.log| ensures s.log[i].frame != [] {
      var p := s.log[i].from;
      LoggedIsFrom(s.log, i);
      assert Explained(s.seen, p, ConnOf(s, p));
      OnlyLegalFrames(s.seen[p]);
      assert s.log[i].frame in Drain(s.seen[p]).frames;
    }
  }

  lemma OwedNotEmpty(frames: seq<Chunk>, j: nat)
    requires j <= |frames| && NoEmptyChunk(frames)
    ensures NoEmptyChunk(Owed(frames, j))
  {
  }

  lemma QueueNotEmpty(v: ViewerState)
    requires Sound(v) && NoEmptyChunk(v.history)
    ensures NoEmptyChunk(v.queue)
  {
    var sent, waiting :| Accounts(v, sent, waiting);
    forall i | 0 <= i < |v.queue| ensures v.queue[i] != [] {
      assert v.queue[i] == v.history[waiting[i]];
    }
  }

  /** No reachable state has an empty chunk queued, so send is never asked for nothing. */
  lemma NoEmptyQueued(inputs: seq<Input>, fd: int)
    requires fd in Reached(inputs).viewers
    ensures var v := Reached(inputs).viewers[fd];
            WellFormed(v) && v.active && NoEmptyChunk(v.queue)
  {
    ReachedInv(inputs);
    var s := Reached(inputs);
    assert Served(s.viewers[fd], Frames(s.log), s.joined[fd]);
    FramesNotEmpty(s);
    OwedNotEmpty(Frames(s.log), s.joined[fd]);
    QueueNotEmpty(s.viewers[fd]);
  }

  /** A viewer after a sender turn in which its socket gave the answers in script. */
  ghost predicate TurnDone(v: ViewerState, script: Script, t: Server, fd: int)
    requires WellFormed(v) && NoEmptyChunk(v.queue)
  {
    && (v.queue == [] || script == [] ==> fd in t.viewers && t.viewers[fd] == v)
    && (Ample(script, v.queue) ==>
          fd in t.viewers && t.viewers[fd].queue == [] && t.viewers[fd].wire == v.wire + Remaining(v))
    && (v.queue != [] && script != [] ==>
          && (script[0] == Broken || script[0] == Accept(0) ==> fd !in t.viewers)
          && (script[0] == Interrupted || script[0] == WouldBlock ==> fd in t.viewers && t.viewers[fd] == v)
          && (script[0].Accept? && script[0].room > 0 && fd in t.viewers ==>
                v.wire + Remaining(v)[..Min(script[0].room, |v.queue[0]| - v.offset)] <= t.viewers[fd].wire)
          && (script[0].Accept? && script[0].room > 0 && |script| == 1 ==>
                fd in t.viewers
                && |t.viewers[fd].wire| == |v.wire| + Min(script[0].room, |v.queue[0]| - v.offset)))
  }

  lemma TurnOfOne(v: ViewerState, script: Script, t: Server, fd: int)
    requires WellFormed(v) && v.active && NoEmptyChunk(v.queue)
    requires TurnedTo(SendPass(v, script), t, fd)
    ensures TurnDone(v, script, t, fd)
  {
    TurnBegins(v, script);
    if Ample(script, v.queue) {
      TurnEmpties(v, script);
    }
  }

  lemma ReachedTurn(inputs: seq<Input>, scripts: Scripts, fd: int)
    requires fd in Reached(inputs).viewers && WellFormed(Reached(inputs).viewers[fd])
    ensures TurnedTo(SendPass(Reached(inputs).viewers[fd], if fd in scripts then scripts[fd] else []),
                     Reached(inputs + [Flushed(scripts)]), fd)
  {
    ReachedNext(inputs, Flushed(scripts));
    ReachedSettled(inputs);
    TurnAt(Reached(inputs), scripts, fd);
  }

  /** In every reachable state a sender turn sends: what a viewer's socket takes are the next
      bytes waiting; a socket with room empties the queue; an error removes the viewer; a
      viewer whose socket takes nothing for now is left as it was. */
  lemma TurnDelivers(inputs: seq<Input>, scripts: Scripts, fd: int)
    requires fd in Reached(inputs).viewers
    ensures var v := Reached(inputs).viewers[fd];
            && WellFormed(v) && NoEmptyChunk(v.queue)
            && TurnDone(v, if fd in scripts then scripts[fd] else [], Reached(inputs + [Flushed(scripts)]), fd)
  {
    NoEmptyQueued(inputs, fd);
    ReachedTurn(inputs, scripts, fd);
    TurnOfOne(Reached(inputs).viewers[fd], if fd in scripts then scripts[fd] else [],
              Reached(inputs + [Flushed(scripts)]), fd);
  }

  /** Then a viewer that lost nothing has every byte it is owed. */
  lemma EverythingArrives(inputs: seq<Input>, scripts: Scripts, fd: int)
    requires fd in Reached(inputs).viewers && Reached(inputs).viewers[fd].drops == 0
    requires Ample(if fd in scripts then scripts[fd] else [], Reached(inputs).viewers[fd].queue)
    ensures var t := Reached(inputs + [Flushed(scripts)]);
            && fd in t.viewers && fd in Reached(inputs).joined
            && var frames, j := Frames(Reached(inputs).log), Reached(inputs).joined[fd];
               && j <= |frames|
               && t.viewers[fd].wire
                  == Ascii(HEADER_TEXT) + LastConfig(frames[..j]) + LastIdr(frames[..j]) + Flatten(frames[j..])
  {
    TurnDelivers(inputs, scripts, fd);
    CameraToViewer(map[], inputs, fd);
  }

  lemma {:induction false} PublishAllQuiet(s: Server, from: int, frames: seq<Chunk>, fd: int)
    requires Settled(s) && fd in s.viewers
    ensures var t := PublishAll(s, from, frames);
            fd in t.viewers && t.viewers[fd].wire == s.viewers[fd].wire
  {
    if frames != [] {
      var init, last := frames[..|frames| - 1], frames[|frames| - 1];
      PublishAllQuiet(s, from, init, fd);
      PublishAllKeeps(s, from, init);
      PublishShape(PublishAll(s, from, init), from, last);
    }
  }

  lemma LegalStreamParses(packets: seq<Chunk>)
    requires AllLegal(packets) && packets != []
    ensures var stream := EncodeAll(packets);
            && |stream| >= |GET_PROBE| && stream[..|GET_PROBE|] != GET_PROBE
            && Drain(stream) == Parsed(packets, [], false)
  {
    var stream := EncodeAll(packets);
    Client.EncodedThenCut(packets, []);
    assert stream + [] == stream;
    if stream[..|GET_PROBE|] == GET_PROBE {
      GetIsNoLegalLength(stream);
    }
  }

  /** The gateway with one viewer that has asked and one connection that has not spoken. */
  function OneViewerWaiting(viewer: int, camera: int): Server {
    EMPTY.(pending := map[camera := []], viewers := map[viewer := Fresh([Ascii(HEADER_TEXT)])],
           seen := map[viewer := GET_PROBE, camera := []], joined := map[viewer := 0])
  }

  lemma ViewerThenCamera(viewer: int, camera: int)
    requires viewer != camera
    ensures Reached([Accepted(viewer), Received(viewer, GET_PROBE), Accepted(camera)])
         == OneViewerWaiting(viewer, camera)
  {
    var a, b, c := Accepted(viewer), Received(viewer, GET_PROBE), Accepted(camera);
    var s1 := Advance(EMPTY, a);
    assert s1 == EMPTY.(pending := map[viewer := []], seen := map[viewer := []]);
    var s2 := Advance(s1, b);
    assert [] + GET_PROBE == GET_PROBE && GET_PROBE[..|GET_PROBE|] == GET_PROBE;
    assert s1.pending - {viewer} == map[];
    assert s2 == AddViewer(EMPTY.(seen := map[viewer := GET_PROBE]), viewer);
    assert WelcomeChunks([], []) == [Ascii(HEADER_TEXT)];
    assert s2 == EMPTY.(viewers := map[viewer := Fresh([Ascii(HEADER_TEXT)])],
                        seen := map[viewer := GET_PROBE], joined := map[viewer := 0]);
    RunThree(EMPTY, a, b, c);
  }

  lemma RunThree(s: Server, a: Input, b: Input, c: Input)
    requires WellFormedViewers(s)
    ensures WellFormedViewers(Advance(s, a)) && WellFormedViewers(Advance(Advance(s, a), b))
    ensures Gateway.Run(s, [a, b, c]) == Advance(Advance(Advance(s, a), b), c)
  {
    AdvanceWellFormed(s, a);
    AdvanceWellFormed(Advance(s, a), b);
    assert [a, b, c][1..] == [b, c] && [b, c][1..] == [c] && [c][1..] == [];
    assert Gateway.Run(Advance(Advance(s, a), b), [c]) == Advance(Advance(Advance(s, a), b), c);
  }

  /** A run that loses the header: a viewer asks, and 15 packets arrive in one read before
      the sender's next turn. Its queue is then those packets alone. */
  lemma HeaderLostInARun(viewer: int, camera: int, packets: seq<Chunk>)
    requires viewer != camera && AllLegal(packets) && |packets| == 15
    ensures var s := Reached([Accepted(viewer), Received(viewer, GET_PROBE), Accepted(camera)]
                             + [Received(camera, EncodeAll(packets))]);
            viewer in s.viewers && s.viewers[viewer].queue == packets && s.viewers[viewer].drops == 1
  {
    var inputs := [Accepted(viewer), Received(viewer, GET_PROBE), Accepted(camera)];
    var stream := EncodeAll(packets);
    var s := Reached(inputs);
    ViewerThenCamera(viewer, camera);
    ReachedInv(inputs);
    RunSnoc(EMPTY, inputs, Received(camera, stream));
    LegalStreamParses(packets);
    assert [] + stream == stream;
    var u := s.(seen := s.seen[camera := stream], pending := s.pending - {camera},
                producers := s.producers[camera := []]);
    var ready := u.(producers := u.producers[camera := []]);
    var t := Reached(inputs + [Received(camera, stream)]);
    assert t == PublishAll(ready, camera, packets);
    PublishAllQuiet(ready, camera, packets, viewer);
    PublishAllKeeps(ready, camera, packets);
    HeaderInFront(inputs + [Received(camera, stream)], viewer);
    HistoryAfter(t, camera, viewer, packets);
  }

  lemma HistoryAfter(t: Server, camera: int, viewer: int, packets: seq<Chunk>)
    requires Settled(t) && t.log == Tag(camera, packets) && viewer in t.viewers && t.joined == map[viewer := 0]
    ensures t.viewers[viewer].history == [Ascii(HEADER_TEXT)] + packets
  {
    assert Served(t.viewers[viewer], Frames(t.log), 0);
    assert Frames(t.log) == packets;
    assert packets[..0] == [] && packets[0..] == packets;
  }
}
