/** The gateway as a state machine. One step is one event handler, or one sender turn
    over all viewers with the removals that end it. */
module Gateway {
  import opened Bytes
  import opened Sockets
  import opened Framing
  import opened AnnexB
  import opened Viewers

  /** A completed frame and the connection it came from. */
  datatype Broadcast = Broadcast(from: int, frame: Chunk)

  /** The tables and caches, and four observations of the run: the bytes read from each
      connection ever accepted, how often each was closed, the frames broadcast, and how
      many had been broadcast when each viewer joined. */
  datatype Server = Server(
    pending: map<int, Chunk>, producers: map<int, Chunk>, viewers: map<int, ViewerState>,
    config: Chunk, idr: Chunk,
    seen: map<int, Chunk>, closed: multiset<int>, log: seq<Broadcast>, joined: map<int, nat>)

  const EMPTY := Server(map[], map[], map[], [], [], map[], multiset{}, [], map[])

  /** The response header: HTTP/1.1 200 OK, Connection: keep-alive, Cache-Control and
      Pragma: no-cache, Content-Type: video/h264. */
  const HEADER_TEXT: string :=
    "HTTP/1.1 200 OK\r\nConnection: keep-alive\r\nCache-Control: no-cache\r\n"
    + "Pragma: no-cache\r\nContent-Type: video/h264\r\n\r\n"

  function Ascii(text: string): (s: Chunk)
    ensures |s| == |text|
  {
    seq(|text|, i requires 0 <= i < |text| => text[i] as int % 256)
  }

  function Open(s: Server): set<int> {
    s.pending.Keys + s.producers.Keys + s.viewers.Keys
  }

  predicate WellFormedViewers(s: Server) {
    WellFormedAll(s.viewers)
  }

  /** Erasing connections from every table; each one found is closed once. */
  function Close(s: Server, fds: set<int>): Server {
    s.(pending := s.pending - fds, producers := s.producers - fds, viewers := s.viewers - fds,
       closed := s.closed + multiset(fds * Open(s)))
  }

  lemma MinusNone<V>(m: map<int, V>)
    ensures m - {} == m
  {
  }

  lemma CloseNone(s: Server)
    ensures Close(s, {}) == s
  {
    MinusNone(s.pending);
    MinusNone(s.producers);
    MinusNone(s.viewers);
    assert multiset({} * Open(s)) == multiset{};
  }

  /** What a new viewer's queue starts with. */
  function WelcomeChunks(config: Chunk, idr: Chunk): (chunks: seq<Chunk>)
    ensures 1 <= |chunks| <= 3
  {
    [Ascii(HEADER_TEXT)] + (if config != [] then [config] else []) + (if idr != [] then [idr] else [])
  }

  function AddViewer(s: Server, fd: int): Server {
    s.(viewers := s.viewers[fd := Fresh(WelcomeChunks(s.config, s.idr))],
       joined := s.joined[fd := |s.log|])
  }

  function Inactive(viewers: map<int, ViewerState>): set<int> {
    set fd | fd in viewers && !viewers[fd].active
  }

  function PushAll(viewers: map<int, ViewerState>, frame: Chunk): map<int, ViewerState> {
    map fd | fd in viewers :: Push(viewers[fd], frame)
  }

  /** A frame goes to every active viewer; inactive ones are removed. */
  function QueueForViewers(s: Server, frame: Chunk): Server {
    Close(s.(viewers := PushAll(s.viewers, frame)), Inactive(s.viewers))
  }

  function NewConfig(cached: Chunk, frame: Chunk): Chunk {
    if Extract(frame) != [] then Extract(frame) else cached
  }

  function NewIdr(cached: Chunk, frame: Chunk): Chunk {
    if Contains(frame, SLICE_IDR) then frame else cached
  }

  /** A completed frame: the caches first, then the viewers. */
  function Publish(s: Server, from: int, frame: Chunk): Server {
    QueueForViewers(s.(config := NewConfig(s.config, frame), idr := NewIdr(s.idr, frame),
                log := s.log + [Broadcast(from, frame)]), frame)
  }

  function PublishAll(s: Server, from: int, frames: seq<Chunk>): Server {
    if frames == [] then s
    else Publish(PublishAll(s, from, frames[..|frames| - 1]), from, frames[|frames| - 1])
  }

  /** A producer's bytes; an illegal length closes it, and nothing of the chunk is published. */
  function Ingest(s: Server, fd: int, data: Chunk): Server
    requires fd in s.producers
  {
    var p := Drain(s.producers[fd] + data);
    if p.bad then Close(s.(producers := s.producers[fd := []]), {fd})
    else PublishAll(s.(producers := s.producers[fd := p.rest]), fd, p.frames)
  }

  function Probe(s: Server, fd: int, data: Chunk): Server
    requires fd in s.pending
  {
    var probe := s.pending[fd] + data;
    if |probe| < |GET_PROBE| then s.(pending := s.pending[fd := probe])
    else
      var t := s.(pending := s.pending - {fd});
      if probe[..|GET_PROBE|] == GET_PROBE then AddViewer(t, fd)
      else Ingest(t.(producers := t.producers[fd := []]), fd, probe)
  }

  /** Bytes read from a connection: a viewer's are ignored. */
  function ReadBytes(s: Server, fd: int, data: Chunk): Server
    requires fd in Open(s)
  {
    var t := s.(seen := s.seen[fd := (if fd in s.seen then s.seen[fd] else []) + data]);
    if fd in t.viewers then t
    else if fd in t.producers then Ingest(t, fd, data)
    else Probe(t, fd, data)
  }

  function AddConnection(s: Server, fd: int): Server {
    s.(pending := s.pending[fd := []], seen := s.seen[fd := []])
  }

  type Scripts = map<int, Script>

  function ScriptOf(scripts: Scripts, fd: int): Script {
    if fd in scripts then scripts[fd] else []
  }

  predicate WellFormedAll(viewers: map<int, ViewerState>) {
    forall fd :: fd in viewers ==> WellFormed(viewers[fd])
  }

  function FlushAll(viewers: map<int, ViewerState>, scripts: Scripts): map<int, ViewerState>
    requires WellFormedAll(viewers)
  {
    map fd | fd in viewers :: SendPass(viewers[fd], ScriptOf(scripts, fd))
  }

  function Dying(before: map<int, ViewerState>, after: map<int, ViewerState>): set<int> {
    set fd | fd in before && fd in after && before[fd].active && !after[fd].active
  }

  /** Every viewer's queue is offered to its socket; those found broken are removed. */
  function SenderTurn(s: Server, scripts: Scripts): Server
    requires WellFormedViewers(s)
  {
    var after := FlushAll(s.viewers, scripts);
    Close(s.(viewers := after), Dying(s.viewers, after))
  }

  datatype Input =
    | Accepted(fd: int)
    | Received(fd: int, data: Chunk)
    | Lost(fd: int)
    | Flushed(scripts: Scripts)

  /** Connection ids are never reused, and reading a closed connection fails. */
  function Advance(s: Server, e: Input): Server
    requires WellFormedViewers(s)
  {
    match e
    case Accepted(fd) => if fd in s.seen then s else AddConnection(s, fd)
    case Received(fd, data) => if fd in Open(s) then ReadBytes(s, fd, data) else Close(s, {fd})
    case Lost(fd) => Close(s, {fd})
    case Flushed(scripts) => SenderTurn(s, scripts)
  }

  lemma {:induction false} PublishAllWellFormed(s: Server, from: int, frames: seq<Chunk>)
    requires WellFormedViewers(s)
    ensures WellFormedViewers(PublishAll(s, from, frames))
  {
    if frames != [] {
      PublishAllWellFormed(s, from, frames[..|frames| - 1]);
    }
  }

  lemma IngestWellFormed(s: Server, fd: int, data: Chunk)
    requires WellFormedViewers(s) && fd in s.producers
    ensures WellFormedViewers(Ingest(s, fd, data))
  {
    var p := Drain(s.producers[fd] + data);
    PublishAllWellFormed(s.(producers := s.producers[fd := p.rest]), fd, p.frames);
  }

  lemma ProbeWellFormed(s: Server, fd: int, data: Chunk)
    requires WellFormedViewers(s) && fd in s.pending
    ensures WellFormedViewers(Probe(s, fd, data))
  {
    IngestWellFormed(s.(pending := s.pending - {fd}, producers := s.producers[fd := []]), fd, s.pending[fd] + data);
  }

  lemma ReadWellFormed(s: Server, fd: int, data: Chunk)
    requires WellFormedViewers(s) && fd in Open(s)
    ensures WellFormedViewers(ReadBytes(s, fd, data))
  {
    var t := s.(seen := s.seen[fd := (if fd in s.seen then s.seen[fd] else []) + data]);
    if fd in t.producers {
      IngestWellFormed(t, fd, data);
    } else if fd in t.pending {
      ProbeWellFormed(t, fd, data);
    }
  }

  lemma TurnWellFormed(s: Server, scripts: Scripts)
    requires WellFormedViewers(s)
    ensures WellFormedViewers(SenderTurn(s, scripts))
  {
  }

  lemma AdvanceWellFormed(s: Server, e: Input)
    requires WellFormedViewers(s)
    ensures WellFormedViewers(Advance(s, e))
  {
    match e {
      case Accepted(_) =>
      case Received(fd, data) =>
        if fd in Open(s) {
          ReadWellFormed(s, fd, data);
        }
      case Lost(_) =>
      case Flushed(scripts) => TurnWellFormed(s, scripts);
    }
  }

  function Run(s: Server, inputs: seq<Input>): (t: Server)
    requires WellFormedViewers(s)
    ensures WellFormedViewers(t)
    decreases |inputs|
  {
    if inputs == [] then s
    else
      AdvanceWellFormed(s, inputs[0]);
      Run(Advance(s, inputs[0]), inputs[1..])
  }
}
