/** Invariants of every reachable state of the gateway. */
module GatewaySafety {
  import opened Bytes
  import opened Sockets
  import opened Framing
  import opened Viewers
  import opened Delivery
  import opened Gateway

  // ----- the connection table

  predicate Disjoint(s: Server) {
    s.pending.Keys !! s.producers.Keys !! s.viewers.Keys
  }

  /** The table a connection is in, and what is kept there; Closed when in none. */
  function RoleOf(s: Server, fd: int): Role {
    if fd in s.pending then Probing(s.pending[fd])
    else if fd in s.producers then Producing(s.producers[fd])
    else if fd in s.viewers then Watching
    else Closed
  }

  /** A connection is in some table from its accept to its close, and is closed at most once. */
  predicate Tabled(s: Server, fd: int) {
    s.closed[fd] == if fd in s.seen && RoleOf(s, fd) == Closed then 1 else 0
  }

  /** The three tables are disjoint and hold exactly the connections that were accepted
      and not closed. */
  ghost predicate Tables(s: Server) {
    && Disjoint(s)
    && (forall fd :: fd !in s.seen ==> RoleOf(s, fd) == Closed)
    && (forall fd :: Tabled(s, fd))
  }

  // ----- what each connection is and has delivered

  /** The frames a connection has contributed to the broadcast. */
  function From(log: seq<Broadcast>, fd: int): seq<Chunk> {
    if log == [] then []
    else
      var last := log[|log| - 1];
      From(log[..|log| - 1], fd) + if last.from == fd then [last.frame] else []
  }

  /** Role and contribution are those that the bytes read so far call for, however they
      were cut up. A connection that has hung up has contributed its whole parse all the
      same, unless an illegal length was met: then a prefix of it. */
  predicate Explained(seen: map<int, Chunk>, fd: int, c: Conn) {
    if fd !in seen then c.emitted == []
    else if c.role == Closed then
      && c.emitted <= Drain(seen[fd]).frames
      && (!Drain(seen[fd]).bad ==> c.emitted == Drain(seen[fd]).frames)
    else Explains(seen[fd], c)
  }

  function ConnOf(s: Server, fd: int): Conn {
    Conn(RoleOf(s, fd), From(s.log, fd))
  }

  ghost predicate Streams(s: Server) {
    forall fd :: Explained(s.seen, fd, ConnOf(s, fd))
  }

  // ----- the bootstrap caches

  function Frames(log: seq<Broadcast>): (frames: seq<Chunk>)
    ensures |frames| == |log|
  {
    seq(|log|, i requires 0 <= i < |log| => log[i].frame)
  }

  function LastConfig(frames: seq<Chunk>): Chunk {
    if frames == [] then [] else NewConfig(LastConfig(frames[..|frames| - 1]), frames[|frames| - 1])
  }

  function LastIdr(frames: seq<Chunk>): Chunk {
    if frames == [] then [] else NewIdr(LastIdr(frames[..|frames| - 1]), frames[|frames| - 1])
  }

  predicate Cached(config: Chunk, idr: Chunk, frames: seq<Chunk>) {
    config == LastConfig(frames) && idr == LastIdr(frames)
  }

  // ----- the viewers

  /** What a viewer that joined after j frames is owed: the header, the configuration and
      key frame of those j, then every later frame. */
  function Owed(frames: seq<Chunk>, j: nat): seq<Chunk>
    requires j <= |frames|
  {
    WelcomeChunks(LastConfig(frames[..j]), LastIdr(frames[..j])) + frames[j..]
  }

  ghost predicate Served(v: ViewerState, frames: seq<Chunk>, j: nat) {
    v.active && Sound(v) && j <= |frames| && v.history == Owed(frames, j)
  }

  ghost predicate Audience(viewers: map<int, ViewerState>, joined: map<int, nat>, frames: seq<Chunk>) {
    forall fd :: fd in viewers ==> fd in joined && Served(viewers[fd], frames, joined[fd])
  }

  ghost predicate Settled(s: Server) {
    && Audience(s.viewers, s.joined, Frames(s.log))
    && Cached(s.config, s.idr, Frames(s.log))
  }

  ghost predicate Inv(s: Server) {
    Tables(s) && Streams(s) && Settled(s)
  }

  // ----- broadcasting

  lemma FramesSnoc(log: seq<Broadcast>, b: Broadcast)
    ensures Frames(log + [b]) == Frames(log) + [b.frame]
    ensures LastConfig(Frames(log + [b])) == NewConfig(LastConfig(Frames(log)), b.frame)
    ensures LastIdr(Frames(log + [b])) == NewIdr(LastIdr(Frames(log)), b.frame)
  {
    var frames := Frames(log);
    assert Frames(log + [b]) == frames + [b.frame];
    assert (frames + [b.frame])[..|frames|] == frames;
  }

  lemma OwedSnoc(frames: seq<Chunk>, frame: Chunk, j: nat)
    requires j <= |frames|
    ensures Owed(frames + [frame], j) == Owed(frames, j) + [frame]
  {
    assert (frames + [frame])[..j] == frames[..j];
    assert (frames + [frame])[j..] == frames[j..] + [frame];
  }

  lemma NobodyInactive(s: Server)
    requires Settled(s)
    ensures Inactive(s.viewers) == {}
  {
    assert forall fd :: fd in s.viewers ==> Served(s.viewers[fd], Frames(s.log), s.joined[fd]);
  }

  /** With every viewer active, as they all are between steps, nobody is removed. */
  lemma PublishShape(s: Server, from: int, frame: Chunk)
    requires Settled(s)
    ensures Publish(s, from, frame)
         == s.(config := NewConfig(s.config, frame), idr := NewIdr(s.idr, frame),
               log := s.log + [Broadcast(from, frame)],
               viewers := PushAll(s.viewers, frame))
  {
    NobodyInactive(s);
    var t := s.(config := NewConfig(s.config, frame), idr := NewIdr(s.idr, frame),
                log := s.log + [Broadcast(from, frame)]);
    CloseNone(t.(viewers := PushAll(t.viewers, frame)));
  }

  lemma PushServes(v: ViewerState, frames: seq<Chunk>, j: nat, frame: Chunk)
    requires Served(v, frames, j)
    ensures Served(Push(v, frame), frames + [frame], j)
  {
    ApplyIsSound(v, Arrival(frame));
    OwedSnoc(frames, frame, j);
  }

  lemma PublishKeeps(s: Server, from: int, frame: Chunk)
    requires Settled(s)
    ensures Settled(Publish(s, from, frame))
  {
    PublishShape(s, from, frame);
    FramesSnoc(s.log, Broadcast(from, frame));
    forall fd | fd in s.viewers
      ensures Served(Push(s.viewers[fd], frame), Frames(s.log) + [frame], s.joined[fd])
    {
      PushServes(s.viewers[fd], Frames(s.log), s.joined[fd], frame);
    }
  }

  function Tag(fd: int, frames: seq<Chunk>): seq<Broadcast> {
    seq(|frames|, i requires 0 <= i < |frames| => Broadcast(fd, frames[i]))
  }

  /** Publishing changes only viewers, caches and log. */
  predicate OnlyPublished(s: Server, t: Server, from: int, frames: seq<Chunk>) {
    && t == s.(viewers := t.viewers, config := t.config, idr := t.idr, log := s.log + Tag(from, frames))
    && t.viewers.Keys == s.viewers.Keys
  }

  lemma PublishedThenOne(s: Server, t: Server, from: int, init: seq<Chunk>, last: Chunk)
    requires OnlyPublished(s, t, from, init) && Settled(t)
    ensures OnlyPublished(s, Publish(t, from, last), from, init + [last])
  {
    PublishShape(t, from, last);
    assert Tag(from, init + [last]) == Tag(from, init) + [Broadcast(from, last)];
    AppendAssoc(s.log, Tag(from, init), [Broadcast(from, last)]);
  }

  lemma {:induction false} PublishAllKeeps(s: Server, from: int, frames: seq<Chunk>)
    requires Settled(s)
    ensures var t := PublishAll(s, from, frames);
            Settled(t) && OnlyPublished(s, t, from, frames)
  {
    if frames == [] {
      TagNothing(s.log, from);
    } else {
      var init, last := frames[..|frames| - 1], frames[|frames| - 1];
      PublishAllKeeps(s, from, init);
      var t := PublishAll(s, from, init);
      assert PublishAll(s, from, frames) == Publish(t, from, last);
      PublishKeeps(t, from, last);
      PublishedThenOne(s, t, from, init, last);
      SplitLast(frames);
    }
  }

  lemma {:induction false} FromTagged(log: seq<Broadcast>, from: int, frames: seq<Chunk>, fd: int)
    ensures From(log + Tag(from, frames), fd) == From(log, fd) + if fd == from then frames else []
    decreases |frames|
  {
    var all := log + Tag(from, frames);
    if frames == [] {
      assert all == log;
    } else {
      var init, last := frames[..|frames| - 1], frames[|frames| - 1];
      assert all[..|all| - 1] == log + Tag(from, init);
      assert all[|all| - 1] == Broadcast(from, last);
      FromTagged(log, from, init, fd);
      if fd == from {
        AppendAssoc(From(log, fd), init, [last]);
        assert init + [last] == frames;
      }
    }
  }

  // ----- how one connection moves

  /** Connection fd turns into c.role and delivers c.emitted; nothing else moves. */
  ghost predicate Moved(s: Server, t: Server, fd: int, c: Conn) {
    && Disjoint(t) && t.seen == s.seen
    && (forall g :: RoleOf(t, g) == if g == fd then c.role else RoleOf(s, g))
    && (forall g :: t.closed[g] == s.closed[g] + if g == fd && c.role == Closed then 1 else 0)
    && t.log == s.log + Tag(fd, c.emitted)
  }

  lemma TagNothing(log: seq<Broadcast>, fd: int)
    ensures log + Tag(fd, []) == log
  {
  }

  lemma SetOnce(fds: set<int>, g: int)
    ensures multiset(fds)[g] == if g in fds then 1 else 0
  {
  }

  lemma CloseRole(s: Server, fds: set<int>, g: int)
    requires Disjoint(s)
    ensures RoleOf(Close(s, fds), g) == if g in fds then Closed else RoleOf(s, g)
    ensures Close(s, fds).closed[g] == s.closed[g] + if g in fds && RoleOf(s, g) != Closed then 1 else 0
  {
    SetOnce(fds * Open(s), g);
  }

  lemma CloseRoles(s: Server, fds: set<int>)
    requires Disjoint(s)
    ensures Disjoint(Close(s, fds))
    ensures forall g :: RoleOf(Close(s, fds), g) == if g in fds then Closed else RoleOf(s, g)
    ensures forall g :: Close(s, fds).closed[g]
                        == s.closed[g] + if g in fds && RoleOf(s, g) != Closed then 1 else 0
  {
    forall g
      ensures RoleOf(Close(s, fds), g) == if g in fds then Closed else RoleOf(s, g)
      ensures Close(s, fds).closed[g] == s.closed[g] + if g in fds && RoleOf(s, g) != Closed then 1 else 0
    {
      CloseRole(s, fds, g);
    }
  }

  lemma ClosedMoves(s: Server, fd: int)
    requires Disjoint(s) && RoleOf(s, fd) != Closed
    ensures Moved(s, Close(s, {fd}), fd, Conn(Closed, []))
  {
    CloseRoles(s, {fd});
    TagNothing(s.log, fd);
  }

  lemma PublishMoves(s: Server, t: Server, fd: int, frames: seq<Chunk>)
    requires Disjoint(s) && fd in s.producers && OnlyPublished(s, t, fd, frames)
    ensures Moved(s, t, fd, Conn(Producing(s.producers[fd]), frames))
  {
  }

  lemma CloseSettled(s: Server, fds: set<int>)
    requires Settled(s)
    ensures Settled(Close(s, fds))
  {
  }

  lemma IngestMoves(s: Server, fd: int, data: Chunk)
    requires Disjoint(s) && Settled(s) && fd in s.producers
    ensures Settled(Ingest(s, fd, data))
    ensures Moved(s, Ingest(s, fd, data), fd, Produce(s.producers[fd], data))
  {
    var p := Drain(s.producers[fd] + data);
    if p.bad {
      BadIngestSettled(s, fd, data);
      BadIngestMoves(s, fd, data);
    } else {
      GoodIngestMoves(s, fd, data);
    }
  }

  lemma BadIngestSettled(s: Server, fd: int, data: Chunk)
    requires Settled(s) && fd in s.producers && Drain(s.producers[fd] + data).bad
    ensures Settled(Ingest(s, fd, data))
  {
    CloseSettled(s.(producers := s.producers[fd := []]), {fd});
  }

  lemma BadIngestMoves(s: Server, fd: int, data: Chunk)
    requires Disjoint(s) && fd in s.producers && Drain(s.producers[fd] + data).bad
    ensures Moved(s, Ingest(s, fd, data), fd, Conn(Closed, []))
  {
    var u := s.(producers := s.producers[fd := []]);
    forall g | g != fd ensures RoleOf(u, g) == RoleOf(s, g) {
    }
    ClosedMoves(u, fd);
    assert Ingest(s, fd, data) == Close(u, {fd});
    Remains(s, u, fd, Closed, []);
  }

  lemma GoodIngestMoves(s: Server, fd: int, data: Chunk)
    requires Disjoint(s) && Settled(s) && fd in s.producers && !Drain(s.producers[fd] + data).bad
    ensures Settled(Ingest(s, fd, data))
    ensures var p := Drain(s.producers[fd] + data);
            Moved(s, Ingest(s, fd, data), fd, Conn(Producing(p.rest), p.frames))
  {
    var p := Drain(s.producers[fd] + data);
    var u := s.(producers := s.producers[fd := p.rest]);
    PublishAllKeeps(u, fd, p.frames);
    PublishMoves(u, PublishAll(u, fd, p.frames), fd, p.frames);
    Remains(s, u, fd, Producing(p.rest), p.frames);
  }

  /** A change to fd's own entry is absorbed by the move that follows. */
  lemma Remains(s: Server, u: Server, fd: int, role: Role, emitted: seq<Chunk>)
    requires u.seen == s.seen && u.closed == s.closed && u.log == s.log
    requires forall g :: g != fd ==> RoleOf(u, g) == RoleOf(s, g)
    ensures forall t :: Moved(u, t, fd, Conn(role, emitted)) ==> Moved(s, t, fd, Conn(role, emitted))
  {
  }

  lemma OwedNow(frames: seq<Chunk>)
    ensures Owed(frames, |frames|) == WelcomeChunks(LastConfig(frames), LastIdr(frames))
  {
    TakeAll(frames);
    TakeAll(WelcomeChunks(LastConfig(frames), LastIdr(frames)));
  }

  lemma FreshServed(frames: seq<Chunk>)
    ensures Served(Fresh(WelcomeChunks(LastConfig(frames), LastIdr(frames))), frames, |frames|)
  {
    var welcome := WelcomeChunks(LastConfig(frames), LastIdr(frames));
    assert Sound(Fresh(welcome)) by {
      FreshIsSound(welcome);
    }
    OwedNow(frames);
  }

  lemma AddViewerSettled(s: Server, fd: int)
    requires Settled(s)
    ensures Settled(AddViewer(s, fd))
  {
    FreshServed(Frames(s.log));
  }

  lemma AddViewerMoves(s: Server, fd: int)
    requires Disjoint(s) && fd in s.pending
    ensures Moved(s, AddViewer(s.(pending := s.pending - {fd}), fd), fd, Conn(Watching, []))
  {
    TagNothing(s.log, fd);
  }

  lemma Promote(s: Server, fd: int)
    requires Disjoint(s) && fd in s.pending
    ensures var u := s.(pending := s.pending - {fd}, producers := s.producers[fd := []]);
            Disjoint(u) && forall g :: g != fd ==> RoleOf(u, g) == RoleOf(s, g)
  {
  }

  lemma ProbeMoves(s: Server, fd: int, data: Chunk)
    requires Disjoint(s) && Settled(s) && fd in s.pending
    ensures Settled(Probe(s, fd, data))
    ensures Moved(s, Probe(s, fd, data), fd, OnBytes(Probing(s.pending[fd]), data))
  {
    var probe := s.pending[fd] + data;
    if |probe| < |GET_PROBE| {
      TagNothing(s.log, fd);
    } else if probe[..|GET_PROBE|] == GET_PROBE {
      AddViewerSettled(s.(pending := s.pending - {fd}), fd);
      AddViewerMoves(s, fd);
    } else {
      var u := s.(pending := s.pending - {fd}, producers := s.producers[fd := []]);
      Promote(s, fd);
      IngestMoves(u, fd, probe);
      var c := Produce([], probe);
      Remains(s, u, fd, c.role, c.emitted);
    }
  }

  lemma Unmoved(s: Server, fd: int)
    requires Disjoint(s) && fd in s.viewers
    ensures Moved(s, s, fd, Conn(Watching, []))
  {
    TagNothing(s.log, fd);
  }

  lemma ReadRoles(s: Server, u: Server, fd: int)
    requires Disjoint(s) && Settled(s) && fd in Open(s) && u == s.(seen := u.seen)
    ensures Disjoint(u) && Settled(u) && RoleOf(u, fd) == RoleOf(s, fd)
    ensures fd in s.viewers ==> RoleOf(s, fd) == Watching
    ensures fd in s.producers ==> RoleOf(s, fd) == Producing(s.producers[fd])
    ensures fd !in s.viewers && fd !in s.producers ==> fd in s.pending && RoleOf(s, fd) == Probing(s.pending[fd])
  {
  }

  lemma ReadMoves(s: Server, fd: int, data: Chunk)
    requires Disjoint(s) && Settled(s) && fd in Open(s) && fd in s.seen
    ensures var t := ReadBytes(s, fd, data);
            && Moved(s.(seen := s.seen[fd := s.seen[fd] + data]), t, fd, OnBytes(RoleOf(s, fd), data))
            && Settled(t)
  {
    var u := s.(seen := s.seen[fd := s.seen[fd] + data]);
    ReadRoles(s, u, fd);
    ReadShape(s, fd, data);
    if fd in s.viewers {
      Unmoved(u, fd);
    } else if fd in s.producers {
      ProducerRead(u, fd, data);
    } else {
      PendingRead(u, fd, data);
    }
  }

  lemma ProducerRead(s: Server, fd: int, data: Chunk)
    requires Disjoint(s) && Settled(s) && fd in s.producers
    ensures Moved(s, Ingest(s, fd, data), fd, OnBytes(Producing(s.producers[fd]), data))
    ensures Settled(Ingest(s, fd, data))
  {
    IngestMoves(s, fd, data);
  }

  lemma PendingRead(s: Server, fd: int, data: Chunk)
    requires Disjoint(s) && Settled(s) && fd in s.pending
    ensures Moved(s, Probe(s, fd, data), fd, OnBytes(Probing(s.pending[fd]), data))
    ensures Settled(Probe(s, fd, data))
  {
    ProbeMoves(s, fd, data);
  }

  lemma ReadShape(s: Server, fd: int, data: Chunk)
    requires fd in Open(s) && fd in s.seen
    ensures var u := s.(seen := s.seen[fd := s.seen[fd] + data]);
            && (fd in s.viewers ==> ReadBytes(s, fd, data) == u)
            && (fd !in s.viewers && fd in s.producers ==> ReadBytes(s, fd, data) == Ingest(u, fd, data))
            && (fd !in s.viewers && fd !in s.producers ==>
                  fd in s.pending && ReadBytes(s, fd, data) == Probe(u, fd, data))
  {
  }

  lemma MovedExplained(s: Server, t: Server, fd: int, data: Chunk, g: int)
    requires Explained(s.seen, g, ConnOf(s, g)) && fd in s.seen && RoleOf(s, fd) != Closed
    requires Moved(s.(seen := s.seen[fd := s.seen[fd] + data]), t, fd, OnBytes(RoleOf(s, fd), data))
    ensures Explained(t.seen, g, ConnOf(t, g))
  {
    var c := OnBytes(RoleOf(s, fd), data);
    FromTagged(s.log, fd, c.emitted, g);
    if g == fd {
      ReceiveStep(s.seen[fd], ConnOf(s, fd), data);
    } else {
      assert From(s.log, g) + [] == From(s.log, g);
    }
  }

  lemma MovedTables(s: Server, t: Server, fd: int, c: Conn)
    requires Tables(s) && fd in s.seen && RoleOf(s, fd) != Closed && Moved(s, t, fd, c)
    ensures Tables(t)
  {
    forall g ensures Tabled(t, g) {
      assert Tabled(s, g);
    }
  }

  lemma ReadStreams(s: Server, t: Server, fd: int, data: Chunk)
    requires Streams(s) && fd in s.seen && RoleOf(s, fd) != Closed
    requires Moved(s.(seen := s.seen[fd := s.seen[fd] + data]), t, fd, OnBytes(RoleOf(s, fd), data))
    ensures Streams(t)
  {
    forall g ensures Explained(t.seen, g, ConnOf(t, g)) {
      MovedExplained(s, t, fd, data, g);
    }
  }

  lemma SeenTables(s: Server, fd: int, bytes: Chunk)
    requires Tables(s) && fd in s.seen
    ensures Tables(s.(seen := s.seen[fd := bytes]))
  {
    var t := s.(seen := s.seen[fd := bytes]);
    forall g ensures Tabled(t, g) && RoleOf(t, g) == RoleOf(s, g) {
      assert Tabled(s, g);
    }
  }

  lemma OpenIsSeen(s: Server, fd: int)
    requires Tables(s) && fd in Open(s)
    ensures fd in s.seen && RoleOf(s, fd) != Closed
  {
  }

  lemma ReadKeeps(s: Server, fd: int, data: Chunk)
    requires Inv(s) && fd in Open(s)
    ensures Inv(ReadBytes(s, fd, data))
  {
    OpenIsSeen(s, fd);
    ReadMoves(s, fd, data);
    var t, now := ReadBytes(s, fd, data), s.seen[fd] + data;
    ReadStreams(s, t, fd, data);
    SeenTables(s, fd, now);
    MovedTables(s.(seen := s.seen[fd := now]), t, fd, OnBytes(RoleOf(s, fd), data));
  }

  // ----- closing, accepting, sending

  lemma ClosedExplained(seen: map<int, Chunk>, fd: int, c: Conn)
    requires Explained(seen, fd, c)
    ensures Explained(seen, fd, c.(role := Closed))
  {
    if fd in seen && |seen[fd]| >= |GET_PROBE| && seen[fd][..|GET_PROBE|] == GET_PROBE {
      GetIsNoLegalLength(seen[fd]);
    }
  }

  lemma CloseKeeps(s: Server, fds: set<int>)
    requires Tables(s) && Streams(s)
    ensures Tables(Close(s, fds)) && Streams(Close(s, fds))
  {
    var t := Close(s, fds);
    CloseRoles(s, fds);
    forall g ensures Tabled(t, g) && Explained(t.seen, g, ConnOf(t, g)) {
      assert Tabled(s, g) && Explained(s.seen, g, ConnOf(s, g));
      ClosedExplained(s.seen, g, ConnOf(s, g));
    }
  }

  lemma AcceptKeeps(s: Server, fd: int)
    requires Inv(s) && fd !in s.seen
    ensures Inv(AddConnection(s, fd))
  {
    var t := AddConnection(s, fd);
    forall g ensures RoleOf(t, g) == if g == fd then Probing([]) else RoleOf(s, g) {
      assert g == fd ==> RoleOf(s, g) == Closed;
    }
    forall g ensures Tabled(t, g) && Explained(t.seen, g, ConnOf(t, g)) {
      assert Tabled(s, g) && Explained(s.seen, g, ConnOf(s, g));
    }
  }

  /** The viewers after their sockets took what they would. */
  function Sent(s: Server, scripts: Scripts): Server
    requires WellFormedViewers(s)
  {
    s.(viewers := FlushAll(s.viewers, scripts))
  }

  /** The sender removes exactly the viewers it finds broken. */
  lemma TurnShape(s: Server, scripts: Scripts)
    requires Settled(s) && WellFormedViewers(s)
    ensures SenderTurn(s, scripts) == Close(Sent(s, scripts), Inactive(Sent(s, scripts).viewers))
  {
    var after := Sent(s, scripts).viewers;
    NobodyInactive(s);
    forall fd | fd in s.viewers ensures s.viewers[fd].active {
      assert fd !in Inactive(s.viewers);
    }
    assert Dying(s.viewers, after) == Inactive(Sent(s, scripts).viewers);
  }

  lemma AdvanceTurn(s: Server, scripts: Scripts)
    requires WellFormedViewers(s)
    ensures Advance(s, Flushed(scripts)) == SenderTurn(s, scripts)
  {
  }

  predicate TurnedTo(w: ViewerState, t: Server, fd: int) {
    (fd in t.viewers <==> w.active) && (fd in t.viewers ==> t.viewers[fd] == w)
  }

  /** Each viewer's share of a turn is its own: it is offered its socket's answers, and stays
      if and only if they leave it active. */
  lemma TurnAt(s: Server, scripts: Scripts, fd: int)
    requires Settled(s) && WellFormedViewers(s) && fd in s.viewers
    ensures TurnedTo(SendPass(s.viewers[fd], if fd in scripts then scripts[fd] else []),
                     Advance(s, Flushed(scripts)), fd)
  {
    var after := FlushAll(s.viewers, scripts);
    TurnShape(s, scripts);
    OnlyActiveStay(Sent(s, scripts), fd);
    assert Sent(s, scripts).viewers == after;
    assert after[fd] == SendPass(s.viewers[fd], if fd in scripts then scripts[fd] else []);
    AdvanceTurn(s, scripts);
  }

  lemma OnlyActiveStay(u: Server, fd: int)
    requires fd in u.viewers
    ensures TurnedTo(u.viewers[fd], Close(u, Inactive(u.viewers)), fd)
  {
  }

  lemma TurnServes(v: ViewerState, frames: seq<Chunk>, j: nat, script: Script)
    requires Served(v, frames, j) && SendPass(v, script).active
    ensures Served(SendPass(v, script), frames, j)
  {
    TurnConserves(v, script);
    ApplyIsSound(v, Turn(script));
  }

  lemma SentKeeps(s: Server, scripts: Scripts)
    requires Tables(s) && Streams(s) && WellFormedViewers(s)
    ensures Tables(Sent(s, scripts)) && Streams(Sent(s, scripts))
  {
    var u := Sent(s, scripts);
    forall g ensures RoleOf(u, g) == RoleOf(s, g) {
    }
    forall g ensures Tabled(u, g) && Explained(u.seen, g, ConnOf(u, g)) {
      assert Tabled(s, g) && Explained(s.seen, g, ConnOf(s, g));
    }
  }

  lemma TurnKeeps(s: Server, scripts: Scripts)
    requires Inv(s) && WellFormedViewers(s)
    ensures Inv(SenderTurn(s, scripts))
  {
    var u := Sent(s, scripts);
    TurnShape(s, scripts);
    SentKeeps(s, scripts);
    CloseKeeps(u, Inactive(u.viewers));
    SentServes(s, scripts);
  }

  lemma SentServes(s: Server, scripts: Scripts)
    requires Settled(s) && WellFormedViewers(s)
    ensures Settled(Close(Sent(s, scripts), Inactive(Sent(s, scripts).viewers)))
  {
    var u := Sent(s, scripts);
    forall fd | fd in u.viewers && u.viewers[fd].active
      ensures Served(u.viewers[fd], Frames(s.log), s.joined[fd])
    {
      TurnServes(s.viewers[fd], Frames(s.log), s.joined[fd], ScriptOf(scripts, fd));
    }
  }

  // ----- every run

  lemma InvClose(s: Server, fds: set<int>)
    requires Inv(s)
    ensures Inv(Close(s, fds))
  {
    CloseKeeps(s, fds);
    CloseSettled(s, fds);
  }

  /** Every step keeps every invariant. */
  lemma AdvanceKeeps(s: Server, e: Input)
    requires Inv(s) && WellFormedViewers(s)
    ensures Inv(Advance(s, e))
  {
    match e {
      case Accepted(fd) =>
        if fd !in s.seen {
          AcceptKeeps(s, fd);
        }
      case Received(fd, data) =>
        if fd in Open(s) {
          ReadKeeps(s, fd, data);
        } else {
          InvClose(s, {fd});
        }
      case Lost(fd) => InvClose(s, {fd});
      case Flushed(scripts) => TurnKeeps(s, scripts);
    }
  }

  // ----- what each input does to each connection

  lemma AcceptedMoves(s: Server, fd: int, g: int)
    requires Tables(s)
    ensures WellFormedViewers(s) ==>
              RoleOf(Advance(s, Accepted(fd)), g) == if g == fd && fd !in s.seen then Probing([]) else RoleOf(s, g)
  {
    assert g !in s.seen ==> RoleOf(s, g) == Closed;
  }

  lemma LostMoves(s: Server, fd: int, g: int)
    requires Disjoint(s)
    ensures WellFormedViewers(s) ==>
              RoleOf(Advance(s, Lost(fd)), g) == if g == fd then Closed else RoleOf(s, g)
  {
    CloseRole(s, {fd}, g);
  }

  lemma ReceivedMoves(s: Server, fd: int, data: Chunk, g: int)
    requires Inv(s) && WellFormedViewers(s)
    ensures var t := Advance(s, Received(fd, data));
            && RoleOf(t, g) == (if g == fd then OnBytes(RoleOf(s, fd), data).role else RoleOf(s, g))
            && t.log == s.log + Tag(fd, OnBytes(RoleOf(s, fd), data).emitted)
  {
    if fd in Open(s) {
      OpenIsSeen(s, fd);
      ReadMoves(s, fd, data);
      AdvanceRead(s, fd, data);
    } else {
      CloseRole(s, {fd}, g);
      TagNothing(s.log, fd);
    }
  }

  lemma AdvanceRead(s: Server, fd: int, data: Chunk)
    requires WellFormedViewers(s) && fd in Open(s)
    ensures Advance(s, Received(fd, data)) == ReadBytes(s, fd, data)
  {
  }

  lemma FlushedMoves(s: Server, scripts: Scripts, g: int)
    requires Inv(s) && WellFormedViewers(s)
    ensures var t := Advance(s, Flushed(scripts));
            && RoleOf(t, g) == (if g in s.viewers && !SendPass(s.viewers[g], ScriptOf(scripts, g)).active then Closed
                                else RoleOf(s, g))
            && t.log == s.log
  {
    AdvanceTurn(s, scripts);
    TurnShape(s, scripts);
    SentKeeps(s, scripts);
    CloseRole(Sent(s, scripts), Inactive(Sent(s, scripts).viewers), g);
    SentAt(s, scripts, g);
  }

  lemma SentAt(s: Server, scripts: Scripts, g: int)
    requires WellFormedViewers(s)
    ensures var u := Sent(s, scripts);
            && RoleOf(u, g) == RoleOf(s, g)
            && (g in Inactive(u.viewers) <==> g in s.viewers && !SendPass(s.viewers[g], ScriptOf(scripts, g)).active)
  {
  }

  /** Over every run, from any state that has them, the gateway keeps: the connection
      table is exact, every connection is what its bytes say, the caches are the latest
      configuration and key frame, and every viewer is served soundly. */
  lemma {:induction false} RunKeeps(s: Server, inputs: seq<Input>)
    requires Inv(s) && WellFormedViewers(s)
    ensures Inv(Gateway.Run(s, inputs))
    decreases |inputs|
  {
    if inputs != [] {
      AdvanceKeeps(s, inputs[0]);
      AdvanceWellFormed(s, inputs[0]);
      RunKeeps(Advance(s, inputs[0]), inputs[1..]);
    }
  }

  lemma EmptyInv()
    ensures Inv(EMPTY)
  {
    assert Frames([]) == [];
  }
}
