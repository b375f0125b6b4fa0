/** The gateway's object: its handlers, proved to take the steps of the state machine. */
module TcpServers {
  import opened Bytes
  import opened Sockets
  import opened Framing
  import opened AnnexB
  import opened Viewers
  import opened Gateway

  lemma MinusTwice<V>(m: map<int, V>, a: set<int>, b: set<int>)
    ensures m - a - b == m - (a + b)
  {
  }

  lemma SomeMember(s: set<int>)
    requires s != {}
    ensures exists x :: x in s
  {
    assert (forall x :: x !in s) ==> s == {};
  }

  lemma SetSum(a: set<int>, b: set<int>)
    requires a !! b
    ensures multiset(a + b) == multiset(a) + multiset(b)
  {
  }

  lemma OpenAfterClose(s: Server, fds: set<int>)
    ensures Open(Close(s, fds)) == Open(s) - fds
  {
  }

  lemma ClosedTwice(open: set<int>, closed: multiset<int>, a: set<int>, b: set<int>)
    ensures closed + multiset(a * open) + multiset(b * (open - a)) == closed + multiset((a + b) * open)
  {
    SetSum(a * open, b * (open - a));
    assert a * open + b * (open - a) == (a + b) * open;
  }

  lemma CloseTwice(s: Server, a: set<int>, b: set<int>)
    ensures Close(Close(s, a), b) == Close(s, a + b)
  {
    MinusTwice(s.pending, a, b);
    MinusTwice(s.producers, a, b);
    MinusTwice(s.viewers, a, b);
    OpenAfterClose(s, a);
    ClosedTwice(Open(s), s.closed, a, b);
  }

  /** The table part-way through a loop over the viewers: those in todo are unchanged. */
  ghost predicate PartWay(before: map<int, ViewerState>, after: map<int, ViewerState>,
                          now: map<int, ViewerState>, todo: set<int>)
    requires before.Keys == after.Keys
  {
    && now.Keys == before.Keys
    && forall fd :: fd in now ==> now[fd] == if fd in todo then before[fd] else after[fd]
  }

  lemma LoopDone(before: map<int, ViewerState>, after: map<int, ViewerState>, now: map<int, ViewerState>)
    requires before.Keys == after.Keys && PartWay(before, after, now, {})
    ensures now == after
  {
    assert forall fd :: fd in now ==> now[fd] == after[fd];
  }

  lemma PartWayStep(before: map<int, ViewerState>, after: map<int, ViewerState>, now: map<int, ViewerState>,
                    todo: set<int>, fd: int)
    requires before.Keys == after.Keys && PartWay(before, after, now, todo) && fd in todo && fd in before
    ensures PartWay(before, after, now[fd := after[fd]], todo - {fd}) && now[fd] == before[fd]
  {
  }

  /** Collecting the members of `chosen` while going through todo. */
  lemma Collect(chosen: set<int>, todo: set<int>, fd: int)
    requires fd in todo
    ensures (if fd in chosen then (chosen - todo) + {fd} else chosen - todo) == chosen - (todo - {fd})
  {
  }

  class TcpServer {
    var viewers: map<int, Viewer>
    var producers: map<int, Chunk>
    var pendingProbe: map<int, Chunk>
    var bootstrapConfig: Chunk
    var bootstrapFrame: Chunk
    /** The state of the machine this object is in. */
    ghost var model: Server

    ghost predicate Seat(fd: int)
      requires fd in viewers
      reads this, viewers[fd]
    {
      && fd in model.viewers && viewers[fd].View() == model.viewers[fd]
      && viewers[fd].fd == fd && WellFormed(model.viewers[fd])
    }

    ghost predicate Distinct(table: map<int, Viewer>) {
      forall a, b :: a in table && b in table && a != b ==> table[a] != table[b]
    }

    ghost predicate Valid()
      reads this, viewers.Values
    {
      && model.pending == pendingProbe && model.producers == producers
      && model.config == bootstrapConfig && model.idr == bootstrapFrame
      && model.viewers.Keys == viewers.Keys
      && Distinct(viewers)
      && forall fd :: fd in viewers ==> Seat(fd)
    }

    constructor ()
      ensures Valid() && model == EMPTY
    {
      viewers, producers, pendingProbe := map[], map[], map[];
      bootstrapConfig, bootstrapFrame := [], [];
      model := EMPTY;
    }

    /** A new connection waits for its first bytes. */
    method OnAccept(fd: int)
      requires Valid() && fd !in model.seen
      modifies this
      ensures Valid() && viewers == old(viewers)
      ensures model == AddConnection(old(model), fd)
    {
      pendingProbe := pendingProbe[fd := []];
      model := AddConnection(model, fd);
    }

    /** Forgetting a connection; the result says whether its descriptor was closed. */
    method RemoveViewer(fd: int) returns (shouldClose: bool)
      requires Valid()
      modifies this
      ensures Valid() && viewers == old(viewers) - {fd}
      ensures model == Close(old(model), {fd})
      ensures shouldClose == (fd in Open(old(model)))
    {
      shouldClose := false;
      if fd in viewers {
        shouldClose := true;
      }
      viewers := viewers - {fd};
      if fd in producers {
        shouldClose := true;
      }
      producers := producers - {fd};
      if fd in pendingProbe {
        shouldClose := true;
      }
      pendingProbe := pendingProbe - {fd};
      model := Close(model, {fd});
    }

    /** Removing a set of connections one by one. */
    method RemoveAll(fds: set<int>)
      requires Valid()
      modifies this
      ensures Valid() && viewers == old(viewers) - fds
      ensures model == Close(old(model), fds)
    {
      var todo := fds;
      ghost var s, table, done := model, viewers, {};
      CloseNone(s);
      MinusNone(table);
      while todo != {}
        invariant done + todo == fds
        invariant Valid() && viewers == table - done
        invariant model == Close(s, done)
        decreases todo
      {
        SomeMember(todo);
        var fd :| fd in todo;
        CloseTwice(s, done, {fd});
        MinusTwice(table, done, {fd});
        var _ := RemoveViewer(fd);
        todo, done := todo - {fd}, done + {fd};
      }
    }

    method HandleViewerRequest(fd: int)
      requires Valid()
      modifies this
      ensures Valid() && fd in viewers && fresh(viewers[fd]) && viewers == old(viewers)[fd := viewers[fd]]
      ensures model == AddViewer(old(model), fd)
    {
      var chunks := [Ascii(HEADER_TEXT)];
      if bootstrapConfig != [] {
        chunks := chunks + [bootstrapConfig];
      }
      if bootstrapFrame != [] {
        chunks := chunks + [bootstrapFrame];
      }
      var viewer := new Viewer(fd, chunks);
      viewers := viewers[fd := viewer];
      model := AddViewer(model, fd);
    }

    /** One viewer's share of a broadcast; an inactive one gets nothing. */
    method EnqueueFor(fd: int, frame: Chunk) returns (dead: bool)
      requires Valid() && fd in viewers
      modifies `model, viewers[fd]
      ensures Valid() && dead == !old(model).viewers[fd].active
      ensures model == old(model).(viewers := old(model).viewers[fd := Push(old(model).viewers[fd], frame)])
    {
      var viewer := viewers[fd];
      assert Seat(fd);
      ghost var after := Push(model.viewers[fd], frame);
      dead := !viewer.active;
      if !dead {
        viewer.Enqueue(frame);
      }
      model := model.(viewers := model.viewers[fd := after]);
    }

    /** The loop over the viewers: enqueue, or note as dead. */
    method EnqueueForAll(frame: Chunk) returns (deadFds: set<int>)
      requires Valid()
      modifies `model, viewers.Values
      ensures Valid() && deadFds == Inactive(old(model).viewers)
      ensures model == old(model).(viewers := PushAll(old(model).viewers, frame))
    {
      ghost var before, after := model.viewers, PushAll(model.viewers, frame);
      ghost var dying := Inactive(before);
      deadFds := {};
      var todo: set<int> := viewers.Keys;
      while todo != {}
        invariant todo <= viewers.Keys && Valid()
        invariant model == old(model).(viewers := model.viewers)
        invariant PartWay(before, after, model.viewers, todo)
        invariant deadFds == dying - todo
        decreases todo
      {
        SomeMember(todo);
        var fd :| fd in todo;
        PartWayStep(before, after, model.viewers, todo, fd);
        Collect(dying, todo, fd);
        var dead := EnqueueFor(fd, frame);
        if dead {
          deadFds := deadFds + {fd};
        }
        todo := todo - {fd};
      }
      LoopDone(before, after, model.viewers);
    }

    method QueueFrameForViewers(frame: Chunk)
      requires Valid()
      modifies this, viewers.Values
      ensures Valid() && viewers.Values <= old(viewers.Values)
      ensures model == QueueForViewers(old(model), frame)
    {
      var deadFds := EnqueueForAll(frame);
      RemoveAll(deadFds);
    }

    method HandleCompleteFrame(frame: Chunk, ghost from: int)
      requires Valid()
      modifies this, viewers.Values
      ensures Valid() && viewers.Values <= old(viewers.Values)
      ensures model == Publish(old(model), from, frame)
    {
      var config := ExtractBootstrapConfig(frame);
      if config != [] {
        bootstrapConfig := config;
      }
      var isIdr := ContainsNalType(frame, SLICE_IDR);
      if isIdr {
        bootstrapFrame := frame;
      }
      model := model.(config := NewConfig(model.config, frame), idr := NewIdr(model.idr, frame),
                      log := model.log + [Broadcast(from, frame)]);
      QueueFrameForViewers(frame);
    }

    /** The producer's bytes, cut into frames; false means an illegal length. */
    method ParseFrames(buffer: Chunk) returns (rest: Chunk, readyFrames: seq<Chunk>, ok: bool)
      ensures ok == !Drain(buffer).bad
      ensures readyFrames == Drain(buffer).frames && rest == Drain(buffer).rest
    {
      rest, readyFrames, ok := buffer, [], true;
      while |rest| >= PREFIX_BYTES
        invariant Drain(buffer) == Parsed(readyFrames + Drain(rest).frames, Drain(rest).rest, Drain(rest).bad)
        decreases |rest|
      {
        var frameSize := ReadBe32(rest);
        if frameSize == 0 || frameSize > MAX_FRAME_SIZE {
          ok := false;
          break;
        }
        var totalNeeded := PREFIX_BYTES + frameSize;
        if |rest| < totalNeeded {
          break;
        }
        AppendAssoc(readyFrames, [rest[PREFIX_BYTES..totalNeeded]], Drain(rest[totalNeeded..]).frames);
        readyFrames := readyFrames + [rest[PREFIX_BYTES..totalNeeded]];
        rest := rest[totalNeeded..];
      }
      assert readyFrames + [] == readyFrames;
    }

    method HandleProducerBytes(fd: int, data: Chunk) returns (ok: bool)
      requires Valid() && fd in producers
      modifies this, viewers.Values
      ensures Valid() && viewers.Values <= old(viewers.Values)
      ensures ok == !Drain(old(producers)[fd] + data).bad
      ensures !ok ==> model == old(model).(producers := old(producers)[fd := []])
      ensures ok ==> model == Ingest(old(model), fd, data)
    {
      var rest, readyFrames;
      rest, readyFrames, ok := ParseFrames(producers[fd] + data);
      if !ok {
        rest := [];
      }
      producers := producers[fd := rest];
      model := model.(producers := producers);
      if !ok {
        return;
      }
      BroadcastFrames(fd, readyFrames);
    }

    method BroadcastFrames(ghost fd: int, readyFrames: seq<Chunk>)
      requires Valid()
      modifies this, viewers.Values
      ensures Valid() && viewers.Values <= old(viewers.Values)
      ensures model == PublishAll(old(model), fd, readyFrames)
    {
      var i := 0;
      assert readyFrames[..0] == [];
      while i < |readyFrames|
        invariant 0 <= i <= |readyFrames|
        invariant Valid() && viewers.Values <= old(viewers.Values)
        invariant model == PublishAll(old(model), fd, readyFrames[..i])
      {
        TakeOneMore(readyFrames, i);
        HandleCompleteFrame(readyFrames[i], fd);
        i := i + 1;
      }
      assert readyFrames[..i] == readyFrames;
    }

    /** A producer's bytes, or the bytes that made it one; an illegal length removes it. */
    method IngestOrRemove(fd: int, data: Chunk)
      requires Valid() && fd in producers
      modifies this, viewers.Values
      ensures Valid() && viewers.Values <= old(viewers.Values)
      ensures model == Ingest(old(model), fd, data)
    {
      var ok := HandleProducerBytes(fd, data);
      if !ok {
        var _ := RemoveViewer(fd);
      }
    }

    /** The first bytes of a connection decide what it is. */
    method OnProbe(fd: int, data: Chunk)
      requires Valid() && fd in pendingProbe
      modifies this, viewers.Values
      ensures Valid()
      ensures fresh(viewers.Values - old(viewers.Values))
      ensures model == Probe(old(model), fd, data)
    {
      var probe := pendingProbe[fd] + data;
      if |probe| < |GET_PROBE| {
        pendingProbe := pendingProbe[fd := probe];
        model := model.(pending := pendingProbe);
        return;
      }
      pendingProbe := pendingProbe - {fd};
      model := model.(pending := pendingProbe);
      if probe[..|GET_PROBE|] == GET_PROBE {
        HandleViewerRequest(fd);
      } else {
        producers := producers[fd := []];
        model := model.(producers := producers);
        IngestOrRemove(fd, probe);
      }
    }

    /** The read branch of the event loop, for a connection in some table. */
    method OnReadable(fd: int, data: Chunk)
      requires Valid() && fd in Open(model)
      modifies this, viewers.Values
      ensures Valid()
      ensures fresh(viewers.Values - old(viewers.Values))
      ensures model == ReadBytes(old(model), fd, data)
    {
      model := model.(seen := model.seen[fd := (if fd in model.seen then model.seen[fd] else []) + data]);
      if fd in viewers {
        return;
      }
      if fd in producers {
        IngestOrRemove(fd, data);
      } else {
        OnProbe(fd, data);
      }
    }

    /** One viewer's share of a sender turn. */
    method DrainOne(fd: int, script: Script) returns (dead: bool)
      requires Valid() && fd in viewers && WellFormed(model.viewers[fd])
      modifies `model, viewers[fd]
      ensures Valid()
      ensures model == old(model).(viewers := old(model).viewers[fd := SendPass(old(model).viewers[fd], script)])
      ensures dead == (old(model).viewers[fd].active && !model.viewers[fd].active)
    {
      assert Seat(fd);
      ghost var after := SendPass(model.viewers[fd], script);
      dead := viewers[fd].DrainQueue(script);
      model := model.(viewers := model.viewers[fd := after]);
    }

    lemma ValidIsWellFormed()
      requires Valid()
      ensures WellFormedViewers(model)
    {
      assert forall fd :: fd in viewers ==> Seat(fd);
    }

    /** The sender thread's loop over the viewers. */
    method DrainAll(scripts: Scripts) returns (deadFds: set<int>)
      requires Valid()
      modifies `model, viewers.Values
      ensures Valid() && WellFormedViewers(old(model))
      ensures model == old(model).(viewers := FlushAll(old(model).viewers, scripts))
      ensures deadFds == Dying(old(model).viewers, model.viewers)
    {
      ValidIsWellFormed();
      ghost var before, after := model.viewers, FlushAll(model.viewers, scripts);
      ghost var dying := Dying(before, after);
      deadFds := {};
      var todo: set<int> := viewers.Keys;
      while todo != {}
        invariant todo <= viewers.Keys && Valid()
        invariant model == old(model).(viewers := model.viewers)
        invariant PartWay(before, after, model.viewers, todo)
        invariant deadFds == dying - todo
        decreases todo
      {
        SomeMember(todo);
        var fd :| fd in todo;
        PartWayStep(before, after, model.viewers, todo, fd);
        Collect(dying, todo, fd);
        var dead := DrainOne(fd, ScriptOf(scripts, fd));
        if dead {
          deadFds := deadFds + {fd};
        }
        todo := todo - {fd};
      }
      LoopDone(before, after, model.viewers);
    }

    /** One turn of the sender thread, with the removals that end it. */
    method FlushViewers(scripts: Scripts)
      requires Valid()
      modifies this, viewers.Values
      ensures Valid() && WellFormedViewers(old(model))
      ensures viewers.Values <= old(viewers.Values)
      ensures model == SenderTurn(old(model), scripts)
    {
      var deadFds := DrainAll(scripts);
      RemoveAll(deadFds);
    }

    /** Every input is one step of the state machine. Reading a connection that is in no
        table fails, and its removal finds nothing. */
    method Handle(e: Input)
      requires Valid() && (e.Accepted? ==> e.fd !in model.seen)
      modifies this, viewers.Values
      ensures Valid() && WellFormedViewers(old(model))
      ensures fresh(viewers.Values - old(viewers.Values))
      ensures model == Advance(old(model), e)
    {
      ValidIsWellFormed();
      match e {
        case Accepted(fd) => OnAccept(fd);
        case Received(fd, data) =>
          if fd in viewers || fd in producers || fd in pendingProbe {
            OnReadable(fd, data);
          } else {
            var _ := RemoveViewer(fd);
          }
        case Lost(fd) => var _ := RemoveViewer(fd);
        case Flushed(scripts) => FlushViewers(scripts);
      }
    }
  }
}
