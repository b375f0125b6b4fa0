/** What a viewer is guaranteed over every run of enqueues and sender turns. */
module Delivery {
  import opened Bytes
  import opened Sockets
  import opened Viewers

  datatype Event = Arrival(frame: Chunk) | Turn(script: Script)

  function Apply(v: ViewerState, e: Event): (w: ViewerState)
    requires WellFormed(v)
    ensures WellFormed(w)
  {
    match e
    case Arrival(frame) => Push(v, frame)
    case Turn(script) => SendPass(v, script)
  }

  function Run(v: ViewerState, events: seq<Event>): (w: ViewerState)
    requires WellFormed(v)
    ensures WellFormed(w)
    decreases |events|
  {
    if events == [] then v else Run(Apply(v, events[0]), events[1..])
  }

  // ----- untorn delivery

  function Pick(history: seq<Chunk>, indices: seq<nat>): seq<Chunk>
    requires forall i :: 0 <= i < |indices| ==> indices[i] < |history|
  {
    seq(|indices|, i requires 0 <= i < |indices| => history[indices[i]])
  }

  /** `sent` and `waiting` list, in order, the places in the enqueue history of the
      chunks delivered whole and of the chunks queued; the other `drops` were dropped. Everything
      on the wire is the delivered chunks and the sent part of the queue's front, so a
      dropped chunk has no byte there. The newest chunk is never among the dropped. */
  predicate Accounts(v: ViewerState, sent: seq<nat>, waiting: seq<nat>)
    requires WellFormed(v)
  {
    && InOrder(sent, waiting, |v.history|)
    && v.queue == Pick(v.history, waiting)
    && v.wire == Flatten(Pick(v.history, sent)) + Sending(v)
    && |sent| + |waiting| + v.drops == |v.history|
  }

  /** Places below n, sent before waiting, in increasing order, the last of them n - 1. */
  predicate InOrder(sent: seq<nat>, waiting: seq<nat>, n: nat) {
    && Ascending(sent, n) && Ascending(waiting, n)
    && (sent != [] && waiting != [] ==> sent[|sent| - 1] < waiting[0])
    && (n > 0 && waiting != [] ==> waiting[|waiting| - 1] == n - 1)
    && (n > 0 && waiting == [] ==> sent != [] && sent[|sent| - 1] == n - 1)
  }

  /** The queue holds at most 15 chunks, and they are the newest ones, except that a
      chunk being sent keeps its place in front. */
  predicate FreshShape(v: ViewerState)
    requires WellFormed(v)
  {
    && |v.queue| <= MAX_QUEUED_FRAMES && |v.queue| <= |v.history|
    && (v.offset == 0 ==> v.queue == v.history[|v.history| - |v.queue|..])
    && (v.offset > 0 ==> v.queue[1..] == v.history[|v.history| - |v.queue| + 1..])
  }

  lemma PickSnoc(history: seq<Chunk>, indices: seq<nat>, k: nat)
    requires (forall i :: 0 <= i < |indices| ==> indices[i] < |history|) && k < |history|
    ensures Pick(history, indices + [k]) == Pick(history, indices) + [history[k]]
  {
  }

  lemma PickTail(history: seq<Chunk>, indices: seq<nat>)
    requires indices != [] && forall i :: 0 <= i < |indices| ==> indices[i] < |history|
    ensures Pick(history, indices[1..]) == Pick(history, indices)[1..]
  {
  }

  lemma PickGrows(history: seq<Chunk>, frame: Chunk, indices: seq<nat>)
    requires forall i :: 0 <= i < |indices| ==> indices[i] < |history|
    ensures Pick(history + [frame], indices) == Pick(history, indices)
  {
  }

  /** The queue's places when one more chunk is enqueued. */
  function Requeue(v: ViewerState, waiting: seq<nat>): seq<nat>
    requires |waiting| == |v.queue| <= MAX_QUEUED_FRAMES
  {
    (if |v.queue| < MAX_QUEUED_FRAMES then waiting
     else if v.offset == 0 then waiting[1..]
     else [waiting[0]] + waiting[2..]) + [|v.history|]
  }

  lemma RequeueInOrder(v: ViewerState, sent: seq<nat>, waiting: seq<nat>)
    requires |waiting| == |v.queue| <= MAX_QUEUED_FRAMES
    requires InOrder(sent, waiting, |v.history|)
    ensures InOrder(sent, Requeue(v, waiting), |v.history| + 1)
  {
    var r, n := Requeue(v, waiting), |v.history|;
    AppendAscends(waiting, n);
    if |v.queue| < MAX_QUEUED_FRAMES {
      assert r == waiting + [n];
    } else if v.offset == 0 {
      assert r == (waiting + [n])[1..];
    } else {
      assert r == [(waiting + [n])[0]] + (waiting + [n])[2..];
    }
  }

  lemma AppendAscends(places: seq<nat>, n: nat)
    requires Ascending(places, n)
    ensures Ascending(places + [n], n + 1)
  {
  }

  lemma FinishInOrder(sent: seq<nat>, waiting: seq<nat>, n: nat)
    requires waiting != [] && InOrder(sent, waiting, n)
    ensures InOrder(sent + [waiting[0]], waiting[1..], n)
  {
  }

  lemma RequeuePicks(v: ViewerState, waiting: seq<nat>, frame: Chunk)
    requires (forall i :: 0 <= i < |waiting| ==> waiting[i] < |v.history|)
    requires v.active && v.queue == Pick(v.history, waiting) && |v.queue| <= MAX_QUEUED_FRAMES
    ensures forall i :: 0 <= i < |Requeue(v, waiting)| ==> Requeue(v, waiting)[i] < |v.history| + 1
    ensures Push(v, frame).queue == Pick(v.history + [frame], Requeue(v, waiting))
  {
  }

  /** The place of the first chunk whose bytes go out, once any have. */
  function First(sent: seq<nat>, waiting: seq<nat>): nat {
    if sent != [] then sent[0] else if waiting != [] then waiting[0] else 0
  }

  predicate Started(v: ViewerState, sent: seq<nat>) {
    sent != [] || v.offset > 0
  }

  lemma PushAccounts(v: ViewerState, sent: seq<nat>, waiting: seq<nat>, frame: Chunk)
    requires WellFormed(v) && v.active && Accounts(v, sent, waiting) && |v.queue| <= MAX_QUEUED_FRAMES
    ensures Accounts(Push(v, frame), sent, Requeue(v, waiting))
    ensures Started(v, sent) ==> First(sent, Requeue(v, waiting)) == First(sent, waiting)
  {
    RequeueInOrder(v, sent, waiting);
    RequeuePicks(v, waiting, frame);
    PickGrows(v.history, frame, sent);
    assert Sending(Push(v, frame)) == Sending(v);
  }

  lemma RemainingWhole(queue: seq<Chunk>, v: ViewerState)
    requires v.queue == queue && v.offset == 0
    ensures Remaining(v) == Flatten(queue)
  {
    if queue != [] {
      assert queue[0][0..] == queue[0];
    }
  }

  /** What sending never changes: bytes sent and bytes waiting, taken together. */
  predicate Conserves(v: ViewerState, w: ViewerState)
    requires WellFormed(v)
  {
    && WellFormed(w) && w.history == v.history && w.drops == v.drops && v.wire <= w.wire
    && w.wire + Remaining(w) == v.wire + Remaining(v)
  }

  lemma FinishConserves(v: ViewerState)
    requires WellFormed(v) && v.queue != []
    ensures Conserves(v, v.(wire := v.wire + v.queue[0][v.offset..], queue := v.queue[1..], offset := 0))
  {
    var w := v.(wire := v.wire + v.queue[0][v.offset..], queue := v.queue[1..], offset := 0);
    RemainingWhole(v.queue[1..], w);
    AppendAssoc(v.wire, v.queue[0][v.offset..], Flatten(v.queue[1..]));
  }

  lemma PartConserves(v: ViewerState, to: nat)
    requires WellFormed(v) && v.queue != [] && v.offset < to < |v.queue[0]|
    ensures Conserves(v, v.(wire := v.wire + v.queue[0][v.offset..to], offset := to))
  {
    var front, rest := v.queue[0], Flatten(v.queue[1..]);
    SliceThenRest(front, v.offset, to);
    AppendAssoc(front[v.offset..to], front[to..], rest);
    AppendAssoc(v.wire, front[v.offset..to], front[to..] + rest);
  }

  lemma StillConserves(v: ViewerState, active: bool)
    requires WellFormed(v)
    ensures Conserves(v, v.(active := active))
  {
  }

  /** One call of send leaves the viewer as it was, but for being given up, or sends a part
      of the front chunk, or completes it. */
  lemma SendShape(v: ViewerState, answer: SendOutcome)
    requires WellFormed(v) && v.queue != []
    ensures var w, front := SendOnce(v, answer).v, v.queue[0];
            || w == v.(active := w.active)
            || w == v.(wire := v.wire + front[v.offset..], queue := v.queue[1..], offset := 0)
            || (v.offset < w.offset < |front|
                && w == v.(wire := v.wire + front[v.offset..w.offset], offset := w.offset))
  {
  }

  lemma SendConserves(v: ViewerState, answer: SendOutcome)
    requires WellFormed(v) && v.queue != []
    ensures Conserves(v, SendOnce(v, answer).v)
  {
    var w := SendOnce(v, answer).v;
    SendShape(v, answer);
    if w == v.(active := w.active) {
      StillConserves(v, w.active);
    } else if w.queue == v.queue && v.offset < w.offset < |v.queue[0]| {
      PartConserves(v, w.offset);
    } else {
      FinishConserves(v);
    }
  }

  /** Where the bytes of one call of send go. */
  lemma SendExtends(v: ViewerState, answer: SendOutcome, whole: Chunk)
    requires WellFormed(v) && v.queue != [] && v.wire == whole + Sending(v)
    ensures var w := SendOnce(v, answer).v;
            && WellFormed(w) && w.history == v.history && w.drops == v.drops
            && (w.queue == v.queue ==> w.wire == whole + Sending(w))
            && (w.queue != v.queue ==> w.queue == v.queue[1..] && w.offset == 0 && w.wire == whole + v.queue[0])
  {
    var w, front := SendOnce(v, answer).v, v.queue[0];
    assert Sending(v) == front[..v.offset];
    if w.queue != v.queue {
      AppendInTwo(whole, front, v.offset, |front|);
      assert front[v.offset..] == front[v.offset..|front|] && front[..|front|] == front;
    } else if w.wire != v.wire {
      AppendInTwo(whole, front, v.offset, w.offset);
    }
  }

  lemma SendAccounts(v: ViewerState, sent: seq<nat>, waiting: seq<nat>, answer: SendOutcome)
    requires WellFormed(v) && v.queue != [] && Accounts(v, sent, waiting)
    ensures var w := SendOnce(v, answer).v;
            && WellFormed(w)
            && (w.queue == v.queue ==> Accounts(w, sent, waiting))
            && (w.queue != v.queue ==> Accounts(w, sent + [waiting[0]], waiting[1..]))
  {
    var w, front := SendOnce(v, answer).v, v.queue[0];
    SendExtends(v, answer, Flatten(Pick(v.history, sent)));
    if w.queue != v.queue {
      FinishInOrder(sent, waiting, |v.history|);
      PickTail(v.history, waiting);
      PickSnoc(v.history, sent, waiting[0]);
      FlattenSnoc(Pick(v.history, sent), front);
      assert w.wire == Flatten(Pick(w.history, sent + [waiting[0]])) + Sending(w);
    }
  }

  lemma {:induction false} TurnAccounts(v: ViewerState, sent: seq<nat>, waiting: seq<nat>, script: Script)
      returns (sent': seq<nat>, waiting': seq<nat>)
    requires WellFormed(v) && Accounts(v, sent, waiting)
    ensures Accounts(SendPass(v, script), sent', waiting')
    ensures First(sent', waiting') == First(sent, waiting)
    ensures Started(v, sent) ==> Started(SendPass(v, script), sent')
    decreases |script|
  {
    sent', waiting' := sent, waiting;
    if v.queue != [] && v.active && script != [] {
      var s := SendOnce(v, script[0]);
      SendAccounts(v, sent, waiting, script[0]);
      if s.v.queue != v.queue {
        sent', waiting' := sent + [waiting[0]], waiting[1..];
      }
      if s.goOn {
        sent', waiting' := TurnAccounts(s.v, sent', waiting', script[1..]);
      }
    }
  }

  lemma PushKeepsShape(v: ViewerState, frame: Chunk)
    requires WellFormed(v) && FreshShape(v)
    ensures FreshShape(Push(v, frame))
  {
  }

  lemma {:induction false} TurnKeepsShape(v: ViewerState, script: Script)
    requires WellFormed(v) && FreshShape(v)
    ensures FreshShape(SendPass(v, script))
    decreases |script|
  {
    if v.queue != [] && v.active && script != [] {
      var s := SendOnce(v, script[0]);
      assert FreshShape(s.v);
      if s.goOn {
        TurnKeepsShape(s.v, script[1..]);
      }
    }
  }

  /** Freshness in every reachable state. */
  lemma {:induction false} RunKeepsShape(v: ViewerState, events: seq<Event>)
    requires WellFormed(v) && FreshShape(v)
    ensures FreshShape(Run(v, events))
    decreases |events|
  {
    if events != [] {
      match events[0] {
        case Arrival(frame) => PushKeepsShape(v, frame);
        case Turn(script) => TurnKeepsShape(v, script);
      }
      RunKeepsShape(Apply(v, events[0]), events[1..]);
    }
  }

  lemma {:induction false} RunAccounts(v: ViewerState, sent: seq<nat>, waiting: seq<nat>, events: seq<Event>)
      returns (sent': seq<nat>, waiting': seq<nat>)
    requires WellFormed(v) && FreshShape(v) && Accounts(v, sent, waiting)
    ensures Accounts(Run(v, events), sent', waiting')
    ensures Started(v, sent) ==> Started(Run(v, events), sent') && First(sent', waiting') == First(sent, waiting)
    decreases |events|
  {
    sent', waiting' := sent, waiting;
    if events != [] {
      match events[0] {
        case Arrival(frame) =>
          PushKeepsShape(v, frame);
          if v.active {
            PushAccounts(v, sent, waiting, frame);
            waiting' := Requeue(v, waiting);
          }
        case Turn(script) =>
          TurnKeepsShape(v, script);
          sent', waiting' := TurnAccounts(v, sent, waiting, script);
      }
      sent', waiting' := RunAccounts(Apply(v, events[0]), sent', waiting', events[1..]);
    }
  }

  /** A viewer that joins with at most 15 chunks, as every viewer does. */
  lemma FreshAccounts(chunks: seq<Chunk>)
    requires |chunks| <= MAX_QUEUED_FRAMES
    ensures WellFormed(Fresh(chunks)) && FreshShape(Fresh(chunks))
    ensures Accounts(Fresh(chunks), [], seq(|chunks|, i => i))
  {
    assert Pick(chunks, []) == [];
  }

  /** Untorn, in-order delivery and conservation over every run: each chunk enqueued is
      delivered whole, still queued, or dropped before its first byte was sent. */
  lemma UntornDelivery(chunks: seq<Chunk>, events: seq<Event>)
    requires |chunks| <= MAX_QUEUED_FRAMES
    ensures WellFormed(Fresh(chunks)) && FreshShape(Run(Fresh(chunks), events))
    ensures exists sent, waiting :: Accounts(Run(Fresh(chunks), events), sent, waiting)
  {
    FreshAccounts(chunks);
    RunKeepsShape(Fresh(chunks), events);
    var sent, waiting := RunAccounts(Fresh(chunks), [], seq(|chunks|, i => i), events);
  }

  // ----- lossless delivery

  /** As long as nothing was dropped, the bytes sent and the bytes waiting are together
      exactly everything enqueued. */
  predicate Lossless(v: ViewerState)
    requires WellFormed(v)
  {
    v.drops == 0 ==> v.wire + Remaining(v) == Flatten(v.history)
  }

  lemma RemainingGrows(v: ViewerState, frame: Chunk)
    requires WellFormed(v) && v.active && |v.queue| < MAX_QUEUED_FRAMES
    ensures Remaining(Push(v, frame)) == Remaining(v) + frame
  {
    var w := Push(v, frame);
    if v.queue == [] {
      assert w.queue[1..] == [];
      assert frame + Flatten([]) == frame;
    } else {
      assert w.queue[1..] == v.queue[1..] + [frame];
      FlattenSnoc(v.queue[1..], frame);
      AppendAssoc(v.queue[0][v.offset..], Flatten(v.queue[1..]), frame);
    }
  }

  lemma PushLossless(v: ViewerState, frame: Chunk)
    requires WellFormed(v) && Lossless(v)
    ensures Lossless(Push(v, frame))
  {
    if v.active && |v.queue| < MAX_QUEUED_FRAMES {
      RemainingGrows(v, frame);
      FlattenSnoc(v.history, frame);
      AppendAssoc(v.wire, Remaining(v), frame);
    }
  }

  lemma {:induction false} TurnConserves(v: ViewerState, script: Script)
    requires WellFormed(v)
    ensures Conserves(v, SendPass(v, script))
    decreases |script|
  {
    if v.queue != [] && v.active && script != [] {
      SendConserves(v, script[0]);
      var s := SendOnce(v, script[0]);
      if s.goOn {
        TurnConserves(s.v, script[1..]);
      }
    }
  }

  /** Every frame of the run finds fewer than 15 chunks queued. */
  predicate NeverFull(v: ViewerState, events: seq<Event>)
    requires WellFormed(v)
    decreases |events|
  {
    events != [] ==>
      && (events[0].Arrival? && v.active ==> |v.queue| < MAX_QUEUED_FRAMES)
      && NeverFull(Apply(v, events[0]), events[1..])
  }

  /** Chunks are dropped exactly when a frame finds the queue full. */
  lemma {:induction false} DropsWhenFull(v: ViewerState, events: seq<Event>)
    requires WellFormed(v)
    ensures v.drops <= Run(v, events).drops
    ensures Run(v, events).drops == v.drops <==> NeverFull(v, events)
    decreases |events|
  {
    if events != [] {
      if events[0].Turn? {
        TurnConserves(v, events[0].script);
      }
      DropsWhenFull(Apply(v, events[0]), events[1..]);
    }
  }

  /** A viewer whose queue is below 15 at every enqueue misses nothing. */
  lemma {:induction false} LosslessDelivery(v: ViewerState, events: seq<Event>)
    requires WellFormed(v) && Lossless(v)
    ensures Lossless(Run(v, events))
    decreases |events|
  {
    if events != [] {
      match events[0] {
        case Arrival(frame) => PushLossless(v, frame);
        case Turn(script) => TurnConserves(v, script);
      }
      LosslessDelivery(Apply(v, events[0]), events[1..]);
    }
  }

  // ----- which chunk goes first

  /** A viewer that has been sent nothing yet: all but the newest 15 chunks are dropped. */
  predicate Untouched(v: ViewerState) {
    && v.wire == [] && v.offset == 0
    && v.drops == Max(0, |v.history| - MAX_QUEUED_FRAMES)
    && v.queue == v.history[v.drops..]
  }

  lemma {:induction false} RunGrows(v: ViewerState, events: seq<Event>)
    requires WellFormed(v)
    ensures v.wire <= Run(v, events).wire && v.history <= Run(v, events).history
    decreases |events|
  {
    if events != [] {
      if events[0].Turn? {
        TurnConserves(v, events[0].script);
      }
      RunGrows(Apply(v, events[0]), events[1..]);
    }
  }

  lemma PushUntouched(v: ViewerState, frame: Chunk)
    requires WellFormed(v) && Untouched(v)
    ensures Untouched(Push(v, frame))
  {
  }

  lemma TurnUntouched(v: ViewerState, script: Script)
    requires WellFormed(v) && Untouched(v) && SendPass(v, script).wire == []
    ensures Untouched(SendPass(v, script))
  {
    if v.queue != [] && v.active && script != [] && SendOnce(v, script[0]).goOn {
      TurnConserves(SendOnce(v, script[0]).v, script[1..]);
    }
  }

  lemma {:induction false} RunUntouched(v: ViewerState, events: seq<Event>)
    requires WellFormed(v) && Untouched(v) && Run(v, events).wire == []
    ensures Untouched(Run(v, events))
    decreases |events|
  {
    if events != [] {
      RunGrows(Apply(v, events[0]), events[1..]);
      match events[0] {
        case Arrival(frame) => PushUntouched(v, frame);
        case Turn(script) => TurnUntouched(v, script);
      }
      RunUntouched(Apply(v, events[0]), events[1..]);
    }
  }

  /** Up to its first byte a viewer has lost chunks if and only if more than 15 were
      enqueued, and then exactly the oldest: its queue is what is left of the history. */
  lemma BeforeFirstByte(chunks: seq<Chunk>, events: seq<Event>)
    requires |chunks| <= MAX_QUEUED_FRAMES && Run(Fresh(chunks), events).wire == []
    ensures var v := Run(Fresh(chunks), events);
            && chunks <= v.history
            && (v.drops == 0 <==> |v.history| <= 15)
            && v.drops <= |v.history| && v.queue == v.history[v.drops..]
  {
    RunUntouched(Fresh(chunks), events);
    RunGrows(Fresh(chunks), events);
  }

  /** The places from n to m - 1. */
  function Span(n: nat, m: nat): (places: seq<nat>)
    requires n <= m
    ensures |places| == m - n && forall i :: 0 <= i < m - n ==> places[i] == n + i
  {
    seq(m - n, i requires 0 <= i => n + i)
  }

  lemma UntouchedAccounts(v: ViewerState)
    requires WellFormed(v) && Untouched(v)
    ensures Accounts(v, [], Span(v.drops, |v.history|))
  {
    assert Pick(v.history, []) == [];
    assert v.queue == Pick(v.history, Span(v.drops, |v.history|));
  }

  lemma FirstIsLeast(sent: seq<nat>, waiting: seq<nat>, n: nat)
    requires InOrder(sent, waiting, n) && sent + waiting != []
    ensures First(sent, waiting) in sent + waiting
    ensures forall k :: k in sent + waiting ==> First(sent, waiting) <= k
  {
    assert (sent + waiting)[0] == First(sent, waiting);
  }

  lemma FirstTurn(v: ViewerState, script: Script) returns (sent: seq<nat>, waiting: seq<nat>)
    requires WellFormed(v) && Untouched(v) && SendPass(v, script).wire != []
    ensures var w := SendPass(v, script);
            && Accounts(w, sent, waiting) && Started(w, sent) && First(sent, waiting) == v.drops < |v.history|
            && w.wire <= Flatten(v.history[v.drops..])
  {
    var w := SendPass(v, script);
    TurnConserves(v, script);
    assert v.queue != [];
    assert v.wire + Remaining(v) == Flatten(v.queue);
    UntouchedAccounts(v);
    sent, waiting := TurnAccounts(v, [], Span(v.drops, |v.history|), script);
    assert sent == [] && w.offset == 0 ==> w.wire == [];
  }

  /** What comes first. The turn that sends the first byte starts with the oldest chunk not
      dropped, and that chunk stays first for good. So the HTTP header, enqueued at place
      0, opens the response if and only if at most 15 chunks had been enqueued by then;
      otherwise not a byte of it is ever sent. */
  lemma FirstBytes(chunks: seq<Chunk>, before: seq<Event>, script: Script, after: seq<Event>)
      returns (sent: seq<nat>, waiting: seq<nat>)
    requires |chunks| <= MAX_QUEUED_FRAMES
    requires Run(Fresh(chunks), before).wire == []
    requires SendPass(Run(Fresh(chunks), before), script).wire != []
    ensures var v := Run(Fresh(chunks), before);
            var end := Run(SendPass(v, script), after);
            && Accounts(end, sent, waiting) && Started(end, sent) && First(sent, waiting) == v.drops
            && (0 in sent + waiting <==> |v.history| <= 15)
            && v.drops < |v.history| && SendPass(v, script).wire <= Flatten(v.history[v.drops..])
            && SendPass(v, script).wire <= end.wire
  {
    var v := Run(Fresh(chunks), before);
    var w := SendPass(v, script);
    RunUntouched(Fresh(chunks), before);
    sent, waiting := FirstTurn(v, script);
    assert FreshShape(w) by {
      FreshAccounts(chunks);
      RunKeepsShape(Fresh(chunks), before);
      TurnKeepsShape(v, script);
    }
    sent, waiting := RunAccounts(w, sent, waiting, after);
    RunGrows(w, after);
    FirstIsLeast(sent, waiting, |Run(w, after).history|);
  }

  function Arrivals(frames: seq<Chunk>): seq<Event> {
    seq(|frames|, i requires 0 <= i < |frames| => Arrival(frames[i]))
  }

  lemma {:induction false} ArrivalsOnly(v: ViewerState, frames: seq<Chunk>)
    requires WellFormed(v) && v.active
    ensures var w := Run(v, Arrivals(frames));
            w.history == v.history + frames && w.wire == v.wire && w.active
    decreases |frames|
  {
    if frames != [] {
      assert Arrivals(frames)[1..] == Arrivals(frames[1..]);
      ArrivalsOnly(Push(v, frames[0]), frames[1..]);
      assert frames == [frames[0]] + frames[1..];
      AppendAssoc(v.history, [frames[0]], frames[1..]);
    }
  }

  /** A viewer that loses its header: 15 frames arrive before the sender's first turn. */
  lemma HeaderLost(header: Chunk, frames: seq<Chunk>)
    requires |frames| == 15
    ensures Run(Fresh([header]), Arrivals(frames)).queue == frames
    ensures Run(Fresh([header]), Arrivals(frames)).drops == 1
  {
    ArrivalsOnly(Fresh([header]), frames);
    RunUntouched(Fresh([header]), Arrivals(frames));
  }

  /** Everything this module promises of a viewer, in one state. */
  ghost predicate Sound(v: ViewerState) {
    && WellFormed(v) && FreshShape(v) && Lossless(v)
    && (v.wire == [] ==> Untouched(v))
    && exists sent, waiting :: Accounts(v, sent, waiting)
  }

  lemma FreshIsSound(chunks: seq<Chunk>)
    requires |chunks| <= MAX_QUEUED_FRAMES
    ensures Sound(Fresh(chunks))
  {
    FreshAccounts(chunks);
    var v := Fresh(chunks);
    assert v.wire + Remaining(v) == Flatten(chunks);
  }

  lemma ApplyIsSound(v: ViewerState, e: Event)
    requires Sound(v)
    ensures Sound(Apply(v, e))
  {
    var sent, waiting :| Accounts(v, sent, waiting);
    var sent', waiting' := RunAccounts(v, sent, waiting, [e]);
    assert Run(v, [e]) == Apply(v, e);
    RunKeepsShape(v, [e]);
    LosslessDelivery(v, [e]);
    RunGrows(v, [e]);
    if v.wire == [] && Apply(v, e).wire == [] {
      RunUntouched(v, [e]);
    }
  }

  // ----- when a viewer is given up

  predicate NoEmptyChunk(chunks: seq<Chunk>) {
    forall i :: 0 <= i < |chunks| ==> chunks[i] != []
  }

  predicate Progress(o: SendOutcome) {
    o.Accept? && o.room > 0
  }

  /** With no empty chunk queued, send is never asked for an empty range. So a turn uses up
      answers that take bytes until the queue is empty or another answer comes; it gives
      the viewer up exactly when that answer is an error or takes nothing. */
  lemma {:induction false} TurnEnds(v: ViewerState, script: Script) returns (used: nat)
    requires WellFormed(v) && NoEmptyChunk(v.queue) && v.active
    ensures used <= |script| && forall i :: 0 <= i < used - 1 ==> Progress(script[i])
    ensures var w := SendPass(v, script);
            && NoEmptyChunk(w.queue)
            && (w.active <==> used == 0 || !Fatal(script[used - 1]))
            && (w.active && w.queue != [] ==> used == |script| || (used > 0 && !Progress(script[used - 1])))
            && (w.queue == [] ==> used == 0 || Progress(script[used - 1]))
    decreases |script|
  {
    used := 0;
    if v.queue != [] && script != [] {
      var s := SendOnce(v, script[0]);
      if s.goOn {
        assert NoEmptyChunk(s.v.queue);
        used := TurnEnds(s.v, script[1..]);
      }
      used := used + 1;
    }
  }

  // ----- what a turn sends

  /** One answer for each chunk, with room for all of it. */
  predicate Ample(script: Script, queue: seq<Chunk>) {
    && |script| >= |queue|
    && forall i :: 0 <= i < |queue| ==> script[i].Accept? && script[i].room >= |queue[i]|
  }

  lemma FinishShape(v: ViewerState, room: nat)
    requires WellFormed(v) && v.queue != [] && v.offset < |v.queue[0]| <= v.offset + room
    ensures SendOnce(v, Accept(room))
         == Step(v.(wire := v.wire + v.queue[0][v.offset..], queue := v.queue[1..], offset := 0), true)
  {
  }

  /** A socket that takes each chunk whole is sent everything. */
  lemma {:induction false} TurnEmpties(v: ViewerState, script: Script)
    requires WellFormed(v) && v.active && NoEmptyChunk(v.queue) && Ample(script, v.queue)
    ensures var w := SendPass(v, script);
            w.active && w.queue == [] && w.wire == v.wire + Remaining(v)
    decreases |script|
  {
    if v.queue == [] {
      TakeAll(v.wire);
    } else {
      FinishShape(v, script[0].room);
      var next := SendOnce(v, script[0]).v;
      TurnEmpties(next, script[1..]);
      RemainingWhole(next.queue, next);
      AppendAssoc(v.wire, v.queue[0][v.offset..], Flatten(v.queue[1..]));
    }
  }

  lemma SendTakes(v: ViewerState, room: nat)
    requires WellFormed(v) && v.queue != [] && v.queue[0] != [] && room > 0
    ensures var n := Min(room, |v.queue[0]| - v.offset);
            && SendOnce(v, Accept(room)).goOn && n <= |Remaining(v)|
            && SendOnce(v, Accept(room)).v.wire == v.wire + Remaining(v)[..n]
  {
    var n := Min(room, |v.queue[0]| - v.offset);
    assert Remaining(v)[..n] == v.queue[0][v.offset..v.offset + n];
  }

  /** What the first answer of a turn does: bytes taken are the next ones waiting; an error
      or nothing taken ends it; EAGAIN and EINTR leave everything for the next turn. */
  lemma TurnBegins(v: ViewerState, script: Script)
    requires WellFormed(v) && v.active && NoEmptyChunk(v.queue)
    ensures var w := SendPass(v, script);
            && (v.queue == [] || script == [] ==> w == v)
            && (v.queue != [] && script != [] ==>
                  && (Progress(script[0]) ==>
                        && Min(script[0].room, |v.queue[0]| - v.offset) <= |Remaining(v)|
                        && v.wire + Remaining(v)[..Min(script[0].room, |v.queue[0]| - v.offset)] <= w.wire
                        && (|script| == 1 ==>
                              w.active && |w.wire| == |v.wire| + Min(script[0].room, |v.queue[0]| - v.offset)))
                  && (Fatal(script[0]) ==> !w.active && w.wire == v.wire)
                  && (!Progress(script[0]) && !Fatal(script[0]) ==> w == v))
  {
    if v.queue != [] && script != [] && Progress(script[0]) {
      SendTakes(v, script[0].room);
      TurnConserves(SendOnce(v, script[0]).v, script[1..]);
    }
  }

  /** A chunk that finds the queue full makes the sender lose one chunk, no more. */
  lemma PushFillsQueue(v: ViewerState, frame: Chunk)
    requires v.active && |v.queue| <= MAX_QUEUED_FRAMES
    ensures var w := Push(v, frame);
            && |w.queue| == Min(|v.queue| + 1, MAX_QUEUED_FRAMES) && w.queue[|w.queue| - 1] == frame
            && w.drops == v.drops + (if |v.queue| == MAX_QUEUED_FRAMES then 1 else 0)
  {
  }
}
