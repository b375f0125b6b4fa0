/** The camera process as three threads around two queues and the overlay snapshot, one
    step for each critical section, in every interleaving. */
module Pipeline {
  import opened Bytes
  import opened Grid
  import opened Options
  import FrameQueues
  import Overlay

  type Box = Overlay.Box

  datatype Inference = Inference(valid: bool, boxes: seq<Box>)

  /** The sanitised configuration; `infer` is what the detector answers for a frame. */
  datatype Config = Config(aiReady: bool, every: nat, encodeCapacity: nat, aiCapacity: nat,
                           overlayEnabled: bool, window: nat, infer: nat -> Inference)

  predicate Sane(cfg: Config) {
    0 < cfg.every && 0 < cfg.encodeCapacity && 0 < cfg.aiCapacity && 0 < cfg.window
  }

  /** Boxes found on frame `from`, drawn on frame `frame`. */
  datatype Drawn = Drawn(frame: nat, from: nat, boxes: seq<Box>)

  /** Frames are known by their sequence numbers. The threads' hands: the frame the capture
      thread still has to offer to the detector, the frame being encoded and the frame in
      the detector. The last three fields record the run. */
  datatype State = State(
    next: nat, offering: Option<nat>, encodeQueue: seq<nat>, aiQueue: seq<nat>,
    encoding: Option<nat>, inferring: Option<nat>, snapshot: Overlay.Snapshot,
    encoded: seq<nat>, inferred: seq<nat>, drawn: seq<Drawn>)

  const START := State(0, None, [], [], None, None, Overlay.Snapshot(false, 0, []), [], [], [])

  datatype Action = Capture | Offer | PopToEncode | Draw | PopToInfer | Publish

  function Push(queue: seq<nat>, x: nat, capacity: nat): seq<nat> {
    if 0 < capacity && |queue| <= capacity then FrameQueues.PushBounded(queue, x, capacity) else queue
  }

  /** One critical section; a thread with nothing to do waits. */
  function Step(cfg: Config, s: State, a: Action): State
    requires Sane(cfg)
  {
    match a
    case Capture =>
      if s.offering.Some? then s
      else s.(next := s.next + 1,
              encodeQueue := Push(s.encodeQueue, s.next, cfg.encodeCapacity),
              offering := if cfg.aiReady && s.next % cfg.every == 0 then Some(s.next) else None)
    case Offer =>
      if s.offering.None? then s
      else s.(aiQueue := Push(s.aiQueue, s.offering.value, cfg.aiCapacity), offering := None)
    case PopToEncode =>
      if s.encoding.Some? || s.encodeQueue == [] then s
      else s.(encoding := Some(s.encodeQueue[0]), encodeQueue := s.encodeQueue[1..],
              encoded := s.encoded + [s.encodeQueue[0]])
    case Draw =>
      if s.encoding.None? then s
      else s.(encoding := None,
              drawn := if Overlay.Usable(cfg.overlayEnabled, cfg.window, s.snapshot, s.encoding.value)
                       then s.drawn + [Drawn(s.encoding.value, s.snapshot.frameSequence, s.snapshot.boxes)]
                       else s.drawn)
    case PopToInfer =>
      if s.inferring.Some? || s.aiQueue == [] then s
      else s.(inferring := Some(s.aiQueue[0]), aiQueue := s.aiQueue[1..],
              inferred := s.inferred + [s.aiQueue[0]])
    case Publish =>
      if s.inferring.None? then s
      else
        var result := cfg.infer(s.inferring.value);
        s.(inferring := None,
           snapshot := if cfg.overlayEnabled && result.valid
                       then Overlay.Snapshot(true, s.inferring.value, result.boxes) else s.snapshot)
  }

  function Run(cfg: Config, actions: seq<Action>): State
    requires Sane(cfg)
  {
    if actions == [] then START
    else Step(cfg, Run(cfg, actions[..|actions| - 1]), actions[|actions| - 1])
  }

  // ----- invariants

  function InHand(o: Option<nat>): seq<nat> {
    if o.Some? then [o.value] else []
  }

  /** Both streams of frames, from the first popped to the last queued, strictly ascend. */
  predicate Flow(cfg: Config, s: State) {
    && |s.encodeQueue| <= cfg.encodeCapacity && |s.aiQueue| <= cfg.aiCapacity
    && Ascending(s.encoded + s.encodeQueue, s.next)
    && Ascending(s.inferred + s.aiQueue + InHand(s.offering), s.next)
    && (s.encoding.Some? ==> s.encoded != [] && s.encoding.value == s.encoded[|s.encoded| - 1])
    && (s.inferring.Some? ==> s.inferred != [] && s.inferring.value == s.inferred[|s.inferred| - 1])
  }

  /** The detector sees only every N-th frame. */
  predicate Sampled(cfg: Config, s: State)
    requires Sane(cfg)
  {
    forall n :: n in s.inferred + s.aiQueue + InHand(s.offering) ==> n % cfg.every == 0
  }

  predicate FromInference(cfg: Config, from: nat, boxes: seq<Box>, s: State) {
    from in s.inferred && cfg.infer(from) == Inference(true, boxes)
  }

  /** The snapshot is the answer for a frame already inferred, older than the one in the detector. */
  predicate SnapshotOk(cfg: Config, s: State) {
    s.snapshot.valid ==>
      && FromInference(cfg, s.snapshot.frameSequence, s.snapshot.boxes, s)
      && (s.inferring.Some? ==> s.snapshot.frameSequence < s.inferring.value)
  }

  predicate DrawnOk(cfg: Config, s: State, d: Drawn) {
    d.from <= d.frame <= d.from + cfg.window && d.frame in s.encoded && FromInference(cfg, d.from, d.boxes, s)
  }

  /** What was drawn, in order: frames ascend, and so do the inferences, weakly. */
  predicate DrawnInOrder(s: State) {
    && (forall i, j :: 0 <= i < j < |s.drawn| ==>
          s.drawn[i].frame < s.drawn[j].frame && s.drawn[i].from <= s.drawn[j].from)
    && (forall i :: 0 <= i < |s.drawn| ==>
          && s.drawn[i].from <= s.snapshot.frameSequence && s.snapshot.valid
          && (s.encoding.Some? ==> s.drawn[i].frame < s.encoding.value)
          && s.drawn[i].frame in s.encoded)
  }

  predicate Inv(cfg: Config, s: State)
    requires Sane(cfg)
  {
    && Flow(cfg, s) && Sampled(cfg, s) && SnapshotOk(cfg, s)
    && (forall i :: 0 <= i < |s.drawn| ==> DrawnOk(cfg, s, s.drawn[i]))
    && DrawnInOrder(s)
  }

  lemma PushFlow(popped: seq<nat>, queue: seq<nat>, x: nat, capacity: nat, bound: nat)
    requires 0 < capacity && |queue| <= capacity && Ascending(popped + queue + [x], bound)
    ensures Ascending(popped + Push(queue, x, capacity), bound)
    ensures forall n :: n in popped + Push(queue, x, capacity) ==> n in popped + queue + [x]
    ensures |Push(queue, x, capacity)| <= capacity
  {
    var r := Push(queue, x, capacity);
    var all, now := popped + queue + [x], popped + r;
    var skip := if |queue| == capacity then 1 else 0;
    assert forall i :: 0 <= i < |now| ==> now[i] == all[if i < |popped| then i else i + skip];
  }

  lemma AppendNext(s: seq<nat>, next: nat)
    requires Ascending(s, next)
    ensures Ascending(s + [next], next + 1) && Ascending(s, next + 1)
  {
  }

  lemma PopMoves(popped: seq<nat>, queue: seq<nat>, rest: seq<nat>, bound: nat)
    requires queue != [] && Ascending(popped + queue + rest, bound)
    ensures (popped + [queue[0]]) + queue[1..] + rest == popped + queue + rest
    ensures forall n :: n in popped ==> n < queue[0]
  {
    var all := popped + queue + rest;
    forall n | n in popped ensures n < queue[0] {
      var i :| 0 <= i < |popped| && popped[i] == n;
      assert all[i] == n && all[|popped|] == queue[0];
    }
  }

  lemma CaptureKeeps(cfg: Config, s: State)
    requires Sane(cfg) && Inv(cfg, s)
    ensures Inv(cfg, Step(cfg, s, Capture))
  {
    if s.offering.None? {
      AppendNext(s.encoded + s.encodeQueue, s.next);
      PushFlow(s.encoded, s.encodeQueue, s.next, cfg.encodeCapacity, s.next + 1);
      var ai := s.inferred + s.aiQueue;
      assert ai + InHand(s.offering) == ai == ai + [];
      AppendNext(ai, s.next);
    }
  }

  lemma OfferKeeps(cfg: Config, s: State)
    requires Sane(cfg) && Inv(cfg, s)
    ensures Inv(cfg, Step(cfg, s, Offer))
  {
    if s.offering.Some? {
      PushFlow(s.inferred, s.aiQueue, s.offering.value, cfg.aiCapacity, s.next);
      var now := s.inferred + Push(s.aiQueue, s.offering.value, cfg.aiCapacity);
      assert now + [] == now;
    }
  }

  lemma PopToEncodeKeeps(cfg: Config, s: State)
    requires Sane(cfg) && Inv(cfg, s)
    ensures Inv(cfg, Step(cfg, s, PopToEncode))
  {
    if s.encoding.None? && s.encodeQueue != [] {
      assert s.encoded + s.encodeQueue + [] == s.encoded + s.encodeQueue;
      PopMoves(s.encoded, s.encodeQueue, [], s.next);
      var t := Step(cfg, s, PopToEncode);
      assert t.encoded + t.encodeQueue + [] == t.encoded + t.encodeQueue;
    }
  }

  lemma DrawOne(cfg: Config, s: State)
    requires Sane(cfg) && Inv(cfg, s) && s.encoding.Some?
    requires Overlay.Usable(cfg.overlayEnabled, cfg.window, s.snapshot, s.encoding.value)
    ensures var d := Drawn(s.encoding.value, s.snapshot.frameSequence, s.snapshot.boxes);
            var t := s.(encoding := None, drawn := s.drawn + [d]);
            DrawnOk(cfg, t, d) && DrawnInOrder(t)
  {
    assert s.encoding.value in s.encoded;
  }

  lemma DrawKeeps(cfg: Config, s: State)
    requires Sane(cfg) && Inv(cfg, s)
    ensures Inv(cfg, Step(cfg, s, Draw))
  {
    var t := Step(cfg, s, Draw);
    if t.drawn != s.drawn {
      DrawOne(cfg, s);
    }
    forall i | 0 <= i < |t.drawn| ensures DrawnOk(cfg, t, t.drawn[i]) {
      if i < |s.drawn| {
        assert DrawnOk(cfg, s, s.drawn[i]);
      }
    }
  }

  lemma PopToInferKeeps(cfg: Config, s: State)
    requires Sane(cfg) && Inv(cfg, s)
    ensures Inv(cfg, Step(cfg, s, PopToInfer))
  {
    if s.inferring.None? && s.aiQueue != [] {
      PopMoves(s.inferred, s.aiQueue, InHand(s.offering), s.next);
    }
  }

  lemma PublishKeeps(cfg: Config, s: State)
    requires Sane(cfg) && Inv(cfg, s)
    ensures Inv(cfg, Step(cfg, s, Publish))
  {
  }

  /** Every interleaving keeps every invariant. */
  lemma {:induction false} RunKeeps(cfg: Config, actions: seq<Action>)
    requires Sane(cfg)
    ensures Inv(cfg, Run(cfg, actions))
  {
    if actions != [] {
      var init := Run(cfg, actions[..|actions| - 1]);
      RunKeeps(cfg, actions[..|actions| - 1]);
      match actions[|actions| - 1] {
        case Capture => CaptureKeeps(cfg, init);
        case Offer => OfferKeeps(cfg, init);
        case PopToEncode => PopToEncodeKeeps(cfg, init);
        case Draw => DrawKeeps(cfg, init);
        case PopToInfer => PopToInferKeeps(cfg, init);
        case Publish => PublishKeeps(cfg, init);
      }
    }
  }

  /** The overlay's promise: every box drawn on a frame was found on a sampled frame no
      later than it and at most the window earlier, by an inference that has finished;
      frames leave each queue in strictly increasing order. */
  lemma BoxesAreFresh(cfg: Config, actions: seq<Action>)
    requires Sane(cfg)
    ensures var s := Run(cfg, actions);
            && Ascending(s.encoded, s.next) && Ascending(s.inferred, s.next)
            && forall i :: 0 <= i < |s.drawn| ==>
                 var d := s.drawn[i];
                 && d.from <= d.frame <= d.from + cfg.window
                 && d.from % cfg.every == 0 && d.frame in s.encoded && d.from in s.inferred
                 && cfg.infer(d.from) == Inference(true, d.boxes)
                 && (s.inferring.Some? ==> d.from < s.inferring.value)
  {
    RunKeeps(cfg, actions);
    var s := Run(cfg, actions);
    assert Ascending(s.encoded, s.next) by {
      assert forall i :: 0 <= i < |s.encoded| ==> s.encoded[i] == (s.encoded + s.encodeQueue)[i];
    }
    assert Ascending(s.inferred, s.next) by {
      assert forall i :: 0 <= i < |s.inferred| ==> s.inferred[i] == (s.inferred + s.aiQueue + InHand(s.offering))[i];
    }
    forall i | 0 <= i < |s.drawn| ensures s.drawn[i].from % cfg.every == 0 {
      assert DrawnOk(cfg, s, s.drawn[i]);
      assert s.drawn[i].from in s.inferred + s.aiQueue + InHand(s.offering);
    }
  }

  /** The snapshot never goes back to an earlier frame. */
  lemma SnapshotAdvances(cfg: Config, actions: seq<Action>, a: Action)
    requires Sane(cfg) && Run(cfg, actions).snapshot.valid
    ensures var s, t := Run(cfg, actions), Run(cfg, actions + [a]);
            t.snapshot.valid && s.snapshot.frameSequence <= t.snapshot.frameSequence
  {
    RunKeeps(cfg, actions);
    assert (actions + [a])[..|actions|] == actions;
  }

  // ----- nothing new is lost

  /** The newest number of a stream of frames. */
  predicate EndsWith(s: seq<nat>, n: nat) {
    s != [] && s[|s| - 1] == n
  }

  /** The newest captured frame, and the newest of those the detector is to see, were never
      dropped: they are the last of their stream. */
  predicate Newest(cfg: Config, s: State)
    requires Sane(cfg)
  {
    s.next > 0 ==>
      && EndsWith(s.encoded + s.encodeQueue, s.next - 1)
      && (cfg.aiReady ==>
            EndsWith(s.inferred + s.aiQueue + InHand(s.offering), (s.next - 1) / cfg.every * cfg.every))
  }

  lemma SampleBefore(n: nat, every: nat)
    requires 0 < every
    ensures n % every == 0 ==> n / every * every == n
    ensures n % every != 0 ==> n > 0 && (n - 1) / every == n / every
  {
    var q, r := CellOf(n, every);
    if r > 0 {
      CellUnique(q, r - 1, every);
    }
  }

  lemma PushEnds(popped: seq<nat>, queue: seq<nat>, x: nat, capacity: nat)
    requires 0 < capacity && |queue| <= capacity
    ensures EndsWith(popped + Push(queue, x, capacity), x)
  {
  }

  lemma CaptureNewest(cfg: Config, s: State)
    requires Sane(cfg) && Flow(cfg, s) && Newest(cfg, s)
    ensures Newest(cfg, Step(cfg, s, Capture))
  {
    if s.offering.None? {
      PushEnds(s.encoded, s.encodeQueue, s.next, cfg.encodeCapacity);
      if cfg.aiReady {
        NextSample(s.inferred + s.aiQueue, s.next, cfg);
      }
    }
  }

  /** Frame n is the detector's newest, or the newest stays the same. */
  lemma NextSample(stream: seq<nat>, n: nat, cfg: Config)
    requires Sane(cfg) && cfg.aiReady
    requires n > 0 ==> EndsWith(stream + InHand(None), (n - 1) / cfg.every * cfg.every)
    ensures EndsWith(stream + InHand(if n % cfg.every == 0 then Some(n) else None), n / cfg.every * cfg.every)
  {
    SampleBefore(n, cfg.every);
  }

  lemma OfferNewest(cfg: Config, s: State)
    requires Sane(cfg) && Flow(cfg, s) && Newest(cfg, s)
    ensures Newest(cfg, Step(cfg, s, Offer))
  {
    if s.offering.Some? {
      PushEnds(s.inferred, s.aiQueue, s.offering.value, cfg.aiCapacity);
      TakeAll(s.inferred + Push(s.aiQueue, s.offering.value, cfg.aiCapacity));
      assert EndsWith(s.inferred + s.aiQueue + [s.offering.value], s.offering.value);
    }
  }

  lemma PopToEncodeNewest(cfg: Config, s: State)
    requires Sane(cfg) && Newest(cfg, s)
    ensures Newest(cfg, Step(cfg, s, PopToEncode))
  {
    if s.encodeQueue != [] {
      PopKeepsStream(s.encoded, s.encodeQueue);
    }
  }

  lemma PopToInferNewest(cfg: Config, s: State)
    requires Sane(cfg) && Newest(cfg, s)
    ensures Newest(cfg, Step(cfg, s, PopToInfer))
  {
    if s.aiQueue != [] {
      PopKeepsStream(s.inferred, s.aiQueue);
    }
  }

  lemma PopKeepsStream(popped: seq<nat>, queue: seq<nat>)
    requires queue != []
    ensures (popped + [queue[0]]) + queue[1..] == popped + queue
  {
  }

  lemma OtherNewest(cfg: Config, s: State, a: Action)
    requires Sane(cfg) && Flow(cfg, s) && Newest(cfg, s) && a != Capture
    ensures Newest(cfg, Step(cfg, s, a))
  {
    match a {
      case Offer => OfferNewest(cfg, s);
      case PopToEncode => PopToEncodeNewest(cfg, s);
      case PopToInfer => PopToInferNewest(cfg, s);
      case Draw =>
      case Publish =>
    }
  }

  /** Over all interleavings the newest frame captured reaches the encoder's stream, and the
      newest multiple of infer_every_n_frames the detector's, whatever is dropped. */
  lemma {:induction false} NewestNotLost(cfg: Config, actions: seq<Action>)
    requires Sane(cfg)
    ensures Newest(cfg, Run(cfg, actions))
  {
    if actions != [] {
      var init, last := actions[..|actions| - 1], actions[|actions| - 1];
      NewestNotLost(cfg, init);
      RunKeeps(cfg, init);
      if last == Capture {
        CaptureNewest(cfg, Run(cfg, init));
      } else {
        OtherNewest(cfg, Run(cfg, init), last);
      }
    }
  }

  // ----- what is drawn

  /** A frame about to be encoded is drawn on exactly when the overlay is on and there is an
      answer for a frame not after it and at most the window before it. */
  lemma DrawsWhenFresh(cfg: Config, s: State)
    requires Sane(cfg) && s.encoding.Some?
    ensures var n, m := s.encoding.value, s.snapshot.frameSequence;
            Step(cfg, s, Draw).drawn
            == if cfg.overlayEnabled && s.snapshot.valid && 0 <= n - m <= cfg.window
               then s.drawn + [Drawn(n, m, s.snapshot.boxes)] else s.drawn
  {
  }

  /** The actions that take the first frame through all three threads. */
  const FIRST_FRAME: seq<Action> := [Capture, Offer, PopToInfer, Publish, PopToEncode, Draw]

  lemma FirstFrameRun(cfg: Config, k: nat)
    requires Sane(cfg) && k < |FIRST_FRAME|
    ensures Run(cfg, FIRST_FRAME[..k + 1]) == Step(cfg, Run(cfg, FIRST_FRAME[..k]), FIRST_FRAME[k])
  {
    TakeOneMore(FIRST_FRAME, k);
  }

  lemma FirstFrameInferred(cfg: Config)
    requires Sane(cfg) && cfg.aiReady
    ensures Run(cfg, FIRST_FRAME[..3]) == START.(next := 1, encodeQueue := [0], inferring := Some(0), inferred := [0])
  {
    FirstFrameRun(cfg, 0);
    assert Run(cfg, FIRST_FRAME[..1]) == START.(next := 1, encodeQueue := [0], offering := Some(0));
    FirstFrameRun(cfg, 1);
    FirstFrameRun(cfg, 2);
  }

  /** A run in which what the detector finds on the first frame is drawn on it. */
  lemma FirstFrameDrawn(cfg: Config)
    requires Sane(cfg) && cfg.aiReady && cfg.overlayEnabled && cfg.infer(0).valid
    ensures Run(cfg, FIRST_FRAME).drawn == [Drawn(0, 0, cfg.infer(0).boxes)]
  {
    FirstFrameInferred(cfg);
    FirstFrameRun(cfg, 3);
    FirstFrameRun(cfg, 4);
    FirstFrameRun(cfg, 5);
    assert FIRST_FRAME[..6] == FIRST_FRAME;
  }
}
