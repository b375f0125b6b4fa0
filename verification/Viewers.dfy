/** One viewer of the gateway: a send queue of at most 15 chunks that drops its oldest
    unsent chunks, drained by partial sends that resume at an offset. */
module Viewers {
  import opened Bytes
  import opened Sockets

  const MAX_QUEUED_FRAMES := 15

  /** A viewer together with what the outside world has seen of it: every chunk ever
      enqueued, how many of them were dropped and every byte its socket has taken. */
  datatype ViewerState = ViewerState(queue: seq<Chunk>, offset: nat, active: bool,
                                     history: seq<Chunk>, drops: nat, wire: Chunk)

  predicate WellFormed(v: ViewerState) {
    v.offset > 0 ==> v.queue != [] && v.offset < |v.queue[0]|
  }

  /** The bytes of the front chunk that are already out. */
  function Sending(v: ViewerState): Chunk
    requires WellFormed(v)
  {
    if v.offset == 0 then [] else v.queue[0][..v.offset]
  }

  /** The bytes still to be sent. */
  function Remaining(v: ViewerState): Chunk
    requires WellFormed(v)
  {
    if v.queue == [] then [] else v.queue[0][v.offset..] + Flatten(v.queue[1..])
  }

  function Fresh(chunks: seq<Chunk>): ViewerState {
    ViewerState(chunks, 0, true, chunks, 0, [])
  }

  // ----- enqueueing

  /** A full queue makes room for one chunk: the oldest go, except one being sent. */
  function Trim(queue: seq<Chunk>, offset: nat): (kept: seq<Chunk>)
    ensures |kept| == Min(|queue|, MAX_QUEUED_FRAMES - 1)
  {
    if |queue| < MAX_QUEUED_FRAMES then queue
    else if offset == 0 then queue[|queue| - (MAX_QUEUED_FRAMES - 1)..]
    else [queue[0]] + queue[|queue| - (MAX_QUEUED_FRAMES - 2)..]
  }

  function Push(v: ViewerState, frame: Chunk): (w: ViewerState)
    ensures WellFormed(v) ==> WellFormed(w)
  {
    if !v.active then v
    else
      var room := Trim(v.queue, v.offset);
      v.(queue := room + [frame], history := v.history + [frame], drops := v.drops + (|v.queue| - |room|))
  }

  // ----- sending

  /** The viewer after one call of send, and whether the sender goes on with it. */
  datatype Step = Step(v: ViewerState, goOn: bool)

  function SendOnce(v: ViewerState, answer: SendOutcome): Step
    requires WellFormed(v) && v.queue != []
  {
    var chunk := v.queue[0];
    match answer
    case Interrupted => Step(v, false)
    case WouldBlock => Step(v, false)
    case Broken => Step(v.(active := false), false)
    case Accept(room) =>
      var sent := Min(room, |chunk| - v.offset);
      if sent == 0 then Step(v.(active := false), false)
      else
        var out := v.(wire := v.wire + chunk[v.offset..v.offset + sent]);
        if v.offset + sent == |chunk| then Step(out.(queue := v.queue[1..], offset := 0), true)
        else Step(out.(offset := v.offset + sent), true)
  }

  /** One turn of the sender thread at a viewer. Running out of answers is the socket
      not taking more for now. */
  function SendPass(v: ViewerState, script: Script): (w: ViewerState)
    requires WellFormed(v)
    ensures WellFormed(w)
    decreases |script|
  {
    if v.queue == [] || !v.active || script == [] then v
    else
      var s := SendOnce(v, script[0]);
      if s.goOn then SendPass(s.v, script[1..]) else s.v
  }

  // ----- the object

  class Viewer {
    const fd: int
    var sendQueue: seq<Chunk>
    var currentOffset: nat
    var active: bool
    ghost var history: seq<Chunk>
    ghost var drops: nat
    ghost var wire: Chunk

    ghost function View(): ViewerState
      reads this
    {
      ViewerState(sendQueue, currentOffset, active, history, drops, wire)
    }

    constructor (fd: int, chunks: seq<Chunk>)
      ensures this.fd == fd && View() == Fresh(chunks)
    {
      this.fd := fd;
      sendQueue, currentOffset, active := chunks, 0, true;
      history, drops, wire := chunks, 0, [];
    }

    method Enqueue(frame: Chunk)
      requires active
      modifies this
      ensures View() == Push(old(View()), frame)
    {
      ghost var before := sendQueue;
      if |sendQueue| >= MAX_QUEUED_FRAMES {
        var droppedFrames := 0;
        if currentOffset == 0 {
          while |sendQueue| >= MAX_QUEUED_FRAMES
            invariant MAX_QUEUED_FRAMES - 1 <= |sendQueue| <= |before|
            invariant sendQueue == before[|before| - |sendQueue|..]
            invariant droppedFrames == |before| - |sendQueue|
            invariant View() == old(View()).(queue := sendQueue)
          {
            sendQueue := sendQueue[1..];
            droppedFrames := droppedFrames + 1;
          }
        } else {
          while |sendQueue| >= MAX_QUEUED_FRAMES && |sendQueue| > 1
            invariant MAX_QUEUED_FRAMES - 1 <= |sendQueue| <= |before|
            invariant sendQueue == [before[0]] + before[|before| - |sendQueue| + 1..]
            invariant droppedFrames == |before| - |sendQueue|
            invariant View() == old(View()).(queue := sendQueue)
          {
            DropSecond(before, |sendQueue|);
            sendQueue := sendQueue[..1] + sendQueue[2..];
            droppedFrames := droppedFrames + 1;
          }
        }
        drops := drops + droppedFrames;
      }
      sendQueue := sendQueue + [frame];
      history := history + [frame];
    }

    /** The inner loop of the sender thread. */
    method DrainQueue(script: Script) returns (dead: bool)
      requires WellFormed(View())
      modifies this
      ensures View() == SendPass(old(View()), script)
      ensures dead == (old(active) && !active)
    {
      dead := false;
      var left := script;
      while sendQueue != [] && active && left != []
        invariant WellFormed(View())
        invariant SendPass(View(), left) == SendPass(old(View()), script)
        invariant active == old(active) && !dead
        decreases |left|
      {
        var chunk := sendQueue[0];
        var answer := left[0];
        ghost var next := SendOnce(View(), answer);
        left := left[1..];
        if answer.Accept? && Min(answer.room, |chunk| - currentOffset) > 0 {
          var sent := Min(answer.room, |chunk| - currentOffset);
          wire := wire + chunk[currentOffset..currentOffset + sent];
          currentOffset := currentOffset + sent;
          if currentOffset == |chunk| {
            sendQueue := sendQueue[1..];
            currentOffset := 0;
          }
          assert View() == next.v;
        } else if answer.Interrupted? || answer.WouldBlock? {
          break;
        } else {
          active := false;
          dead := true;
          break;
        }
      }
    }
  }
}
