/** The camera's two bounded queues, both keeping the newest frames: RingBuffer, with two
    wrapping indices over preallocated slots, and FrameQueue, a deque with a drop count. */
module FrameQueues {
  import opened Bytes

  // ----- what both implement

  /** Pushing onto a queue of the given capacity drops the oldest element when full. */
  function PushBounded<T>(q: seq<T>, x: T, capacity: nat): (r: seq<T>)
    requires 0 < capacity && |q| <= capacity
    ensures |r| <= capacity
  {
    (if |q| == capacity then q[1..] else q) + [x]
  }

  datatype Op<T> = Push(item: T) | Pop

  /** Contents, the items handed out, and how many were dropped; a pop waits while empty. */
  datatype Trace<T> = Trace(queue: seq<T>, popped: seq<T>, drops: nat)

  function Apply<T>(t: Trace<T>, op: Op<T>, capacity: nat): (r: Trace<T>)
    requires 0 < capacity && |t.queue| <= capacity
    ensures |r.queue| <= capacity
  {
    match op
    case Push(x) =>
      Trace(PushBounded(t.queue, x, capacity), t.popped, t.drops + if |t.queue| == capacity then 1 else 0)
    case Pop =>
      if t.queue == [] then t else Trace(t.queue[1..], t.popped + [t.queue[0]], t.drops)
  }

  function Run<T>(ops: seq<Op<T>>, capacity: nat): (t: Trace<T>)
    requires 0 < capacity
    ensures |t.queue| <= capacity
  {
    if ops == [] then Trace([], [], 0)
    else Apply(Run(ops[..|ops| - 1], capacity), ops[|ops| - 1], capacity)
  }

  function Pushed<T>(ops: seq<Op<T>>): seq<T> {
    if ops == [] then []
    else Pushed(ops[..|ops| - 1]) + match ops[|ops| - 1] case Push(x) => [x] case Pop => []
  }

  /** On every sequence of pushes and pops: the contents are the latest pushes, every push
      was popped, dropped or is still queued, and it is dropped only from a full queue. */
  lemma {:induction false} KeepsTheNewest<T>(ops: seq<Op<T>>, capacity: nat)
    requires 0 < capacity
    ensures var t := Run(ops, capacity);
            && |t.queue| <= |Pushed(ops)|
            && t.queue == Pushed(ops)[|Pushed(ops)| - |t.queue|..]
            && |t.popped| + t.drops + |t.queue| == |Pushed(ops)|
  {
    if ops != [] {
      KeepsTheNewest(ops[..|ops| - 1], capacity);
    }
  }

  function Pushes<T>(items: seq<T>): seq<Op<T>> {
    seq(|items|, i requires 0 <= i < |items| => Push(items[i]))
  }

  /** With nobody popping, the queue is the newest items, as many as it has room for. */
  lemma {:induction false} PushesOnly<T>(items: seq<T>, capacity: nat)
    requires 0 < capacity
    ensures var kept := Max(0, |items| - capacity);
            Run(Pushes(items), capacity) == Trace(items[kept..], [], kept)
  {
    if items != [] {
      var init, last := items[..|items| - 1], items[|items| - 1];
      var ops := Pushes(items);
      assert ops[..|ops| - 1] == Pushes(init);
      PushesOnly(init, capacity);
      SplitLast(items);
    }
  }

  ghost predicate PoppedAt<T>(ops: seq<Op<T>>, t: Trace<T>, places: seq<nat>) {
    && |places| == |t.popped| && |t.queue| <= |Pushed(ops)|
    && Ascending(places, |Pushed(ops)| - |t.queue|)
    && forall i :: 0 <= i < |places| ==> t.popped[i] == Pushed(ops)[places[i]]
  }

  /** Items come out in the order they went in, each at most once. */
  lemma {:induction false} PoppedInOrder<T>(ops: seq<Op<T>>, capacity: nat) returns (places: seq<nat>)
    requires 0 < capacity
    ensures PoppedAt(ops, Run(ops, capacity), places)
  {
    places := [];
    if ops != [] {
      var init := ops[..|ops| - 1];
      places := PoppedInOrder(init, capacity);
      KeepsTheNewest(init, capacity);
      var before := Run(init, capacity);
      if ops[|ops| - 1].Pop? && before.queue != [] {
        places := places + [|Pushed(init)| - |before.queue|];
      }
    }
  }

  // ----- RingBuffer

  /** Position p wrapped once around a ring of n slots. */
  function Wrap(p: nat, n: nat): (r: nat)
    requires p < 2 * n
    ensures r < n
  {
    if p < n then p else p - n
  }

  lemma NextSlot(p: nat, n: nat)
    requires p < n
    ensures (p + 1) % n == Wrap(p + 1, n)
  {
  }

  /** The len slots from start on, going round the ring. */
  function Window(slots: seq<Chunk>, start: nat, len: nat): (s: seq<Chunk>)
    requires start < |slots| && len <= |slots|
    ensures |s| == len && forall i :: 0 <= i < len ==> s[i] == slots[Wrap(start + i, |slots|)]
  {
    seq(len, i requires 0 <= i < len => slots[Wrap(start + i, |slots|)])
  }

  lemma WindowPush(slots: seq<Chunk>, start: nat, len: nat, x: Chunk)
    requires start < |slots| && len <= |slots|
    ensures var w := Wrap(start + len, |slots|);
            var start' := if len < |slots| then start else Wrap(start + 1, |slots|);
            Window(slots[w := x], start', Min(len + 1, |slots|)) == PushBounded(Window(slots, start, len), x, |slots|)
  {
  }

  lemma WindowPop(slots: seq<Chunk>, start: nat, len: nat)
    requires start < |slots| && 0 < len <= |slots|
    ensures Window(slots, start, len)[0] == slots[start]
    ensures Window(slots, Wrap(start + 1, |slots|), len - 1) == Window(slots, start, len)[1..]
  {
  }

  class RingBuffer {
    var buffer: array<Chunk>
    const capacity: nat
    const frameSize: nat
    var writeIdx: nat
    var readIdx: nat
    var count: nat

    ghost predicate Valid()
      reads this, buffer
    {
      && 0 < capacity == buffer.Length && count <= capacity
      && readIdx < capacity && writeIdx == Wrap(readIdx + count, capacity)
      && forall i :: 0 <= i < capacity ==> |buffer[i]| == frameSize
    }

    /** The frames queued, oldest first. */
    ghost function Contents(): (s: seq<Chunk>)
      requires Valid()
      reads this, buffer
    {
      Window(buffer[..], readIdx, count)
    }

    constructor (capacity: nat, frameSize: nat)
      requires 0 < capacity
      ensures Valid() && fresh(buffer) && Contents() == []
      ensures this.capacity == capacity && this.frameSize == frameSize
    {
      this.capacity, this.frameSize := capacity, frameSize;
      writeIdx, readIdx, count := 0, 0, 0;
      var blank: Chunk := seq(frameSize, i => 0);
      buffer := new Chunk[capacity](i => blank);
    }

    /** Copying fewer bytes than a slot holds leaves the slot's old tail in place. */
    method FillSlot(data: Chunk) returns (ghost stored: Chunk)
      requires Valid() && |data| <= frameSize
      modifies buffer
      ensures stored == data + old(buffer[writeIdx])[|data|..]
      ensures buffer[..] == old(buffer[..])[writeIdx := stored]
      ensures forall i :: 0 <= i < capacity ==> |buffer[i]| == frameSize
    {
      stored := data + buffer[writeIdx][|data|..];
      buffer[writeIdx] := data + buffer[writeIdx][|data|..];
    }

    /** A full ring gives up its oldest frame. */
    method Advance() returns (dropped: bool)
      requires Valid()
      modifies `writeIdx, `readIdx, `count
      ensures readIdx == if dropped then Wrap(old(readIdx) + 1, capacity) else old(readIdx)
      ensures count == Min(old(count) + 1, capacity)
      ensures writeIdx == Wrap(readIdx + count, capacity)
      ensures dropped == (old(count) == capacity)
    {
      NextSlot(writeIdx, capacity);
      NextSlot(readIdx, capacity);
      writeIdx := (writeIdx + 1) % capacity;
      if count < capacity {
        count := count + 1;
        dropped := false;
      } else {
        readIdx := (readIdx + 1) % capacity;
        dropped := true;
      }
    }

    method PushFrame(data: Chunk) returns (dropped: bool, ghost stored: Chunk)
      requires Valid() && |data| <= frameSize
      modifies this, buffer
      ensures Valid() && buffer == old(buffer)
      ensures stored == data + old(buffer[writeIdx])[|data|..]
      ensures Contents() == PushBounded(old(Contents()), stored, capacity)
      ensures dropped == (|old(Contents())| == capacity)
    {
      ghost var slots := buffer[..];
      stored := FillSlot(data);
      WindowPush(slots, readIdx, count, stored);
      dropped := Advance();
    }

    /** Enabled once a frame is queued. */
    method PopFrame() returns (data: Chunk)
      requires Valid() && count > 0
      modifies this
      ensures Valid() && buffer == old(buffer)
      ensures data == old(Contents())[0]
      ensures Contents() == old(Contents())[1..]
    {
      NextSlot(readIdx, capacity);
      WindowPop(buffer[..], readIdx, count);
      data := buffer[readIdx];
      readIdx := (readIdx + 1) % capacity;
      count := count - 1;
    }
  }

  // ----- FrameQueue

  class FrameQueue<T> {
    const capacity: nat
    var stopped: bool
    var droppedFrames: nat
    var queue: seq<T>

    ghost predicate Valid()
      reads this
    {
      0 < capacity && |queue| <= capacity
    }

    constructor (capacity: nat)
      requires 0 < capacity
      ensures Valid() && queue == [] && !stopped && droppedFrames == 0 && this.capacity == capacity
    {
      this.capacity := capacity;
      stopped, droppedFrames, queue := false, 0, [];
    }

    method PushFrame(frame: T) returns (dropped: bool)
      requires Valid()
      modifies `queue, `droppedFrames
      ensures Valid()
      ensures queue == PushBounded(old(queue), frame, capacity)
      ensures dropped == (|old(queue)| == capacity)
      ensures droppedFrames == old(droppedFrames) + if dropped then 1 else 0
    {
      dropped := false;
      if |queue| >= capacity {
        queue := queue[1..];
        droppedFrames := droppedFrames + 1;
        dropped := true;
      }
      queue := queue + [frame];
    }

    /** Enabled once a frame is queued or the queue is stopped; a stopped queue is
        emptied before it reports its end. */
    method WaitAndPop() returns (frame: seq<T>)
      requires Valid() && (stopped || queue != [])
      modifies `queue
      ensures Valid()
      ensures frame == old(queue)[..Min(1, |old(queue)|)]
      ensures queue == old(queue)[|frame|..]
    {
      if queue == [] {
        return [];
      }
      frame := [queue[0]];
      queue := queue[1..];
    }

    method Stop()
      modifies `stopped
      ensures stopped
    {
      stopped := true;
    }
  }

  // ----- the two agree

  predicate FullSize(ops: seq<Op<Chunk>>, frameSize: nat) {
    forall i :: 0 <= i < |ops| && ops[i].Push? ==> |ops[i].item| == frameSize
  }

  /** One operation on both queues; a pop waits while they are empty. */
  method StepBoth(ring: RingBuffer, deque: FrameQueue<Chunk>, op: Op<Chunk>) returns (a: seq<Chunk>, b: seq<Chunk>)
    requires ring.Valid() && deque.Valid() && ring.capacity == deque.capacity
    requires ring.Contents() == deque.queue && (op.Push? ==> |op.item| == ring.frameSize)
    modifies ring, ring.buffer, deque
    ensures ring.Valid() && deque.Valid() && ring.buffer == old(ring.buffer)
    ensures ring.Contents() == deque.queue && a == b
    ensures forall popped :: Trace(deque.queue, popped + b, deque.droppedFrames)
                             == Apply(Trace(old(deque.queue), popped, old(deque.droppedFrames)), op, ring.capacity)
  {
    a, b := [], [];
    match op {
      case Push(x) =>
        ghost var stored: Chunk;
        var dropped;
        dropped, stored := ring.PushFrame(x);
        assert stored == x;
        dropped := deque.PushFrame(x);
        assert forall popped: seq<Chunk> :: popped + [] == popped;
      case Pop =>
        if ring.count > 0 {
          var data := ring.PopFrame();
          a := [data];
          b := deque.WaitAndPop();
        } else {
          assert forall popped: seq<Chunk> :: popped + [] == popped;
        }
    }
  }

  /** Driven by the same operations on full-size frames, the two hand out the same frames,
      those the specification says, and FrameQueue counts exactly the frames dropped. */
  method DriveBoth(ops: seq<Op<Chunk>>, capacity: nat, frameSize: nat)
      returns (ringPopped: seq<Chunk>, dequePopped: seq<Chunk>, drops: nat)
    requires 0 < capacity && FullSize(ops, frameSize)
    ensures ringPopped == dequePopped == Run(ops, capacity).popped
    ensures drops == Run(ops, capacity).drops
  {
    var ring := new RingBuffer(capacity, frameSize);
    var deque := new FrameQueue<Chunk>(capacity);
    ringPopped, dequePopped := [], [];
    var i := 0;
    while i < |ops|
      invariant 0 <= i <= |ops|
      invariant ring.Valid() && deque.Valid() && fresh(ring) && fresh(ring.buffer) && fresh(deque)
      invariant ring.capacity == deque.capacity == capacity && ring.frameSize == frameSize
      invariant Run(ops[..i], capacity) == Trace(deque.queue, dequePopped, deque.droppedFrames)
      invariant ring.Contents() == deque.queue && ringPopped == dequePopped
    {
      assert ops[..i + 1][..i] == ops[..i];
      var a, b := StepBoth(ring, deque, ops[i]);
      ringPopped, dequePopped := ringPopped + a, dequePopped + b;
      i := i + 1;
    }
    assert ops[..i] == ops;
    drops := deque.droppedFrames;
  }
}
