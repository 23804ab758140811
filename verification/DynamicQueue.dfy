/** pkg/generic/queue.go: a queue over a buffered channel that is replaced by a larger one when it
    is full, with a stashed head for Peek. */
module DynamicQueue {
  import opened Common

  /** A buffered Go channel: its capacity is fixed and a receive on a closed one still drains it. */
  class Channel<T> {
    const cap: nat
    var items: seq<T>
    var closed: bool

    constructor (cap: nat)
      ensures this.cap == cap && items == [] && !closed
    {
      this.cap := cap;
      items, closed := [], false;
    }

    /** A send that finds room; Go panics when the channel is closed and blocks when it is full. */
    method Send(x: T)
      requires !closed && |items| < cap
      modifies this`items
      ensures items == old(items) + [x]
    {
      items := items + [x];
    }

    method Receive() returns (x: T)
      requires items != []
      modifies this`items
      ensures x == old(items)[0] && items == old(items)[1..]
    {
      x := items[0];
      items := items[1..];
    }

    method Close()
      requires !closed
      modifies this`closed
      ensures closed
    {
      closed := true;
    }
  }

  /** `Blocks`: the item would have to be sent on a channel without room, while the queue's lock is
      held, so the call never returns. */
  datatype Outcome = Accepted | QueueClosed | QueueFull | Blocks

  class DynamicQueue<T> {
    var queue: Channel<T>
    const maxSize: int
    const zero: T
    var closed: bool
    var hasHead: bool
    var head: T
    var stuck: bool   // a call has blocked with the lock held

    constructor (initialSize: nat, maxSize: int, zero: T)
      ensures Valid() && fresh(queue) && this.maxSize == maxSize && this.zero == zero
      ensures Contents() == [] && !closed && queue.cap == initialSize && !stuck
    {
      queue := new Channel(initialSize);
      this.maxSize, this.zero := maxSize, zero;
      closed, hasHead, head, stuck := false, false, zero, false;
    }

    ghost predicate Valid()
      reads this, queue
    {
      |queue.items| <= queue.cap && (!stuck ==> queue.closed == closed)
    }

    /** The stashed head followed by what is in the channel. */
    ghost function Contents(): seq<T>
      reads this, queue
    {
      (if hasHead then [head] else []) + queue.items
    }

    ghost function State(): Queue<T>
      reads this, queue
    {
      Queue(Contents(), hasHead, queue.cap, maxSize, closed)
    }

    /** Appends in order, growing the channel to at most twice its capacity and never past maxSize.
        It blocks exactly when a channel of capacity 0 would have to grow. */
    method Enqueue(item: T) returns (res: Outcome)
      requires Valid() && !stuck
      modifies this, queue
      ensures Valid() && hasHead == old(hasHead) && head == old(head)
      ensures res.QueueClosed? <==> old(closed)
      ensures res.QueueFull? <==> !old(closed) && |old(queue.items)| == old(queue.cap) >= maxSize
      ensures res.Blocks? <==> !old(closed) && old(queue.cap) == 0 < maxSize
      ensures stuck <==> res.Blocks?
      ensures !res.Blocks? ==> State() == Step(old(State()), Call.Enqueue(item))
      ensures res.Accepted? ==> Contents() == old(Contents()) + [item] && closed == old(closed)
      ensures res.QueueClosed? || res.QueueFull? ==>
                Contents() == old(Contents()) && closed == old(closed) && queue == old(queue)
      ensures res.Accepted? ==>
                queue.cap == if |old(queue.items)| < old(queue.cap) then old(queue.cap)
                             else Min(2 * old(queue.cap), maxSize)
      ensures queue == old(queue) || fresh(queue)
    {
      if closed {
        return QueueClosed;
      }
      if |queue.items| < queue.cap {
        queue.Send(item);
        return Accepted;
      }
      if queue.cap >= maxSize {
        return QueueFull;
      }
      var newSize := queue.cap * 2;
      if newSize > maxSize {
        newSize := maxSize;
      }
      var newCh: Channel<T> := new Channel<T>(newSize);
      queue.Close();
      while queue.items != []
        invariant queue == old(queue) && fresh(newCh) && newCh.cap == newSize && !newCh.closed
        invariant newCh.items + queue.items == old(queue.items)
        modifies queue`items, newCh`items
        decreases |queue.items|
      {
        var v := queue.Receive();
        newCh.Send(v);
      }
      if |newCh.items| == newCh.cap {
        stuck := true;
        return Blocks;
      }
      newCh.Send(item);
      queue := newCh;
      res := Accepted;
    }

    method Dequeue() returns (v: T)
      requires Valid() && !stuck
      modifies this`hasHead, this`head, queue`items
      ensures Valid() && State() == Step(old(State()), Call.Dequeue)
      ensures Contents() == if old(Contents()) == [] then [] else old(Contents())[1..]
      ensures v == if old(Contents()) == [] then zero else old(Contents())[0]
    {
      if hasHead {
        v := head;
        head, hasHead := zero, false;
        return;
      }
      if queue.items != [] {
        v := queue.Receive();
      } else {
        v := zero;
      }
    }

    /** Observes without changing what later calls return. */
    method Peek() returns (v: T, ok: bool)
      requires Valid() && !stuck
      modifies this`hasHead, this`head, queue`items
      ensures Valid() && State() == Step(old(State()), Call.Peek) && Contents() == old(Contents())
      ensures ok <==> Contents() != []
      ensures v == if ok then Contents()[0] else zero
    {
      if hasHead {
        return head, true;
      }
      if queue.items != [] {
        v := queue.Receive();
        head, hasHead, ok := v, true, true;
      } else {
        v, ok := zero, false;
      }
    }

    method IsEmpty() returns (empty: bool)
      requires Valid() && !stuck
      ensures empty <==> Contents() == []
    {
      empty := !hasHead && |queue.items| == 0;
    }

    method Size() returns (n: nat)
      requires Valid() && !stuck
      ensures n == |Contents()|
    {
      n := |queue.items|;
      if hasHead {
        n := n + 1;
      }
    }

    method Close()
      requires Valid() && !stuck
      modifies this`closed, queue`closed
      ensures Valid() && State() == Step(old(State()), Call.Close)
      ensures closed && Contents() == old(Contents())
    {
      if closed {
        return;
      }
      closed := true;
      queue.Close();
    }
  }

  // ---- Whole runs --------------------------------------------------------------------

  datatype Call<T> = Enqueue(item: T) | Dequeue | Peek | Close

  /** The abstract state of a queue that is not stuck; `stashed` tells whether its first item has left
      the channel for the stash. */
  datatype Queue<T> = Queue(contents: seq<T>, stashed: bool, cap: nat, maxSize: int, closed: bool)

  /** The calls a queue with these fields accepts. */
  predicate Accepts<T>(q: Queue<T>) {
    !q.closed && (InChannel(q) < q.cap || q.cap < q.maxSize)
  }

  function InChannel<T>(q: Queue<T>): int {
    |q.contents| - if q.stashed then 1 else 0
  }

  function Grown(cap: nat, maxSize: int): nat {
    if 2 * cap > maxSize then (if maxSize > cap then maxSize else cap) else 2 * cap
  }

  function Step<T>(q: Queue<T>, c: Call<T>): Queue<T> {
    match c
    case Enqueue(x) =>
      if !Accepts(q) then q
      else q.(contents := q.contents + [x], cap := if InChannel(q) < q.cap then q.cap else Grown(q.cap, q.maxSize))
    case Dequeue => if q.contents == [] then q else q.(contents := q.contents[1..], stashed := false)
    case Peek => q.(stashed := q.contents != [])
    case Close => q.(closed := true)
  }

  function RunCalls<T>(q: Queue<T>, calls: seq<Call<T>>): Queue<T> {
    if calls == [] then q else Step(RunCalls(q, calls[..|calls| - 1]), Last(calls))
  }

  function Entering<T>(q: Queue<T>, c: Call<T>): seq<T> {
    if c.Enqueue? && Accepts(q) then [c.item] else []
  }

  function Leaving<T>(q: Queue<T>, c: Call<T>): seq<T> {
    if c.Dequeue? && q.contents != [] then [q.contents[0]] else []
  }

  /** Items accepted by Enqueue, in the order of the calls. */
  function Entered<T>(q: Queue<T>, calls: seq<Call<T>>): seq<T> {
    if calls == [] then []
    else Entered(q, calls[..|calls| - 1]) + Entering(RunCalls(q, calls[..|calls| - 1]), Last(calls))
  }

  /** Items returned by Dequeue, in the order of the calls. */
  function Left<T>(q: Queue<T>, calls: seq<Call<T>>): seq<T> {
    if calls == [] then []
    else Left(q, calls[..|calls| - 1]) + Leaving(RunCalls(q, calls[..|calls| - 1]), Last(calls))
  }

  predicate WellSized<T>(q: Queue<T>) {
    && (q.stashed ==> q.contents != [])
    && 1 <= q.cap <= q.maxSize && 0 <= InChannel(q) <= q.cap
  }

  lemma StepFifo<T>(q: Queue<T>, c: Call<T>)
    ensures q.contents + Entering(q, c) == Leaving(q, c) + Step(q, c).contents
  {
  }

  lemma StepSized<T>(q: Queue<T>, c: Call<T>)
    requires WellSized(q)
    ensures var r := Step(q, c);
            WellSized(r) && q.cap <= r.cap && r.maxSize == q.maxSize && (q.closed ==> r.closed && Entering(q, c) == [])
  {
  }

  ghost predicate InOrder<T>(q: Queue<T>, calls: seq<Call<T>>) {
    q.contents + Entered(q, calls) == Left(q, calls) + RunCalls(q, calls).contents
  }

  lemma Regroup<T>(q: seq<T>, entered: seq<T>, left: seq<T>, inside: seq<T>, e: seq<T>, l: seq<T>, next: seq<T>)
    requires q + entered == left + inside && inside + e == l + next
    ensures q + (entered + e) == left + l + next
  {
    assert q + (entered + e) == (left + inside) + e == left + (inside + e) == left + (l + next);
  }

  lemma FifoStep<T>(q: Queue<T>, calls: seq<Call<T>>)
    requires calls != [] && WellSized(q)
    requires var init := calls[..|calls| - 1];
             var m := RunCalls(q, init);
             && InOrder(q, init) && WellSized(m) && q.cap <= m.cap && m.maxSize == q.maxSize
             && (q.closed ==> m.closed && Entered(q, init) == [])
    ensures var r := RunCalls(q, calls);
            && InOrder(q, calls) && WellSized(r) && q.cap <= r.cap && r.maxSize == q.maxSize
            && (q.closed ==> r.closed && Entered(q, calls) == [])
  {
    hide WellSized, Step, Entering, Leaving;
    var init, c := calls[..|calls| - 1], Last(calls);
    var m := RunCalls(q, init);
    StepSized(m, c);
    StepFifo(m, c);
    Regroup(q.contents, Entered(q, init), Left(q, init), m.contents, Entering(m, c), Leaving(m, c),
      Step(m, c).contents);
  }

  /** First in, first out over every run: what left followed by what is inside is what entered, and
      the channel's capacity stays between its initial value and maxSize. */
  lemma {:induction false} Fifo<T>(q: Queue<T>, calls: seq<Call<T>>)
    requires WellSized(q)
    ensures var r := RunCalls(q, calls);
            && q.contents + Entered(q, calls) == Left(q, calls) + r.contents
            && WellSized(r) && q.cap <= r.cap && r.maxSize == q.maxSize && |r.contents| <= q.maxSize + 1
            && (q.closed ==> r.closed && Entered(q, calls) == [])
    decreases |calls|
  {
    if calls != [] {
      Fifo(q, calls[..|calls| - 1]);
      FifoStep(q, calls);
    }
  }

  /** Closed or not, dequeuing as often as there are items returns them all in order. */
  lemma {:induction false} DrainsInOrder<T>(q: Queue<T>, n: nat)
    requires n <= |q.contents|
    ensures var calls := seq(n, _ => Dequeue);
            Left(q, calls) == q.contents[..n] && RunCalls(q, calls).contents == q.contents[n..]
  {
    var calls: seq<Call<T>> := seq(n, _ => Dequeue);
    if n > 0 {
      DrainsInOrder(q, n - 1);
      assert calls[..n - 1] == seq(n - 1, _ => Dequeue);
      assert q.contents[..n] == q.contents[..n - 1] + [q.contents[n - 1]];
    }
  }
}
