/** internal/event/buffer.go: the bounded write buffer, its flush goroutines and its shutdown, with the
    slices and their backing arrays as Go has them. */
module EventBuffer {
  // ---- Slices that share backing arrays only with themselves ---------------------------

  /** A Go slice that starts at the beginning of its backing array. Elements are event pointers. */
  class Slice {
    var arr: array<int>
    var len: nat

    constructor (cap: nat)
      ensures Valid() && Contents() == [] && fresh(arr) && arr.Length == cap
    {
      arr := new int[cap];
      len := 0;
    }

    ghost predicate Valid()
      reads this
    {
      len <= arr.Length
    }

    ghost function Contents(): seq<int>
      requires Valid()
      reads this, arr
    {
      arr[..len]
    }

    /** append: in place if there is capacity, into a new array otherwise. */
    method Append(x: int)
      requires Valid()
      modifies this, arr
      ensures Valid() && Contents() == old(Contents()) + [x]
      ensures arr == old(arr) || fresh(arr)
    {
      if len == arr.Length {
        Grow(2 * arr.Length + 1);
      }
      arr[len] := x;
      len := len + 1;
    }

    method AppendAll(src: Slice)
      requires Valid() && src.Valid() && src != this && src.arr != arr
      modifies this, arr
      ensures Valid() && Contents() == old(Contents()) + src.Contents()
      ensures arr == old(arr) || fresh(arr)
    {
      if len + src.len > arr.Length {
        Grow(len + src.len);
      }
      for i := 0 to src.len
        invariant len + src.len <= arr.Length
        invariant arr[..len + i] == old(Contents()) + src.arr[..i]
        modifies arr
      {
        arr[len + i] := src.arr[i];
      }
      len := len + src.len;
    }

    method Grow(cap: nat)
      requires Valid() && cap > arr.Length
      modifies this`arr
      ensures Valid() && fresh(arr) && arr.Length == cap && Contents() == old(Contents())
    {
      var bigger := new int[cap];
      for i := 0 to len
        invariant bigger[..i] == arr[..i]
        modifies bigger
      {
        bigger[i] := arr[i];
      }
      arr := bigger;
    }

    /** s = s[:0]: the array is kept for reuse. */
    method Truncate()
      modifies this`len
      ensures Valid() && Contents() == []
    {
      len := 0;
    }
  }

  /** Different slices that share no backing array. */
  predicate Apart(a: Slice, b: Slice)
    reads a, b
  {
    a != b && a.arr != b.arr
  }

  /** Buffer, batches being written and pooled batches. */
  class WriteBuffer {
    var buffer: Slice
    var inflight: seq<Slice>
    var pool: seq<Slice>
    var dropped: nat
    var closed: bool
    var batchSize: int
    const maxBufferSize: nat

    constructor (batchSize: nat)
      ensures Valid() && fresh(buffer) && fresh(buffer.arr) && this.batchSize == batchSize
      ensures buffer.Contents() == [] && inflight == [] && pool == [] && dropped == 0 && !closed
      ensures maxBufferSize == if batchSize * 50 < 50000 then 50000 else batchSize * 50
    {
      buffer := new Slice(batchSize);
      inflight, pool, dropped, closed, this.batchSize := [], [], 0, false, batchSize;
      maxBufferSize := if batchSize * 50 < 50000 then 50000 else batchSize * 50;
    }

    /** No two slices share a backing array, pooled ones are empty, and the buffer is bounded. */
    ghost predicate Valid()
      reads this, buffer, inflight, pool
    {
      && buffer.Valid() && buffer.len <= maxBufferSize
      && (forall s :: s in inflight ==> s.Valid() && Apart(s, buffer))
      && (forall s :: s in pool ==> s.Valid() && s.len == 0 && Apart(s, buffer))
      && (forall s, t :: s in inflight && t in pool ==> Apart(s, t))
      && (forall i, j :: 0 <= i < j < |inflight| ==> Apart(inflight[i], inflight[j]))
      && (forall i, j :: 0 <= i < j < |pool| ==> Apart(pool[i], pool[j]))
    }

    /** The events of the batches being written are where they were, and unchanged. */
    twostate predicate InflightKept(kept: seq<Slice>)
      reads this, buffer, inflight, pool, kept, set s | s in kept :: s.arr
    {
      forall s :: s in kept ==> old(s.Valid()) && s.Valid() && s.arr == old(s.arr) && s.Contents() == old(s.Contents())
    }

    /** Refuses after Shutdown, drops and counts at the limit, otherwise appends; no batch being
        written changes. */
    method Add(x: int) returns (shouldFlush: bool)
      requires Valid()
      modifies this`dropped, buffer, buffer.arr
      ensures Valid() && InflightKept(inflight)
      ensures buffer.Contents() == if closed || |old(buffer.Contents())| >= maxBufferSize then old(buffer.Contents())
                                   else old(buffer.Contents()) + [x]
      ensures dropped == old(dropped) + if !closed && |old(buffer.Contents())| >= maxBufferSize then 1 else 0
      ensures shouldFlush <==> !closed && |old(buffer.Contents())| < maxBufferSize && |buffer.Contents()| >= batchSize
    {
      if closed {
        return false;
      }
      if buffer.len >= maxBufferSize {
        dropped := dropped + 1;
        return false;
      }
      buffer.Append(x);
      shouldFlush := buffer.len >= batchSize;
    }

    /** batchPool.Get: an empty slice that shares nothing. */
    method Get() returns (batch: Slice)
      requires Valid()
      modifies this`pool
      ensures Valid() && batch.Valid() && batch.len == 0 && Apart(batch, buffer)
      ensures forall s :: s in inflight || s in pool ==> Apart(s, batch)
      ensures (batch in old(pool) && batch.arr == old(batch.arr)) || (fresh(batch) && fresh(batch.arr))
    {
      if |pool| > 0 {
        batch := pool[|pool| - 1];
        assert forall s :: s in inflight ==> Apart(s, batch);
        assert forall i :: 0 <= i < |pool| - 1 ==> Apart(pool[i], pool[|pool| - 1]);
        pool := pool[..|pool| - 1];
      } else {
        batch := new Slice(if batchSize < 0 then 0 else batchSize);
      }
    }

    /** The first lock section of flushAndWrite: the events move to a pooled or new batch, and the
        buffer's array is reused for the events to come. */
    method TakeBatch() returns (batch: Slice?)
      requires Valid()
      modifies this`inflight, this`pool, buffer`len, pool, set s | s in pool :: s.arr
      ensures Valid() && InflightKept(old(inflight)) && buffer == old(buffer) && buffer.Contents() == []
      ensures batch == null <==> old(buffer.Contents()) == []
      ensures batch == null ==> inflight == old(inflight)
      ensures batch != null ==> inflight == old(inflight) + [batch] && batch.Valid()
      ensures batch != null ==> batch.Contents() == old(buffer.Contents())
    {
      if buffer.len == 0 {
        return null;
      }
      var b := Get();
      Fill(b);
      Register(b);
      batch := b;
    }

    method Register(b: Slice)
      requires Valid() && b.Valid() && Apart(b, buffer) && forall s :: s in inflight || s in pool ==> Apart(s, b)
      modifies this`inflight
      ensures Valid() && inflight == old(inflight) + [b]
    {
      inflight := inflight + [b];
    }

    method Fill(b: Slice)
      requires Valid() && b.Valid() && b.len == 0 && Apart(b, buffer)
      requires forall s :: s in inflight || s in pool ==> Apart(s, b)
      modifies buffer`len, b, b.arr
      ensures Valid() && b.Valid() && b.Contents() == old(buffer.Contents()) && buffer.Contents() == []
      ensures b.arr == old(b.arr) || fresh(b.arr)
      ensures Apart(b, buffer) && forall s :: s in inflight || s in pool ==> Apart(s, b)
      ensures InflightKept(inflight)
    {
      b.AppendAll(buffer);
      buffer.Truncate();
    }

    /** After writeBatch: the batch is emptied and goes back to the pool. */
    method Recycle(i: nat)
      requires Valid() && i < |inflight|
      modifies this`inflight, this`pool, inflight[i]
      ensures Valid() && InflightKept(old(inflight)[..i] + old(inflight)[i + 1..]) && buffer == old(buffer)
      ensures inflight == old(inflight)[..i] + old(inflight)[i + 1..] && pool == old(pool) + [old(inflight)[i]]
      ensures buffer.Contents() == old(buffer.Contents())
    {
      var batch := inflight[i];
      assert batch in inflight;
      forall j | 0 <= j < |inflight| && j != i ensures Apart(inflight[j], batch) {
        assert Apart(inflight[if i < j then i else j], inflight[if i < j then j else i]);
      }
      forall j | 0 <= j < |pool| ensures Apart(pool[j], batch) {
        assert pool[j] in pool;
      }
      batch.Truncate();
      inflight := inflight[..i] + inflight[i + 1..];
      pool := pool + [batch];
    }
  }
}
