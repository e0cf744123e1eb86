/** The ring buffer of available cashiers in BurgerBuddies.c: one slot more than there are cashiers. */
module CashierQueue {

  datatype Ring = Ring(head: int, tail: int, buf: seq<int>) {

    predicate Valid() { 0 <= head < |buf| && -1 <= tail < |buf| }

    /** queueSize */
    function Size(): nat
      requires Valid()
    {
      (tail + 1 - head + |buf|) % |buf|
    }

    /** The waiting ids, oldest first. */
    function Contents(): seq<int>
      requires Valid()
    {
      seq(Size(), k requires 0 <= k < Size() => buf[(head + k) % |buf|])
    }

    /** enqueue */
    function Enqueue(id: int): Ring
      requires Valid()
    {
      var tail' := (tail + 1) % |buf|;
      Ring(head, tail', buf[tail' := id])
    }

    /** dequeue: 0 when nothing waits */
    function Dequeue(): (Ring, int)
      requires Valid()
    {
      if head != (tail + 1) % |buf| then (Ring((head + 1) % |buf|, tail, buf), buf[head]) else (this, 0)
    }
  }

  lemma Wrap(x: int, m: int)
    requires 0 <= x <= 2 * m && m > 0
    ensures x % m == if x < m then x else if x < 2 * m then x - m else 0
  {
    var q, r := x / m, x % m;
    assert x == m * q + r;
    Multiples(m, q);
  }

  lemma Multiples(m: int, q: int)
    requires m > 0
    ensures (q < 0 ==> m * q <= -m) && (q > 2 ==> m * q >= 3 * m)
  {
  }

  lemma SizeIs(r: Ring)
    requires r.Valid()
    ensures var d := r.tail + 1 - r.head;
            r.Size() == (if 0 <= d < |r.buf| then d else if d < 0 then d + |r.buf| else 0) < |r.buf|
  {
    Wrap(r.tail + 1 - r.head + |r.buf|, |r.buf|);
  }

  /** An enqueue with a slot to spare appends. */
  lemma EnqueueAppends(r: Ring, id: int)
    requires r.Valid() && r.Size() + 1 < |r.buf|
    ensures r.Enqueue(id).Valid() && r.Enqueue(id).Contents() == r.Contents() + [id]
  {
    var m, e := |r.buf|, r.Enqueue(id);
    Wrap(r.tail + 1, m);
    SizeIs(r);
    SizeIs(e);
    var n := r.Size();
    assert e.Size() == n + 1;
    forall k | 0 <= k <= n ensures e.Contents()[k] == (r.Contents() + [id])[k] {
      Wrap(r.head + k, m);
    }
  }

  /** A dequeue takes the oldest id, or returns 0 and changes nothing when there is none. */
  lemma DequeueTakesFirst(r: Ring)
    requires r.Valid()
    ensures var (d, id) := r.Dequeue();
            && d.Valid()
            && (r.Contents() == [] ==> d == r && id == 0)
            && (r.Contents() != [] ==> [id] + d.Contents() == r.Contents())
  {
    var m := |r.buf|;
    var (d, id) := r.Dequeue();
    Wrap(r.tail + 1, m);
    Wrap(r.head + 1, m);
    SizeIs(r);
    SizeIs(d);
    if r.Contents() != [] {
      Wrap(r.head, m);
      assert d.Size() == r.Size() - 1;
      forall k | 0 <= k < d.Size() ensures d.Contents()[k] == r.Contents()[k + 1] {
        Wrap(r.head + k + 1, m);
        Wrap(d.head + k, m);
      }
    }
  }

  /** The globals head, tail and sleepingQueue. */
  class SleepingQueue {
    var head: int
    var tail: int
    const cashiers: nat
    const sleepingQueue: array<int>

    ghost function Value(): Ring
      reads this, sleepingQueue
    {
      Ring(head, tail, sleepingQueue[..])
    }

    ghost predicate Valid()
      reads this, sleepingQueue
    {
      sleepingQueue.Length == cashiers + 1 && Value().Valid()
    }

    constructor (cashiers: nat)
      ensures Valid() && fresh(sleepingQueue) && this.cashiers == cashiers && Value().Contents() == []
    {
      this.cashiers := cashiers;
      head, tail := 0, -1;
      sleepingQueue := new int[cashiers + 1];
      new;
      SizeIs(Value());
    }

    method QueueSize() returns (n: nat)
      requires Valid()
      ensures n == |Value().Contents()|
    {
      n := (tail + 1 - head + cashiers + 1) % (cashiers + 1);
    }

    method Enqueue(id: int)
      requires Valid() && |Value().Contents()| < cashiers
      modifies `tail, sleepingQueue
      ensures Valid() && Value() == old(Value()).Enqueue(id) && Value().Contents() == old(Value().Contents()) + [id]
    {
      EnqueueAppends(Value(), id);
      Wrap(tail + 1, cashiers + 1);
      tail := (tail + 1) % (cashiers + 1);
      sleepingQueue[tail] := id;
    }

    method Dequeue() returns (res: int)
      requires Valid()
      modifies `head
      ensures Valid() && (Value(), res) == old(Value()).Dequeue()
      ensures old(Value().Contents()) == if res == 0 && old(Value().Contents()) == [] then []
              else [res] + Value().Contents()
    {
      DequeueTakesFirst(Value());
      Wrap(head + 1, cashiers + 1);
      Wrap(tail + 1, cashiers + 1);
      res := 0;
      if head != (tail + 1) % (cashiers + 1) {
        res := sleepingQueue[head];
        head := (head + 1) % (cashiers + 1);
      }
    }
  }
}
