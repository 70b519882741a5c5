/** The weighted bounded FIFO between the camera producer and its consumer: `native/src/bounded.rs`. */
module BoundedQueue {
  import opened Prelude

  datatype Item<T> = Item(value: T, weight: nat)

  datatype Queue<T> = Queue(capacity: nat, byteCapacity: nat, items: seq<Item<T>>, bytes: nat, closed: bool, peak: nat)

  function Weight<T>(items: seq<Item<T>>): nat {
    if items == [] then 0 else items[0].weight + Weight(items[1..])
  }

  ghost predicate QueueOk<T>(q: Queue<T>) {
    && q.bytes == Weight(q.items) <= q.byteCapacity
    && |q.items| <= q.peak <= q.capacity
    && (q.closed ==> q.items == [])
  }

  function Empty<T>(capacity: nat, byteCapacity: nat): Queue<T> {
    Queue(capacity, byteCapacity, [], 0, false, 0)
  }

  function Accepts<T>(q: Queue<T>, weight: nat): bool {
    !q.closed && |q.items| != q.capacity && weight <= Max(q.byteCapacity - q.bytes, 0)
  }

  /** `try_push`. */
  function Pushed<T>(q: Queue<T>, value: T, weight: nat): Queue<T> {
    if Accepts(q, weight)
    then q.(items := q.items + [Item(value, weight)], bytes := q.bytes + weight, peak := Max(q.peak, |q.items| + 1))
    else q
  }

  datatype Received<T> = Value(value: T) | Timeout | Disconnected

  /** `receive`, once the wait is over: it ends when the queue is readable or closed, or by timing out. */
  function Popped<T>(q: Queue<T>): (Received<T>, Queue<T>)
    requires QueueOk(q)
  {
    if q.closed then (Disconnected, q)
    else if q.items == [] then (Timeout, q)
    else (Value(q.items[0].value), q.(items := q.items[1..], bytes := q.bytes - q.items[0].weight))
  }

  lemma {:induction false} WeightSnoc<T>(items: seq<Item<T>>, item: Item<T>)
    ensures Weight(items + [item]) == Weight(items) + item.weight
  {
    if items == [] {
      assert [item][1..] == [];
    } else {
      WeightSnoc(items[1..], item);
      assert (items + [item])[1..] == items[1..] + [item];
    }
  }

  lemma {:induction false} PushKeeps<T>(q: Queue<T>, value: T, weight: nat)
    requires QueueOk(q)
    ensures QueueOk(Pushed(q, value, weight))
  {
    WeightSnoc(q.items, Item(value, weight));
  }

  class Channel<T(==)> {
    const capacity: nat
    const byteCapacity: nat
    const weight: T -> nat
    var queue: seq<Item<T>>
    var bytes: nat
    var closed: bool
    var peak: nat

    ghost function View(): Queue<T>
      reads this
    {
      Queue(capacity, byteCapacity, queue, bytes, closed, peak)
    }

    ghost predicate Valid()
      reads this
    {
      QueueOk(View())
    }

    constructor (capacity: nat, byteCapacity: nat, weight: T -> nat)
      requires capacity > 0
      ensures Valid() && View() == Empty(capacity, byteCapacity) && this.weight == weight
      ensures !closed && queue == [] && bytes == 0 && peak == 0
    {
      this.capacity, this.byteCapacity, this.weight := capacity, byteCapacity, weight;
      queue, bytes, closed, peak := [], 0, false, 0;
    }

    /** A value is refused, unchanged, exactly when the queue is closed, full, or short of bytes for it. */
    method TryPush(value: T) returns (ok: bool)
      requires Valid()
      modifies this
      ensures Valid()
      ensures ok <==> old(!closed && |queue| < capacity && bytes + weight(value) <= byteCapacity)
      ensures View() == Pushed(old(View()), value, weight(value))
      ensures ok ==> queue == old(queue) + [Item(value, weight(value))] && bytes == old(bytes) + weight(value)
      ensures ok ==> peak == Max(old(peak), |queue|) && !closed
      ensures !ok ==> View() == old(View())
    {
      PushKeeps(View(), value, weight(value));
      var needed := weight(value);
      if closed || |queue| == capacity || needed > Max(byteCapacity - bytes, 0) {
        return false;
      }
      bytes := bytes + needed;
      queue := queue + [Item(value, needed)];
      peak := Max(peak, |queue|);
      return true;
    }

    /** The oldest value; the byte counter never underflows, and a closed queue holds nothing to deliver. */
    method Receive() returns (r: Received<T>)
      requires Valid()
      modifies this
      ensures Valid()
      ensures (r, View()) == Popped(old(View()))
      ensures r.Value? <==> old(queue) != []
      ensures r.Value? ==> r.value == old(queue)[0].value && queue == old(queue)[1..]
      ensures r.Disconnected? <==> old(closed)
      ensures !r.Value? ==> View() == old(View())
      ensures closed == old(closed) && peak == old(peak)
    {
      if closed && queue == [] {
        return Disconnected;
      }
      if queue == [] {
        return Timeout;
      }
      var item := queue[0];
      queue := queue[1..];
      bytes := bytes - item.weight;
      return Value(item.value);
    }

    method CloseAndClear()
      requires Valid()
      modifies this
      ensures Valid()
      ensures View() == old(View()).(closed := true, items := [], bytes := 0)
    {
      closed := true;
      queue := [];
      bytes := 0;
    }

    method Reopen()
      requires Valid() && queue == []
      modifies this
      ensures Valid()
      ensures View() == old(View()).(closed := false, peak := 0)
    {
      closed := false;
      peak := 0;
    }
  }
}
