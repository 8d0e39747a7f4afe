/** A fixed-capacity history buffer: a counter `head`, a `capacity` and a
    double-ended queue `buf`. A put into a full buffer drops the oldest
    element (the front) and appends the new one at the back, so the buffer
    is first-in first-out. */
module RingBuffer {

  function Min(a: int, b: int): int { if a <= b then a else b }

  /** The last `k` elements of `s` (all of `s` when it is shorter):
      drop from the front until at most `k` are left. */
  function Last<T>(s: seq<T>, k: nat): (r: seq<T>)
    ensures |r| == Min(k, |s|)
    decreases |s|
  {
    if |s| <= k then s else Last(s[1..], k)
  }

  /** `Last` is the suffix of the stated length. */
  lemma {:induction false} LastIsSuffix<T>(s: seq<T>, k: nat)
    ensures Last(s, k) == s[|s| - Min(k, |s|)..]
    decreases |s|
  {
    if |s| > k {
      LastIsSuffix(s[1..], k);
      assert s[1..][|s| - 1 - k..] == s[|s| - k..];
    }
  }

  /** `VecDeque::pop_front` with its result discarded: no-op on an empty deque. */
  function PopFront<T>(s: seq<T>): seq<T>
  {
    if s == [] then [] else s[1..]
  }

  /** How many elements the deque keeps: `capacity`, except that a buffer
      of capacity 0 still keeps the element just pushed. */
  function Room(capacity: nat): nat
  {
    if capacity == 0 then 1 else capacity
  }

  /** The state of a `RingBuf`, as a value. */
  datatype Snapshot<T> = Snapshot(head: nat, capacity: nat, buf: seq<T>)

  /** What every constructor establishes and `put` keeps: the counter never
      passes the capacity, and it equals the deque's length, except in the
      degenerate capacity-0 buffer, whose counter stays 0 while the deque
      holds the latest item. */
  predicate Inv<T>(s: Snapshot<T>)
  {
    s.head <= s.capacity &&
    (|s.buf| == s.head || (s.capacity == 0 && |s.buf| == 1))
  }

  /** One `put`, on values. */
  function PutStep<T>(s: Snapshot<T>, item: T): Snapshot<T>
  {
    if s.head == s.capacity then
      Snapshot(s.head, s.capacity, PopFront(s.buf) + [item])
    else
      Snapshot(s.head + 1, s.capacity, s.buf + [item])
  }

  /** One put into a consistent buffer keeps the capacity and the
      invariant, leaves the deque holding the last `Room(capacity)` of the
      old contents followed by `item`, and counts one more up to the
      capacity (never, at capacity 0). */
  lemma PutStepKeepsLast<T>(s: Snapshot<T>, item: T)
    requires Inv(s)
    ensures PutStep(s, item).capacity == s.capacity
    ensures Inv(PutStep(s, item))
    ensures PutStep(s, item).buf == Last(s.buf + [item], Room(s.capacity))
    ensures PutStep(s, item).head ==
              (if s.capacity == 0 then 0 else Min(s.head + 1, s.capacity))
  {
    if s.head == s.capacity && s.buf != [] {
      assert (s.buf + [item])[1..] == s.buf[1..] + [item];
      assert Last(s.buf[1..] + [item], Room(s.capacity)) == s.buf[1..] + [item];
    }
  }

  /** `items` put one after the other, first to last. */
  function PutAll<T>(s: Snapshot<T>, items: seq<T>): Snapshot<T>
    decreases |items|
  {
    if items == [] then s
    else PutStep(PutAll(s, items[..|items| - 1]), items[|items| - 1])
  }

  /** Keeping the last `k` and then the last `k` of that plus one more is
      keeping the last `k` of everything. */
  lemma {:induction false} LastAppend<T>(x: seq<T>, y: T, k: nat)
    requires k >= 1
    ensures Last(Last(x, k) + [y], k) == Last(x + [y], k)
    decreases |x|
  {
    if |x| > k {
      LastAppend(x[1..], y, k);
      assert (x + [y])[1..] == x[1..] + [y];
    }
  }

  /** After any sequence of puts into a consistent buffer, the invariant
      still holds, the capacity is unchanged, the deque holds the last
      `Room(capacity)` of the old contents followed by the items, oldest
      first, and the counter has grown by the number of puts up to the
      capacity. */
  lemma {:induction false} PutAllKeepsLast<T>(s: Snapshot<T>, items: seq<T>)
    requires Inv(s)
    ensures PutAll(s, items).capacity == s.capacity
    ensures Inv(PutAll(s, items))
    ensures PutAll(s, items).buf == Last(s.buf + items, Room(s.capacity))
    ensures PutAll(s, items).head ==
              (if s.capacity == 0 then 0 else Min(s.head + |items|, s.capacity))
    decreases |items|
  {
    if items == [] {
      assert s.buf + items == s.buf;
    } else {
      var n, R := |items|, Room(s.capacity);
      var init, x := items[..n - 1], items[n - 1];
      var prev := PutAll(s, init);
      PutAllKeepsLast(s, init);
      assert prev.buf == Last(s.buf + init, R);
      PutStepKeepsLast(prev, x);
      var r := PutStep(prev, x);
      assert PutAll(s, items) == r;
      LastAppend(s.buf + init, x, R);
      assert r.buf == Last((s.buf + init) + [x], R);
      assert s.buf + items == (s.buf + init) + [x] by {
        assert items == init + [x];
      }
    }
  }

  /** Starting from `new(c)` with `c >= 1`, after `n` puts the capacity is
      still `c`, the counter and the deque length are both `min(n, c)`
      (so never above `c`), and the deque
      holds the last `min(n, c)` items put, oldest first. */
  lemma NewThenPuts<T>(c: nat, items: seq<T>)
    requires c >= 1
    ensures PutAll(Snapshot(0, c, []), items).capacity == c
    ensures PutAll(Snapshot(0, c, []), items).head == Min(|items|, c)
    ensures |PutAll(Snapshot(0, c, []), items).buf| == Min(|items|, c)
    ensures PutAll(Snapshot(0, c, []), items).buf == items[|items| - Min(|items|, c)..]
  {
    var s := Snapshot(0, c, []);
    PutAllKeepsLast(s, items);
    assert s.buf + items == items;
    LastIsSuffix(items, c);
  }

  /** Starting from `from(v)`, the same holds with the capacity `|v|`:
      the deque holds the last `|v|` elements of `v` followed by the
      items put. */
  lemma FromThenPuts<T>(v: seq<T>, items: seq<T>)
    requires |v| >= 1
    ensures var r := PutAll(Snapshot(|v|, |v|, v), items);
      r.head == |r.buf| == r.capacity == |v| &&
      r.buf == (v + items)[|items|..]
  {
    PutAllKeepsLast(Snapshot(|v|, |v|, v), items);
    LastIsSuffix(v + items, |v|);
  }

  /** A buffer of capacity 0 reports length 0 forever, yet after at least
      one put its deque holds exactly the most recent item. */
  lemma CapacityZero<T>(items: seq<T>)
    ensures PutAll(Snapshot(0, 0, []), items).head == 0
    ensures items == [] ==> PutAll(Snapshot(0, 0, []), items).buf == []
    ensures items != [] ==> PutAll(Snapshot(0, 0, []), items).buf == [items[|items| - 1]]
  {
    PutAllKeepsLast(Snapshot(0, 0, []), items);
    assert [] + items == items;
    LastIsSuffix(items, 1);
  }

  /** A put into a full buffer of capacity at least 1 evicts exactly the
      oldest element and keeps the order of the rest; a put into a buffer
      that is not full keeps everything and appends. */
  lemma PutEvictsOnlyOldest<T>(s: Snapshot<T>, item: T)
    requires Inv(s)
    ensures s.head == s.capacity > 0 ==>
      PutStep(s, item).buf == s.buf[1..] + [item] && |PutStep(s, item).buf| == |s.buf|
    ensures s.head < s.capacity ==>
      PutStep(s, item).buf == s.buf + [item] && PutStep(s, item).head == s.head + 1
  {
    if s.head == s.capacity > 0 {
      assert (s.buf + [item])[1..] == s.buf[1..] + [item];
    }
  }

  /** `RingBuf<T>`: the fields of the Rust struct. `buf` is public there,
      so `put` is specified for any state and keeps the invariant when it
      held before. */
  class RingBuf<T> {
    var head: nat
    var capacity: nat
    var buf: seq<T>

    ghost function Model(): Snapshot<T>
      reads this
    {
      Snapshot(head, capacity, buf)
    }

    ghost predicate Valid()
      reads this
    {
      Inv(Model())
    }

    /** `RingBuf::new(capacity)`: empty, counter 0. */
    constructor New(capacity: nat)
      ensures Valid()
      ensures this.head == 0 && this.capacity == capacity && buf == []
    {
      head := 0;
      this.capacity := capacity;
      buf := [];
    }

    /** `RingBuf::from(items)`: full, with the capacity fixed at `|items|`. */
    constructor FromVec(items: seq<T>)
      ensures Valid()
      ensures head == |items| && capacity == |items| && buf == items
    {
      head := |items|;
      capacity := |items|;
      buf := items;
    }

    /** `put`: when the counter has reached the capacity, drop the front of
        the deque (if any) and keep the counter; otherwise count one more.
        Either way append `item` at the back. */
    method Put(item: T)
      modifies this
      ensures Model() == PutStep(old(Model()), item)
      ensures capacity == old(capacity)
      ensures old(head) < old(capacity) ==> head == old(head) + 1 && buf == old(buf) + [item]
      ensures old(head) == old(capacity) ==> head == old(head) && buf == PopFront(old(buf)) + [item]
      ensures old(Valid()) ==> Valid()
    {
      if head == capacity {
        buf := PopFront(buf);
      } else {
        head := head + 1;
      }
      buf := buf + [item];
    }

    /** `get`: the deque as it is. */
    method Get() returns (s: seq<T>)
      ensures s == buf
    {
      s := buf;
    }

    /** `len`: the counter, which is not the deque's length when the
        capacity is 0. */
    method Len() returns (n: nat)
      ensures n == head
    {
      n := head;
    }
  }
}

/** The two unit tests of the buffer, as clients of the class. */
module RingBufferTests {
  import opened RingBuffer

  /** From `[1..9]`, putting `10..15` in turn leaves length 9, front 7, back 15. */
  method TestRingBufFromVec() returns (len: nat, front: int, back: int)
    ensures len == 9 && front == 7 && back == 15
  {
    var v := [1, 2, 3, 4, 5, 6, 7, 8, 9];
    var items := [10, 11, 12, 13, 14, 15];
    var r := new RingBuf<int>.FromVec(v);
    for i := 0 to |items|
      invariant r.Model() == PutAll(Snapshot(9, 9, v), items[..i])
    {
      assert items[..i + 1][..i] == items[..i];
      r.Put(items[i]);
    }
    assert items[..|items|] == items;
    FromThenPuts(v, items);
    len := r.Len();
    var s := r.Get();
    assert s == (v + items)[6..];
    front := s[0];
    back := s[|s| - 1];
  }

  /** Capacity 2, putting `0..5` in a loop leaves length 2, back 5. */
  method TestRingBufNew() returns (len: nat, back: int)
    ensures len == 2 && back == 5
  {
    var items := [0, 1, 2, 3, 4, 5];
    var r := new RingBuf<int>.New(2);
    for i := 0 to |items|
      invariant r.Model() == PutAll(Snapshot(0, 2, []), items[..i])
    {
      assert items[..i + 1][..i] == items[..i];
      r.Put(items[i]);
    }
    assert items[..|items|] == items;
    NewThenPuts(2, items);
    len := r.Len();
    var s := r.Get();
    back := s[|s| - 1];
  }
}
