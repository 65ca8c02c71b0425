/** The fixed-capacity log buffer of internal/core/log_manager.go as a refinement of a plain history. */
module RingBuffers {
  /** The last n elements, or all of them if there are fewer. */
  function LastN<T>(s: seq<T>, n: nat): (r: seq<T>)
    ensures |r| <= n && |r| <= |s|
  {
    if n < |s| then s[|s| - n..] else s
  }

  /** One more element enters a window of the last `capacity` ones. */
  lemma LastNPush<T>(s: seq<T>, x: T, capacity: nat)
    requires capacity > 0
    ensures LastN(s + [x], capacity) ==
              (if |LastN(s, capacity)| < capacity then LastN(s, capacity) else LastN(s, capacity)[1..]) + [x]
  {}

  lemma LastNOfLastN<T>(s: seq<T>, n: nat, capacity: nat)
    requires n <= capacity
    ensures LastN(LastN(s, capacity), n) == LastN(s, n)
  {}

  /** What circular storage holds, oldest first, when `head` is the next slot to write. */
  function Unrolled<T>(slots: seq<T>, head: nat, count: nat): seq<T>
    requires head <= |slots|
  {
    if count < |slots| then slots[..head] else slots[head..] + slots[..head]
  }

  lemma UnrolledPush<T>(slots: seq<T>, head: nat, count: nat, x: T)
    requires head < |slots| && count <= |slots| && (count < |slots| ==> head == count)
    ensures var next := if head + 1 == |slots| then 0 else head + 1;
            var n := if count < |slots| then count + 1 else count;
            Unrolled(slots[head := x], next, n) ==
              (if count < |slots| then Unrolled(slots, head, count) else Unrolled(slots, head, count)[1..]) + [x]
  {}

  /** i modulo size, for an index at most one lap too large. */
  function Lap(i: nat, size: nat): nat {
    if i < size then i else i - size
  }

  /** Reading n slots from (oldest + skip) on, wrapping once, gives the last n stored elements. */
  lemma WindowIsLast<T>(slots: seq<T>, head: nat, count: nat, n: nat, result: seq<T>)
    requires head < |slots| && n <= count <= |slots| && (count < |slots| ==> head == count)
    requires |result| == n
    requires var first := (if count < |slots| then 0 else head) + count - n;
             forall k | 0 <= k < n :: result[k] == slots[Lap(first + k, |slots|)]
    ensures result == LastN(Unrolled(slots, head, count), n)
  {
    var u := Unrolled(slots, head, count);
    assert |u| == count;
    forall k | 0 <= k < n
      ensures result[k] == u[count - n + k]
    {}
  }

  class RingBuffer<T> {
    const entries: array<T>
    const size: nat
    var head: nat
    var count: nat
    ghost var history: seq<T>   // everything ever added, oldest first

    ghost predicate Valid()
      reads this, entries
    {
      && entries.Length == size
      && (if size == 0 then head == 0 else head < size)
      && count == (if |history| < size then |history| else size)
      && (count < size ==> head == count)
      && Unrolled(entries[..], head, count) == LastN(history, size)
    }

    constructor (capacity: nat, filler: T)
      ensures Valid() && size == capacity && history == [] && fresh(entries)
    {
      entries := new T[capacity](_ => filler);
      size := capacity;
      head, count := 0, 0;
      history := [];
    }

    /** A buffer of capacity 0 can be made but not written to. */
    method Add(entry: T)
      requires Valid() && size > 0
      modifies this, entries
      ensures Valid() && history == old(history) + [entry]
    {
      LastNPush(history, entry, size);
      UnrolledPush(entries[..], head, count, entry);
      ghost var before := entries[..];
      entries[head] := entry;
      assert entries[..] == before[head := entry];
      head := Remainder(head + 1, size);
      if count < size {
        count := count + 1;
      }
      history := history + [entry];
    }

    method GetLast(n: int) returns (result: seq<T>)
      requires Valid()
      ensures result == LastN(history, if n <= 0 || n > size then size else n)
    {
      if count == 0 {
        return [];
      }
      var m := n;
      if n <= 0 || n >= count {
        m := count;
      }
      var slots := new T[m](_ requires 0 < entries.Length reads this, entries => entries[0]);
      var start := Remainder(head - m + size * 2, size);
      var oldest: nat;
      if count < size {
        oldest := 0;
      } else {
        oldest := head;
      }
      var skip := count - m;
      for i := 0 to m
        modifies slots
        invariant forall k | 0 <= k < i :: slots[k] == entries[Lap(oldest + skip + k, size)]
      {
        var physIdx := Remainder(oldest + skip + i, size);
        assert i == 0 ==> physIdx == start;
        slots[i] := entries[physIdx];
      }
      result := slots[..];
      WindowIsLast(entries[..], head, count, m, result);
      LastNOfLastN(history, m, size);
    }

    method GetAll() returns (result: seq<T>)
      requires Valid()
      ensures result == LastN(history, size)
    {
      result := GetLast(0);
    }
  }

  lemma MultipleIsFar(d: int, n: nat)
    ensures d >= 1 ==> d * n >= n
    ensures d <= -1 ==> d * n + n <= 0
  {}

  lemma ModIs(x: int, q: int, r: nat, n: nat)
    requires r < n && x == q * n + r
    ensures x % n == r
  {
    var k := x / n;
    assert x == k * n + x % n;
    assert (q - k) * n == x % n - r;
    MultipleIsFar(q - k, n);
    assert q == k;
  }

  /** `x % size` for the operands the buffer has, in terms of comparisons. */
  method Remainder(x: nat, size: nat) returns (r: nat)
    requires 0 < size && x < 3 * size
    ensures r == if x < size then x else if x < 2 * size then x - size else x - 2 * size
  {
    r := x % size;
    if x < size {
      ModIs(x, 0, x, size);
    } else if x < 2 * size {
      ModIs(x, 1, x - size, size);
    } else {
      ModIs(x, 2, x - 2 * size, size);
    }
  }

  /** The start index GetLast computes and then discards is the index it reads first. */
  lemma StartIsOldestKept(head: nat, n: nat, count: nat, size: nat)
    requires 0 < n <= count <= size && head < size && (count < size ==> head == count)
    ensures (head - n + size * 2) % size == ((if count < size then 0 else head) + (count - n)) % size
  {
    var oldest, skip := if count < size then 0 else head, count - n;
    var r := if head >= n then head - n else head - n + size;
    ModIs(head - n + size * 2, if head >= n then 2 else 1, r, size);
    ModIs(oldest + skip, if oldest + skip < size then 0 else 1, r, size);
  }
}
