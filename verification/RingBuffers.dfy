/**
 The fixed-capacity circular byte buffer. The bytes it holds are read off its backing array by `Unroll`;
 pushing appends to them, consuming drops from their front, and peeking copies from their front.
 */
module RingBuffers {
  import opened Bytes

  /** How a buffer operation ends: one that throws in C++ returns a status other than `Done` here. */
  datatype Status = Done | OverflowError | OutOfRange

  /** Where index `i` lies after at most one wrap-around. */
  function Wrapped(i: nat, capacity: nat): (w: nat)
    requires i < 2 * capacity
    ensures w < capacity
  {
    if i < capacity then i else i - capacity
  }

  /** Where index `i` lies on the circle. */
  function Position(i: nat, capacity: nat): (p: nat)
    requires capacity > 0
    ensures p < capacity
  {
    i % capacity
  }

  /** `count` bytes of `buf`, from `start` on, continuing at the front of the array. */
  function Unroll(buf: seq<byte>, start: nat, count: nat): (bytes: seq<byte>)
    requires count <= |buf| && (start < |buf| || start == count == 0)
    ensures |bytes| == count
  {
    seq(count, i requires 0 <= i < count => buf[Wrapped(start + i, |buf|)])
  }

  lemma RemainderIsWrapped(i: nat, capacity: nat)
    requires 0 < capacity && i < 2 * capacity
    ensures Position(i, capacity) == Wrapped(i, capacity)
  {
    if i < capacity {
      assert i % capacity == i;
    } else {
      assert (i - capacity) % capacity == i - capacity;
      ModuloOfSum(i - capacity, capacity);
    }
  }

  lemma ModuloOfSum(r: nat, capacity: nat)
    requires r < capacity
    ensures (r + capacity) % capacity == r
  {
    assert (r + capacity) / capacity == 1 by {
      assert 1 * capacity <= r + capacity < 2 * capacity;
    }
  }

  class RingBuffer {
    const m_buf: array<byte>
    const m_capacity: nat
    var m_head: nat
    var m_tail: nat
    var m_count: nat

    ghost predicate Valid()
      reads this
    {
      && m_buf.Length == m_capacity
      && m_count <= m_capacity
      && (m_capacity == 0 ==> m_head == m_tail == 0)
      && (m_capacity > 0 ==> m_tail < m_capacity && m_head == Position(m_tail + m_count, m_capacity))
    }

    /** The unread bytes, oldest first. */
    ghost function Contents(): (bytes: seq<byte>)
      requires Valid()
      reads this, m_buf
      ensures |bytes| == m_count
    {
      Unroll(m_buf[..], m_tail, m_count)
    }

    constructor (capacity: nat)
      ensures Valid() && m_capacity == capacity && Contents() == [] && fresh(m_buf)
    {
      m_buf := new byte[capacity](_ => 0);
      m_capacity := capacity;
      m_head, m_tail, m_count := 0, 0, 0;
      new;
      if capacity > 0 {
        RemainderIsWrapped(0, capacity);
      }
    }

    method Size() returns (size: nat)
      requires Valid()
      ensures size == |Contents()|
    {
      size := m_count;
    }

    method FreeSpace() returns (free: nat)
      requires Valid()
      ensures free == m_capacity - |Contents()|
    {
      free := m_capacity - m_count;
    }

    /** The two-part copy: up to the end of the array, and the remainder at its start. */
    method CopyIn(data: seq<byte>)
      requires m_buf.Length == m_capacity && m_head < m_capacity && |data| <= m_capacity
      modifies m_buf
      ensures forall j :: 0 <= j < m_capacity ==> m_buf[j] == LaidOut(old(m_buf[..]), m_head, data, j)
    {
      var firstChunk := if |data| < m_capacity - m_head then |data| else m_capacity - m_head;
      forall i | 0 <= i < firstChunk {
        m_buf[m_head + i] := data[i];
      }
      if firstChunk < |data| {
        forall i | 0 <= i < |data| - firstChunk {
          m_buf[i] := data[firstChunk + i];
        }
      }
    }

    /** Lay out `data` behind the unread bytes, which it leaves alone; the indices have yet to be advanced. */
    method Store(data: seq<byte>)
      requires Valid() && m_capacity > 0 && |data| <= m_capacity - m_count
      modifies m_buf
      ensures Valid() && Contents() == old(Contents())
      ensures Unroll(m_buf[..], m_tail, m_count + |data|) == old(Contents()) + data
    {
      hide LaidOut, Unroll, Wrapped, Position;
      ghost var before := m_buf[..];
      RemainderIsWrapped(m_tail + m_count, m_capacity);
      CopyIn(data);
      Written(before, m_buf[..], m_tail, m_count, data);
      UnrollSplit(m_buf[..], m_tail, m_count, |data|);
    }

    /**
     Append `data`, or leave everything as it is when there is no room.
     Pushing nothing into no capacity divides by zero.
     */
    method Push(data: seq<byte>) returns (status: Status)
      requires Valid() && (m_capacity > 0 || |data| > 0)
      modifies this, m_buf
      ensures Valid()
      ensures status == if |data| <= m_capacity - |old(Contents())| then Done else OverflowError
      ensures Contents() == if status.Done? then old(Contents()) + data else old(Contents())
    {
      hide Unroll, Position;
      var free := FreeSpace();
      if |data| > free {
        return OverflowError;
      }
      Store(data);
      WrapTwice(m_tail, m_count, |data|, m_capacity);
      m_head := Position(m_head + |data|, m_capacity);
      m_count := m_count + |data|;
      return Done;
    }

    /** Copy the oldest bytes into `dest`, as many as fit it, without consuming them. */
    method Peek(dest: array<byte>) returns (status: Status)
      requires Valid() && dest != m_buf
      modifies dest
      ensures status == if dest.Length <= |Contents()| then Done else OutOfRange
      ensures dest[..] == if status.Done? then Contents()[..dest.Length] else old(dest[..])
    {
      var count := dest.Length;
      if count > m_count {
        return OutOfRange;
      }
      var firstChunk := if count < m_capacity - m_tail then count else m_capacity - m_tail;
      forall i | 0 <= i < firstChunk {
        dest[i] := m_buf[m_tail + i];
      }
      if firstChunk < count {
        forall i | 0 <= i < count - firstChunk {
          dest[firstChunk + i] := m_buf[i];
        }
      }
      Copied(m_buf[..], m_tail, m_count, dest[..]);
      return Done;
    }

    /** Drop the `count` oldest bytes. Dropping nothing from no capacity divides by zero. */
    method Consume(count: nat) returns (status: Status)
      requires Valid() && (m_capacity > 0 || count > 0)
      modifies this
      ensures Valid()
      ensures status == if count <= |old(Contents())| then Done else OutOfRange
      ensures Contents() == if status.Done? then old(Contents())[count..] else old(Contents())
    {
      hide Unroll, Wrapped, Position;
      if count > m_count {
        return OutOfRange;
      }
      UnrollSplit(m_buf[..], m_tail, count, m_count - count);
      RemainderIsWrapped(m_tail + count, m_capacity);
      WrapTwice(m_tail, count, m_count - count, m_capacity);
      m_tail := Position(m_tail + count, m_capacity);
      m_count := m_count - count;
      return Done;
    }

    method Clear()
      requires Valid()
      modifies this
      ensures Valid() && Contents() == []
    {
      m_head, m_tail, m_count := 0, 0, 0;
      if m_capacity > 0 {
        RemainderIsWrapped(0, m_capacity);
      }
    }
  }

  /** Advancing an index in two steps is advancing it in one. */
  lemma WrapTwice(start: nat, m: nat, n: nat, capacity: nat)
    requires start < capacity && m + n <= capacity
    ensures Position(Position(start + m, capacity) + n, capacity) == Position(start + (m + n), capacity)
  {
    hide Position;
    RemainderIsWrapped(start + m, capacity);
    RemainderIsWrapped(start + m + n, capacity);
    RemainderIsWrapped(Position(start + m, capacity) + n, capacity);
  }

  /** What the array holds once `data` has been laid out from index `head` on, around its end. */
  function LaidOut(before: seq<byte>, head: nat, data: seq<byte>, j: nat): byte
    requires head < |before| && |data| <= |before| && j < |before|
  {
    if head <= j < head + |data| then data[j - head]
    else if j + |before| < head + |data| then data[j + |before| - head]
    else before[j]
  }

  lemma Written(before: seq<byte>, after: seq<byte>, tail: nat, count: nat, data: seq<byte>)
    requires |before| == |after| && tail < |before| && count + |data| <= |before|
    requires forall j :: 0 <= j < |after| ==> after[j] == LaidOut(before, Wrapped(tail + count, |before|), data, j)
    ensures Unroll(after, Wrapped(tail + count, |before|), |data|) == data
    ensures Unroll(after, tail, count) == Unroll(before, tail, count)
  {
    var head := Wrapped(tail + count, |before|);
    forall i | 0 <= i < |data| ensures Unroll(after, head, |data|)[i] == data[i] {
      assert after[Wrapped(head + i, |after|)] == data[i];
    }
    forall i | 0 <= i < count ensures Unroll(after, tail, count)[i] == Unroll(before, tail, count)[i] {
      var j := Wrapped(tail + i, |after|);
      assert after[j] == before[j];
    }
  }

  lemma Copied(buf: seq<byte>, tail: nat, count: nat, dest: seq<byte>)
    requires tail < |buf| || tail == count == 0
    requires |dest| <= count <= |buf|
    requires forall j :: 0 <= j < |dest| ==>
             dest[j] == (if j < |buf| - tail then buf[tail + j] else buf[j - (|buf| - tail)])
    ensures dest == Unroll(buf, tail, count)[..|dest|]
  {
    forall j | 0 <= j < |dest| ensures dest[j] == Unroll(buf, tail, count)[j] {
      assert Unroll(buf, tail, count)[j] == buf[Wrapped(tail + j, |buf|)];
    }
  }

  /** A stretch of the circle is a shorter stretch followed by one that starts where that ends. */
  lemma UnrollSplit(buf: seq<byte>, start: nat, m: nat, n: nat)
    requires start < |buf| && m + n <= |buf|
    ensures Unroll(buf, start, m + n) == Unroll(buf, start, m) + Unroll(buf, Wrapped(start + m, |buf|), n)
  {
    var all, front, back := Unroll(buf, start, m + n), Unroll(buf, start, m), Unroll(buf, Wrapped(start + m, |buf|), n);
    forall i | 0 <= i < m + n
      ensures all[i] == (front + back)[i]
    {
      if i >= m {
        assert back[i - m] == buf[Wrapped(Wrapped(start + m, |buf|) + (i - m), |buf|)];
        assert Wrapped(start + i, |buf|) == Wrapped(Wrapped(start + m, |buf|) + (i - m), |buf|);
      }
    }
  }
}
