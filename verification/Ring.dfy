/** circular_buffer.c: a ring that keeps one cell free to tell full from empty. */
module Ring {
  import opened Storage

  class CircularBuffer {
    const buffer: array<Byte>
    const size: nat
    var head: nat
    var tail: nat

    ghost predicate Valid()
      reads this
    {
      buffer.Length == size && head < size && tail < size && size < 0x1_0000
    }

    /** The bytes held, oldest first. */
    ghost function Contents(): (s: seq<Byte>)
      requires Valid()
      reads this, buffer
      ensures |s| < size
    {
      if head <= tail then buffer[head..tail] else buffer[head..] + buffer[..tail]
    }

    constructor (size: nat)
      requires 0 < size < 0x1_0000
      ensures Valid() && this.size == size && Contents() == [] && fresh(buffer)
    {
      this.size := size;
      buffer := new Byte[size];
      head, tail := 0, 0;
    }

    function NextHead(): nat
      requires Valid()
      reads this
    {
      if head + 1 == size then 0 else head + 1
    }

    function NextTail(): nat
      requires Valid()
      reads this
    {
      if tail + 1 == size then 0 else tail + 1
    }

    /** Fails exactly when the ring is full. */
    method Put(value: Byte) returns (r: int)
      requires Valid()
      modifies this`tail, buffer
      ensures Valid()
      ensures r == (if |old(Contents())| == size - 1 then -1 else value)
      ensures Contents() == if |old(Contents())| == size - 1 then old(Contents()) else old(Contents()) + [value]
    {
      if NextTail() == head {
        return -1;
      }
      ghost var was := Contents();
      buffer[tail] := value;
      tail := NextTail();
      assert Contents() == was + [value];
      return value;
    }

    /** Fails exactly when the ring is empty. */
    method Get() returns (r: int)
      requires Valid()
      modifies this`head
      ensures Valid()
      ensures old(Contents()) == [] ==> r == -1 && Contents() == []
      ensures old(Contents()) != [] ==> r == old(Contents())[0] && Contents() == old(Contents())[1..]
    {
      if head == tail {
        return -1;
      }
      ghost var was := Contents();
      r := buffer[head];
      head := NextHead();
      assert Contents() == was[1..];
    }

    function IsFull(): (full: bool)
      requires Valid()
      reads this, buffer
      ensures full <==> |Contents()| == size - 1
    {
      NextTail() == head
    }

    /** Length and space add up to one less than the size, however head and tail lie. */
    function SpaceLeft(): (n: nat)
      requires Valid()
      reads this, buffer
      ensures |Contents()| + n == size - 1
    {
      if head == tail then size - 1
      else if head < tail then size - (tail - head) - 1
      else head - tail - 1
    }
  }
}
