/** file.c's pipes: transfers of many bytes over a ring, by any number of readers and writers. */
module Pipe {
  import opened Storage
  import opened Ring

  datatype End = ReadEnd | WriteEnd

  // ---- one call ----

  /** What a write of data takes, and what a read of count bytes brings. */
  function Taken(held: seq<Byte>, data: seq<Byte>, capacity: nat): (r: seq<Byte>)
    requires |held| <= capacity
    ensures r <= data && |held| + |r| <= capacity && (r == data || |held| + |r| == capacity)
  {
    data[..Min(|data|, capacity - |held|)]
  }

  function Brought(held: seq<Byte>, count: nat): (r: seq<Byte>)
    ensures r <= held && |r| <= count && (r == held || |r| == count)
  {
    held[..Min(count, |held|)]
  }

  /** pipe_read: as many bytes as are held, the oldest first. */
  method PipeRead(ring: CircularBuffer, buf: array<Byte>, count: nat) returns (done: int)
    requires ring.Valid() && count <= buf.Length && buf != ring.buffer
    modifies ring`head, buf
    ensures ring.Valid()
    ensures var data := Brought(old(ring.Contents()), count);
            && done == |data| && ring.Contents() == old(ring.Contents())[|data|..]
            && buf[..] == Splice(old(buf[..]), 0, data)
  {
    ghost var was, before := ring.Contents(), buf[..];
    done := 0;
    while done < count
      invariant ring.Valid() && 0 <= done <= count && done <= |was|
      invariant ring.Contents() == was[done..]
      invariant buf[..] == Splice(before, 0, was[..done])
    {
      var tmp := ReadNext(ring, buf, done, was, before);
      if tmp == -1 {
        break;
      }
      done := done + 1;
    }
  }

  /** One turn of pipe_read's loop. */
  method ReadNext(ring: CircularBuffer, buf: array<Byte>, done: nat, ghost was: seq<Byte>, ghost before: seq<Byte>)
    returns (tmp: int)
    requires ring.Valid() && done < buf.Length == |before| && buf != ring.buffer && done <= |was|
    requires ring.Contents() == was[done..] && buf[..] == Splice(before, 0, was[..done])
    modifies ring`head, buf
    ensures ring.Valid() && (tmp == -1 <==> done == |was|)
    ensures var next := if tmp == -1 then done else done + 1;
            ring.Contents() == was[next..] && buf[..] == Splice(before, 0, was[..next])
  {
    tmp := ring.Get();
    if tmp != -1 {
      SpliceNext(before, was, done);
      buf[done] := tmp;
    }
  }

  /** pipe_write: as many bytes as fit. */
  method PipeWrite(ring: CircularBuffer, data: seq<Byte>) returns (done: int)
    requires ring.Valid()
    modifies ring`tail, ring.buffer
    ensures ring.Valid()
    ensures var taken := Taken(old(ring.Contents()), data, ring.size - 1);
            done == |taken| && ring.Contents() == old(ring.Contents()) + taken
  {
    ghost var was := ring.Contents();
    done := 0;
    while done < |data|
      invariant ring.Valid() && 0 <= done <= |data|
      invariant ring.Contents() == was + data[..done]
    {
      if ring.IsFull() {
        break;
      }
      var _ := ring.Put(data[done]);
      assert data[..done + 1] == data[..done] + [data[done]];
      done := done + 1;
    }
  }

  /** file_read on either end of a pipe. */
  method FileRead(end: End, ring: CircularBuffer, buf: array<Byte>, count: nat) returns (r: int)
    requires ring.Valid() && count <= buf.Length && buf != ring.buffer
    modifies ring`head, buf
    ensures ring.Valid()
    ensures end.WriteEnd? ==> r == -1 && buf[..] == old(buf[..]) && ring.Contents() == old(ring.Contents())
    ensures var data := Brought(old(ring.Contents()), count);
            end.ReadEnd? ==> r == |data| && ring.Contents() == old(ring.Contents())[|data|..]
                             && buf[..] == Splice(old(buf[..]), 0, data)
  {
    if !end.ReadEnd? {
      return -1;
    }
    r := PipeRead(ring, buf, count);
  }

  /** file_write on either end of a pipe. */
  method FileWrite(end: End, ring: CircularBuffer, data: seq<Byte>) returns (r: int)
    requires ring.Valid()
    modifies ring`tail, ring.buffer
    ensures ring.Valid()
    ensures end.ReadEnd? ==> r == -1 && ring.Contents() == old(ring.Contents())
    ensures var taken := Taken(old(ring.Contents()), data, ring.size - 1);
            end.WriteEnd? ==> r == |taken| && ring.Contents() == old(ring.Contents()) + taken
  {
    if !end.WriteEnd? {
      return -1;
    }
    r := PipeWrite(ring, data);
  }

  // ---- any run of calls; sys_pipe's rings have 128 cells and so hold 127 bytes ----

  datatype Call = Write(data: seq<Byte>) | Read(count: nat)

  /** What is held after the calls, and all that was taken and brought, in order. */
  datatype History = History(held: seq<Byte>, taken: seq<Byte>, brought: seq<Byte>)

  function Run(held: seq<Byte>, calls: seq<Call>, capacity: nat): History
    requires |held| <= capacity
    decreases |calls|
  {
    if calls == [] then History(held, [], [])
    else match calls[0] {
      case Write(data) =>
        var taken := Taken(held, data, capacity);
        var rest := Run(held + taken, calls[1..], capacity);
        rest.(taken := taken + rest.taken)
      case Read(count) =>
        var brought := Brought(held, count);
        var rest := Run(held[|brought|..], calls[1..], capacity);
        rest.(brought := brought + rest.brought)
    }
  }

  /** First in, first out, nothing lost, doubled or made up: the bytes read, then the bytes
      held, are the bytes accepted, over any calls by any processes. */
  lemma {:induction false} Fifo(held: seq<Byte>, calls: seq<Call>, capacity: nat)
    requires |held| <= capacity
    ensures var h := Run(held, calls, capacity);
            held + h.taken == h.brought + h.held && |h.held| <= capacity
    decreases |calls|
  {
    if calls != [] {
      match calls[0] {
        case Write(data) =>
          var taken := Taken(held, data, capacity);
          Fifo(held + taken, calls[1..], capacity);
          var rest := Run(held + taken, calls[1..], capacity);
          assert held + (taken + rest.taken) == (held + taken) + rest.taken;
        case Read(count) =>
          var brought := Brought(held, count);
          Fifo(held[|brought|..], calls[1..], capacity);
          var rest := Run(held[|brought|..], calls[1..], capacity);
          assert held + rest.taken == brought + (held[|brought|..] + rest.taken);
          assert (brought + rest.brought) + rest.held == brought + (rest.brought + rest.held);
      }
    }
  }
}
