/** dev_asci.c over its rings and registers: calls and interrupts proved against Serial's steps. */
module SerialPort {
  import opened Lists
  import opened Storage
  import opened Ring
  import opened Serial

  class AsciPort {
    const port: Port
    const rxRing: CircularBuffer
    const txRing: CircularBuffer
    var tie: bool
    var rts: bool
    ghost var accepted: seq<Byte>
    ghost var taken: seq<Byte>
    ghost var sent: seq<Byte>
    ghost var arrived: seq<Byte>
    ghost var delivered: seq<Byte>
    ghost var lost: nat
    ghost var late: nat

    ghost predicate Valid()
      reads this, rxRing, txRing
    {
      && rxRing != txRing && rxRing.buffer != txRing.buffer
      && rxRing.Valid() && txRing.Valid() && rxRing.size == BUF_SIZE && txRing.size == BUF_SIZE
    }

    ghost function View(): Line
      requires Valid()
      reads this, rxRing, txRing, rxRing.buffer, txRing.buffer
    {
      Line(txRing.Contents(), tie, rxRing.Contents(), rts, accepted, taken, sent, arrived, delivered, lost, late)
    }

    constructor (port: Port)
      ensures Valid() && this.port == port && View() == Init()
    {
      this.port := port;
      rxRing := new CircularBuffer(BUF_SIZE);
      txRing := new CircularBuffer(BUF_SIZE);
      tie, rts := false, false;
      accepted, taken, sent, arrived, delivered, lost, late := [], [], [], [], [], 0, 0;
    }

    /** asci_0_putc and asci_1_putc. */
    method Putc(c: Byte) returns (r: int)
      requires Valid()
      modifies this`tie, this`accepted, txRing`tail, txRing.buffer
      ensures Valid() && View() == PutcStep(old(View()), c)
      ensures r == (if SpaceLeft(old(View()).tx) == 0 then -1 else c)
    {
      var put := txRing.Put(c);
      if put < 0 {
        return -1;
      }
      accepted := accepted + [c];
      tie := true;
      return c;
    }

    /** asci_0_getc and asci_1_getc. */
    method Getc() returns (r: int)
      requires Valid()
      modifies this`rts, this`delivered, this`late, rxRing`head
      ensures Valid() && View() == GetcStep(port, old(View()))
      ensures r == (if old(View()).rx == [] then -1 else old(View()).rx[0])
    {
      r := rxRing.Get();
      if r < 0 {
        return -1;
      }
      delivered := delivered + [r];
      if port.Asci0? && rxRing.SpaceLeft() >= EMPTY_SPACE_LEFT {
        rts, late := false, 0;
      }
    }

    /** RTS says stop when room runs short. */
    method Throttle()
      requires Valid()
      modifies this`rts
      ensures rts == (old(rts) || (port.Asci0? && SpaceLeft(rxRing.Contents()) < FULL_SPACE_LEFT))
    {
      if port.Asci0? && rxRing.SpaceLeft() < FULL_SPACE_LEFT {
        rts := true;
      }
    }

    /** A byte from the receiver; a full ring loses it. */
    method Accept(b: Byte)
      requires Valid()
      modifies this`arrived, this`lost, this`late, rxRing`tail, rxRing.buffer
      ensures Valid()
      ensures var l := old(View());
              var full := |l.rx| == CAPACITY;
              View() == l.(rx := if full then l.rx else l.rx + [b], arrived := l.arrived + [b],
                           lost := if full then l.lost + 1 else l.lost, late := if l.stop then l.late + 1 else 0)
    {
      ghost var full := rxRing.IsFull();
      var _ := rxRing.Put(b);
      arrived := arrived + [b];
      lost := if full then lost + 1 else lost;
      late := if rts then late + 1 else 0;
    }

    /** The receiving half of int_asci0 and int_asci1. */
    method Receive(byte: Option<Byte>)
      requires Valid()
      modifies this`rts, this`arrived, this`lost, this`late, rxRing`tail, rxRing.buffer
      ensures Valid() && View() == ReceiveStep(port, old(View()), byte)
    {
      if byte.Some? {
        Accept(byte.value);
        Throttle();
      }
    }

    /** circular_buffer_get on the transmit queue. */
    method TakeByte() returns (r: int)
      requires Valid()
      modifies this`taken, txRing`head
      ensures Valid()
      ensures var l := old(View());
              && r == (if l.tx == [] then -1 else l.tx[0])
              && View() == if l.tx == [] then l else l.(tx := l.tx[1..], taken := l.taken + [l.tx[0]])
    {
      r := txRing.Get();
      if r >= 0 {
        taken := taken + [r];
      }
    }

    /** The transmitting half; TIE is read before the byte is received, which leaves it alone. */
    method Transmit(free: bool) returns (tdr: Option<Byte>)
      requires Valid()
      modifies this`tie, this`taken, this`sent, txRing`head
      ensures Valid() && View() == TransmitStep(port, old(View()), free)
      ensures sent == old(sent) + if tdr.Some? then [tdr.value] else []
    {
      tdr := None;
      if free && tie {
        var sendByte := TakeByte();
        if sendByte < Floor(port) {
          tie := false;
        } else {
          tdr := Some(sendByte as Byte);
          sent := sent + [sendByte as Byte];
        }
      }
    }

    /** int_asci0 and int_asci1. */
    method Interrupts(byte: Option<Byte>, free: bool) returns (tdr: Option<Byte>)
      requires Valid()
      modifies this, rxRing, rxRing.buffer, txRing`head
      ensures Valid() && View() == Step(port, old(View()), Interrupt(byte, free))
      ensures sent == old(sent) + if tdr.Some? then [tdr.value] else []
    {
      Receive(byte);
      tdr := Transmit(free);
    }

    /** asci_write: as many bytes as the queue has room for. */
    method Write(data: seq<Byte>) returns (r: int)
      requires Valid()
      modifies this`tie, this`accepted, txRing`tail, txRing.buffer
      ensures Valid()
      ensures r == Min(|data|, SpaceLeft(old(View()).tx))
      ensures View() == PutMany(old(View()), data[..r]) && txRing.Contents() == old(txRing.Contents()) + data[..r]
    {
      ghost var l := View();
      r := 0;
      while r < |data|
        invariant Valid() && 0 <= r <= |data| && r <= SpaceLeft(l.tx)
        invariant View() == PutMany(l, data[..r])
      {
        PutOneMore(l, data[..r], data[r]);
        assert data[..r] + [data[r]] == data[..r + 1];
        var put := Putc(data[r]);
        if put < 0 {
          break;
        }
        r := r + 1;
      }
    }

    method GetNext(ghost l: Line, i: nat) returns (r: int)
      requires Valid() && i <= |l.rx| && View() == GetMany(port, l, i)
      modifies this`rts, this`delivered, this`late, rxRing`head
      ensures Valid() && r == (if i == |l.rx| then -1 else l.rx[i])
      ensures View() == GetMany(port, l, if r == -1 then i else i + 1)
    {
      GetManyNext(port, l, i);
      r := Getc();
    }

    /** One turn of the loop below. */
    method ReadNext(ghost l: Line, buf: array<Byte>, ghost before: seq<Byte>, i: nat) returns (tmp: int)
      requires Valid() && i <= |l.rx| && View() == GetMany(port, l, i)
      requires i < buf.Length == |before| && buf != rxRing.buffer && buf != txRing.buffer
      requires buf[..] == Splice(before, 0, l.rx[..i])
      modifies this`rts, this`delivered, this`late, rxRing`head, buf
      ensures Valid() && tmp == (if i == |l.rx| then -1 else l.rx[i])
      ensures View() == GetMany(port, l, if tmp == -1 then i else i + 1)
      ensures buf[..] == Splice(before, 0, l.rx[..if tmp == -1 then i else i + 1])
    {
      tmp := GetNext(l, i);
      if tmp >= 0 {
        SpliceNext(before, l.rx, i);
        buf[i] := tmp;
      }
    }

    /** asci_read: as many bytes as are waiting, or -1 for none. */
    method Read(buf: array<Byte>, count: nat) returns (r: int)
      requires Valid() && count <= buf.Length && buf != rxRing.buffer && buf != txRing.buffer
      modifies this`rts, this`delivered, this`late, rxRing`head, buf
      ensures Valid()
      ensures var n := Min(count, |old(View()).rx|);
              && r == (if n == 0 then -1 else n)
              && View() == GetMany(port, old(View()), n)
              && buf[..] == Splice(old(buf[..]), 0, old(View()).rx[..n])
    {
      ghost var l, before := View(), buf[..];
      var i := 0;
      while i < count
        invariant Valid() && 0 <= i <= count && i <= |l.rx|
        invariant View() == GetMany(port, l, i)
        invariant buf[..] == Splice(before, 0, l.rx[..i])
      {
        var tmp := ReadNext(l, buf, before, i);
        if tmp < 0 {
          break;
        }
        i := i + 1;
      }
      return if i != 0 then i else -1;
    }
  }

  /** putc after putc, as long as there is room. */
  function PutMany(l: Line, data: seq<Byte>): Line {
    l.(tx := l.tx + data, tie := l.tie || data != [], accepted := l.accepted + data)
  }

  lemma PutOneMore(l: Line, data: seq<Byte>, c: Byte)
    ensures |data| < SpaceLeft(l.tx) ==> PutcStep(PutMany(l, data), c) == PutMany(l, data + [c])
    ensures |data| == SpaceLeft(l.tx) ==> PutcStep(PutMany(l, data), c) == PutMany(l, data)
  {
    assert l.tx + (data + [c]) == (l.tx + data) + [c];
    assert l.accepted + (data + [c]) == (l.accepted + data) + [c];
  }

  /** getc n times over. */
  function GetMany(port: Port, l: Line, n: nat): Line {
    if n == 0 then l else GetcStep(port, GetMany(port, l, n - 1))
  }

  lemma CutOne(s: seq<Byte>, n: nat)
    requires 0 < n <= |s|
    ensures s[n - 1..][1..] == s[n..] && s[n - 1..][0] == s[n - 1] && s[..n - 1] + [s[n - 1]] == s[..n]
  {}

  /** What n calls of getc leave, and what they deliver. */
  lemma {:induction false} GetManyLeaves(port: Port, l: Line, n: nat)
    requires n <= |l.rx|
    ensures GetMany(port, l, n).rx == l.rx[n..]
    ensures GetMany(port, l, n).delivered == l.delivered + l.rx[..n]
  {
    if n > 0 {
      GetManyLeaves(port, l, n - 1);
      CutOne(l.rx, n);
      assert l.delivered + l.rx[..n] == (l.delivered + l.rx[..n - 1]) + [l.rx[n - 1]];
    }
  }

  lemma GetManyNext(port: Port, l: Line, i: nat)
    requires i <= |l.rx|
    ensures var v := GetMany(port, l, i);
            && (if i == |l.rx| then v.rx == [] else v.rx != [] && v.rx[0] == l.rx[i])
            && GetcStep(port, v) == GetMany(port, l, if i == |l.rx| then i else i + 1)
  {
    GetManyLeaves(port, l, i);
  }
}
