/** dev_asci.c: the two serial ports as state machines over putc, getc and interrupts. */
module Serial {
  import opened Lists
  import opened Storage

  const BUF_SIZE: nat := 32
  const FULL_SPACE_LEFT: nat := 8
  const EMPTY_SPACE_LEFT: nat := 8
  const CAPACITY: nat := BUF_SIZE - 1

  datatype Port = Asci0 | Asci1

  /** int_asci1 stops on a byte below one where int_asci0 stops on a negative. */
  function Floor(port: Port): int {
    if port.Asci0? then 0 else 1
  }

  /** tx and rx are the queues, tie the transmit interrupt enable, stop the level of RTS.
      History: bytes putc accepted, bytes the interrupt took from tx, bytes sent on the line;
      bytes that arrived, bytes getc delivered, bytes lost for want of room, and bytes that
      arrived since RTS last said stop. */
  datatype Line = Line(tx: seq<Byte>, tie: bool, rx: seq<Byte>, stop: bool,
                       accepted: seq<Byte>, taken: seq<Byte>, sent: seq<Byte>,
                       arrived: seq<Byte>, delivered: seq<Byte>, lost: nat, late: nat)

  function Init(): Line {
    Line([], false, [], false, [], [], [], [], [], 0, 0)
  }

  /** A getc or putc call, or an interrupt with what the receiver holds and whether the
      transmitter is free. */
  datatype Event = Putc(c: Byte) | Getc | Interrupt(byte: Option<Byte>, free: bool)

  function SpaceLeft(queue: seq<Byte>): int {
    CAPACITY - |queue|
  }

  // ---- the steps ----

  function PutcStep(l: Line, c: Byte): Line {
    if |l.tx| == CAPACITY then l
    else l.(tx := l.tx + [c], tie := true, accepted := l.accepted + [c])
  }

  function GetcStep(port: Port, l: Line): Line {
    if l.rx == [] then l
    else
      var rx := l.rx[1..];
      var v := l.(rx := rx, delivered := l.delivered + [l.rx[0]]);
      if port.Asci0? && SpaceLeft(rx) >= EMPTY_SPACE_LEFT then v.(stop := false, late := 0) else v
  }

  function ReceiveStep(port: Port, l: Line, byte: Option<Byte>): Line {
    match byte
    case None => l
    case Some(b) =>
      var full := |l.rx| == CAPACITY;
      var rx := if full then l.rx else l.rx + [b];
      var v := l.(rx := rx, arrived := l.arrived + [b], lost := if full then l.lost + 1 else l.lost,
                  late := if l.stop then l.late + 1 else 0);
      if port.Asci0? && SpaceLeft(rx) < FULL_SPACE_LEFT then v.(stop := true) else v
  }

  function TransmitStep(port: Port, l: Line, free: bool): Line {
    if !free || !l.tie then l
    else
      var sendByte := if l.tx == [] then -1 else l.tx[0];
      var v := if l.tx == [] then l else l.(tx := l.tx[1..], taken := l.taken + [l.tx[0]]);
      if sendByte < Floor(port) then v.(tie := false) else v.(sent := l.sent + [sendByte as Byte])
  }

  function Step(port: Port, l: Line, e: Event): Line {
    match e
    case Putc(c) => PutcStep(l, c)
    case Getc => GetcStep(port, l)
    case Interrupt(byte, free) => TransmitStep(port, ReceiveStep(port, l, byte), free)
  }

  /** A sender that sends at most `slack` bytes after it sees stop. */
  predicate Polite(l: Line, e: Event, slack: nat) {
    e.Interrupt? && e.byte.Some? && l.stop ==> l.late < slack
  }

  function Run(port: Port, l: Line, events: seq<Event>): Line {
    if events == [] then l else Step(port, Run(port, l, events[..|events| - 1]), events[|events| - 1])
  }

  predicate AllPolite(port: Port, events: seq<Event>, slack: nat) {
    forall i :: 0 <= i < |events| ==> Polite(Run(port, Init(), events[..i]), events[i], slack)
  }

  // ---- the transmitter ----

  /** What reaches the line of the bytes taken from the queue. */
  function Audible(port: Port, bytes: seq<Byte>): seq<Byte> {
    if bytes == [] then []
    else
      var last := bytes[|bytes| - 1];
      Audible(port, bytes[..|bytes| - 1]) + if last < Floor(port) then [] else [last]
  }

  lemma {:induction false} AllAudible(port: Port, bytes: seq<Byte>)
    ensures |Audible(port, bytes)| <= |bytes|
    ensures Audible(port, bytes) == bytes <==> port.Asci0? || 0 !in bytes
    ensures |Audible(port, bytes)| == |bytes| <==> port.Asci0? || 0 !in bytes
  {
    if bytes != [] {
      var front, last := bytes[..|bytes| - 1], bytes[|bytes| - 1];
      AllAudible(port, front);
      assert bytes == front + [last];
    }
  }

  ghost predicate TransmitInv(port: Port, l: Line) {
    && |l.tx| <= CAPACITY
    && l.taken + l.tx == l.accepted
    && l.sent == Audible(port, l.taken)
    && (l.tx != [] && !l.tie ==> port.Asci1? && l.taken != [] && l.taken[|l.taken| - 1] == 0)
  }

  lemma AudibleMore(port: Port, bytes: seq<Byte>, b: Byte)
    ensures Audible(port, bytes + [b]) == Audible(port, bytes) + if b < Floor(port) then [] else [b]
  {
    assert (bytes + [b])[..|bytes|] == bytes;
  }

  lemma TakenGrows(taken: seq<Byte>, tx: seq<Byte>)
    requires tx != []
    ensures (taken + [tx[0]]) + tx[1..] == taken + tx
  {}

  lemma SendStepKeeps(port: Port, l: Line, free: bool)
    requires TransmitInv(port, l)
    ensures TransmitInv(port, TransmitStep(port, l, free))
  {
    if free && l.tie && l.tx != [] {
      AudibleMore(port, l.taken, l.tx[0]);
      TakenGrows(l.taken, l.tx);
    }
  }

  lemma TransmitStepKeeps(port: Port, l: Line, e: Event)
    requires TransmitInv(port, l)
    ensures TransmitInv(port, Step(port, l, e))
  {
    match e {
      case Putc(c) =>
        assert l.taken + (l.tx + [c]) == (l.taken + l.tx) + [c];
      case Getc =>
      case Interrupt(byte, free) =>
        SendStepKeeps(port, ReceiveStep(port, l, byte), free);
    }
  }

  lemma {:induction false} TransmitRun(port: Port, events: seq<Event>)
    ensures TransmitInv(port, Run(port, Init(), events))
  {
    if events != [] {
      TransmitRun(port, events[..|events| - 1]);
      TransmitStepKeeps(port, Run(port, Init(), events[..|events| - 1]), events[|events| - 1]);
    }
  }

  /** Port 0 loses nothing it accepted and never stops with bytes to send, in every
      interleaving of calls and interrupts. */
  lemma Asci0SendsAll(events: seq<Event>)
    ensures var l := Run(Asci0, Init(), events);
            l.sent + l.tx == l.accepted && (l.tx != [] ==> l.tie)
  {
    TransmitRun(Asci0, events);
    AllAudible(Asci0, Run(Asci0, Init(), events).taken);
  }

  /** Port 1 does so exactly as long as it has taken no zero byte from its queue; a program
      that sends none gets everything port 0 promises. */
  lemma Asci1SendsAllButZeros(events: seq<Event>)
    ensures var l := Run(Asci1, Init(), events);
            && (l.sent + l.tx == l.accepted <==> 0 !in l.taken)
            && (0 !in l.accepted ==> l.sent + l.tx == l.accepted && (l.tx != [] ==> l.tie))
  {
    TransmitRun(Asci1, events);
    var l := Run(Asci1, Init(), events);
    AllAudible(Asci1, l.taken);
    assert forall b :: b in l.taken ==> b in l.accepted;
    if l.sent + l.tx == l.accepted {
      assert |l.sent| == |l.taken|;
    }
  }

  /** A zero byte on port 1 is dropped, and leaves the byte behind it waiting with the
      interrupt off. */
  lemma Asci1DropsZero()
    ensures var l := Run(Asci1, Init(), [Putc(0), Putc(1), Interrupt(None, true)]);
            l.accepted == [0, 1] && l.sent == [] && l.tx == [1] && !l.tie
  {
    var events := [Putc(0), Putc(1), Interrupt(None, true)];
    assert events[..2] == [Putc(0), Putc(1)] && [Putc(0), Putc(1)][..1] == [Putc(0)];
    assert [Putc(0)][..0] == [];
    assert Run(Asci1, Init(), [Putc(0)]).tx == [0];
    assert Run(Asci1, Init(), [Putc(0), Putc(1)]).tx == [0, 1];
  }

  /** How often the interrupt found the transmitter free. */
  function Frees(events: seq<Event>): nat {
    if events == [] then 0
    else
      var last := events[|events| - 1];
      Frees(events[..|events| - 1]) + if last.Interrupt? && last.free then 1 else 0
  }

  ghost predicate Sending(l: Line) {
    l.sent + l.tx == l.accepted && (l.tx != [] ==> l.tie)
  }

  lemma SendingStep(l: Line, e: Event)
    requires Sending(l)
    ensures var v := Step(Asci0, l, e);
            && Sending(v)
            && |v.sent| >= |l.sent| && |v.accepted| >= |l.accepted|
            && (e.Interrupt? && e.free && l.tx != [] ==> |v.sent| == |l.sent| + 1)
  {
    match e {
      case Putc(c) =>
        assert l.sent + (l.tx + [c]) == (l.sent + l.tx) + [c];
      case Getc =>
      case Interrupt(byte, free) =>
        if l.tx != [] {
          TakenGrows(l.sent, l.tx);
        }
    }
  }

  /** A byte at place k of port 0's queue is on the line once the transmitter has been free
      k + 1 times, whatever else happens in between. */
  lemma {:induction false} BoundedSending(l: Line, events: seq<Event>)
    requires Sending(l)
    ensures var v := Run(Asci0, l, events);
            && Sending(v) && |v.accepted| >= |l.accepted|
            && |v.sent| >= |l.sent| + Min(Frees(events), |l.tx|)
  {
    if events != [] {
      var front, last := events[..|events| - 1], events[|events| - 1];
      BoundedSending(l, front);
      SendingStep(Run(Asci0, l, front), last);
    }
  }

  // ---- the receiver and RTS ----

  ghost predicate ReceiveInv(l: Line) {
    && |l.rx| <= CAPACITY
    && (l.stop <==> SpaceLeft(l.rx) < FULL_SPACE_LEFT)
    && (l.stop ==> SpaceLeft(l.rx) + l.late >= FULL_SPACE_LEFT - 1)
    && |l.arrived| == |l.delivered| + |l.rx| + l.lost
    && (l.lost == 0 ==> l.delivered + l.rx == l.arrived)
  }

  lemma ReceiveStepKeeps(l: Line, e: Event)
    requires ReceiveInv(l)
    ensures ReceiveInv(Step(Asci0, l, e))
  {
    match e {
      case Putc(c) =>
      case Getc => GetcKeeps(l);
      case Interrupt(byte, free) => ByteKeeps(l, byte);
    }
  }

  lemma GetcKeeps(l: Line)
    requires ReceiveInv(l)
    ensures ReceiveInv(GetcStep(Asci0, l))
  {
    if l.rx != [] {
      TakenGrows(l.delivered, l.rx);
    }
  }

  lemma ByteKeeps(l: Line, byte: Option<Byte>)
    requires ReceiveInv(l)
    ensures ReceiveInv(ReceiveStep(Asci0, l, byte))
  {
    if byte.Some? {
      assert l.delivered + (l.rx + [byte.value]) == (l.delivered + l.rx) + [byte.value];
    }
  }

  lemma {:induction false} ReceiveRun(events: seq<Event>)
    ensures ReceiveInv(Run(Asci0, Init(), events))
  {
    if events != [] {
      ReceiveRun(events[..|events| - 1]);
      ReceiveStepKeeps(Run(Asci0, Init(), events[..|events| - 1]), events[|events| - 1]);
    }
  }

  /** RTS says stop exactly while fewer than eight cells are free, in every interleaving. */
  lemma StopExactly(events: seq<Event>)
    ensures var l := Run(Asci0, Init(), events);
            l.stop <==> 31 - |l.rx| < 8
  {
    ReceiveRun(events);
  }

  lemma PoliteFront(events: seq<Event>, slack: nat)
    requires AllPolite(Asci0, events, slack) && events != []
    ensures AllPolite(Asci0, events[..|events| - 1], slack)
    ensures Polite(Run(Asci0, Init(), events[..|events| - 1]), events[|events| - 1], slack)
  {
    var front := events[..|events| - 1];
    forall i | 0 <= i < |front| ensures Polite(Run(Asci0, Init(), front[..i]), front[i], slack) {
      assert front[..i] == events[..i] && front[i] == events[i];
    }
  }

  /** A sender with at most seven bytes still to come after stop never loses one. */
  lemma {:induction false} PoliteLosesNothing(events: seq<Event>, slack: nat)
    requires slack < 8 && AllPolite(Asci0, events, slack)
    ensures var l := Run(Asci0, Init(), events);
            l.lost == 0 && l.delivered + l.rx == l.arrived
  {
    if events != [] {
      PoliteFront(events, slack);
      var front := events[..|events| - 1];
      PoliteLosesNothing(front, slack);
      ReceiveRun(front);
      ReceiveStepKeeps(Run(Asci0, Init(), front), events[|events| - 1]);
    }
  }

  function Flood(n: nat): (events: seq<Event>)
    ensures |events| == n
  {
    if n == 0 then [] else Flood(n - 1) + [Interrupt(Some(0), false)]
  }

  lemma {:induction false} FloodPrefix(n: nat, i: nat)
    requires i <= n
    ensures Flood(n)[..i] == Flood(i)
    ensures i < n ==> Flood(n)[i] == Interrupt(Some(0), false)
  {
    if i < n {
      FloodPrefix(n - 1, i);
      assert Flood(n)[..i] == Flood(n - 1)[..i];
    } else {
      assert Flood(n)[..n] == Flood(n);
    }
  }

  /** 24 bytes raise stop, 31 fill the ring, and the 32nd is lost. */
  lemma {:induction false} Flooded(n: nat)
    requires n <= BUF_SIZE
    ensures FloodedTo(Run(Asci0, Init(), Flood(n)), n)
  {
    if n > 0 {
      Flooded(n - 1);
      FloodPrefix(n, n - 1);
      FloodStep(Run(Asci0, Init(), Flood(n - 1)), n - 1);
    }
  }

  ghost predicate FloodedTo(l: Line, n: nat) {
    && |l.rx| == Min(n, CAPACITY) && !l.tie && l.lost == n - |l.rx|
    && (l.stop <==> n >= 24) && (n >= 24 ==> l.late == n - 24)
  }

  lemma FloodStep(l: Line, n: nat)
    requires FloodedTo(l, n) && n < BUF_SIZE
    ensures FloodedTo(Step(Asci0, l, Interrupt(Some(0), false)), n + 1)
  {}

  lemma FloodIsPolite(slack: nat)
    requires slack >= FULL_SPACE_LEFT
    ensures AllPolite(Asci0, Flood(BUF_SIZE), slack) && Run(Asci0, Init(), Flood(BUF_SIZE)).lost > 0
  {
    Flooded(BUF_SIZE);
    forall i | 0 <= i < BUF_SIZE
      ensures Polite(Run(Asci0, Init(), Flood(BUF_SIZE)[..i]), Flood(BUF_SIZE)[i], slack)
    {
      Flooded(i);
      FloodPrefix(BUF_SIZE, i);
    }
  }

  /** Seven is the exact limit. */
  lemma SafeSlack(slack: nat)
    ensures slack < 8
            <==> forall events :: AllPolite(Asci0, events, slack) ==> Run(Asci0, Init(), events).lost == 0
  {
    if slack < 8 {
      forall events | AllPolite(Asci0, events, slack) ensures Run(Asci0, Init(), events).lost == 0 {
        PoliteLosesNothing(events, slack);
      }
    } else {
      FloodIsPolite(slack);
    }
  }
}
