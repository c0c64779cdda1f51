/** What putc, getc and the two halves of the interrupt do to each variable of a port. */
module SerialEffects {
  import opened Lists
  import opened Storage
  import opened Serial

  ghost predicate SameSending(l: Line, v: Line) {
    v.tx == l.tx && v.tie == l.tie && v.accepted == l.accepted && v.taken == l.taken && v.sent == l.sent
  }

  ghost predicate SameReceiving(l: Line, v: Line) {
    && v.rx == l.rx && v.stop == l.stop && v.arrived == l.arrived && v.delivered == l.delivered
    && v.lost == l.lost && v.late == l.late
  }

  /** putc queues a byte at the back and turns the interrupt on, unless 31 bytes wait already. */
  lemma PutcDoes(port: Port, l: Line, c: Byte)
    requires |l.tx| <= 31
    ensures var v := Step(port, l, Putc(c));
            && SameReceiving(l, v)
            && (|l.tx| < 31 ==> v.tx == l.tx + [c] && v.tie && v.accepted == l.accepted + [c]
                                && v.taken == l.taken && v.sent == l.sent)
            && (|l.tx| == 31 ==> v == l)
  {}

  /** getc takes the oldest byte; on port 0 it raises RTS again once eight cells are free. */
  lemma GetcDoes(port: Port, l: Line)
    requires |l.rx| <= 31
    ensures var v := Step(port, l, Getc);
            && SameSending(l, v)
            && (l.rx == [] ==> v == l)
            && (l.rx != [] ==>
                && [l.rx[0]] + v.rx == l.rx && v.delivered == l.delivered + [l.rx[0]]
                && v.arrived == l.arrived && v.lost == l.lost
                && (v.stop <==> l.stop && (port == Asci1 || |v.rx| > 23)))
  {}

  /** An arriving byte goes to the back of the queue; the one that finds 31 bytes waiting is lost. Port 0
      then lowers RTS if fewer than eight cells are free; port 1 never does. */
  lemma ReceiveDoes(port: Port, l: Line, b: Byte, free: bool)
    requires |l.rx| <= 31
    ensures var v := Step(port, l, Interrupt(Some(b), free));
            && v.arrived == l.arrived + [b] && v.delivered == l.delivered && v.accepted == l.accepted
            && (|l.rx| < 31 ==> v.rx == l.rx + [b] && v.lost == l.lost)
            && (|l.rx| == 31 ==> v.rx == l.rx && v.lost == l.lost + 1)
            && (v.stop <==> l.stop || (port == Asci0 && |v.rx| > 23))
  {}

  lemma NothingReceived(port: Port, l: Line, free: bool)
    ensures SameReceiving(l, Step(port, l, Interrupt(None, free)))
  {}

  /** With the transmitter free and the interrupt on, the oldest byte is taken and sent; with nothing to
      take the interrupt goes off. Port 1 takes a zero for nothing to take. */
  lemma TransmitDoes(port: Port, l: Line, byte: Option<Byte>, free: bool)
    ensures var v := Step(port, l, Interrupt(byte, free));
            && v.accepted == l.accepted
            && (!free || !l.tie ==> SameSending(l, v))
            && (free && l.tie && l.tx == [] ==> !v.tie && v.tx == [] && v.taken == l.taken && v.sent == l.sent)
            && (free && l.tie && l.tx != [] ==>
                && [l.tx[0]] + v.tx == l.tx && v.taken == l.taken + [l.tx[0]]
                && (if port == Asci1 && l.tx[0] == 0 then !v.tie && v.sent == l.sent
                    else v.tie && v.sent == l.sent + [l.tx[0]]))
  {}
}
