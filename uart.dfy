/** The transmit side of the software UART in uart.c: the global `uart`
    object, the timer-2 registers it drives and the pin RA2 it writes.

    Each special-function register the code touches is a field of `Uart`.
    Two ghost fields record what an observer of the line would see: `wire`,
    every level ever written to RA2 in order, and `ticks`, the number of
    timer-2 interrupts the handler has served.  The hardware's part, the
    timer raising TMR2IF once per bit period while it runs, is the method
    `TimerPeriodMatch`; the busy-wait of `uart_write` is a loop that lets one
    period pass and the interrupt handler run per turn. */
module SoftUart {

  import opened BitFraming

  /** Moving one level from the front of what is to come to the end of what is on the wire. */
  lemma SnocThen(w: seq<Bit>, l: Bit, rest: seq<Bit>, total: seq<Bit>)
    requires w + ([l] + rest) == total
    ensures (w + [l]) + rest == total
  {
    assert (w + [l]) + rest == w + ([l] + rest);
  }

  /** One turn of the busy-wait keeps its invariant: the levels already on the
      wire, followed by those still to come, are the levels the wait started
      with followed by the stream's remainder; likewise for interrupts served
      and calls of `next` remaining.  Stated on the values of the state before
      and after the turn. */
  lemma TickKeeps(start: Iter, w0: seq<Bit>, t0: nat, cur: Iter, w: seq<Bit>, t: nat,
                  nxt: Iter, w2: seq<Bit>, t2: nat, busy: bool)
    requires Inv(start) && Inv(cur) && cur.state != IteratorEof
    requires cur.data == start.data && cur.length == start.length
    requires w + Levels(UntilEof(cur)) == w0 + Levels(UntilEof(start))
    requires t + Remaining(cur) == t0 + Remaining(start)
    requires nxt == Step(cur).next && t2 == t + 1
    requires w2 == w + (if Step(cur).value == StreamEof then [] else [Level(Step(cur).value)])
    requires busy <==> Step(cur).value != StreamEof
    ensures Inv(nxt) && nxt.data == start.data && nxt.length == start.length
    ensures Remaining(nxt) < Remaining(cur)
    ensures busy ==>
              && w2 + Levels(UntilEof(nxt)) == w0 + Levels(UntilEof(start))
              && t2 + Remaining(nxt) == t0 + Remaining(start)
    ensures !busy ==>
              && nxt == Iter(start.data, start.length, start.length, 0, IteratorEof)
              && w2 == w0 + Levels(UntilEof(start))
              && t2 == t0 + Remaining(start)
  {
    UntilEofStep(cur);
    var a := Step(cur);
    if busy {
      var l := Level(a.value);
      assert w2 == w + [l];
      SnocThen(w, l, Levels(UntilEof(nxt)), w0 + Levels(UntilEof(start)));
    } else {
      assert w2 == w;
      assert Levels(UntilEof(cur)) == [];
      assert w + Levels(UntilEof(cur)) == w;
    }
  }

  class Uart {
    /** uart.in_use */
    var inUse: bool
    /** uart.bit_iterator */
    const bitIterator: BitIterator

    /** Port A bit 2, the transmit line, and its direction bit (0 = output). */
    var RA2: Bit
    var TRISA2: Bit
    /** Timer 2: on/off, counter, period, interrupt flag and enable, postscaler bit. */
    var TMR2ON: Bit
    var TMR2: Byte
    var PR2: Byte
    var TMR2IF: Bit
    var TMR2IE: Bit
    var TOUTPS0: Bit
    /** Peripheral and global interrupt enables. */
    var PEIE: Bit
    var GIE: Bit

    /** Every level written to RA2, oldest first. */
    ghost var wire: seq<Bit>
    /** Timer-2 interrupts served so far. */
    ghost var ticks: nat

    /** The controller's invariant: while a write is in progress the timer runs
        and the iterator is a valid one that has not finished; otherwise the
        timer is off and no interrupt is pending; RA2 holds the last level written. */
    ghost predicate Valid()
      reads this, bitIterator
    {
      && (inUse ==> TMR2ON == 1 && Inv(bitIterator.Abs()) && bitIterator.Abs().state != IteratorEof)
      && (!inUse ==> TMR2ON == 0 && TMR2IF == 0)
      && (|wire| > 0 ==> RA2 == wire[|wire| - 1])
    }

    /** Timer-2 interrupts reach the handler: enabled at the timer, for
        peripherals and globally, as `uart_init` leaves them. */
    predicate InterruptsEnabled()
      reads this
    {
      TMR2IE == 1 && PEIE == 1 && GIE == 1
    }

    /** The zero-initialised static object and registers before `uart_init`. */
    constructor ()
      ensures Valid() && fresh(bitIterator)
      ensures bitIterator.Abs() == Iter([], 0, 0, 0, StartBit)
      ensures !inUse && RA2 == 0 && TRISA2 == 0 && TMR2ON == 0 && TMR2 == 0 && PR2 == 0
      ensures TMR2IF == 0 && TMR2IE == 0 && TOUTPS0 == 0 && PEIE == 0 && GIE == 0
      ensures wire == [] && ticks == 0
    {
      inUse := false;
      bitIterator := new BitIterator();
      RA2, TRISA2, TMR2ON, TMR2, PR2 := 0, 0, 0, 0, 0;
      TMR2IF, TMR2IE, TOUTPS0, PEIE, GIE := 0, 0, 0, 0, 0;
      wire, ticks := [], 0;
    }

    /** uart_start: clear the counter and start the timer. */
    method Start()
      modifies this`inUse, this`TMR2, this`TMR2ON
      ensures inUse && TMR2 == 0 && TMR2ON == 1
      ensures bitIterator.Abs() == old(bitIterator.Abs())
    {
      inUse := true;
      TMR2 := 0;
      TMR2ON := 1;
    }

    /** uart_stop: stop the timer, clear its counter, release the UART. */
    method Stop()
      modifies this`TMR2ON, this`TMR2, this`inUse
      ensures TMR2ON == 0 && TMR2 == 0 && !inUse
    {
      TMR2ON := 0;
      TMR2 := 0;
      inUse := false;
    }

    /** uart_init: RA2 an output held high, timer 2 set up for one interrupt per
        bit at 9600 baud but stopped, interrupts enabled, an empty iterator. */
    method Init()
      modifies bitIterator, this`TRISA2, this`RA2, this`wire, this`PR2, this`TMR2IE, this`TMR2IF
      modifies this`TOUTPS0, this`PEIE, this`GIE, this`TMR2ON, this`TMR2, this`inUse
      ensures Valid()
      ensures TRISA2 == 0 && RA2 == 1 && wire == old(wire) + [1]
      ensures PR2 == 104 && TMR2IE == 1 && TMR2IF == 0 && TOUTPS0 == 1 && PEIE == 1 && GIE == 1
      ensures TMR2ON == 0 && TMR2 == 0 && !inUse && InterruptsEnabled()
      ensures bitIterator.Abs() == Initial([], 0) && bitIterator.Abs().length == 0
    {
      bitIterator.Init([], 0);
      TRISA2 := 0;
      RA2 := 1;
      wire := wire + [1];
      PR2 := 104;
      TMR2IE := 1;
      TMR2IF := 0;
      TOUTPS0 := 1;
      PEIE := 1;
      GIE := 1;
      Stop();
    }

    /** The timer reaching PR2: the hardware raises TMR2IF, but only while the timer runs. */
    method TimerPeriodMatch()
      requires Valid()
      modifies this`TMR2IF
      ensures Valid()
      ensures TMR2IF == if old(TMR2ON) == 1 then 1 else old(TMR2IF)
    {
      if TMR2ON == 1 {
        TMR2IF := 1;
      }
    }

    /** uart_interrupt_handler: on a timer-2 interrupt, take the next value of
        the stream and drive it onto RA2, or at the end of the stream stop the
        UART; then clear the flag.  Without a pending flag nothing happens. */
    method InterruptHandler()
      requires Valid()
      modifies bitIterator, this`RA2, this`TMR2IF, this`TMR2ON, this`TMR2, this`inUse
      modifies this`wire, this`ticks
      ensures Valid()
      ensures old(TMR2IF) == 0 ==> unchanged(this) && unchanged(bitIterator)
      ensures old(TMR2IF) == 1 ==>
                var a := Step(old(bitIterator.Abs()));
                && bitIterator.Abs() == a.next
                && TMR2IF == 0
                && ticks == old(ticks) + 1
                && (a.value == StreamZero ==>
                      RA2 == 0 && wire == old(wire) + [0] && inUse && TMR2ON == 1 && TMR2 == old(TMR2))
                && (a.value == StreamOne ==>
                      RA2 == 1 && wire == old(wire) + [1] && inUse && TMR2ON == 1 && TMR2 == old(TMR2))
                && (a.value == StreamEof ==>
                      RA2 == old(RA2) && wire == old(wire) && !inUse && TMR2ON == 0 && TMR2 == 0)
    {
      if TMR2IF == 1 {
        var r := bitIterator.Next();
        ticks := ticks + 1;
        match r {
          case StreamZero =>
            RA2 := 0;
            wire := wire + [0];
          case StreamOne =>
            RA2 := 1;
            wire := wire + [1];
          case StreamEof =>
            Stop();
        }
        TMR2IF := 0;
      }
    }

    /** One bit period while the UART is in use: the timer raises its flag and,
        the interrupt being enabled, the handler serves it, making one call of `next`. */
    method Tick()
      requires Valid() && inUse && InterruptsEnabled()
      modifies bitIterator, this`RA2, this`TMR2IF, this`TMR2ON, this`TMR2, this`inUse
      modifies this`wire, this`ticks
      ensures Valid()
      ensures var a := Step(old(bitIterator.Abs()));
              && bitIterator.Abs() == a.next
              && ticks == old(ticks) + 1
              && TMR2IF == 0
              && wire == old(wire) + (if a.value == StreamEof then [] else [Level(a.value)])
              && (inUse <==> a.value != StreamEof)
              && (!inUse ==> TMR2 == 0)
    {
      TimerPeriodMatch();
      InterruptHandler();
    }

    /** The busy-wait `while (uart.in_use);` of uart_write, one bit period per
        turn: it returns once the stream has ended, after one interrupt per
        remaining call of `next`, having driven the rest of the stream onto
        the line. */
    method AwaitIdle()
      requires Valid() && inUse && InterruptsEnabled()
      modifies bitIterator, this`RA2, this`TMR2IF, this`TMR2ON, this`TMR2, this`inUse
      modifies this`wire, this`ticks
      ensures Valid() && !inUse
      ensures var it := old(bitIterator.Abs());
              && bitIterator.Abs() == Iter(it.data, it.length, it.length, 0, IteratorEof)
              && wire == old(wire) + Levels(UntilEof(it))
              && ticks == old(ticks) + Remaining(it)
              && TMR2ON == 0 && TMR2 == 0 && TMR2IF == 0
    {
      ghost var start := bitIterator.Abs();
      while inUse
        invariant Valid() && Inv(bitIterator.Abs())
        invariant bitIterator.Abs().data == start.data && bitIterator.Abs().length == start.length
        invariant inUse ==>
                    && wire + Levels(UntilEof(bitIterator.Abs())) == old(wire) + Levels(UntilEof(start))
                    && ticks + Remaining(bitIterator.Abs()) == old(ticks) + Remaining(start)
        invariant !inUse ==>
                    && bitIterator.Abs() == Iter(start.data, start.length, start.length, 0, IteratorEof)
                    && wire == old(wire) + Levels(UntilEof(start))
                    && ticks == old(ticks) + Remaining(start)
                    && TMR2 == 0
        decreases Remaining(bitIterator.Abs())
      {
        ghost var cur, w, t := bitIterator.Abs(), wire, ticks;
        Tick();
        TickKeeps(start, old(wire), old(ticks), cur, w, t, bitIterator.Abs(), wire, ticks, inUse);
      }
    }

    /** uart_write: send `length` bytes of `data` (a negative length: up to the
        first zero byte) and return once the last bit is out.  An empty buffer
        starts nothing.  Otherwise, after exactly 11 timer interrupts per byte
        the UART is released with the timer stopped and the line high, and the
        line has carried the frames of the bytes, with one extra high bit
        between consecutive frames. */
    method Write(data: seq<Byte>, length: int)
      requires Valid() && !inUse && InterruptsEnabled()
      requires length < 0 ==> 0 in data
      requires length >= 0 ==> length <= |data|
      modifies bitIterator, this`RA2, this`TMR2IF, this`TMR2ON, this`TMR2, this`inUse
      modifies this`wire, this`ticks
      ensures Valid() && !inUse
      ensures Initial(data, length).length == 0 ==>
                && bitIterator.Abs() == Initial(data, length)
                && unchanged(this)
      ensures Initial(data, length).length > 0 ==>
                var n := Initial(data, length).length;
                && bitIterator.Abs() == Iter(data, n, n, 0, IteratorEof)
                && wire == old(wire) + Levels(Stream(data[..n]))
                && ticks == old(ticks) + 11 * n
                && RA2 == 1 && TMR2ON == 0 && TMR2 == 0 && TMR2IF == 0
    {
      bitIterator.Init(data, length);
      if bitIterator.length == 0 {
        return;
      }

      InitialInv(data, length);
      Start();
      AwaitIdle();
      InitialRun(data, length, old(wire), wire, ticks - old(ticks));
    }
  }
}
