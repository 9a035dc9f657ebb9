/** The bit framer of the software UART: the `BitIterator` of uart.c, which turns
    a byte buffer into the serial bit stream "start bit, eight data bits LSB
    first, framing high bits", one value per timer tick, and then end-of-stream
    for ever.

    The iterator's state is given twice: as the value `Iter`, on which the pure
    function `Step` describes one call of `next`, and as the class `BitIterator`,
    whose method `Next` updates the fields in place as the C code does and is
    proved to follow `Step`.  The lemmas below are about `Step` and its iterates
    `After` and `Outputs`, and compare the stream it yields with the wire format `Stream`. */
module BitFraming {

  type Byte = b: int | 0 <= b < 256
  type Bit = b: int | 0 <= b < 2

  datatype Option<T> = None | Some(value: T)

  /** IteratorState */
  datatype IteratorState = StartBit | DataBit | StopBit | IteratorEof

  /** StreamRetVal: STREAM_ZERO = 0, STREAM_ONE = 1, STREAM_EOF = 2 */
  datatype StreamRetVal = StreamZero | StreamOne | StreamEof

  /** The fields of a BitIterator; `data` is the buffer it borrows. */
  datatype Iter = Iter(data: seq<Byte>, length: nat, index: nat, dataBitIndex: nat, state: IteratorState)

  /** What one call of `next` returns, and the iterator it leaves behind. */
  datatype Advance = Advance(next: Iter, value: StreamRetVal)

  // ---------------------------------------------------------------------------
  // Bytes and bits

  function Pow2(k: nat): nat
  {
    if k == 0 then 1 else 2 * Pow2(k - 1)
  }

  /** `x >> k` on a non-negative number: k halvings. */
  function Shr(x: nat, k: nat): nat
  {
    if k == 0 then x else Shr(x / 2, k - 1)
  }

  /** `(c >> k) & 1`: bit k of the byte c. */
  function BitOf(c: Byte, k: nat): Bit
  {
    Shr(c, k) % 2
  }

  /** The stream value for a bit: 0 is STREAM_ZERO, 1 is STREAM_ONE. */
  function Value(bit: Bit): StreamRetVal
  {
    if bit == 0 then StreamZero else StreamOne
  }

  /** The level the interrupt handler drives on the pin for a bit value. */
  function Level(v: StreamRetVal): Bit
    requires v != StreamEof
  {
    if v == StreamZero then 0 else 1
  }

  /** `strlen`: the number of bytes before the first NUL. */
  function StrLen(s: seq<Byte>): (n: nat)
    requires 0 in s
    ensures n < |s| && s[n] == 0
    ensures forall i :: 0 <= i < n ==> s[i] != 0
  {
    if s[0] == 0 then 0 else 1 + StrLen(s[1..])
  }

  // ---------------------------------------------------------------------------
  // The iterator as a value

  /** bit_iterator_init: a negative length means "measure the buffer up to its NUL". */
  function Initial(data: seq<Byte>, length: int): (it: Iter)
    requires length < 0 ==> 0 in data
    ensures it.data == data && it.index == 0 && it.dataBitIndex == 0 && it.state == StartBit
    ensures length >= 0 ==> it.length == length
    ensures length < 0 ==> it.length < |data| && data[it.length] == 0
                           && forall i :: 0 <= i < it.length ==> data[i] != 0
  {
    Iter(data, if length < 0 then StrLen(data) else length, 0, 0, StartBit)
  }

  /** last_data_bit_p: in DATA_BIT, true exactly when no data bit of the
      current byte is left to send. */
  predicate LastDataBit(it: Iter): (done: bool)
    ensures Inv(it) && it.state == DataBit ==>
              (done <==> |BitsFrom(it.data[it.index], it.dataBitIndex)| == 0)
  {
    it.dataBitIndex == 8
  }

  /** end_of_data: true exactly when no byte is left to send. */
  predicate EndOfData(it: Iter): (atEnd: bool)
    ensures Inv(it) ==> (atEnd <==> |it.data[it.index..it.length]| == 0)
  {
    it.length == it.index
  }

  /** The invariant every call of `next` keeps, once the buffer is non-empty: the
      buffer holds `length` bytes, the counters are in range, the bit counter is
      zero outside DATA_BIT, a byte is left to read in START_BIT and DATA_BIT,
      and ITERATOR_EOF is only reached past the last byte. */
  predicate Inv(it: Iter)
  {
    && it.length <= |it.data|
    && it.index <= it.length
    && it.dataBitIndex <= 8
    && (it.state == StartBit || it.state == StopBit ==> it.dataBitIndex == 0)
    && (it.state == StartBit || it.state == DataBit ==> it.index < it.length)
    && (it.state == IteratorEof ==> it.index == it.length && it.dataBitIndex == 0)
  }

  /** One call of `next`. */
  function Step(it: Iter): (a: Advance)
    requires Inv(it)
    ensures Inv(a.next)
    ensures a.next.data == it.data && a.next.length == it.length
    ensures a.value == StreamEof <==> it.state == IteratorEof || (it.state == StopBit && it.index == it.length)
    ensures a.next.state == IteratorEof <==> a.value == StreamEof
  {
    match it.state
    case IteratorEof => Advance(it, StreamEof)
    case StartBit => Advance(it.(state := DataBit), StreamZero)
    case DataBit =>
      var c := it.data[it.index];
      if LastDataBit(it) then
        Advance(it.(index := it.index + 1, state := StopBit, dataBitIndex := 0), StreamOne)
      else
        Advance(it.(dataBitIndex := it.dataBitIndex + 1), Value(BitOf(c, it.dataBitIndex)))
    case StopBit =>
      if EndOfData(it) then Advance(it.(state := IteratorEof), StreamEof)
      else Advance(it.(state := StartBit), StreamOne)
  }

  /** The iterator after k successive calls of `next`. */
  function After(it: Iter, k: nat): (r: Iter)
    requires Inv(it)
    ensures Inv(r) && r.data == it.data && r.length == it.length
    decreases k
  {
    if k == 0 then it else After(Step(it).next, k - 1)
  }

  /** The values k successive calls of `next` return, oldest first. */
  function Outputs(it: Iter, k: nat): (s: seq<StreamRetVal>)
    requires Inv(it)
    ensures |s| == k
    decreases k
  {
    if k == 0 then [] else [Step(it).value] + Outputs(Step(it).next, k - 1)
  }

  /** How many more calls of `next` it takes until one returns STREAM_EOF
      (that call included); zero once the iterator is at ITERATOR_EOF. */
  function Remaining(it: Iter): nat
    requires Inv(it)
  {
    match it.state
    case StartBit => 11 * (it.length - it.index)
    case DataBit => 11 * (it.length - it.index) - 1 - it.dataBitIndex
    case StopBit => 11 * (it.length - it.index) + 1
    case IteratorEof => 0
  }

  /** The values `next` returns from here on, up to (not including) the first STREAM_EOF. */
  function UntilEof(it: Iter): seq<StreamRetVal>
    requires Inv(it)
    decreases Remaining(it)
  {
    var a := Step(it);
    if a.value == StreamEof then [] else [a.value] + UntilEof(a.next)
  }

  // ---------------------------------------------------------------------------
  // The wire format, defined independently of the state machine

  /** Bits d..7 of c, LSB first, as stream values. */
  function BitsFrom(c: Byte, d: nat): (s: seq<StreamRetVal>)
    requires d <= 8
    ensures |s| == 8 - d
    decreases 8 - d
  {
    if d == 8 then [] else [Value(BitOf(c, d))] + BitsFrom(c, d + 1)
  }

  /** One frame: start bit, the eight data bits LSB first, one high framing bit. */
  function FrameOf(c: Byte): (s: seq<StreamRetVal>)
    ensures |s| == 10 && s[0] == StreamZero && s[9] == StreamOne
  {
    [StreamZero] + BitsFrom(c, 0) + [StreamOne]
  }

  /** Value k of `BitsFrom(c, d)` is bit d + k of c. */
  lemma {:induction false} BitsFromIndex(c: Byte, d: nat, k: nat)
    requires d + k < 8
    ensures BitsFrom(c, d)[k] == Value(BitOf(c, d + k))
    decreases k
  {
    if k > 0 {
      BitsFromIndex(c, d + 1, k - 1);
    }
  }

  /** In a frame, value k + 1 is data bit k, least significant first. */
  lemma FrameBit(c: Byte, k: nat)
    requires k < 8
    ensures FrameOf(c)[k + 1] == Value(BitOf(c, k))
  {
    BitsFromIndex(c, 0, k);
  }

  /** The values `next` yields before STREAM_EOF: the frames of all bytes, with
      one more high bit between consecutive frames and none after the last. */
  function Stream(bytes: seq<Byte>): (s: seq<StreamRetVal>)
    requires |bytes| >= 1
    ensures |s| == 11 * |bytes| - 1 && s[|s| - 1] == StreamOne
    decreases |bytes|
  {
    if |bytes| == 1 then FrameOf(bytes[0])
    else FrameOf(bytes[0]) + [StreamOne] + Stream(bytes[1..])
  }

  /** No value is STREAM_EOF. */
  predicate NoEof(vals: seq<StreamRetVal>)
  {
    |vals| == 0 || (vals[0] != StreamEof && NoEof(vals[1..]))
  }

  /** k end-of-stream values. */
  function Eofs(k: nat): (s: seq<StreamRetVal>)
    ensures |s| == k
  {
    if k == 0 then [] else [StreamEof] + Eofs(k - 1)
  }

  /** The pin levels the interrupt handler drives for a sequence of `next`
      results: STREAM_EOF drives nothing. */
  function Levels(vals: seq<StreamRetVal>): seq<Bit>
  {
    if |vals| == 0 then []
    else (if vals[0] == StreamEof then [] else [Level(vals[0])]) + Levels(vals[1..])
  }

  // ---------------------------------------------------------------------------
  // A reference receiver: the inverse of the wire format

  /** The number whose bits, LSB first, are the given stream values. */
  function Decode(bits: seq<StreamRetVal>): nat
  {
    if |bits| == 0 then 0 else (if bits[0] == StreamOne then 1 else 0) + 2 * Decode(bits[1..])
  }

  /** Reads back a stream of frames separated by one extra high bit. */
  function Receive(s: seq<StreamRetVal>): Option<seq<nat>>
    decreases |s|
  {
    if |s| < 10 || s[0] != StreamZero || s[9] != StreamOne || !NoEof(s[1..9]) then None
    else if |s| == 10 then Some([Decode(s[1..9])])
    else if s[10] != StreamOne then None
    else match Receive(s[11..])
      case None => None
      case Some(rest) => Some([Decode(s[1..9])] + rest)
  }

  // ---------------------------------------------------------------------------
  // One call of `next`, case by case

  /** In ITERATOR_EOF, `next` returns STREAM_EOF and changes nothing. */
  lemma StepEof(it: Iter)
    requires Inv(it) && it.state == IteratorEof
    ensures Step(it) == Advance(it, StreamEof)
  {
  }

  /** In START_BIT, `next` emits the low start bit and moves to DATA_BIT with the bit counter at zero. */
  lemma StepStartBit(it: Iter)
    requires Inv(it) && it.state == StartBit
    ensures Step(it).value == StreamZero
    ensures Step(it).next == it.(state := DataBit) && Step(it).next.dataBitIndex == 0
  {
  }

  /** In DATA_BIT before the eighth bit is out, `next` emits bit `dataBitIndex`
      of the current byte and moves only the bit counter. */
  lemma StepDataBit(it: Iter)
    requires Inv(it) && it.state == DataBit && it.dataBitIndex < 8
    ensures Step(it).value == Value(BitOf(it.data[it.index], it.dataBitIndex))
    ensures Step(it).value != StreamEof
    ensures Step(it).next == it.(dataBitIndex := it.dataBitIndex + 1)
  {
  }

  /** In DATA_BIT after the eighth bit, `next` emits a high bit, moves to the next
      byte and to STOP_BIT. */
  lemma StepEndOfDataBits(it: Iter)
    requires Inv(it) && it.state == DataBit && it.dataBitIndex == 8
    ensures Step(it) == Advance(it.(index := it.index + 1, dataBitIndex := 0, state := StopBit), StreamOne)
  {
  }

  /** In STOP_BIT, `next` ends the stream exactly when every byte has been sent,
      and otherwise emits one more high bit and goes back to START_BIT. */
  lemma StepStopBit(it: Iter)
    requires Inv(it) && it.state == StopBit
    ensures Step(it).value == StreamEof <==> it.index == it.length
    ensures it.index == it.length ==> Step(it).next == it.(state := IteratorEof)
    ensures it.index != it.length ==> Step(it) == Advance(it.(state := StartBit), StreamOne)
  {
  }

  /** Every call of `next` before the end brings the end one call closer, and
      the call that returns STREAM_EOF is the last one counted. */
  lemma StepRemaining(it: Iter)
    requires Inv(it) && it.state != IteratorEof
    ensures Remaining(Step(it).next) == Remaining(it) - 1
    ensures Step(it).value == StreamEof <==> Remaining(it) == 1
  {
  }

  /** A fresh iterator over a non-empty buffer satisfies the invariant and ends after 11 calls per byte. */
  lemma InitialInv(data: seq<Byte>, length: int)
    requires length < 0 ==> 0 in data
    requires length >= 0 ==> length <= |data|
    requires Initial(data, length).length >= 1
    ensures Inv(Initial(data, length))
    ensures Remaining(Initial(data, length)) == 11 * Initial(data, length).length
  {
  }

  // ---------------------------------------------------------------------------
  // Many calls of `next`

  /** One call of `next`, as a run. */
  lemma RunOne(it: Iter)
    requires Inv(it)
    ensures After(it, 1) == Step(it).next && Outputs(it, 1) == [Step(it).value]
  {
    assert Outputs(Step(it).next, 0) == [];
  }

  /** j calls and then k calls leave the iterator where j + k calls do. */
  lemma {:induction false} AfterAdd(it: Iter, j: nat, k: nat)
    requires Inv(it)
    ensures After(it, j + k) == After(After(it, j), k)
    decreases j
  {
    if j > 0 {
      AfterAdd(Step(it).next, j - 1, k);
    }
  }

  /** j calls and then k calls return what j + k calls return. */
  lemma {:induction false} OutputsAdd(it: Iter, j: nat, k: nat)
    requires Inv(it)
    ensures Outputs(it, j + k) == Outputs(it, j) + Outputs(After(it, j), k)
    decreases j
  {
    if j > 0 {
      OutputsAdd(Step(it).next, j - 1, k);
    }
  }

  /** Once at ITERATOR_EOF, every call returns STREAM_EOF and nothing moves. */
  lemma {:induction false} EofRun(it: Iter, k: nat)
    requires Inv(it) && it.state == IteratorEof
    ensures After(it, k) == it && Outputs(it, k) == Eofs(k)
    decreases k
  {
    if k > 0 {
      EofRun(it, k - 1);
    }
  }

  /** `Remaining` counts exactly: that many calls return the values up to the
      end of the stream and then STREAM_EOF, and leave the iterator at
      ITERATOR_EOF past the last byte. */
  lemma {:induction false} RunToEof(it: Iter, r: nat)
    requires Inv(it) && it.state != IteratorEof && r == Remaining(it)
    ensures Outputs(it, r) == UntilEof(it) + [StreamEof]
    ensures After(it, r) == Iter(it.data, it.length, it.length, 0, IteratorEof)
    decreases r
  {
    var a := Step(it);
    StepRemaining(it);
    if a.value != StreamEof {
      RunToEof(a.next, r - 1);
    }
  }

  /** From bit d of a byte, the remaining data bits come out LSB first. */
  lemma {:induction false} DataBitsUntil(it: Iter)
    requires Inv(it) && it.state == DataBit
    ensures UntilEof(it) == BitsFrom(it.data[it.index], it.dataBitIndex) + UntilEof(it.(dataBitIndex := 8))
    decreases 8 - it.dataBitIndex
  {
    if it.dataBitIndex < 8 {
      var n := it.(dataBitIndex := it.dataBitIndex + 1);
      assert Step(it).next == n;
      DataBitsUntil(n);
      assert n.(dataBitIndex := 8) == it.(dataBitIndex := 8);
    } else {
      assert it.(dataBitIndex := 8) == it;
    }
  }

  /** From START_BIT, one whole frame comes out before STOP_BIT at the next byte. */
  lemma FrameUntil(data: seq<Byte>, len: nat, i: nat)
    requires len <= |data| && i < len
    ensures UntilEof(Iter(data, len, i, 0, StartBit)) == FrameOf(data[i]) + UntilEof(Iter(data, len, i + 1, 0, StopBit))
  {
    var d0 := Iter(data, len, i, 0, DataBit);
    var d8 := Iter(data, len, i, 8, DataBit);
    assert Step(Iter(data, len, i, 0, StartBit)) == Advance(d0, StreamZero);
    DataBitsUntil(d0);
    assert d0.(dataBitIndex := 8) == d8;
    assert Step(d8) == Advance(Iter(data, len, i + 1, 0, StopBit), StreamOne);
  }

  /** From START_BIT at byte i, what comes out before STREAM_EOF is the stream of bytes i..len. */
  lemma {:induction false} StreamUntil(data: seq<Byte>, len: nat, i: nat)
    requires len <= |data| && i < len
    ensures UntilEof(Iter(data, len, i, 0, StartBit)) == Stream(data[i..len])
    decreases len - i
  {
    var stop := Iter(data, len, i + 1, 0, StopBit);
    FrameUntil(data, len, i);
    if i + 1 == len {
      assert Step(stop).value == StreamEof;
      assert data[i..len] == [data[i]];
    } else {
      var next := Iter(data, len, i + 1, 0, StartBit);
      assert Step(stop) == Advance(next, StreamOne);
      StreamUntil(data, len, i + 1);
      var bytes := data[i..len];
      assert bytes[1..] == data[i + 1..len];
      StreamSplit(bytes);
    }
  }

  /** A stream of several bytes is the first frame, one high bit, and the stream of the rest. */
  lemma StreamSplit(bytes: seq<Byte>)
    requires |bytes| > 1
    ensures Stream(bytes) == FrameOf(bytes[0]) + ([StreamOne] + Stream(bytes[1..]))
  {
  }

  /** A fresh iterator over a non-empty buffer yields the buffer's stream before ending. */
  lemma InitialStream(data: seq<Byte>, length: int)
    requires length < 0 ==> 0 in data
    requires length >= 0 ==> length <= |data|
    requires Initial(data, length).length >= 1
    ensures Inv(Initial(data, length)) && Initial(data, length).state == StartBit
    ensures UntilEof(Initial(data, length)) == Stream(data[..Initial(data, length).length])
  {
    var n := Initial(data, length).length;
    StreamUntil(data, n, 0);
    assert data[0..n] == data[..n];
  }

  /** What running a fresh iterator over a non-empty buffer to its end leaves
      on the line: if the line held w0 and the run appended the levels of the
      values before STREAM_EOF, giving w, in k calls, then w is w0 followed by the levels of
      the buffer's stream, it ends high, and k is 11 per byte. */
  lemma InitialRun(data: seq<Byte>, length: int, w0: seq<Bit>, w: seq<Bit>, k: nat)
    requires length < 0 ==> 0 in data
    requires length >= 0 ==> length <= |data|
    requires Initial(data, length).length > 0
    requires Inv(Initial(data, length))
    requires w == w0 + Levels(UntilEof(Initial(data, length)))
    requires k == Remaining(Initial(data, length))
    ensures w == w0 + Levels(Stream(data[..Initial(data, length).length]))
    ensures k == 11 * Initial(data, length).length
    ensures |w| > 0 && w[|w| - 1] == 1
  {
    var n := Initial(data, length).length;
    InitialInv(data, length);
    InitialStream(data, length);
    LastLevel(data[..n]);
    var l := Levels(Stream(data[..n]));
    assert w == w0 + l;
    assert w[|w| - 1] == l[|l| - 1];
  }

  /** Regrouping x = f + y with y = p + [one] + q and a = f + p, as x = a + [one] + q. */
  lemma Regroup(x: seq<StreamRetVal>, a: seq<StreamRetVal>, f: seq<StreamRetVal>,
                y: seq<StreamRetVal>, p: seq<StreamRetVal>, q: seq<StreamRetVal>)
    requires x == f + y && y == p + [StreamOne] + q && a == f + p
    ensures x == a + [StreamOne] + q
  {
    assert f + (p + [StreamOne] + q) == (f + p) + [StreamOne] + q;
  }

  /** The stream of two buffers sent back to back is the stream of the first,
      one extra high bit, and the stream of the second: consecutive frames are
      always separated by two high bits (a frame's own final one and this one),
      while the stream still ends on the last frame's single final high bit. */
  lemma {:induction false} StreamConcat(a: seq<Byte>, b: seq<Byte>)
    requires |a| >= 1 && |b| >= 1
    ensures Stream(a + b) == Stream(a) + [StreamOne] + Stream(b)
    decreases |a|
  {
    var ab := a + b;
    assert ab[0] == a[0];
    if |a| == 1 {
      assert ab[1..] == b;
    } else {
      assert ab[1..] == a[1..] + b;
      StreamConcat(a[1..], b);
      var f := FrameOf(a[0]) + [StreamOne];
      assert Stream(ab) == f + Stream(a[1..] + b);
      assert Stream(a) == f + Stream(a[1..]);
      Regroup(Stream(ab), Stream(a), f, Stream(a[1..] + b), Stream(a[1..]), Stream(b));
    }
  }

  /** The whole stream: over a non-empty buffer of n bytes, the first 11n - 1
      calls of `next` yield `Stream`, and call 11n yields STREAM_EOF and leaves
      the iterator at ITERATOR_EOF past the last byte (where `EofRun` keeps it). */
  lemma WholeStream(data: seq<Byte>, length: int)
    requires length < 0 ==> 0 in data
    requires length >= 0 ==> length <= |data|
    requires Initial(data, length).length >= 1
    ensures var n := Initial(data, length).length;
            && Initial(data, length) == Iter(data, n, 0, 0, StartBit)
            && Inv(Initial(data, length))
            && After(Initial(data, length), 11 * n) == Iter(data, n, n, 0, IteratorEof)
            && Outputs(Initial(data, length), 11 * n) == Stream(data[..n]) + [StreamEof]
  {
    var n := Initial(data, length).length;
    WholeStreamFrom(data, n);
  }

  /** And STREAM_EOF for ever after: once r calls have brought the iterator to
      ITERATOR_EOF, any k further calls return STREAM_EOF and leave it there.
      With `WholeStream` (r = 11n): after call 11n, every call returns STREAM_EOF. */
  lemma EofForever(it: Iter, r: nat, k: nat)
    requires Inv(it) && After(it, r).state == IteratorEof
    ensures After(it, r + k) == After(it, r)
    ensures Outputs(it, r + k) == Outputs(it, r) + Eofs(k)
  {
    AfterAdd(it, r, k);
    OutputsAdd(it, r, k);
    EofRun(After(it, r), k);
  }

  /** `WholeStream` for an iterator over the first n bytes of a buffer. */
  lemma WholeStreamFrom(data: seq<Byte>, n: nat)
    requires 1 <= n <= |data|
    ensures After(Iter(data, n, 0, 0, StartBit), 11 * n) == Iter(data, n, n, 0, IteratorEof)
    ensures Outputs(Iter(data, n, 0, 0, StartBit), 11 * n) == Stream(data[..n]) + [StreamEof]
  {
    RunToEof(Iter(data, n, 0, 0, StartBit), 11 * n);
    StreamUntil(data, n, 0);
    assert data[0..n] == data[..n];
  }

  /** Counting calls from a non-final iterator: after k calls, at most
      `Remaining` of them, `Remaining` has dropped by k, and the iterator is at
      ITERATOR_EOF exactly when all of them have been made. */
  lemma {:induction false} AfterCount(it: Iter, k: nat)
    requires Inv(it) && it.state != IteratorEof && k <= Remaining(it)
    ensures Remaining(After(it, k)) == Remaining(it) - k
    ensures After(it, k).state == IteratorEof <==> k == Remaining(it)
    decreases k
  {
    if k > 0 {
      StepRemaining(it);
      var a := Step(it);
      if a.next.state == IteratorEof {
        assert k == 1;
      } else {
        AfterCount(a.next, k - 1);
      }
    }
  }

  /** One call of `next` before the end, seen from `UntilEof`: either it
      yields the first of the values still to come and one call fewer remains,
      or it yields STREAM_EOF, nothing was still to come, and the iterator has
      reached ITERATOR_EOF past the last byte. */
  lemma UntilEofStep(it: Iter)
    requires Inv(it) && it.state != IteratorEof
    ensures Remaining(Step(it).next) == Remaining(it) - 1
    ensures Step(it).value != StreamEof ==>
              Levels(UntilEof(it)) == [Level(Step(it).value)] + Levels(UntilEof(Step(it).next))
    ensures Step(it).value == StreamEof ==>
              UntilEof(it) == [] && Step(it).next == Iter(it.data, it.length, it.length, 0, IteratorEof)
  {
    StepRemaining(it);
    var a := Step(it);
    if a.value != StreamEof {
      LevelsAppend([a.value], UntilEof(a.next));
      assert Levels([a.value]) == [Level(a.value)];
    }
  }


  // ---------------------------------------------------------------------------
  // Pin levels

  /** The levels of a concatenation are the concatenated levels. */
  lemma {:induction false} LevelsAppend(a: seq<StreamRetVal>, b: seq<StreamRetVal>)
    ensures Levels(a + b) == Levels(a) + Levels(b)
    decreases |a|
  {
    if |a| > 0 {
      LevelsAppend(a[1..], b);
      assert (a + b)[1..] == a[1..] + b;
    } else {
      assert a + b == b;
    }
  }


  /** A concatenation has no STREAM_EOF exactly when neither part has. */
  lemma {:induction false} NoEofAppend(a: seq<StreamRetVal>, b: seq<StreamRetVal>)
    ensures NoEof(a + b) <==> NoEof(a) && NoEof(b)
    decreases |a|
  {
    if |a| > 0 {
      NoEofAppend(a[1..], b);
      assert (a + b)[1..] == a[1..] + b;
    } else {
      assert a + b == b;
    }
  }

  /** The stream of a buffer holds no STREAM_EOF. */
  lemma {:induction false} NoEofStream(bytes: seq<Byte>)
    requires |bytes| >= 1
    ensures NoEof(Stream(bytes))
    decreases |bytes|
  {
    var f := FrameOf(bytes[0]);
    NoEofBitsFrom(bytes[0], 0);
    NoEofAppend([StreamZero], BitsFrom(bytes[0], 0));
    NoEofAppend([StreamZero] + BitsFrom(bytes[0], 0), [StreamOne]);
    if |bytes| > 1 {
      NoEofStream(bytes[1..]);
      NoEofAppend(f, [StreamOne]);
      NoEofAppend(f + [StreamOne], Stream(bytes[1..]));
    }
  }

  /** Without STREAM_EOF, every value drives one level: the same one it names. */
  lemma {:induction false} LevelsNoEof(vals: seq<StreamRetVal>)
    requires NoEof(vals)
    ensures |Levels(vals)| == |vals|
    ensures forall i :: 0 <= i < |vals| ==> vals[i] != StreamEof && Levels(vals)[i] == Level(vals[i])
    decreases |vals|
  {
    if |vals| > 0 {
      LevelsNoEof(vals[1..]);
    }
  }

  /** The pin levels of a buffer's stream: one per value, the value's own
      level; the closing STREAM_EOF drives nothing. */
  lemma StreamLevels(bytes: seq<Byte>)
    requires |bytes| >= 1
    ensures Levels(Stream(bytes) + [StreamEof]) == Levels(Stream(bytes))
    ensures |Levels(Stream(bytes))| == 11 * |bytes| - 1
    ensures forall i :: 0 <= i < 11 * |bytes| - 1 ==>
              Stream(bytes)[i] != StreamEof && Levels(Stream(bytes))[i] == Level(Stream(bytes)[i])
  {
    var s := Stream(bytes);
    LevelsAppend(s, [StreamEof]);
    assert Levels([StreamEof]) == [];
    NoEofStream(bytes);
    LevelsNoEof(s);
  }

  /** The last pin level of a buffer's stream is high: the line idles high after a write. */
  lemma LastLevel(bytes: seq<Byte>)
    requires |bytes| >= 1
    ensures |Levels(Stream(bytes))| > 0
    ensures Levels(Stream(bytes))[|Levels(Stream(bytes))| - 1] == 1
  {
    StreamLevels(bytes);
    assert Stream(bytes)[11 * |bytes| - 2] == StreamOne;
  }

  // ---------------------------------------------------------------------------
  // The wire format reads back to the bytes

  /** Shifting by one more halves the shifted value. */
  lemma {:induction false} ShrSucc(x: nat, k: nat)
    ensures Shr(x, k + 1) == Shr(x, k) / 2
    decreases k
  {
    if k > 0 {
      ShrSucc(x / 2, k - 1);
    }
  }

  /** Shifting a number below 2^k by k gives zero. */
  lemma {:induction false} ShrSmall(x: nat, k: nat)
    requires x < Pow2(k)
    ensures Shr(x, k) == 0
    decreases k
  {
    if k > 0 {
      ShrSmall(x / 2, k - 1);
    }
  }

  /** The data bits from d on read back as the byte shifted right by d. */
  lemma {:induction false} DecodeBitsFrom(c: Byte, d: nat)
    requires d <= 8
    ensures Decode(BitsFrom(c, d)) == Shr(c, d)
    decreases 8 - d
  {
    if d == 8 {
      assert Pow2(8) == 256;
      ShrSmall(c, 8);
    } else {
      var rest := BitsFrom(c, d + 1);
      DecodeBitsFrom(c, d + 1);
      ShrSucc(c, d);
      assert ([Value(BitOf(c, d))] + rest)[1..] == rest;
    }
  }

  /** The eight data bits of a frame read back as its byte. */
  lemma FrameRoundTrip(c: Byte)
    ensures Decode(FrameOf(c)[1..9]) == c
  {
    assert FrameOf(c)[1..9] == BitsFrom(c, 0);
    DecodeBitsFrom(c, 0);
  }

  /** No data bit is STREAM_EOF. */
  lemma {:induction false} NoEofBitsFrom(c: Byte, d: nat)
    requires d <= 8
    ensures NoEof(BitsFrom(c, d))
    decreases 8 - d
  {
    if d < 8 {
      NoEofBitsFrom(c, d + 1);
      assert BitsFrom(c, d)[1..] == BitsFrom(c, d + 1);
    }
  }

  /** The first ten values of a frame pass the receiver's framing checks. */
  lemma FrameChecks(c: Byte, s: seq<StreamRetVal>)
    requires |s| >= 10 && s[..10] == FrameOf(c)
    ensures s[0] == StreamZero && s[9] == StreamOne && NoEof(s[1..9])
    ensures Decode(s[1..9]) == c
  {
    var f := FrameOf(c);
    assert f == [StreamZero] + BitsFrom(c, 0) + [StreamOne];
    assert f[1..9] == BitsFrom(c, 0);
    assert s[1..9] == f[1..9];
    NoEofBitsFrom(c, 0);
    DecodeBitsFrom(c, 0);
  }

  /** A single frame reads back as its byte. */
  lemma ReceiveFrame(c: Byte)
    ensures Receive(FrameOf(c)) == Some([c])
  {
    var s := FrameOf(c);
    assert s[..10] == s;
    FrameChecks(c, s);
  }

  /** A frame, one high bit and a further stream read back as the byte
      followed by what the further stream reads back as. */
  lemma ReceiveFrameThen(c: Byte, rest: seq<StreamRetVal>)
    ensures Receive(FrameOf(c) + [StreamOne] + rest)
         == match Receive(rest)
            case None => None
            case Some(r) => Some([c] + r)
  {
    var s := FrameOf(c) + [StreamOne] + rest;
    assert s[..10] == FrameOf(c);
    FrameChecks(c, s);
    assert s[10] == StreamOne;
    assert s[11..] == rest;
  }

  /** The stream of a non-empty buffer reads back as that buffer. */
  lemma {:induction false} ReceiveStream(bytes: seq<Byte>)
    requires |bytes| >= 1
    ensures Receive(Stream(bytes)) == Some(bytes)
    decreases |bytes|
  {
    if |bytes| == 1 {
      ReceiveFrame(bytes[0]);
      assert bytes == [bytes[0]];
    } else {
      ReceiveStream(bytes[1..]);
      ReceiveFrameThen(bytes[0], Stream(bytes[1..]));
      assert bytes == [bytes[0]] + bytes[1..];
    }
  }

  // ---------------------------------------------------------------------------
  // Two concrete streams

  /** The data bits of a byte, computed bit by bit. */
  lemma FrameOfBits(c: Byte, b0: Bit, b1: Bit, b2: Bit, b3: Bit, b4: Bit, b5: Bit, b6: Bit, b7: Bit)
    requires BitOf(c, 0) == b0 && BitOf(c, 1) == b1 && BitOf(c, 2) == b2 && BitOf(c, 3) == b3
    requires BitOf(c, 4) == b4 && BitOf(c, 5) == b5 && BitOf(c, 6) == b6 && BitOf(c, 7) == b7
    ensures FrameOf(c)
         == [StreamZero, Value(b0), Value(b1), Value(b2), Value(b3),
             Value(b4), Value(b5), Value(b6), Value(b7), StreamOne]
  {
    FrameBit(c, 0); FrameBit(c, 1); FrameBit(c, 2); FrameBit(c, 3);
    FrameBit(c, 4); FrameBit(c, 5); FrameBit(c, 6); FrameBit(c, 7);
  }

  /** The frame of 'A' (0x41). */
  lemma FrameOfA()
    ensures FrameOf(0x41) == [StreamZero, StreamOne, StreamZero, StreamZero, StreamZero,
                              StreamZero, StreamZero, StreamOne, StreamZero, StreamOne]
  {
    assert Shr(0x41, 1) == 0x20 && Shr(0x41, 2) == 0x10 && Shr(0x41, 3) == 8;
    assert Shr(0x41, 4) == 4 && Shr(0x41, 5) == 2 && Shr(0x41, 6) == 1 && Shr(0x41, 7) == 0;
    FrameOfBits(0x41, 1, 0, 0, 0, 0, 0, 1, 0);
  }

  /** The frame of 0x00. */
  lemma FrameOfZero()
    ensures FrameOf(0x00) == [StreamZero, StreamZero, StreamZero, StreamZero, StreamZero,
                              StreamZero, StreamZero, StreamZero, StreamZero, StreamOne]
  {
    assert Shr(0, 1) == 0 && Shr(0, 2) == 0 && Shr(0, 3) == 0 && Shr(0, 4) == 0;
    assert Shr(0, 5) == 0 && Shr(0, 6) == 0 && Shr(0, 7) == 0;
    FrameOfBits(0, 0, 0, 0, 0, 0, 0, 0, 0);
  }

  /** The frame of 0xFF. */
  lemma FrameOfFF()
    ensures FrameOf(0xFF) == [StreamZero, StreamOne, StreamOne, StreamOne, StreamOne,
                              StreamOne, StreamOne, StreamOne, StreamOne, StreamOne]
  {
    assert Shr(0xFF, 1) == 0x7F && Shr(0xFF, 2) == 0x3F && Shr(0xFF, 3) == 0x1F;
    assert Shr(0xFF, 4) == 0xF && Shr(0xFF, 5) == 7 && Shr(0xFF, 6) == 3 && Shr(0xFF, 7) == 1;
    FrameOfBits(0xFF, 1, 1, 1, 1, 1, 1, 1, 1);
  }

  /** 'A' (0x41) goes out as 0, then 1,0,0,0,0,0,1,0, then one high bit. */
  lemma StreamOfA()
    ensures Stream([0x41]) == [StreamZero, StreamOne, StreamZero, StreamZero, StreamZero,
                               StreamZero, StreamZero, StreamOne, StreamZero, StreamOne]
  {
    FrameOfA();
  }

  /** [0x00, 0xFF]: two high bits between the frames, one after the last. */
  lemma StreamOfZeroAndFF()
    ensures Stream([0x00, 0xFF])
         == [StreamZero, StreamZero, StreamZero, StreamZero, StreamZero,
             StreamZero, StreamZero, StreamZero, StreamZero, StreamOne]
            + [StreamOne]
            + [StreamZero, StreamOne, StreamOne, StreamOne, StreamOne,
               StreamOne, StreamOne, StreamOne, StreamOne, StreamOne]
  {
    var bytes: seq<Byte> := [0x00, 0xFF];
    assert bytes[1..] == [0xFF];
    StreamSplit(bytes);
    FrameOfZero();
    FrameOfFF();
  }

  // ---------------------------------------------------------------------------
  // The iterator as an object updated in place, as in uart.c

  class BitIterator {
    var data: seq<Byte>
    var length: nat
    var index: nat
    var dataBitIndex: nat
    var state: IteratorState

    /** The fields as a value. */
    function Abs(): Iter
      reads this
    {
      Iter(data, length, index, dataBitIndex, state)
    }

    /** The zero-initialised struct of a static object. */
    constructor ()
      ensures Abs() == Iter([], 0, 0, 0, StartBit)
    {
      data, length, index, dataBitIndex, state := [], 0, 0, 0, StartBit;
    }

    /** bit_iterator_init */
    method Init(buffer: seq<Byte>, len: int)
      requires len < 0 ==> 0 in buffer
      modifies this
      ensures Abs() == Initial(buffer, len)
    {
      data := buffer;
      length := if len < 0 then StrLen(buffer) else len;
      index := 0;
      state := StartBit;
      dataBitIndex := 0;
    }

    /** next */
    method Next() returns (r: StreamRetVal)
      requires Inv(Abs())
      modifies this`index, this`dataBitIndex, this`state
      ensures Step(old(Abs())) == Advance(Abs(), r)
    {
      match state {
        case IteratorEof =>
          r := StreamEof;
        case StartBit =>
          state := DataBit;
          r := StreamZero;
        case DataBit =>
          var c := data[index];
          if LastDataBit(Abs()) {
            index := index + 1;
            state := StopBit;
            dataBitIndex := 0;
            r := StreamOne;
          } else {
            r := Value(BitOf(c, dataBitIndex));
            dataBitIndex := dataBitIndex + 1;
          }
        case StopBit =>
          if EndOfData(Abs()) {
            state := IteratorEof;
            r := StreamEof;
          } else {
            state := StartBit;
            r := StreamOne;
          }
      }
    }
  }
}
