# Software UART transmitter (PIC10F322, `uart-write`)

A Dafny model of the bit-banged UART transmitter in
`microchip/PIC10F322/uart-write/uart.c`, with proofs about it.

The program sends a byte buffer on pin RA2 at one bit per timer-2 period. It has two parts:

- **The bit framer** (`BitIterator`, `bit_iterator_init`, `next`). This is a state
  machine over START_BIT, DATA_BIT, STOP_BIT and ITERATOR_EOF. One call of `next`
  returns the next value of the serial stream: STREAM_ZERO, STREAM_ONE, or STREAM_EOF
  at the end. It is in module `BitFraming` (`framing.dfy`), in two forms:
  - the pure value `Iter`, with the function `Step` for one call of `next`;
  - the class `BitIterator`, whose fields `Next` updates in place as the C code does.
    `Next` is proved to follow `Step`.
- **The transmission controller** (`uart_init`, `uart_start`, `uart_stop`,
  `uart_write`, `uart_interrupt_handler`). The global `uart` object and the registers
  it touches (RA2, TRISA2, TMR2ON, TMR2, PR2, TMR2IF, TMR2IE, TOUTPS0, PEIE, GIE) are
  fields of the class `SoftUart.Uart` (`uart.dfy`).
  - Two ghost fields record what the line shows: `wire` holds every level written to
    RA2, and `ticks` counts the timer interrupts served.
  - The hardware's part is `TimerPeriodMatch`: the timer raises TMR2IF once a period
    while it runs.
  - The busy-wait `while (uart.in_use);` becomes a loop. Each turn lets one period pass
    and runs the interrupt handler once. Its termination measure is the number of
    calls of `next` still to come (`Remaining`).

Three reference definitions stand apart from the state machine:

- `Stream(bytes)` is the wire format `next` produces, defined on its own. Each byte is a frame of a low start bit,
  its eight data bits least significant first, and a high bit. Consecutive frames are
  separated by one more high bit.
- `Levels` maps stream values to pin levels.
- `Receive` is a reference receiver that reads such a stream back into bytes.

What is proved:

- **The iterator.** It follows the stream exactly.
  - The first 11n − 1 calls return `Stream` of the n bytes, call 11n returns
    STREAM_EOF, and every later call does too.
  - `uart_write` returns after exactly 11n timer interrupts. By then the line has
    carried the levels of that stream, RA2 is high and the timer is stopped.
  - The stream reads back as the buffer.
- **The tail asymmetry.** It is modelled as the code behaves and not "fixed". There are
  two high bits between consecutive frames (the frame's own high bit from DATA_BIT and
  the extra one from STOP_BIT). After the last frame there is only that frame's own
  high bit, because STOP_BIT then returns STREAM_EOF.

## Model

| member | source | states |
|---|---|---|
| BitFraming.StrLen | microchip/PIC10F322/uart-write/uart.c:31 | `strlen`: the result indexes a 0 byte of the buffer, and no byte before it is 0 |
| BitFraming.LastDataBit | microchip/PIC10F322/uart-write/uart.c:83-85 | `last_data_bit_p` is true when the bit index is 8, which in DATA_BIT is exactly when no data bit of the current byte is left to send |
| BitFraming.EndOfData | microchip/PIC10F322/uart-write/uart.c:87-89 | `end_of_data` is true when index == length, which is exactly when no byte of the buffer is left to send |
| BitFraming.Initial | microchip/PIC10F322/uart-write/uart.c:29-35 | `bit_iterator_init` keeps the buffer and sets index 0, bit index 0 and START_BIT. A non-negative length is taken as given. A negative length becomes the position of the first 0 byte |
| BitFraming.Step | microchip/PIC10F322/uart-write/uart.c:91-123 | one call of `next` keeps the iterator invariant and never changes buffer or length. It returns STREAM_EOF exactly in ITERATOR_EOF, or in STOP_BIT with every byte sent, and it reaches ITERATOR_EOF exactly when it returns STREAM_EOF |
| BitFraming.StepEof | microchip/PIC10F322/uart-write/uart.c:95-96 | in ITERATOR_EOF, `next` returns STREAM_EOF and changes nothing |
| BitFraming.StepStartBit | microchip/PIC10F322/uart-write/uart.c:98-100 | in START_BIT, `next` returns STREAM_ZERO and moves to DATA_BIT with the bit index 0 (the code does not reset it: the iterator invariant already guarantees it) |
| BitFraming.StepDataBit | microchip/PIC10F322/uart-write/uart.c:102-112 | in DATA_BIT with bit index d < 8, `next` returns bit d of the current byte and only increments d |
| BitFraming.StepEndOfDataBits | microchip/PIC10F322/uart-write/uart.c:105-109 | in DATA_BIT with bit index 8, `next` returns STREAM_ONE. It moves to the next byte, clears the bit index and enters STOP_BIT |
| BitFraming.StepStopBit | microchip/PIC10F322/uart-write/uart.c:114-121 | in STOP_BIT, `next` returns STREAM_EOF and enters ITERATOR_EOF exactly when index == length. Otherwise it returns STREAM_ONE and goes back to START_BIT |
| BitFraming.StepRemaining | microchip/PIC10F322/uart-write/uart.c:91-123 | each call before the end lowers the count of calls still to come by one. The call that returns STREAM_EOF is the one where that count is 1 |
| BitFraming.InitialInv | microchip/PIC10F322/uart-write/uart.c:29-35 | a fresh iterator over a non-empty buffer satisfies the invariant and ends after 11 calls per byte |
| BitFraming.EofRun | microchip/PIC10F322/uart-write/uart.c:95-96 | from ITERATOR_EOF, k calls return k times STREAM_EOF and leave the iterator unchanged |
| BitFraming.RunToEof | microchip/PIC10F322/uart-write/uart.c:91-123 | from a non-final iterator, `Remaining` calls return the values before the end followed by one STREAM_EOF. They leave the iterator at ITERATOR_EOF with index == length and bit index 0 |
| BitFraming.AfterCount | microchip/PIC10F322/uart-write/uart.c:91-123 | after k ≤ `Remaining` calls, k fewer calls remain, and the iterator is in ITERATOR_EOF exactly when k == `Remaining` |
| BitFraming.UntilEofStep | microchip/PIC10F322/uart-write/uart.c:91-123 | one call before the end either drives the first of the levels still to come and leaves one call fewer, or returns STREAM_EOF with nothing left to come and the iterator past the last byte |
| BitFraming.DataBitsUntil | microchip/PIC10F322/uart-write/uart.c:102-112 | from bit index d in DATA_BIT, the data bits d..7 of the current byte come out least significant first |
| BitFraming.FrameUntil | microchip/PIC10F322/uart-write/uart.c:98-112 | from START_BIT at byte i, exactly the frame of byte i comes out, and then the iterator is in STOP_BIT at byte i + 1 |
| BitFraming.StreamUntil | microchip/PIC10F322/uart-write/uart.c:91-123 | from START_BIT at byte i, the values before STREAM_EOF are exactly `Stream` of bytes i..length |
| BitFraming.InitialStream | microchip/PIC10F322/uart-write/uart.c:29-35 | a freshly initialised iterator over a non-empty buffer yields exactly the buffer's `Stream` before its end |
| BitFraming.WholeStream | microchip/PIC10F322/uart-write/uart.c:91-123 | over n ≥ 1 bytes, the first 11n calls return `Stream` of the bytes followed by STREAM_EOF, and leave the iterator at ITERATOR_EOF past the last byte |
| BitFraming.EofForever | microchip/PIC10F322/uart-write/uart.c:95-96 | once r calls have reached ITERATOR_EOF, any k further calls return STREAM_EOF and move nothing. With `WholeStream`, every call after call 11n returns STREAM_EOF |
| BitFraming.StreamConcat | microchip/PIC10F322/uart-write/uart.c:114-121 | the stream of a + b is the stream of a, one extra high bit, then the stream of b. So there are two high bits between frames, and after the last only its own |
| BitFraming.BitsFromIndex | microchip/PIC10F322/uart-write/uart.c:111 | value k of the data bits from d is bit d + k of the byte, as `(c >> (d + k)) & 1` |
| BitFraming.FrameBit | microchip/PIC10F322/uart-write/uart.c:111 | value k + 1 of a frame is data bit k, least significant first |
| BitFraming.NoEofStream | microchip/PIC10F322/uart-write/uart.c:91-123 | no value of a buffer's stream is STREAM_EOF |
| BitFraming.StreamLevels | microchip/PIC10F322/uart-write/uart.c:128-138 | the pin levels driven for a stream and its closing STREAM_EOF are one per stream value: 0 for STREAM_ZERO, 1 for STREAM_ONE. STREAM_EOF drives nothing |
| BitFraming.LastLevel | microchip/PIC10F322/uart-write/uart.c:105-109 | the last level a buffer's stream drives is high, so the line idles high after a write |
| BitFraming.FrameRoundTrip | microchip/PIC10F322/uart-write/uart.c:111 | the eight data bits of a frame decode back to its byte |
| BitFraming.ReceiveStream | microchip/PIC10F322/uart-write/uart.c:91-123 | the reference receiver reads the stream of a non-empty buffer back as exactly that buffer |
| BitFraming.FrameOfA | microchip/PIC10F322/uart-write/uart.c:111 | 0x41 is framed as 0, 1,0,0,0,0,0,1,0, 1 |
| BitFraming.StreamOfA | microchip/PIC10F322/uart-write/uart.c:91-123 | the one-byte buffer "A" streams as its frame and nothing more |
| BitFraming.StreamOfZeroAndFF | microchip/PIC10F322/uart-write/uart.c:114-121 | [0x00, 0xFF] streams as the frame of 0x00, one extra high bit, then the frame of 0xFF |
| BitFraming.BitIterator.constructor | microchip/PIC10F322/uart-write/uart.c:14-27 | the static iterator starts zeroed: an empty buffer, length, index and bit index 0, START_BIT |
| BitFraming.BitIterator.Init | microchip/PIC10F322/uart-write/uart.c:29-35 | the fields become `Initial(buffer, len)` |
| BitFraming.BitIterator.Next | microchip/PIC10F322/uart-write/uart.c:91-123 | updating the fields in place returns the value `Step` gives and leaves the fields equal to the iterator `Step` gives |
| SoftUart.TickKeeps | microchip/PIC10F322/uart-write/uart.c:74 | one turn of the busy-wait keeps its invariant: levels on the wire plus levels to come, and interrupts served plus calls remaining, are both unchanged. The turn that ends the stream leaves exactly the whole stream on the wire |
| SoftUart.Uart.constructor | microchip/PIC10F322/uart-write/uart.c:22-27 | the static object and registers start zeroed: not in use, every register 0, the iterator an empty buffer with index and bit index 0 in START_BIT, empty wire |
| SoftUart.Uart.Start | microchip/PIC10F322/uart-write/uart.c:37-41 | `uart_start` sets in_use, clears TMR2 and sets TMR2ON, and touches nothing else |
| SoftUart.Uart.Stop | microchip/PIC10F322/uart-write/uart.c:43-47 | `uart_stop` clears TMR2ON, TMR2 and in_use |
| SoftUart.Uart.Init | microchip/PIC10F322/uart-write/uart.c:49-64 | `uart_init` makes RA2 an output driven high, PR2 = 104, TMR2IE = 1, TMR2IF = 0, TOUTPS0 = 1, PEIE = GIE = 1. It leaves the iterator over an empty buffer of length 0 and the timer stopped, and in_use false, so that a following write has its interrupts enabled |
| SoftUart.Uart.TimerPeriodMatch | microchip/PIC10F322/uart-write/uart.c:125-126 | the hardware raises TMR2IF at the end of a period only while TMR2ON is set |
| SoftUart.Uart.InterruptHandler | microchip/PIC10F322/uart-write/uart.c:125-141 | with TMR2IF clear, nothing changes. With it set, one call of `next` is made, given by `Step`, and TMR2IF is cleared. STREAM_ZERO drives RA2 low and STREAM_ONE drives it high, both keeping the timer running. STREAM_EOF leaves RA2 as it was and stops the UART |
| SoftUart.Uart.Tick | microchip/PIC10F322/uart-write/uart.c:125-141 | one bit period during a write, with TMR2IE, PEIE and GIE set, makes exactly one call of `next`. It appends that value's level to the wire unless it is STREAM_EOF, and in_use stays set exactly when it is not; TMR2IF is cleared every time |
| SoftUart.Uart.AwaitIdle | microchip/PIC10F322/uart-write/uart.c:74 | with the timer interrupt enabled, the busy-wait ends after exactly `Remaining` interrupts. The iterator is past the last byte, the wire has gained the levels of the rest of the stream, and the timer is stopped with no flag pending |
| SoftUart.Uart.Write | microchip/PIC10F322/uart-write/uart.c:66-75 | a zero length (given, or measured by `strlen`) returns at once without touching the UART. Otherwise, with the interrupts enabled as `uart_init` leaves them, it returns after exactly 11n interrupts, with the levels of `Stream` of the n bytes appended to the wire, RA2 high, the timer stopped and cleared, no flag pending and in_use false |

## Left out

- **Concurrency and `volatile`.** The interrupt is not asynchronous here. Each bit period is an explicit `Tick` inside the busy-wait loop, so the model does not cover an interrupt arriving between arbitrary instructions.
- **Timing.** The timer counting, the prescaler and postscaler, and the baud rate are left out. PR2 and TOUTPS0 are written as constants, and the timer is reduced to "one TMR2IF per period while TMR2ON is set". The interrupt reaches the handler only with TMR2IE, PEIE and GIE set, which `SoftUart.Uart.Tick` requires.
- **Hardware registers.** Their power-on values are not modelled: the constructors start every register at 0.
- **Other files.** `main.c`, `blink.c` and `uart.h` are not part of this model.
- **Fall-off at line 122.** The end of `next` after the `switch` cannot be reached for the four states, and has no counterpart.
- **Signedness of `char`.** `char c` may be signed, but `(c >> k) & 1` for k < 8 is bit k of the byte whether or not the sign is extended, so bytes are 0..255 and `>>` is k halvings.
- **Integer widths.** `unsigned int` length and index and `unsigned char` bit index are unbounded naturals. A length that does not fit is not modelled.
- **The `(unsigned int)` cast.** It is applied only to a non-negative `int`, so it changes nothing.
- **Pointers.** A pointer is a sequence value: the NULL of `uart_init` is the empty sequence, and the buffer is not aliased or changed during a write.
- **Write preconditions.** `SoftUart.Uart.Write` asks what the code takes for granted. TMR2IE, PEIE and GIE must be set, as `uart_init` sets them (uart.c:55-60); with any of them clear no interrupt reaches the handler and the busy-wait at uart.c:74 never ends, which the model does not describe. No write may be in progress, and the buffer must hold at least `length` bytes (or a 0 byte when `length` is negative). The C code would read out of bounds otherwise.
- **`next` precondition.** `Step` and `BitFraming.BitIterator.Next` require the iterator invariant. It holds for every iterator `uart_write` and the handler can reach, and the DATA_BIT read of `data[index]` relies on it.
- **START_BIT and the bit index.** `next` does not reset the bit index in START_BIT (uart.c:98-100); the iterator invariant already keeps it at 0 there, and `BitFraming.StepStartBit` states that.
- **`uart_stop` call sites.** `uart_stop` is called from the interrupt handler and also from `uart_init` (uart.c:63); `SoftUart.Uart.Init` calls `Stop` in the same place.
- **Reference receiver.** `Receive` and `Decode` have no counterpart in the source. They exist only as the inverse the stream is checked against.
- **`SoftUart.Uart.AwaitIdle`.** It states the end state of the wait. The intermediate fact that in_use stays set for the first 11n − 1 interrupts is only a loop invariant, not a separate lemma.
