# Blinkt board model in Dafny

A model of the Python driver for an 8-LED strip in the Blinkt style, APA102-like LEDs driven over a clock and data line. It covers four parts:

- **`Led` (leds.py).** One LED holding a colour and a brightness. `Led(i)` always hands out the same object from a table of `NUM_LEDS` = 8, and re-initialises it.
- **`LedArray` (array.py).** The one tuple of the 8 LEDs. Its `color` and `brightness` setters broadcast cyclically: LED `i` receives `value[i mod |value|]`. A lone value is treated as a one-item sequence. An empty sequence changes nothing.
- **`Board` (board.py).** A session counter (`__enter__`/`__exit__`), the `clear` flag, and the frame encoder. The frame starts with 32 zero bits. Each LED then gets `111`, 5 brightness bits, and its blue, green and red bytes, each most significant bit first. The frame ends with `(N + 1) // 2` one bits. `display()` sends a frame only while a session is open. The last `__exit__` with `clear` set switches every LED to the default colour and sends one frame.
- **`Singleton.mangle_attribute` (singleton.py).** The private-name rewrite, and the duplicate-slot check done at class creation.

Files:

- `arith.dfy`: division facts.
- `bits.dfy`: most-significant-bit-first fields and their read-back.
- `colors.dfy`: the colour record.
- `outcomes.dfy`: `Result` and `Option`.
- `leds.dfy`, `array.dfy`, `frames.dfy` (the wire format as functions, plus a decoder), `board.dfy` and `singleton.dfy`.

Modelling choices:

- **Data line.** The line is the field `Board.sent: seq<bool>`. Each bit the source would print and clock out is appended to it.
- **Brightness.** Brightness is an `int`. The encoder reads it with `(b >> i) & 1`. For every integer, including negative ones, this equals `(b / 2^i) % 2` in Dafny, because Dafny's division is Euclidean.
- **`Color`.** A colour is three byte channels, and `Color()` is all zeros.
- **`_counter`.** The counter is an unbounded `int`, as in the source, with no guard against an unmatched `__exit__`.
- **Array type.** `board.py` imports `Array` from `leds` and reads `led.all`. Neither exists in `src/leds.py`. The board's array is modelled as the `LedArray` of `array.py`, and `led.all` as the pair (colour, brightness), `Led.All()`.
- **Ownership and clamping.** The code has no clamping of colours or brightness. The `Board.leds` docstring (src/board.py:115-127) describes per-LED and per-array ownership context managers, but `leds.py` and `array.py` implement none, so the model has none. The code does no transport setup on the 0→1 session transition: that branch is a bare `pass` and tests the counter before it is incremented. It does no teardown on 1→0: that call is commented out.

## Model

| member | source | states |
|---|---|---|
| `Leds.Led.Init` | src/leds.py:40-45 | `_i` becomes the given index, the colour becomes `Color()` and the brightness becomes 0 |
| `Leds.Led.GetColor` | src/leds.py:51-53 | returns the stored colour as it is |
| `Leds.Led.SetColor` | src/leds.py:55-57 | stores the colour unchanged (no clamping); brightness and index stay |
| `Leds.Led.DeleteColor` | src/leds.py:59-61 | resets the colour to `Color()`; brightness stays |
| `Leds.Led.GetBrightness` | src/leds.py:63-65 | returns the stored brightness as it is |
| `Leds.Led.SetBrightness` | src/leds.py:67-69 | stores the brightness unchanged (no clamping); colour and index stay |
| `Leds.Led.All` | src/board.py:166 | `led.all` is the pair of the LED's current colour and brightness |
| `Leds.LedTable.constructor` | src/leds.py:28 | the instance table starts out empty |
| `Leds.LedTable.New` | src/leds.py:34-45 | `Led(i)` fills the table once with `NUM_LEDS` distinct objects. Afterwards the table never changes. `i` in `[-8, 8)` yields entry `i mod 8` (Python list indexing) re-initialised with index `i`, and every other LED is untouched; any other `i` is an IndexError |
| `Arrays.Cycle` | src/array.py:53 | the first n items of `cycle(value)` number n, or none for an empty value |
| `Arrays.CycleAt` | src/array.py:53-54 | item i of the cycle is `value[i mod |value|]` |
| `Arrays.Broadcast` | src/array.py:53-54 | the zip over the LEDs with the cycle keeps the number of LEDs |
| `Arrays.BroadcastAt` | src/array.py:53-54 | position i gets `value[i mod |value|]`; with an empty value it keeps its old entry |
| `Arrays.BroadcastSingle` | src/array.py:50-51 | a lone value reaches every position |
| `Arrays.BroadcastLong` | src/array.py:53-54 | a value longer than the array only has its first `NUM_LEDS` items used |
| `Arrays.BroadcastPair` | src/array.py:53-54 | two values alternate: even positions get the first, odd positions the second |
| `Arrays.BroadcastSingleIdempotent` | src/array.py:56-58 | broadcasting one value twice leaves the same list as once, so deleting the colour twice equals deleting it once |
| `Arrays.LedArray.constructor` | src/array.py:36-37 | the tuple holds exactly the given `NUM_LEDS` distinct LED objects, in order |
| `Arrays.LedArrayType.constructor` | src/array.py:32 | no array exists before the first `LedArray()` call |
| `Arrays.Value.AsSeq` | src/array.py:50-51 | a single `Color` (or `float`) is handled as a one-item list; a sequence is used as it is |
| `Arrays.LedArray.Colors` | src/array.py:43-45 | the `color` getter has `NUM_LEDS` entries, entry i being LED i's colour |
| `Arrays.LedArray.Brightnesses` | src/array.py:60-62 | the `brightness` getter has `NUM_LEDS` entries, entry i being LED i's brightness |
| `Arrays.LedArray.States` | src/board.py:165-166 | the (colour, brightness) pair of every LED, in index order |
| `Arrays.LedArray.SetColor` | src/array.py:47-54 | the colours become the cyclic broadcast of the argument; brightness and indices stay |
| `Arrays.LedArray.DeleteColor` | src/array.py:56-58 | every colour becomes `Color()`; brightness and indices stay |
| `Arrays.LedArray.SetBrightness` | src/array.py:64-71 | the brightnesses become the cyclic broadcast of the argument; colours and indices stay |
| `Arrays.LedArrayType.New` | src/array.py:34-38 | the first call builds the array from `Led(0)`..`Led(7)`: the LEDs are the table's, LED i is at position i with index i, and each is reset. When the table was empty, they are newly created objects. Later calls return the same object and change nothing |
| `Bits.Bit` | src/board.py:169-181 | `(v >> i) & 1` is set exactly when v mod 2^(i+1) is at least 2^i |
| `Bits.ToBits` | src/board.py:169 | a field of `width` bits has exactly `width` bits |
| `Bits.ToBitsAt` | src/board.py:173-174 | bit j of a field is bit `width-1-j` of the value, so the most significant bit comes first |
| `Bits.FromBits` | src/board.py:172-182 | a big-endian read of n bits is below 2^n |
| `Bits.FromToBits` | src/board.py:172-182 | reading a field back gives the value modulo 2^width |
| `Bits.FromBitsInjective` | src/board.py:172-182 | two fields of one width with the same value are the same bits |
| `Bits.ToFromBits` | src/board.py:172-182 | encoding the value of a bit string in its own width gives the string back |
| `Frames.EndBits` | src/board.py:185 | the end frame of N LEDs has (N+1)//2 bits: twice its length is N or N+1 |
| `Frames.Repeat` | src/board.py:154-157 | `_send_bits(value, n)` emits n copies of value |
| `Frames.LedFrame` | src/board.py:165-182 | one LED frame is 32 bits |
| `Frames.LedFrames` | src/board.py:165-183 | the LED frames of N LEDs are 32·N bits |
| `Frames.Frame` | src/board.py:159-186 | a full frame is 32 + 32·N + (N+1)/2 bits |
| `Frames.LedFramesAt` | src/board.py:165-183 | the frame of LED k sits at offset 32·k of the LED frames |
| `Frames.FrameLayout` | src/board.py:159-186 | the first 32 bits are zero, LED k's frame starts at 32 + 32·k, and the last (N+1)/2 bits are one |
| `Frames.FrameOfBoard` | src/board.py:185 | for the 8 LEDs a frame is 292 bits with a 4-bit end frame |
| `Frames.LedFrameFields` | src/board.py:165-182 | an LED frame opens with `111`. Bits 3..7 read back as brightness mod 32, and bits 8..15, 16..23 and 24..31 as blue, green and red |
| `Frames.ToBitsOfZero` | src/board.py:173-182 | a zero channel is sent as all-zero bits |
| `Frames.DefaultColorLedFrame` | src/board.py:102-104 | an LED cleared to `Color()` is sent as `111`, its brightness bits and 24 zero bits |
| `Frames.OnWire` | src/board.py:169 | only the low 5 bits of brightness reach the wire |
| `Frames.OnWireAll` | src/board.py:165-170 | the wire view of every LED state, position by position |
| `Frames.DecodeLed` | src/board.py:165-182 | an LED frame decodes exactly when its 3 marker bits are set, and the brightness read back is below 32 |
| `Frames.DecodeLeds` | src/board.py:165-183 | decoding n LED frames yields n states |
| `Frames.ParseFrame` | src/board.py:159-186 | a parsed frame for n LEDs yields n states |
| `Frames.DecodeLedFrame` | src/board.py:165-182 | decoding an LED frame gives back its state, brightness mod 32 |
| `Frames.DecodeLedsAppend` | src/board.py:165-183 | decoding one more LED frame appends one more state |
| `Frames.DecodeLedFrames` | src/board.py:165-183 | decoding the LED frames gives back every state, brightness mod 32 |
| `Frames.ParseFrameOfFrame` | src/board.py:159-186 | parsing the frame of any LED states returns them, brightness mod 32 |
| `Frames.LedFrameOfDecoded` | src/board.py:165-182 | an LED frame that decodes is the frame of its decoded state |
| `Frames.LedFramesOfDecoded` | src/board.py:165-183 | LED frames that decode are the frames of their decoded states |
| `Frames.FrameOfParsed` | src/board.py:159-186 | any bit string that parses is exactly the frame of what it parses to |
| `Boards.Board.constructor` | src/board.py:63-68 | the board holds the one LED array, `clear` is false, the counter is 0 and nothing has been sent. If the array already exists, it is reused and its LEDs and the LED table are left exactly as they were. Otherwise its LEDs are the table's, newly created when the table was empty, and LED k has index k, colour `Color()` and brightness 0 |
| `Boards.Board.Enter` | src/board.py:73-87 | the counter goes up by exactly 1, nothing else changes, and the board itself is returned |
| `Boards.Board.Exit` | src/board.py:89-110 | the counter goes down by 1. Only when it reaches 0 with `clear` set do all colours become `Color()`, brightness unchanged, with exactly one frame sent; otherwise nothing is sent or changed. The LEDs' indices never change. The result is always false |
| `Boards.Board.GetClear` | src/board.py:131-134 | the getter returns the stored flag |
| `Boards.Board.SetClear` | src/board.py:136-138 | the setter stores its argument |
| `Boards.Board.DeleteClear` | src/board.py:140-142 | the deleter sets the flag to false |
| `Boards.Board.SendBit` | src/board.py:150-152 | appends exactly the given bit to the data line |
| `Boards.Board.SendBits` | src/board.py:154-157 | appends n copies of the bit |
| `Boards.Board.SendField` | src/board.py:169-170 | appends the `width` low bits of the value, most significant first |
| `Boards.Board.SendLed` | src/board.py:166-182 | appends exactly the LED frame of the state |
| `Boards.Board.SendFrame` | src/board.py:159-186 | appends exactly the frame of the current LED states |
| `Boards.Board.Display` | src/board.py:188-191 | appends one frame when the counter is positive and nothing otherwise; counter, `clear` and the LEDs stay |
| `Boards.FreshBoard` | src/board.py:63-68 | the first `Board()` of a program holds newly created LEDs, each at `Color()` with brightness 0, with `clear` false, the counter 0 and nothing sent |
| `Boards.ClearedSession` | src/board.py:63-110 | from a fresh start, `with Board()` followed by `clear = True` and leaving the block sends exactly one frame: all LEDs at `Color()` with brightness 0 |
| `Singleton.MangleAttribute` | src/singleton.py:65-76 | plain, single-underscore and dunder names are kept, and `__x` becomes `'_' + name + '__x'`. The result always ends with the attribute |
| `Singleton.MangleDocumentedCases` | src/singleton.py:67-73 | the four documented examples: `attribute`, `_attribute`, `_name__attribute`, `__attribute__` |
| `Singleton.MangleIdempotent` | src/singleton.py:74-76 | for a class name not starting with `_`, mangling a mangled name changes nothing |
| `Singleton.SingletonSlot` | src/singleton.py:41-52 | class creation fails with AttributeError exactly when `'_' + name + '__singleton'` is already a key of the class body |

## Left out

- Locks: `threading.Lock` in `Board`, and the mutual exclusion it gives. Each locked region is one atomic method.
- Timing: `_clock`, `sleep` and `CLOCK_PERIOD`/`_half_period`. The GPIO calls are commented out in the source. The channel numbers are never used.
- Output formatting: the `print` calls only format the bits (spaces, newlines, "Sending:"). The bits themselves are modelled through `Board.sent`.
- `__str__` of `Board`, `LedArray` and `Led`: text formatting only.
- `colors.py`: it is a stub whose constructors all return `Color()`. Colour is modelled as three byte channels, defaulting to zero, with no conversions and no clamping. The stub defines no `__eq__`, so Python compares colours by identity, and each `del array.color` stores a new `Color()` object. The model compares colours by value, so `Arrays.BroadcastSingleIdempotent` ("deleting twice equals deleting once") holds for the colour values, not for object identity.
- The TypeError of the encoder: `Led.__init__` stores the float `0.0` as brightness (src/leds.py:45), and `Color.r`/`g`/`b` return the float `0.0` (src/colors.py:49-58). `(brightness >> i) & 1` and `color.b >> i` (src/board.py:169-181) raise TypeError on floats. The encoder as written therefore fails on every LED state the source itself creates. The model takes integer brightness and byte channels instead, so its encoder always succeeds. It does not model that exception, and it invents no float-to-5-bit mapping.
- The link between the LED array and the LED table: the source has one module-level table. `Arrays.LedArrayType` does not record which `Leds.LedTable` built it. So after the first `New`, the model says `a.leds == table.instances` only for the table given on that first call. Callers pass the same table throughout.
- Type dispatch in the setters: `isinstance(value, Color)` / `isinstance(value, float)` becomes the `Value` datatype (`Single` or `Many`). Arguments that are neither, such as an `int` brightness, which Python would fail to iterate, or arbitrary iterables, are not modelled.
- Transport setup and teardown: the setup branch is a bare `pass` and the teardown is commented out, so neither has any behaviour to model.
- The singleton metaclass machinery: `setattr` of the instance and the replaced `__new__`. Only the name rewrite and the duplicate-slot check are modelled. `Board` is built by its constructor from the one `LedArray`. In the source, every later `Board()` returns the one instance, and Python then runs `Board.__init__` on it again (src/singleton.py:61, src/board.py:63-68). That resets `_clear` to False and `_counter` to 0 and replaces the lock, so an inner `with Board():` restarts the session count. The model does not capture this reset.
- `Leds.Led.Allocate`: stands for `object.__new__`, which leaves the slots unset. The model gives the fields arbitrary values until `Init` runs, so it does not model reading an uninitialised slot, which raises AttributeError in Python.
- `Board.leds`: a read-only property returning the array. It is the constant field `Board.ledArray`.
