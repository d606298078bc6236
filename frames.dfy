/**
  The wire frame the board pushes to the LED chain, bit by bit:
  a start frame of 32 zero bits; then, per LED in index order, three one
  bits, the low 5 bits of its brightness, and its blue, green and red bytes,
  every field most significant bit first; then an end frame of (N + 1) / 2
  one bits for N LEDs.
 */
module Frames {
  import opened Bits
  import opened Colors
  import opened Outcomes
  import opened Leds

  const START_BITS: nat := 32
  const LED_BITS: nat := 32
  const BRIGHTNESS_BITS: nat := 5
  const CHANNEL_BITS: nat := 8

  /** Number of one bits that close a frame for n LEDs. */
  function EndBits(n: nat): (r: nat)
    ensures n <= 2 * r <= n + 1
  {
    (n + 1) / 2
  }

  /** n copies of one bit, as `_send_bits(value, n)` emits them. */
  function Repeat(value: bool, n: nat): (r: seq<bool>)
    ensures |r| == n
    ensures forall i :: 0 <= i < n ==> r[i] == value
  {
    seq(n, _ => value)
  }

  /** The 32 bits of one LED: marker, brightness, blue, green, red. */
  function LedFrame(s: LedState): (r: seq<bool>)
    ensures |r| == LED_BITS
  {
    [true, true, true] + ToBits(s.brightness, BRIGHTNESS_BITS)
      + ToBits(s.color.b, CHANNEL_BITS) + ToBits(s.color.g, CHANNEL_BITS) + ToBits(s.color.r, CHANNEL_BITS)
  }

  /** The LED frames of all states, one after the other. */
  function LedFrames(states: seq<LedState>): (r: seq<bool>)
    ensures |r| == LED_BITS * |states|
  {
    if states == [] then [] else LedFrames(states[..|states| - 1]) + LedFrame(states[|states| - 1])
  }

  /** The whole frame for the given LED states. */
  function Frame(states: seq<LedState>): (r: seq<bool>)
    ensures |r| == START_BITS + LED_BITS * |states| + EndBits(|states|)
  {
    Repeat(false, START_BITS) + LedFrames(states) + Repeat(true, EndBits(|states|))
  }

  /** The frame of LED k sits at offset 32 * k of the LED frames. */
  lemma {:induction false} LedFramesAt(states: seq<LedState>, k: nat)
    requires k < |states|
    ensures LedFrames(states)[LED_BITS * k .. LED_BITS * (k + 1)] == LedFrame(states[k])
  {
    var n := |states| - 1;
    var front := LedFrames(states[..n]);
    assert LedFrames(states) == front + LedFrame(states[n]);
    assert |front| == LED_BITS * n;
    if k < n {
      LedFramesAt(states[..n], k);
      assert LED_BITS * (k + 1) <= LED_BITS * n;
      assert LedFrames(states)[LED_BITS * k .. LED_BITS * (k + 1)] == front[LED_BITS * k .. LED_BITS * (k + 1)];
    } else {
      assert LED_BITS * k == |front|;
    }
  }

  /**
    The layout of a frame: 32 zero bits first, the frame of LED k at offset
    32 + 32 * k, and (N + 1) / 2 one bits last.
   */
  lemma FrameLayout(states: seq<LedState>)
    ensures forall i :: 0 <= i < START_BITS ==> !Frame(states)[i]
    ensures forall k :: 0 <= k < |states| ==>
      Frame(states)[START_BITS + LED_BITS * k .. START_BITS + LED_BITS * (k + 1)] == LedFrame(states[k])
    ensures forall i :: |Frame(states)| - EndBits(|states|) <= i < |Frame(states)| ==> Frame(states)[i]
  {
    var head := Repeat(false, START_BITS);
    var body := LedFrames(states);
    var tail := Repeat(true, EndBits(|states|));
    assert Frame(states) == head + body + tail;
    forall k | 0 <= k < |states|
      ensures Frame(states)[START_BITS + LED_BITS * k .. START_BITS + LED_BITS * (k + 1)] == LedFrame(states[k])
    {
      LedFramesAt(states, k);
      assert Frame(states)[START_BITS + LED_BITS * k .. START_BITS + LED_BITS * (k + 1)]
          == body[LED_BITS * k .. LED_BITS * (k + 1)];
    }
  }

  /** For the board's eight LEDs a frame is 292 bits and ends in four one bits. */
  lemma FrameOfBoard(states: seq<LedState>)
    requires |states| == NUM_LEDS
    ensures |Frame(states)| == 292 && EndBits(|states|) == 4
  {
  }

  /**
    Reading the fields of an LED frame back: the marker is three one bits, the
    brightness field gives the brightness modulo 32, and the colour fields give
    blue, green and red.
   */
  lemma LedFrameFields(s: LedState)
    ensures LedFrame(s)[..3] == [true, true, true]
    ensures FromBits(LedFrame(s)[3..8]) == s.brightness % 32
    ensures FromBits(LedFrame(s)[8..16]) == s.color.b
    ensures FromBits(LedFrame(s)[16..24]) == s.color.g
    ensures FromBits(LedFrame(s)[24..32]) == s.color.r
  {
    var marker, bright := [true, true, true], ToBits(s.brightness, 5);
    var blue, green, red := ToBits(s.color.b, 8), ToBits(s.color.g, 8), ToBits(s.color.r, 8);
    var f := LedFrame(s);
    assert f == marker + bright + blue + green + red;
    assert f[..24] == marker + bright + blue + green;
    assert f[..16] == marker + bright + blue;
    assert f[..8] == marker + bright;
    assert f[3..8] == bright by { assert f[3..8] == f[..8][3..]; }
    assert f[8..16] == blue by { assert f[8..16] == f[..16][8..]; }
    assert f[16..24] == green by { assert f[16..24] == f[..24][16..]; }
    assert f[24..32] == red;
    Pow2Widths();
    FromToBits(s.brightness, 5);
    FromToBits(s.color.b, 8);
    FromToBits(s.color.g, 8);
    FromToBits(s.color.r, 8);
  }

  /** Every bit of zero is off. */
  lemma {:induction false} ToBitsOfZero(width: nat)
    ensures ToBits(0, width) == Repeat(false, width)
  {
    if width > 0 {
      ToBitsOfZero(width - 1);
      assert !Bit(0, width - 1);
    }
  }

  /**
    The LED frame of an LED set to the default colour: the marker, the
    brightness field, and 24 zero bits of colour.
   */
  lemma DefaultColorLedFrame(brightness: int)
    ensures LedFrame(LedState(Default, brightness))
         == [true, true, true] + ToBits(brightness, BRIGHTNESS_BITS) + Repeat(false, 3 * CHANNEL_BITS)
  {
    ToBitsOfZero(CHANNEL_BITS);
    assert Repeat(false, CHANNEL_BITS) + Repeat(false, CHANNEL_BITS) + Repeat(false, CHANNEL_BITS)
        == Repeat(false, 3 * CHANNEL_BITS);
  }

  /** What an LED state looks like after a trip over the wire: only 5 bits of brightness survive. */
  function OnWire(s: LedState): (r: LedState)
    ensures 0 <= r.brightness < 32
  {
    LedState(s.color, s.brightness % 32)
  }

  /** OnWire of every state. */
  function OnWireAll(states: seq<LedState>): (r: seq<LedState>)
    ensures |r| == |states|
    ensures forall i :: 0 <= i < |states| ==> r[i] == OnWire(states[i])
  {
    seq(|states|, i requires 0 <= i < |states| => OnWire(states[i]))
  }

  /** Reads one 32-bit LED frame; None when the three marker bits are not all one. */
  function DecodeLed(bits: seq<bool>): (r: Option<LedState>)
    requires |bits| == LED_BITS
    ensures r.Some? <==> bits[..3] == [true, true, true]
    ensures r.Some? ==> 0 <= r.value.brightness < 32
  {
    Pow2Widths();
    if bits[..3] != [true, true, true] then None
    else
      Some(LedState(Color(FromBits(bits[24..32]), FromBits(bits[16..24]), FromBits(bits[8..16])),
                    FromBits(bits[3..8])))
  }

  /** Reads n consecutive LED frames. */
  function DecodeLeds(bits: seq<bool>, n: nat): (r: Option<seq<LedState>>)
    requires |bits| == LED_BITS * n
    ensures r.Some? ==> |r.value| == n
  {
    if n == 0 then Some([])
    else
      var cut := LED_BITS * (n - 1);
      match DecodeLeds(bits[..cut], n - 1)
      case None => None
      case Some(front) =>
        match DecodeLed(bits[cut..])
        case None => None
        case Some(last) => Some(front + [last])
  }

  /** Reads a whole frame for n LEDs: checks its length, start frame, markers and end frame. */
  function ParseFrame(bits: seq<bool>, n: nat): (r: Option<seq<LedState>>)
    ensures r.Some? ==> |r.value| == n
  {
    var size := START_BITS + LED_BITS * n + EndBits(n);
    if |bits| != size then None
    else if bits[..START_BITS] != Repeat(false, START_BITS) then None
    else if bits[START_BITS + LED_BITS * n..] != Repeat(true, EndBits(n)) then None
    else DecodeLeds(bits[START_BITS .. START_BITS + LED_BITS * n], n)
  }

  lemma DecodeLedFrame(s: LedState)
    ensures DecodeLed(LedFrame(s)) == Some(OnWire(s))
  {
    LedFrameFields(s);
  }

  /** Decoding one more LED frame appends one more state. */
  lemma DecodeLedsAppend(a: seq<bool>, b: seq<bool>, n: nat)
    requires |a| == LED_BITS * n && |b| == LED_BITS
    requires DecodeLeds(a, n).Some? && DecodeLed(b).Some?
    ensures DecodeLeds(a + b, n + 1) == Some(DecodeLeds(a, n).value + [DecodeLed(b).value])
  {
    assert (a + b)[..|a|] == a;
    assert (a + b)[|a|..] == b;
  }

  lemma {:induction false} DecodeLedFrames(states: seq<LedState>)
    ensures DecodeLeds(LedFrames(states), |states|) == Some(OnWireAll(states))
  {
    if states != [] {
      var n := |states| - 1;
      var a, b := LedFrames(states[..n]), LedFrame(states[n]);
      assert DecodeLeds(a, n) == Some(OnWireAll(states[..n])) by { DecodeLedFrames(states[..n]); }
      assert DecodeLed(b) == Some(OnWire(states[n])) by { DecodeLedFrame(states[n]); }
      assert DecodeLeds(a + b, n + 1) == Some(OnWireAll(states[..n]) + [OnWire(states[n])]) by {
        DecodeLedsAppend(a, b, n);
      }
      assert LedFrames(states) == a + b;
      assert OnWireAll(states[..n]) + [OnWire(states[n])] == OnWireAll(states);
    }
  }

  /** Decoding the frame of any LED states gives them back, brightness cut to its 5 wire bits. */
  lemma ParseFrameOfFrame(states: seq<LedState>)
    ensures ParseFrame(Frame(states), |states|) == Some(OnWireAll(states))
  {
    var n := |states|;
    var bits := Frame(states);
    assert bits[..START_BITS] == Repeat(false, START_BITS);
    assert bits[START_BITS + LED_BITS * n..] == Repeat(true, EndBits(n));
    assert bits[START_BITS .. START_BITS + LED_BITS * n] == LedFrames(states);
    DecodeLedFrames(states);
  }

  lemma LedFrameOfDecoded(bits: seq<bool>)
    requires |bits| == LED_BITS && DecodeLed(bits).Some?
    ensures LedFrame(DecodeLed(bits).value) == bits
  {
    var s := DecodeLed(bits).value;
    ToFromBits(bits[3..8]);
    ToFromBits(bits[8..16]);
    ToFromBits(bits[16..24]);
    ToFromBits(bits[24..32]);
    assert bits == bits[..3] + bits[3..8] + bits[8..16] + bits[16..24] + bits[24..32];
  }

  lemma {:induction false} LedFramesOfDecoded(bits: seq<bool>, n: nat)
    requires |bits| == LED_BITS * n && DecodeLeds(bits, n).Some?
    ensures LedFrames(DecodeLeds(bits, n).value) == bits
  {
    if n > 0 {
      var cut := LED_BITS * (n - 1);
      var states := DecodeLeds(bits, n).value;
      LedFramesOfDecoded(bits[..cut], n - 1);
      LedFrameOfDecoded(bits[cut..]);
      assert states[..n - 1] == DecodeLeds(bits[..cut], n - 1).value;
      assert bits == bits[..cut] + bits[cut..];
    }
  }

  /** Only well-formed frames parse: a frame that parses is exactly the frame of what it parses to. */
  lemma FrameOfParsed(bits: seq<bool>, n: nat)
    requires ParseFrame(bits, n).Some?
    ensures Frame(ParseFrame(bits, n).value) == bits
  {
    var mid := bits[START_BITS .. START_BITS + LED_BITS * n];
    LedFramesOfDecoded(mid, n);
    assert bits == bits[..START_BITS] + mid + bits[START_BITS + LED_BITS * n..];
  }
}
