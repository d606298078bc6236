/**
  The board session object: a counter of open sessions, a flag saying
  whether the LEDs are switched off when the last session closes, and the
  encoder that pushes the LED array to the data line one bit at a time.
  Each locked region of the source is one method here; the data line is
  the sequence `sent` of the bits pushed so far.
 */
module Boards {
  import opened Bits
  import opened Colors
  import opened Leds
  import opened Arrays
  import opened Frames

  /** Appending five pieces one after another appends their concatenation. */
  lemma AppendFive(o: seq<bool>, a: seq<bool>, b: seq<bool>, c: seq<bool>, d: seq<bool>, e: seq<bool>)
    ensures o + a + b + c + d + e == o + (a + b + c + d + e)
  {
  }

  /** Appending two pieces one after another appends their concatenation. */
  lemma AppendTwo(o: seq<bool>, a: seq<bool>, b: seq<bool>)
    ensures o + a + b == o + (a + b)
  {
  }

  class Board {
    const ledArray: LedArray
    var clear: bool
    var counter: int
    var sent: seq<bool>

    ghost predicate Valid()
    {
      ledArray.Valid()
    }

    /** Builds the board around the one LED array (creating it, and resetting every LED, if it does not exist yet). */
    constructor (arrays: LedArrayType, table: LedTable)
      requires arrays.Valid() && table.Valid()
      modifies arrays, table, table.instances
      ensures Valid() && arrays.Valid() && ledArray == arrays.instance
      ensures !clear && counter == 0 && sent == []
      ensures old(arrays.instance) != null ==> ledArray == old(arrays.instance)
      ensures old(arrays.instance) == null ==> ledArray.States() == seq(NUM_LEDS, _ => LedState(Default, 0))
      ensures old(arrays.instance) != null ==> forall k :: 0 <= k < NUM_LEDS ==> unchanged(ledArray.leds[k])
      ensures old(table.instances) != [] ==> table.instances == old(table.instances)
      ensures old(arrays.instance) == null ==>
        ledArray.leds == table.instances && forall k :: 0 <= k < NUM_LEDS ==> ledArray.leds[k].index == k
      ensures old(arrays.instance) == null && old(table.instances) == [] ==>
        forall k :: 0 <= k < NUM_LEDS ==> fresh(ledArray.leds[k])
    {
      var a := arrays.New(table);
      ledArray := a;
      clear := false;
      counter := 0;
      sent := [];
    }

    /** Opens a session: one more on the counter, nothing else changes. */
    method Enter() returns (b: Board)
      modifies this`counter
      ensures b == this
      ensures counter == old(counter) + 1
      ensures clear == old(clear) && sent == old(sent)
    {
      counter := counter + 1;
      b := this;
    }

    /**
      Closes a session: one less on the counter; when that leaves no session
      open and `clear` is set, every LED goes back to the default colour and
      one frame is sent. Never suppresses the exception it is given.
     */
    method Exit() returns (suppress: bool)
      requires Valid()
      modifies this`counter, this`sent, ledArray.leds
      ensures !suppress
      ensures counter == old(counter) - 1 && clear == old(clear)
      ensures forall k :: 0 <= k < NUM_LEDS ==> ledArray.leds[k].index == old(ledArray.leds[k].index)
      ensures counter == 0 && clear ==>
        && ledArray.Colors() == seq(NUM_LEDS, _ => Default)
        && ledArray.Brightnesses() == old(ledArray.Brightnesses())
        && sent == old(sent) + Frame(ledArray.States())
      ensures !(counter == 0 && clear) ==>
        ledArray.States() == old(ledArray.States()) && sent == old(sent)
    {
      counter := counter - 1;
      if counter == 0 {
        if clear {
          ledArray.DeleteColor();
          SendFrame();
        }
      }
      suppress := false;
    }

    /** The `clear` getter. */
    method GetClear() returns (c: bool)
      ensures c == clear
    {
      c := clear;
    }

    /** The `clear` setter: stores its argument, nothing else. */
    method SetClear(value: bool)
      modifies this`clear
      ensures clear == value
    {
      clear := value;
    }

    /** The `clear` deleter: switches clearing off. */
    method DeleteClear()
      modifies this`clear
      ensures !clear
    {
      clear := false;
    }

    /** Pushes one bit to the data line. */
    method SendBit(value: bool)
      modifies this`sent
      ensures sent == old(sent) + [value]
    {
      sent := sent + [value];
    }

    /** Pushes the same bit n times. */
    method SendBits(value: bool, n: nat)
      modifies this`sent
      ensures sent == old(sent) + Repeat(value, n)
    {
      var k := 0;
      while k < n
        invariant 0 <= k <= n
        invariant sent == old(sent) + Repeat(value, k)
      {
        SendBit(value);
        assert Repeat(value, k + 1) == Repeat(value, k) + [value];
        k := k + 1;
      }
    }

    /** Pushes bits width-1 down to 0 of v, each as `(v >> i) & 1`. */
    method SendField(v: int, width: nat)
      modifies this`sent
      ensures sent == old(sent) + ToBits(v, width)
    {
      var i := width;
      while i > 0
        invariant 0 <= i <= width
        invariant sent == old(sent) + ToBits(v, width)[..width - i]
      {
        i := i - 1;
        ToBitsAt(v, width, width - 1 - i);
        SendBit((v / Pow2(i)) % 2 == 1);
        assert ToBits(v, width)[..width - i] == ToBits(v, width)[..width - i - 1] + [ToBits(v, width)[width - 1 - i]];
      }
      assert ToBits(v, width)[..width] == ToBits(v, width);
    }

    /** Pushes the 32 bits of one LED: three one bits, 5 brightness bits, then blue, green and red. */
    method SendLed(s: LedState)
      modifies this`sent
      ensures sent == old(sent) + LedFrame(s)
    {
      ghost var before := sent;
      SendBits(true, 3);
      assert Repeat(true, 3) == [true, true, true];
      SendField(s.brightness, BRIGHTNESS_BITS);
      SendField(s.color.b, CHANNEL_BITS);
      SendField(s.color.g, CHANNEL_BITS);
      SendField(s.color.r, CHANNEL_BITS);
      AppendFive(before, [true, true, true], ToBits(s.brightness, BRIGHTNESS_BITS),
        ToBits(s.color.b, CHANNEL_BITS), ToBits(s.color.g, CHANNEL_BITS), ToBits(s.color.r, CHANNEL_BITS));
    }

    /** Pushes the frame of the current LED states: start frame, one LED frame per LED, end frame. */
    method SendFrame()
      requires Valid()
      modifies this`sent
      ensures sent == old(sent) + Frame(ledArray.States())
    {
      ghost var states := ledArray.States();
      ghost var start := sent + Repeat(false, START_BITS);
      SendBits(false, START_BITS);
      var k := 0;
      while k < |ledArray.leds|
        invariant 0 <= k <= NUM_LEDS
        invariant sent == start + LedFrames(states[..k])
      {
        var s := ledArray.leds[k].All();
        assert s == states[k];
        SendLed(s);
        assert LedFrames(states[..k + 1]) == LedFrames(states[..k]) + LedFrame(states[k]) by {
          assert states[..k + 1][..k] == states[..k];
        }
        AppendTwo(start, LedFrames(states[..k]), LedFrame(states[k]));
        k := k + 1;
      }
      SendBits(true, (|ledArray.leds| + 1) / 2);
      assert states[..NUM_LEDS] == states;
      AppendTwo(old(sent), Repeat(false, START_BITS), LedFrames(states));
      AppendTwo(old(sent) + Repeat(false, START_BITS), LedFrames(states), Repeat(true, EndBits(NUM_LEDS)));
    }

    /** Sends one frame while a session is open; does nothing while none is. */
    method Display()
      requires Valid()
      modifies this`sent
      ensures sent == old(sent) + (if counter > 0 then Frame(ledArray.States()) else [])
      ensures counter == old(counter) && clear == old(clear)
    {
      if counter > 0 {
        SendFrame();
      }
    }
  }

  /** A board built from a fresh start: a new LED table and no LED array yet. */
  method FreshBoard() returns (board: Board)
    ensures fresh(board) && board.Valid()
    ensures !board.clear && board.counter == 0 && board.sent == []
    ensures forall k :: 0 <= k < NUM_LEDS ==> fresh(board.ledArray.leds[k])
    ensures board.ledArray.States() == seq(NUM_LEDS, _ => LedState(Default, 0))
  {
    var table := new LedTable();
    var arrays := new LedArrayType();
    board := new Board(arrays, table);
  }

  /**
    A whole session from a fresh start: build the board, enter, set `clear`,
    exit. The data line then carries exactly one frame, of every LED at the
    default colour with brightness 0.
   */
  method ClearedSession() returns (bits: seq<bool>)
    ensures bits == Frame(seq(NUM_LEDS, _ => LedState(Default, 0)))
  {
    var board := FreshBoard();
    var b := board.Enter();
    board.SetClear(true);
    var suppress := board.Exit();
    assert board.ledArray.States() == seq(NUM_LEDS, _ => LedState(Default, 0)) by {
      forall k | 0 <= k < NUM_LEDS
        ensures board.ledArray.States()[k] == LedState(Default, 0)
      {
        assert board.ledArray.Colors()[k] == Default;
      }
    }
    bits := board.sent;
  }
}
