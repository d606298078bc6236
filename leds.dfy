/**
  One addressable LED and the fixed table of NUM_LEDS LED objects that
  `Led(i)` hands out: asking for index i always yields the same object,
  and re-runs its initialisation.
 */
module Leds {
  import opened Colors
  import opened Outcomes

  /** The number of LEDs on the board. */
  const NUM_LEDS: nat := 8

  /** The pair the encoder reads from an LED: its colour and its brightness. */
  datatype LedState = LedState(color: Color, brightness: int)

  /** `Led(i)` with an index outside the table raises IndexError. */
  datatype LedError = IndexError(index: int)

  /** No object occurs twice in s. */
  ghost predicate Distinct<T>(s: seq<T>)
  {
    forall a, b :: 0 <= a < b < |s| ==> s[a] != s[b]
  }

  class Led {
    var index: int
    var color: Color
    var brightness: int

    /** A bare object as the table allocates it; its fields mean nothing until Init runs. */
    constructor Allocate()
    {
    }

    /** Initialisation, run on every `Led(i)`: records i and resets colour and brightness. */
    method Init(i: int)
      modifies this
      ensures index == i && color == Default && brightness == 0
    {
      index := i;
      color := Default;
      brightness := 0;
    }

    /** The colour getter returns the stored colour as it is. */
    method GetColor() returns (c: Color)
      ensures c == color
    {
      c := color;
    }

    /** The colour setter stores its argument unchanged and touches nothing else. */
    method SetColor(value: Color)
      modifies this`color
      ensures color == value
      ensures brightness == old(brightness) && index == old(index)
    {
      color := value;
    }

    /** The colour deleter puts back the default colour; brightness stays. */
    method DeleteColor()
      modifies this`color
      ensures color == Default
      ensures brightness == old(brightness) && index == old(index)
    {
      color := Default;
    }

    /** The brightness getter returns the stored brightness as it is. */
    method GetBrightness() returns (b: int)
      ensures b == brightness
    {
      b := brightness;
    }

    /** The brightness setter stores its argument unchanged (no clamping) and touches nothing else. */
    method SetBrightness(value: int)
      modifies this`brightness
      ensures brightness == value
      ensures color == old(color) && index == old(index)
    {
      brightness := value;
    }

    /** Both fields at once, as the encoder reads them. */
    function All(): (r: LedState)
      reads this
      ensures r.color == color && r.brightness == brightness
    {
      LedState(color, brightness)
    }
  }

  /** The module-level instance table: empty until the first `Led(i)`, then NUM_LEDS distinct objects. */
  class LedTable {
    var instances: seq<Led>

    ghost predicate Valid()
      reads this
    {
      instances == [] || (|instances| == NUM_LEDS && Distinct(instances))
    }

    constructor ()
      ensures Valid() && instances == []
    {
      instances := [];
    }

    /**
      `Led(i)`: fills the table on first use, picks entry i with Python's
      list indexing (a negative i counts from the end) and re-initialises it.
     */
    method New(i: int) returns (r: Result<Led, LedError>)
      requires Valid()
      modifies this, instances
      ensures Valid() && |instances| == NUM_LEDS
      ensures old(instances) != [] ==> instances == old(instances)
      ensures old(instances) == [] ==> forall k :: 0 <= k < NUM_LEDS ==> fresh(instances[k])
      ensures r.Ok? <==> -(NUM_LEDS as int) <= i < NUM_LEDS
      ensures r.Ok? ==> && r.value == instances[i % NUM_LEDS]
                        && r.value.index == i
                        && r.value.color == Default
                        && r.value.brightness == 0
      ensures r.Err? ==> r.error == IndexError(i)
      ensures old(instances) != [] ==>
        forall k :: 0 <= k < NUM_LEDS && (r.Err? || k != i % NUM_LEDS) ==>
          instances[k].All() == old(instances[k].All()) && instances[k].index == old(instances[k].index)
    {
      if instances == [] {
        var made: seq<Led> := [];
        while |made| < NUM_LEDS
          invariant |made| <= NUM_LEDS
          invariant Distinct(made)
          invariant forall k :: 0 <= k < |made| ==> fresh(made[k])
        {
          var led := new Led.Allocate();
          made := made + [led];
        }
        instances := made;
      }
      if -(NUM_LEDS as int) <= i < NUM_LEDS {
        var led := instances[i % NUM_LEDS];
        led.Init(i);
        r := Ok(led);
      } else {
        r := Err(IndexError(i));
      }
    }
  }
}
