/**
  The process-wide array of the NUM_LEDS LEDs and its broadcast rules:
  writing a colour or brightness from a sequence assigns its items to the
  LEDs in order, starting over from the first item whenever it runs out.
 */
module Arrays {
  import opened Arith
  import opened Colors
  import opened Leds

  /** The first n items that `cycle(value)` yields: value end to end, cut at n; nothing when value is empty. */
  function Cycle<T>(value: seq<T>, n: nat): (r: seq<T>)
    ensures |r| == if value == [] then 0 else n
    decreases n
  {
    if value == [] || n == 0 then []
    else if n <= |value| then value[..n]
    else value + Cycle(value, n - |value|)
  }

  /** Item i of the cycle is item i mod |value| of the input. */
  lemma {:induction false} CycleAt<T>(value: seq<T>, n: nat, i: nat)
    requires value != [] && i < n
    ensures Cycle(value, n)[i] == value[i % |value|]
    decreases n
  {
    var m := |value|;
    if n <= m || i < m {
      DivModUnique(i, m, 0, i);
    } else {
      CycleAt(value, n - m, i - m);
      ModSub(i, m);
    }
  }

  /**
    The list `current` after `for x, v in zip(current, cycle(value)): x = v`:
    the cycle when value has items, and current untouched when it has none.
   */
  function Broadcast<T>(value: seq<T>, current: seq<T>): (r: seq<T>)
    ensures |r| == |current|
  {
    if value == [] then current else Cycle(value, |current|)
  }

  /** The cyclic law: position i receives value[i mod |value|]; an empty value leaves position i alone. */
  lemma BroadcastAt<T>(value: seq<T>, current: seq<T>, i: nat)
    requires i < |current|
    ensures Broadcast(value, current)[i] == if value == [] then current[i] else value[i % |value|]
  {
    if value != [] {
      CycleAt(value, |current|, i);
    }
  }

  /** A lone item is a one-item sequence, so it reaches every position. */
  lemma BroadcastSingle<T>(x: T, current: seq<T>)
    ensures Broadcast([x], current) == seq(|current|, _ => x)
  {
    forall i | 0 <= i < |current|
      ensures Broadcast([x], current)[i] == x
    {
      BroadcastAt([x], current, i);
    }
  }

  /** A value with at least as many items as positions only has its first |current| items used. */
  lemma BroadcastLong<T>(value: seq<T>, current: seq<T>)
    requires |value| >= |current|
    ensures Broadcast(value, current) == value[..|current|]
  {
    forall i | 0 <= i < |current|
      ensures Broadcast(value, current)[i] == value[i]
    {
      BroadcastAt(value, current, i);
      DivModUnique(i, |value|, 0, i);
    }
  }

  /** Two items alternate: even positions get the first, odd positions the second. */
  lemma BroadcastPair<T>(a: T, b: T, current: seq<T>, i: nat)
    requires i < |current|
    ensures Broadcast([a, b], current)[i] == if i % 2 == 0 then a else b
  {
    BroadcastAt([a, b], current, i);
  }

  /** Broadcasting one item twice leaves the same list as broadcasting it once. */
  lemma BroadcastSingleIdempotent<T>(x: T, current: seq<T>)
    ensures Broadcast([x], Broadcast([x], current)) == Broadcast([x], current)
  {
    BroadcastSingle(x, current);
    BroadcastSingle(x, Broadcast([x], current));
  }

  /** What a setter is given: one item (a `Color`, a `float`) or a sequence of them. */
  datatype Value<T> = Single(item: T) | Many(items: seq<T>)
  {
    /** A single item is handled as a one-item sequence. */
    function AsSeq(): (s: seq<T>)
      ensures Single? ==> s == [item]
      ensures Many? ==> s == items
    {
      match this
      case Single(x) => [x]
      case Many(xs) => xs
    }
  }

  /** The tuple of NUM_LEDS LED objects; the tuple itself never changes, the LEDs do. */
  class LedArray {
    const leds: seq<Led>

    ghost predicate Valid()
    {
      |leds| == NUM_LEDS && Distinct(leds)
    }

    constructor (items: seq<Led>)
      requires |items| == NUM_LEDS && Distinct(items)
      ensures Valid() && leds == items
    {
      leds := items;
    }

    /** The `color` getter: entry i is the colour of LED i. */
    function Colors(): (r: seq<Color>)
      requires Valid()
      reads leds
      ensures |r| == NUM_LEDS
      ensures forall i :: 0 <= i < NUM_LEDS ==> r[i] == leds[i].color
    {
      seq(|leds|, i reads leds requires 0 <= i < |leds| => leds[i].color)
    }

    /** The `brightness` getter: entry i is the brightness of LED i. */
    function Brightnesses(): (r: seq<int>)
      requires Valid()
      reads leds
      ensures |r| == NUM_LEDS
      ensures forall i :: 0 <= i < NUM_LEDS ==> r[i] == leds[i].brightness
    {
      seq(|leds|, i reads leds requires 0 <= i < |leds| => leds[i].brightness)
    }

    /** The colour and brightness of every LED, in index order. */
    function States(): (r: seq<LedState>)
      requires Valid()
      reads leds
      ensures |r| == NUM_LEDS
      ensures forall i :: 0 <= i < NUM_LEDS ==> r[i] == leds[i].All()
    {
      seq(|leds|, i reads leds requires 0 <= i < |leds| => leds[i].All())
    }

    /** The `color` setter: the cyclic broadcast of the given colours; brightness is not touched. */
    method SetColor(value: Value<Color>)
      requires Valid()
      modifies leds
      ensures Colors() == Broadcast(value.AsSeq(), old(Colors()))
      ensures Brightnesses() == old(Brightnesses())
      ensures forall i :: 0 <= i < NUM_LEDS ==> leds[i].index == old(leds[i].index)
    {
      var items := value.AsSeq();
      ghost var before := Colors();
      var i, j := 0, 0;  // i walks the LEDs, j walks cycle(items)
      while i < |leds| && items != []
        invariant 0 <= i <= |leds|
        invariant items == [] ==> i == 0
        invariant items != [] ==> j == i % |items|
        invariant forall k :: 0 <= k < i && items != [] ==> leds[k].color == items[k % |items|]
        invariant forall k :: i <= k < |leds| ==> leds[k].color == before[k]
        invariant forall k :: 0 <= k < |leds| ==>
          leds[k].brightness == old(leds[k].brightness) && leds[k].index == old(leds[k].index)
      {
        leds[i].SetColor(items[j]);
        ModNext(i, |items|);
        i, j := i + 1, if j + 1 == |items| then 0 else j + 1;
      }
      forall k | 0 <= k < NUM_LEDS
        ensures Colors()[k] == Broadcast(items, before)[k]
      {
        BroadcastAt(items, before, k);
      }
    }

    /** The `color` deleter: every LED back to the default colour; brightness is not touched. */
    method DeleteColor()
      requires Valid()
      modifies leds
      ensures Colors() == seq(NUM_LEDS, _ => Default)
      ensures Brightnesses() == old(Brightnesses())
      ensures forall i :: 0 <= i < NUM_LEDS ==> leds[i].index == old(leds[i].index)
    {
      ghost var before := Colors();
      SetColor(Single(Default));
      BroadcastSingle(Default, before);
    }

    /** The `brightness` setter: the cyclic broadcast of the given values; colours are not touched. */
    method SetBrightness(value: Value<int>)
      requires Valid()
      modifies leds
      ensures Brightnesses() == Broadcast(value.AsSeq(), old(Brightnesses()))
      ensures Colors() == old(Colors())
      ensures forall i :: 0 <= i < NUM_LEDS ==> leds[i].index == old(leds[i].index)
    {
      var items := value.AsSeq();
      ghost var before := Brightnesses();
      var i, j := 0, 0;  // i walks the LEDs, j walks cycle(items)
      while i < |leds| && items != []
        invariant 0 <= i <= |leds|
        invariant items == [] ==> i == 0
        invariant items != [] ==> j == i % |items|
        invariant forall k :: 0 <= k < i && items != [] ==> leds[k].brightness == items[k % |items|]
        invariant forall k :: i <= k < |leds| ==> leds[k].brightness == before[k]
        invariant forall k :: 0 <= k < |leds| ==>
          leds[k].color == old(leds[k].color) && leds[k].index == old(leds[k].index)
      {
        leds[i].SetBrightness(items[j]);
        ModNext(i, |items|);
        i, j := i + 1, if j + 1 == |items| then 0 else j + 1;
      }
      forall k | 0 <= k < NUM_LEDS
        ensures Brightnesses()[k] == Broadcast(items, before)[k]
      {
        BroadcastAt(items, before, k);
      }
    }
  }

  /** The class-level slot that keeps the one LedArray once it exists. */
  class LedArrayType {
    var instance: LedArray?

    ghost predicate Valid()
      reads this
    {
      instance != null ==> instance.Valid()
    }

    constructor ()
      ensures Valid() && instance == null
    {
      instance := null;
    }

    /**
      `LedArray()`: the first call builds the tuple from `Led(0)` .. `Led(NUM_LEDS - 1)`,
      which resets every LED; later calls return that same object and change nothing.
     */
    method New(table: LedTable) returns (a: LedArray)
      requires Valid() && table.Valid()
      modifies this, table, table.instances
      ensures Valid() && table.Valid() && instance == a && a.Valid()
      ensures old(instance) != null ==> a == old(instance) && table.instances == old(table.instances)
      ensures old(instance) != null ==>
        forall k :: 0 <= k < |table.instances| ==> unchanged(table.instances[k])
      ensures old(instance) == null ==> && fresh(a)
                                        && a.leds == table.instances
                                        && (old(table.instances) != [] ==> table.instances == old(table.instances))
      ensures old(instance) == null ==> forall k :: 0 <= k < NUM_LEDS ==>
        a.leds[k].index == k && a.leds[k].All() == LedState(Default, 0)
      ensures old(instance) == null && old(table.instances) == [] ==> forall k :: 0 <= k < NUM_LEDS ==> fresh(a.leds[k])
    {
      if instance != null {
        a := instance;
        return;
      }
      var items: seq<Led> := [];
      while |items| < NUM_LEDS
        invariant table.Valid() && |items| <= NUM_LEDS
        invariant items != [] ==> |table.instances| == NUM_LEDS
        invariant old(table.instances) != [] ==> table.instances == old(table.instances)
        invariant old(table.instances) == [] && table.instances != [] ==>
          forall k :: 0 <= k < NUM_LEDS ==> fresh(table.instances[k])
        invariant forall k :: 0 <= k < |items| ==>
          items[k] == table.instances[k] && items[k].index == k && items[k].All() == LedState(Default, 0)
      {
        var r := table.New(|items|);
        items := items + [r.value];
      }
      a := new LedArray(items);
      instance := a;
    }
  }
}
