/**
The simulated light sensor: a timer handler steps a wrapping 8-bit counter, derives
the second channel from it and raises an event when a channel meets a threshold;
configuration calls change thresholds and enables.

This file has the handlers as they run under the mutex. FakeIioInterleaving has
them interleaved, one byte at a time.
*/
module FakeIio {
  import opened Memory
  import opened Kernel

  datatype Dir = RISING | FALLING | OTHER

  datatype Event = Event(chan: nat, dir: Dir)

  datatype Iio = Iio(lux: seq<byte>, enabled: seq<bool>, high: seq<byte>, low: seq<byte>, pushed: seq<Event>)

  predicate IioOk(s: Iio) {
    |s.lux| == |s.enabled| == |s.high| == |s.low| == 2
  }

  // ------------------------------------------------------------- one tick

  /** `++` on an unsigned char. */
  function Next(c: byte): byte {
    (c + 1) % 256
  }

  /** The events channel i raises at its current value. */
  function Raised(s: Iio, i: nat): seq<Event>
    requires IioOk(s) && i < 2
  {
    if !s.enabled[i] then []
    else (if s.lux[i] == s.high[i] then [Event(i, RISING)] else [])
         + (if s.lux[i] == s.low[i] then [Event(i, FALLING)] else [])
  }

  function Ticked(s: Iio): (s': Iio)
    requires IioOk(s)
    ensures IioOk(s')
  {
    var c := Next(s.lux[0]);
    var s1 := s.(lux := [c, c / 2]);
    s1.(pushed := s.pushed + Raised(s1, 0) + Raised(s1, 1))
  }

  /** One tick, step by step: the counter, its half, then four comparisons in this order. */
  predicate TickDone(s: Iio, s': Iio)
    requires IioOk(s)
  {
    && IioOk(s') && s'.enabled == s.enabled && s'.high == s.high && s'.low == s.low
    && s'.lux[0] == (if s.lux[0] == 255 then 0 else s.lux[0] + 1)
    && s'.lux[1] == s'.lux[0] / 2
    && s'.pushed == s.pushed
         + (if s.enabled[0] && s'.lux[0] == s.high[0] then [Event(0, RISING)] else [])
         + (if s.enabled[0] && s'.lux[0] == s.low[0] then [Event(0, FALLING)] else [])
         + (if s.enabled[1] && s'.lux[1] == s.high[1] then [Event(1, RISING)] else [])
         + (if s.enabled[1] && s'.lux[1] == s.low[1] then [Event(1, FALLING)] else [])
  }

  lemma TickedDone(s: Iio)
    requires IioOk(s)
    ensures TickDone(s, Ticked(s))
  {
    var c := Next(s.lux[0]);
    var s1 := s.(lux := [c, c / 2]);
    var a := if s.enabled[0] && c == s.high[0] then [Event(0, RISING)] else [];
    var b := if s.enabled[0] && c == s.low[0] then [Event(0, FALLING)] else [];
    assert Raised(s1, 0) == a + b;
    assert s.pushed + (a + b) == s.pushed + a + b;
    var d := if s.enabled[1] && c / 2 == s.high[1] then [Event(1, RISING)] else [];
    var e := if s.enabled[1] && c / 2 == s.low[1] then [Event(1, FALLING)] else [];
    assert Raised(s1, 1) == d + e;
    var front := s.pushed + a + b;
    assert front + (d + e) == front + d + e;
  }

  function Ticks(s: Iio, n: nat): (s': Iio)
    requires IioOk(s)
    ensures IioOk(s')
  {
    if n == 0 then s else Ticked(Ticks(s, n - 1))
  }

  // ------------------------------------------------------- counting events

  function Count(evs: seq<Event>, e: Event): nat {
    if evs == [] then 0 else Count(evs[..|evs| - 1], e) + (if evs[|evs| - 1] == e then 1 else 0)
  }

  lemma {:induction false} CountConcat(a: seq<Event>, b: seq<Event>, e: Event)
    ensures Count(a + b, e) == Count(a, e) + Count(b, e)
  {
    if b == [] {
      assert a + b == a;
    } else {
      assert (a + b)[..|a + b| - 1] == a + b[..|b| - 1];
      CountConcat(a, b[..|b| - 1], e);
    }
  }

  function Threshold(s: Iio, i: nat, dir: Dir): byte
    requires IioOk(s) && i < 2
  {
    if dir == RISING then s.high[i] else s.low[i]
  }

  lemma RaisedCount(s: Iio, i: nat, j: nat, dir: Dir)
    requires IioOk(s) && i < 2 && j < 2 && dir != OTHER
    ensures Count(Raised(s, j), Event(i, dir))
              == if i == j && s.enabled[i] && s.lux[i] == Threshold(s, i, dir) then 1 else 0
  {
    var up := if s.lux[j] == s.high[j] then [Event(j, RISING)] else [];
    var down := if s.lux[j] == s.low[j] then [Event(j, FALLING)] else [];
    if s.enabled[j] {
      CountConcat(up, down, Event(i, dir));
    }
  }

  lemma TickCount(s: Iio, i: nat, dir: Dir)
    requires IioOk(s) && i < 2 && dir != OTHER
    ensures var s' := Ticked(s);
            Count(s'.pushed, Event(i, dir)) == Count(s.pushed, Event(i, dir))
              + if s.enabled[i] && s'.lux[i] == Threshold(s, i, dir) then 1 else 0
  {
    var c := Next(s.lux[0]);
    var s1 := s.(lux := [c, c / 2]);
    CountConcat(s.pushed + Raised(s1, 0), Raised(s1, 1), Event(i, dir));
    CountConcat(s.pushed, Raised(s1, 0), Event(i, dir));
    RaisedCount(s1, i, 0, dir);
    RaisedCount(s1, i, 1, dir);
  }

  /** How many of the n values after c, modulo 256, are h. */
  function Hits(c: int, h: int, n: nat): nat {
    if n == 0 then 0 else Hits(c, h, n - 1) + (if (c + n) % 256 == h then 1 else 0)
  }

  /** How many of them are 2h or 2h + 1. */
  function HalfHits(c: int, h: int, n: nat): nat {
    if n == 0 then 0 else HalfHits(c, h, n - 1) + (if ((c + n) % 256) / 2 == h then 1 else 0)
  }

  lemma FloorStep(x: int)
    ensures (x + 1) / 256 == x / 256 + if (x + 1) % 256 == 0 then 1 else 0
  {
  }

  lemma MeetsWhenDivides(x: int, h: int)
    requires 0 <= h < 256
    ensures x % 256 == h <==> (x - h) % 256 == 0
  {
  }

  /** The closed form: a difference of two floors. */
  lemma {:induction false} HitsClosed(c: int, h: int, n: nat)
    requires 0 <= h < 256
    ensures Hits(c, h, n) == (c + n - h) / 256 - (c - h) / 256
  {
    if n > 0 {
      HitsClosed(c, h, n - 1);
      FloorStep(c + n - 1 - h);
      MeetsWhenDivides(c + n, h);
    }
  }

  /** Any threshold is met once in every 256 ticks, give or take one at the ends. */
  lemma HitsBounds(c: int, h: int, n: nat)
    requires 0 <= h < 256
    ensures n / 256 <= Hits(c, h, n) <= n / 256 + 1
    ensures n % 256 == 0 ==> Hits(c, h, n) == n / 256
  {
    HitsClosed(c, h, n);
  }

  lemma HitsInCycles(c: int, h: int, k: nat)
    requires 0 <= h < 256
    ensures Hits(c, h, 256 * k) == k
  {
    HitsBounds(c, h, 256 * k);
  }

  lemma {:induction false} HalfHitsSplit(c: int, h: int, n: nat)
    requires 0 <= h < 256
    ensures HalfHits(c, h, n) == if h <= 127 then Hits(c, 2 * h, n) + Hits(c, 2 * h + 1, n) else 0
  {
    if n > 0 {
      HalfHitsSplit(c, h, n - 1);
    }
  }

  lemma NextMod(c: int, n: nat)
    requires n > 0
    ensures ((c + n - 1) % 256 + 1) % 256 == (c + n) % 256
  {
  }

  /** The counter after n ticks, and nothing else moved. */
  lemma {:induction false} TicksState(s: Iio, n: nat)
    requires IioOk(s)
    ensures var s' := Ticks(s, n);
            && s'.lux[0] == (s.lux[0] + n) % 256
            && (n > 0 ==> s'.lux[1] == s'.lux[0] / 2)
            && s'.enabled == s.enabled && s'.high == s.high && s'.low == s.low
  {
    if n > 0 {
      TicksState(s, n - 1);
      NextMod(s.lux[0], n);
    }
  }

  /** One more tick, seen from the start. */
  lemma LaterTick(s: Iio, i: nat, dir: Dir, n: nat)
    requires IioOk(s) && i < 2 && dir != OTHER && s.enabled[i] && n > 0
    ensures var c := (s.lux[0] + n) % 256;
            Count(Ticks(s, n).pushed, Event(i, dir)) == Count(Ticks(s, n - 1).pushed, Event(i, dir))
              + if (if i == 0 then c else c / 2) == Threshold(s, i, dir) then 1 else 0
  {
    TicksState(s, n - 1);
    TicksState(s, n);
    TickCount(Ticks(s, n - 1), i, dir);
  }

  /** Channel 0, any start, any number of ticks: events are exactly the meetings of the threshold. */
  lemma {:induction false} Channel0Events(s: Iio, dir: Dir, n: nat)
    requires IioOk(s) && s.enabled[0] && dir != OTHER
    ensures Count(Ticks(s, n).pushed, Event(0, dir))
              == Count(s.pushed, Event(0, dir)) + Hits(s.lux[0], Threshold(s, 0, dir), n)
  {
    if n > 0 {
      Channel0Events(s, dir, n - 1);
      LaterTick(s, 0, dir, n);
    }
  }

  /** Channel 1, any start, any number of ticks. */
  lemma {:induction false} Channel1Events(s: Iio, dir: Dir, n: nat)
    requires IioOk(s) && s.enabled[1] && dir != OTHER
    ensures Count(Ticks(s, n).pushed, Event(1, dir))
              == Count(s.pushed, Event(1, dir)) + HalfHits(s.lux[0], Threshold(s, 1, dir), n)
  {
    if n > 0 {
      Channel1Events(s, dir, n - 1);
      LaterTick(s, 1, dir, n);
    }
  }

  /** Channel 0 over n ticks: the closed form, between n/256 and n/256 + 1. */
  lemma Channel0Closed(s: Iio, dir: Dir, n: nat)
    requires IioOk(s) && s.enabled[0] && dir != OTHER
    ensures var c, h: int := s.lux[0], Threshold(s, 0, dir);
            var events := Count(Ticks(s, n).pushed, Event(0, dir)) - Count(s.pushed, Event(0, dir));
            events == (c + n - h) / 256 - (c - h) / 256 && n / 256 <= events <= n / 256 + 1
  {
    Channel0Events(s, dir, n);
    HitsClosed(s.lux[0], Threshold(s, 0, dir), n);
    HitsBounds(s.lux[0], Threshold(s, 0, dir), n);
  }

  /** Channel 1 over k whole cycles: two events per cycle if its threshold can be met at all. */
  lemma Channel1Cycles(s: Iio, dir: Dir, k: nat)
    requires IioOk(s) && s.enabled[1] && dir != OTHER
    ensures Count(Ticks(s, 256 * k).pushed, Event(1, dir))
              == Count(s.pushed, Event(1, dir)) + if Threshold(s, 1, dir) <= 127 then 2 * k else 0
  {
    var h: int := Threshold(s, 1, dir);
    Channel1Events(s, dir, 256 * k);
    HalfHitsSplit(s.lux[0], h, 256 * k);
    if h <= 127 {
      HitsInCycles(s.lux[0], 2 * h, k);
      HitsInCycles(s.lux[0], 2 * h + 1, k);
    }
  }

  // -------------------------------------------------------------- the driver

  class FakeIioDev {
    const currentLux: array<byte>
    const event: array<bool>
    const highThresh: array<byte>
    const lowThresh: array<byte>
    const hz: nat
    var freq: nat
    var expires: nat
    var pushed: seq<Event>

    ghost predicate Valid()
      reads this
    {
      && currentLux.Length == event.Length == highThresh.Length == lowThresh.Length == 2
      && currentLux != highThresh && currentLux != lowThresh && highThresh != lowThresh
    }

    ghost function Model(): Iio
      reads this, currentLux, event, highThresh, lowThresh
    {
      Iio(currentLux[..], event[..], highThresh[..], lowThresh[..], pushed)
    }

    /** Probe: zeroed private data, a first tick in one second. */
    constructor (hz: nat, jiffies: nat)
      ensures Valid() && this.hz == hz && freq == 1 && expires == jiffies + Jiffies(1, hz)
      ensures fresh(currentLux) && fresh(event) && fresh(highThresh) && fresh(lowThresh)
      ensures Model() == Iio([0, 0], [false, false], [0, 0], [0, 0], [])
    {
      currentLux := new byte[2](_ => 0);
      event := new bool[2](_ => false);
      highThresh := new byte[2](_ => 0);
      lowThresh := new byte[2](_ => 0);
      this.hz, freq, pushed := hz, 1, [];
      expires := jiffies + Jiffies(1, hz);
    }

    /** The body of the comparing loop. */
    method Compare(i: nat)
      requires Valid() && i < 2
      modifies this`pushed
      ensures pushed == old(pushed) + Raised(old(Model()), i)
    {
      if event[i] {
        if currentLux[i] == highThresh[i] {
          pushed := pushed + [Event(i, RISING)];
        }
        if currentLux[i] == lowThresh[i] {
          pushed := pushed + [Event(i, FALLING)];
        }
      }
    }

    /** lux_auto_change: the tick, and the timer set for the next one. */
    method LuxAutoChange(jiffies: nat)
      requires Valid()
      modifies currentLux, this`pushed, this`expires
      ensures IioOk(old(Model())) && Model() == Ticked(old(Model()))
      ensures TickDone(old(Model()), Model())
      ensures expires == jiffies + Jiffies(freq, hz)
    {
      TickedDone(Model());
      currentLux[0] := Next(currentLux[0]);
      currentLux[1] := currentLux[0] / 2;
      ghost var s1 := Model();
      assert s1.lux == [Next(old(currentLux[0])), Next(old(currentLux[0])) / 2];
      for i := 0 to 2
        invariant Model() == s1.(pushed := pushed)
        invariant pushed == s1.pushed + (if i > 0 then Raised(s1, 0) else []) + (if i > 1 then Raised(s1, 1) else [])
      {
        Compare(i);
      }
      expires := jiffies + Jiffies(freq, hz);
    }

    /** fake_iiodev_trigger_handler: both channels, then room for the timestamp. */
    method TriggerHandler() returns (data: array<byte>)
      requires Valid()
      ensures fresh(data) && data.Length == 16
      ensures data[0] == currentLux[0] && data[1] == currentLux[1]
      ensures forall k :: 2 <= k < 16 ==> data[k] == 0
    {
      data := new byte[16](_ => 0);
      for i := 0 to 2
        invariant forall k :: 0 <= k < i ==> data[k] == currentLux[k]
        invariant forall k :: 2 <= k < 16 ==> data[k] == 0
      {
        data[i] := currentLux[i];
      }
    }

    /** fake_iiodev_write_event_config */
    method WriteEventConfig(chan: nat, state: int)
      requires Valid() && chan < 2
      modifies event
      ensures Model() == old(Model()).(enabled := old(Model()).enabled[chan := state != 0])
    {
      event[chan] := state != 0;
    }

    /** fake_iiodev_write_event_value: the value is cut to a byte, an unknown direction refused. */
    method WriteEventValue(chan: nat, dir: Dir, val: int) returns (ret: int)
      requires Valid() && chan < 2
      modifies highThresh, lowThresh
      ensures ret == if dir == OTHER then -EINVAL else 0
      ensures var was := old(Model());
              var cut: byte := val % 256;
              && |was.high| == |was.low| == 2
              && Model() == was.(high := if dir == RISING then was.high[chan := cut] else was.high,
                                 low := if dir == FALLING then was.low[chan := cut] else was.low)
    {
      ret := 0;
      if dir == RISING {
        highThresh[chan] := val % 256;
      } else if dir == FALLING {
        lowThresh[chan] := val % 256;
      } else {
        ret := -EINVAL;
      }
    }

    /** fake_iiodev_write_raw: a frequency out of range is stored, and the timer moved, like any other. */
    method WriteRaw(intTime: bool, val: int, jiffies: nat) returns (ret: int)
      modifies this`freq, this`expires
      ensures ret == if intTime then 0 else -EINVAL
      ensures freq == if intTime then val % WORD else old(freq)
      ensures expires == if intTime then jiffies + Jiffies(freq, hz) else old(expires)
    {
      if !intTime {
        return -EINVAL;
      }
      if val > 5 || val < 1 {
        ret := -EINVAL;
      }
      freq := val % WORD;
      expires := jiffies + Jiffies(freq, hz);
      return 0;
    }
  }
}
