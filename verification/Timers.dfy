// The cycle timers of src/mii.c: mii_timer_run.
//
// A timer counts down by the cycles of each run; when it reaches zero its callback says how many
// cycles to add. TimerRuns is one timer over any number of runs: as long as every delay exceeds the
// overshoot there is no drift, and if one does not the timer stops for good. Timers is the code.
module TimerRuns {
  // One run: the cycles it is for, and what the callback returns if it comes to be called.
  datatype Call = Call(cycles: nat, delay: nat)

  predicate Fires(when: int, c: Call) {
    when > 0 && when - c.cycles <= 0
  }

  function After(when: int, c: Call): int {
    if when > 0 then
      if when - c.cycles <= 0 then when - c.cycles + c.delay else when - c.cycles
    else when
  }

  function Remaining(when: int, calls: seq<Call>): int {
    if calls == [] then when else After(Remaining(when, calls[..|calls| - 1]), calls[|calls| - 1])
  }

  // The delays returned so far.
  function Returned(when: int, calls: seq<Call>): seq<nat> {
    if calls == [] then [] else
      var last := |calls| - 1;
      Returned(when, calls[..last])
      + if Fires(Remaining(when, calls[..last]), calls[last]) then [calls[last].delay] else []
  }

  function Elapsed(calls: seq<Call>): nat {
    if calls == [] then 0 else Elapsed(calls[..|calls| - 1]) + calls[|calls| - 1].cycles
  }

  function Sum(delays: seq<nat>): nat {
    if delays == [] then 0 else Sum(delays[..|delays| - 1]) + delays[|delays| - 1]
  }

  // Whenever the callback is called it returns more than the run has overshot.
  predicate Ahead(when: int, calls: seq<Call>) {
    calls == [] ||
      (var last := |calls| - 1;
       && Ahead(when, calls[..last])
       && (Fires(Remaining(when, calls[..last]), calls[last]) ==>
             Remaining(when, calls[..last]) - calls[last].cycles + calls[last].delay > 0))
  }

  // The remaining time is the start plus the delays returned minus the cycles elapsed: no cycle of an
  // overshoot is lost.
  lemma {:induction false} NoDrift(when: int, calls: seq<Call>)
    requires when > 0 && Ahead(when, calls)
    ensures Remaining(when, calls) == when + Sum(Returned(when, calls)) - Elapsed(calls)
    ensures Remaining(when, calls) > 0
  {
    if calls != [] {
      var last := |calls| - 1;
      NoDrift(when, calls[..last]);
      SumAppend(Returned(when, calls[..last]), calls[last].delay);
    }
  }

  lemma SumAppend(delays: seq<nat>, d: nat)
    ensures Sum(delays + [d]) == Sum(delays) + d && Sum(delays + []) == Sum(delays)
  {
    assert (delays + [d])[..|delays|] == delays;
    assert delays + [] == delays;
  }

  // When the callback is due for the next time, counted from the start.
  function Due(when: int, calls: seq<Call>): int {
    when + Sum(Returned(when, calls))
  }

  // The callback is called in the first run whose cycles reach the time it is due, and once in it.
  lemma FiresWhenDue(when: int, calls: seq<Call>, c: Call)
    requires when > 0 && Ahead(when, calls)
    ensures Elapsed(calls) < Due(when, calls)
    ensures Fires(Remaining(when, calls), c) <==> Due(when, calls) <= Elapsed(calls + [c])
    ensures Returned(when, calls + [c]) ==
      Returned(when, calls) + if Due(when, calls) <= Elapsed(calls + [c]) then [c.delay] else []
  {
    NoDrift(when, calls);
    assert (calls + [c])[..|calls|] == calls;
  }

  // A timer at zero or below never moves again.
  lemma {:induction false} Frozen(when: int, calls: seq<Call>)
    requires when <= 0
    ensures Remaining(when, calls) == when && Returned(when, calls) == []
  {
    if calls != [] {
      Frozen(when, calls[..|calls| - 1]);
    }
  }

  // The condition is exact: a timer is still running after a run just when no delay fell short.
  lemma {:induction false} RunsJustWhenAhead(when: int, calls: seq<Call>)
    requires when > 0
    ensures Remaining(when, calls) > 0 <==> Ahead(when, calls)
  {
    if calls != [] {
      RunsJustWhenAhead(when, calls[..|calls| - 1]);
    }
  }

  // One short delay, and nothing that is run after it calls the callback again.
  lemma {:induction false} ShortDelayStops(when: int, c: Call, calls: seq<Call>)
    requires Fires(when, c) && when - c.cycles + c.delay <= 0
    ensures Remaining(when, [c] + calls) == when - c.cycles + c.delay
    ensures Returned(when, [c] + calls) == [c.delay]
  {
    if calls == [] {
      assert [c] + calls == [c] && [c][..0] == [];
    } else {
      var last := |calls| - 1;
      ShortDelayStops(when, c, calls[..last]);
      assert ([c] + calls)[..last + 1] == [c] + calls[..last];
    }
  }
}

module Timers {
  import opened Bits
  import opened TimerRuns

  // ffsll(x) - 1: the lowest bit that is set.
  method FindFirst(x: nat) returns (i: nat)
    requires 0 < x < Pow2(64)
    ensures i < 64 && Bit(x, i) && forall k | 0 <= k < i :: !Bit(x, k)
  {
    SomeBit(x, 64);
    i := 0;
    while !Bit(x, i)
      invariant i < 64 && (exists k | i <= k < 64 :: Bit(x, k)) && forall k | 0 <= k < i :: !Bit(x, k)
      decreases 64 - i
    {
      i := i + 1;
    }
  }

  lemma {:induction false} SomeBit(x: nat, n: nat)
    requires 0 < x < Pow2(n)
    ensures exists k | 0 <= k < n :: Bit(x, k)
  {
    if x % 2 == 1 {
      assert Bit(x, 0);
    } else {
      SomeBit(x / 2, n - 1);
      var k :| 0 <= k < n - 1 && Bit(x / 2, k);
      assert Bit(x, k + 1);
    }
  }

  // timer &= ~(1ull << i)
  lemma ClearBit(x: nat, i: nat, k: nat)
    requires i < 64 && k < 64 && Pow2(i) < Pow2(64)
    ensures Bit(And(x, Not(64, Pow2(i))), k) <==> Bit(x, k) && k != i
  {
    BitOfAnd(x, Not(64, Pow2(i)), k);
    BitOfNot(64, Pow2(i), k);
    BitOfPow2(i, k);
    hide And, Not, Pow2, Bit;
  }

  lemma {:induction false} AndShrinks(x: nat, y: nat)
    ensures And(x, y) <= x
  {
    if x > 0 && y > 0 {
      AndShrinks(x / 2, y / 2);
    }
  }

  // mii_t.timer, without the names; active is the bit map of the registered timers.
  class TimerSet {
    var active: nat
    const when: array<int>
    const hasCallback: array<bool>

    ghost predicate Valid()
      reads this
    {
      active < Pow2(64) && when.Length == 64 && hasCallback.Length == 64
    }

    // What a run makes of timer i.
    function Counted(i: nat, was: int, cycles: nat, delay: nat): int
      requires Valid() && i < 64
      reads this, hasCallback
    {
      if Bit(active, i) then After(was, Call(cycles, if hasCallback[i] then delay else 0)) else was
    }

    // mii_timer_run. delays[i] is what the callback of timer i returns; callbacks are taken to leave
    // the timers alone. A timer without a callback gets nothing added.
    method Run(cycles: nat, delays: seq<nat>) returns (fired: set<nat>)
      requires Valid() && |delays| == 64
      modifies when
      ensures forall i | 0 <= i < 64 :: when[i] == Counted(i, old(when[i]), cycles, delays[i])
      ensures forall i | 0 <= i < 64 :: i in fired <==>
        Bit(active, i) && hasCallback[i] && Fires(old(when[i]), Call(cycles, delays[i]))
    {
      hide Bit, And, Not, Pow2, After, Fires;
      fired := {};
      var timer: nat := active;
      ghost var next := 0;
      while timer != 0
        invariant timer < Pow2(64) && 0 <= next <= 64
        invariant forall k | 0 <= k < 64 :: Bit(timer, k) <==> Bit(active, k) && next <= k
        invariant forall k | 0 <= k < 64 ::
          when[k] == if k < next then Counted(k, old(when[k]), cycles, delays[k]) else old(when[k])
        invariant forall k | 0 <= k < 64 :: k in fired <==>
          k < next && Bit(active, k) && hasCallback[k] && Fires(old(when[k]), Call(cycles, delays[k]))
        decreases 64 - next
      {
        var i := FindFirst(timer);
        timer := ClearLowest(timer, i);
        var fires := CountDown(i, cycles, delays[i]);
        if fires {
          fired := fired + {i};
        }
        next := i + 1;
      }
      NoBits();
    }

    // One registered timer; fires if its callback was called.
    method CountDown(i: nat, cycles: nat, delay: nat) returns (fires: bool)
      requires Valid() && i < 64 && Bit(active, i)
      modifies when
      ensures when[i] == Counted(i, old(when[i]), cycles, delay)
      ensures forall k | 0 <= k < 64 && k != i :: when[k] == old(when[k])
      ensures fires <==> hasCallback[i] && Fires(old(when[i]), Call(cycles, delay))
    {
      hide Bit;
      fires := false;
      if when[i] > 0 {
        when[i] := when[i] - cycles;
        if when[i] <= 0 {
          if hasCallback[i] {
            when[i] := when[i] + delay;
            fires := true;
          }
        }
      }
    }

    method ClearLowest(timer: nat, i: nat) returns (r: nat)
      requires timer < Pow2(64) && i < 64
      ensures r < Pow2(64) && forall k | 0 <= k < 64 :: Bit(r, k) <==> Bit(timer, k) && k != i
    {
      Pow2Monotone(i, 64);
      r := And(timer, Not(64, Pow2(i)));
      AndShrinks(timer, Not(64, Pow2(i)));
      forall k | 0 <= k < 64
        ensures Bit(r, k) <==> Bit(timer, k) && k != i
      {
        ClearBit(timer, i, k);
      }
    }

    lemma NoBits()
      ensures forall k | 0 <= k < 64 :: !Bit(0, k)
    {
      forall k | 0 <= k < 64
        ensures !Bit(0, k)
      {
        BitOfZero(k);
      }
    }
  }
}
