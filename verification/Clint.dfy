/** The 64-bit machine timer behind 32-bit accesses (src/arch/trap.rs; section
    3.2.1 of the RISC-V Privileged Architecture, version 20211203). The counter
    may advance between any two bus accesses. */
module Clint {
  import opened Machine

  const HALF := 0x1_0000_0000
  const FULL := 0x1_0000_0000_0000_0000

  type Tick = t: int | 0 <= t < FULL

  function Hi(t: Tick): Word { t / HALF }
  function Lo(t: Tick): Word { t % HALF }
  function Pair(hi: Word, lo: Word): Tick { hi * HALF + lo }

  /** The counter only goes up and does not wrap around 64 bits meanwhile. */
  ghost predicate Steady(clock: nat -> Tick) {
    forall i: nat, j: nat :: i <= j ==> clock(i) <= clock(j)
  }

  /** The compare register after each of the three writes of a re-arm. */
  function RearmWrites(before: Tick, target: Tick): seq<Tick> {
    [Pair(0xFFFF_FFFF, Lo(before)), Pair(0xFFFF_FFFF, Lo(target)), target]
  }

  /** A tick is pending while the counter has reached the compare register. No
      value the register has during a re-arm makes a tick pending that neither the
      old value nor the new one would. */
  lemma RearmNeverEarly(before: Tick, target: Tick, now: Tick, k: nat)
    requires k < 3 && now >= RearmWrites(before, target)[k]
    ensures now >= before || now >= target
  {
    assert before == Pair(Hi(before), Lo(before)) && target == Pair(Hi(target), Lo(target));
  }

  /** The guard write is needed: writing the low half and then the high half would
      pass through a value that is too low exactly when the target's high half is
      larger and its low half smaller. */
  lemma GuardNeededIff(before: Tick, target: Tick)
    ensures Pair(Hi(before), Lo(target)) < before && Pair(Hi(before), Lo(target)) < target
            <==> Hi(target) > Hi(before) && Lo(target) < Lo(before)
  {
    assert before == Pair(Hi(before), Lo(before)) && target == Pair(Hi(target), Lo(target));
  }

  /** Compare value for the next tick; u64 addition wraps. */
  function NextTarget(now: Tick, period: Tick): Tick {
    (now + period) % FULL
  }

  /** The next tick is a period away exactly when the sum fits in 64 bits. */
  lemma TargetAheadIff(now: Tick, period: Tick)
    requires period > 0
    ensures NextTarget(now, period) >= now <==> now as int + period < FULL
    ensures now as int + period < FULL ==> NextTarget(now, period) as int == now as int + period
  {
  }

  /** Compare value after the ticks that were handled at the times given. */
  function Rearmed(target: Tick, nows: seq<Tick>, period: Tick): Tick
    decreases |nows|
  {
    if nows == [] then target else Rearmed(NextTarget(nows[0], period), nows[1..], period)
  }

  /** Each tick was handled once it was due, and its re-arm did not overflow. */
  predicate Due(target: Tick, nows: seq<Tick>, period: Tick)
    decreases |nows|
  {
    nows != [] ==>
      && nows[0] >= target && nows[0] as int + period < FULL
      && Due(NextTarget(nows[0], period), nows[1..], period)
  }

  /** Ticks never bunch: however late each is handled, the k-th re-arm is at least
      k periods after the first target. */
  lemma {:induction false} TicksNeverBunch(target: Tick, nows: seq<Tick>, period: Tick)
    requires Due(target, nows, period)
    ensures Rearmed(target, nows, period) as int >= target as int + |nows| * period
    decreases |nows|
  {
    if nows != [] {
      var next := NextTarget(nows[0], period);
      assert next as int == nows[0] as int + period;
      TicksNeverBunch(next, nows[1..], period);
      assert |nows| * period == period + |nows[1..]| * period;
    }
  }

  class Timer {
    /** MTIME at each bus access: the hardware, as an oracle. */
    const clock: nat -> Tick
    var accesses: nat
    var cmpHi: Word
    var cmpLo: Word
    /** Every value MTIMECMP has had. */
    ghost var compares: seq<Tick>

    constructor (clock: nat -> Tick)
      ensures this.clock == clock && accesses == 0
    {
      this.clock := clock;
      accesses := 0;
      cmpHi, cmpLo := 0, 0;
      compares := [0];
    }

    function Compare(): Tick
      reads this
    {
      Pair(cmpHi, cmpLo)
    }

    method ReadHi() returns (w: Word)
      modifies this`accesses
      ensures accesses == old(accesses) + 1 && w == Hi(clock(old(accesses)))
    {
      w := Hi(clock(accesses));
      accesses := accesses + 1;
    }

    method ReadLo() returns (w: Word)
      modifies this`accesses
      ensures accesses == old(accesses) + 1 && w == Lo(clock(old(accesses)))
    {
      w := Lo(clock(accesses));
      accesses := accesses + 1;
    }

    method WriteHi(w: Word)
      modifies this`cmpHi, this`compares
      ensures cmpHi == w && compares == old(compares) + [Compare()]
    {
      cmpHi := w;
      compares := compares + [Compare()];
    }

    method WriteLo(w: Word)
      modifies this`cmpLo, this`compares
      ensures cmpLo == w && compares == old(compares) + [Compare()]
    {
      cmpLo := w;
      compares := compares + [Compare()];
    }

    /** Linearizable: the result is the counter at the instant of the last read of
        the low half. The loop always ends, and within two attempts if these
        together last less than 2^32 ticks. */
    method Now() returns (t: Tick)
      requires Steady(clock)
      modifies this`accesses
      ensures accesses >= old(accesses) + 3 && t == clock(accesses - 2)
      ensures clock(old(accesses) + 5) < clock(old(accesses)) as int + HALF ==> accesses <= old(accesses) + 6
    {
      ghost var start := accesses;
      while true
        invariant accesses >= start
        invariant accesses == start || (accesses == start + 3 && Hi(clock(start)) < Hi(clock(start + 2)))
                  || accesses > start + 3
        invariant accesses > start + 3 ==> clock(start + 5) >= clock(start) as int + HALF
        decreases HALF - Hi(clock(accesses))
      {
        ghost var at := accesses;
        var hi1 := ReadHi();
        var lo := ReadLo();
        var hi2 := ReadHi();
        HalvesOrdered(clock(at), clock(at + 1), clock(at + 2), clock(at + 3));
        if hi1 == hi2 {
          return Pair(hi1, lo);
        }
        if at == start + 3 {
          TwoCarries(clock(start), clock(start + 2), clock(start + 3), clock(start + 5));
        }
      }
    }

    method SetNextTickAt(target: Tick)
      modifies this`cmpHi, this`cmpLo, this`compares
      ensures Compare() == target
      ensures compares == old(compares) + RearmWrites(old(Compare()), target)
    {
      assert cmpLo == Lo(Compare());
      WriteHi(0xFFFF_FFFF);
      WriteLo(Lo(target));
      WriteHi(Hi(target));
    }

    /** The re-arm at the start of handle_machine_timer. */
    method Rearm(period: Tick) returns (t: Tick)
      requires Steady(clock)
      modifies this
      ensures accesses >= old(accesses) + 3 && clock(old(accesses)) <= t == clock(accesses - 2)
      ensures Compare() == NextTarget(t, period)
      ensures clock(old(accesses)) >= old(Compare()) && t as int + period < FULL ==>
                Due(old(Compare()), [t], period) && Compare() as int >= old(Compare()) as int + period
      ensures compares == old(compares) + RearmWrites(old(Compare()), NextTarget(t, period))
    {
      t := Now();
      SetNextTickAt(((t as int + period) % FULL));
    }
  }

  lemma HalvesOrdered(a: Tick, b: Tick, c: Tick, d: Tick)
    requires a <= b <= c <= d
    ensures Hi(a) <= Hi(c) <= Hi(d)
    ensures Hi(a) == Hi(c) ==> Pair(Hi(a), Lo(b)) == b
  {
    assert Hi(a) <= Hi(b) <= Hi(c);
  }

  lemma TwoCarries(a: Tick, b: Tick, c: Tick, d: Tick)
    requires b <= c && Hi(a) < Hi(b) && Hi(c) < Hi(d)
    ensures d as int >= a as int + HALF
  {
    assert Hi(b) <= Hi(c);
  }
}
