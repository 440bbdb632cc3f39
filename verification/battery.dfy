/**
 * One hour of the two-bank battery simulation shared by both data
 * generators: the 70/30 solar split, charging from the battery's share of
 * solar, discharging against the remaining demand, and the final clip.
 *
 * The banks are a sequence of stored energies (the generators use two).
 * The random noise, the slow-discharge factor, the solar generation and the
 * base loads are inputs; energies are reals in kWh.
 */
module Battery {

  import opened Seqs

  const Capacity: real := 500.0
  const MaxRate: real := 150.0

  // Charging and discharging both run at 95 % efficiency; the factor 0.95
  // appears as a literal below.

  /** Sum of a sequence of reals. */
  function Total(s: seq<real>): real
    decreases |s|
  {
    if s == [] then 0.0 else s[0] + Total(s[1..])
  }

  lemma {:induction false} TotalOfZeros(s: seq<real>)
    requires forall i :: 0 <= i < |s| ==> s[i] == 0.0
    ensures Total(s) == 0.0
    decreases |s|
  {
    if s != [] {
      assert forall i :: 1 <= i < |s| ==> s[1..][i - 1] == s[i];
      TotalOfZeros(s[1..]);
    }
  }

  /** `np.clip(x, lo, hi)`. */
  function Clip(x: real, lo: real, hi: real): (r: real)
    requires lo <= hi
    ensures lo <= r <= hi
    ensures lo <= x <= hi ==> r == x
    ensures x < lo ==> r == lo
    ensures x > hi ==> r == hi
  {
    RealMin(RealMax(x, lo), hi)
  }

  // ---------------------------------------------------------------------------
  // Solar split
  // ---------------------------------------------------------------------------

  /** 70 % of the (non-negative) generation for direct use, 30 % for the battery. */
  function SolarSplit(generation: real): (r: (real, real))
    ensures r.0 >= 0.0 && r.1 >= 0.0
    ensures r.0 + r.1 == RealMax(0.0, generation)
    ensures 3.0 * r.0 == 7.0 * r.1
    ensures r.0 == 0.0 <==> r.1 == 0.0
  {
    var g := RealMax(0.0, generation);
    (0.70 * g, 0.30 * g)
  }

  // ---------------------------------------------------------------------------
  // Charging
  // ---------------------------------------------------------------------------

  /** How much a bank can take this hour: the rate limit or the input that fills it, 0 when full. */
  function PossibleCharge(stored: real): (p: real)
    ensures 0.0 <= p <= MaxRate
    ensures p > 0.0 <==> stored < Capacity
    ensures stored < Capacity ==> p * 0.95 <= Capacity - stored
    ensures stored < Capacity ==> p == MaxRate || p * 0.95 == Capacity - stored
  {
    if stored < Capacity then RealMin(MaxRate, (Capacity - stored) / 0.95) else 0.0
  }

  function Possible(stored: seq<real>): (p: seq<real>)
    ensures |p| == |stored|
    ensures forall i :: 0 <= i < |p| ==> p[i] == PossibleCharge(stored[i])
  {
    seq(|stored|, i requires 0 <= i < |stored| => PossibleCharge(stored[i]))
  }

  /** The number of banks that can take a charge. */
  function Chargeable(p: seq<real>): (k: nat)
    ensures k <= |p|
    ensures k == 0 <==> forall i :: 0 <= i < |p| ==> p[i] <= 0.0
    decreases |p|
  {
    if p == [] then 0
    else
      assert forall i :: 1 <= i < |p| ==> p[1..][i - 1] == p[i];
      (if p[0] > 0.0 then 1 else 0) + Chargeable(p[1..])
  }

  /** The noisy flow into one bank, kept within `[0, amount]`. */
  function ChargeFlow(amount: real, noise: real): (f: real)
    requires amount >= 0.0
    ensures 0.0 <= f <= amount
    ensures amount + noise >= amount ==> f == amount
  {
    RealMin(RealMax(0.0, amount + noise), amount)
  }

  /** The flow into each bank when `share` is offered to every chargeable bank. */
  function ChargeFlows(p: seq<real>, share: real, noise: seq<real>): (f: seq<real>)
    requires |noise| == |p| && share >= 0.0
    requires forall i :: 0 <= i < |p| ==> p[i] >= 0.0
    ensures |f| == |p|
    ensures forall i :: 0 <= i < |f| ==> 0.0 <= f[i] <= p[i] && f[i] <= share
    ensures forall i :: 0 <= i < |f| && p[i] <= 0.0 ==> f[i] == 0.0
  {
    seq(|p|, i requires 0 <= i < |p| => if p[i] > 0.0 then ChargeFlow(RealMin(share, p[i]), noise[i]) else 0.0)
  }

  /** The flows never add up to more than the possible charges. */
  lemma {:induction false} FlowsBelowPossible(f: seq<real>, p: seq<real>)
    requires |f| == |p|
    requires forall i :: 0 <= i < |f| ==> 0.0 <= f[i] <= p[i]
    ensures 0.0 <= Total(f) <= Total(p)
    decreases |f|
  {
    if f != [] {
      assert forall i :: 1 <= i < |f| ==> f[1..][i - 1] == f[i] && p[1..][i - 1] == p[i];
      FlowsBelowPossible(f[1..], p[1..]);
    }
  }

  /** One `share` for every bank that can take a charge. */
  function ShareSum(p: seq<real>, share: real): real
    decreases |p|
  {
    if p == [] then 0.0 else (if p[0] > 0.0 then share else 0.0) + ShareSum(p[1..], share)
  }

  /** `n` copies of `x` added up. */
  function Times(n: nat, x: real): real
  {
    if n == 0 then 0.0 else x + Times(n - 1, x)
  }

  lemma {:induction false} TimesIsProduct(n: nat, x: real)
    ensures Times(n, x) == n as real * x
  {
    if n > 0 {
      TimesIsProduct(n - 1, x);
      assert n as real * x == (n - 1) as real * x + x;
    }
  }

  lemma {:induction false} ShareSumIsProduct(p: seq<real>, share: real)
    ensures ShareSum(p, share) == Chargeable(p) as real * share
  {
    ShareSumIsTimes(p, share);
    TimesIsProduct(Chargeable(p), share);
  }

  lemma {:induction false} ShareSumIsTimes(p: seq<real>, share: real)
    ensures ShareSum(p, share) == Times(Chargeable(p), share)
    decreases |p|
  {
    if p != [] {
      ShareSumIsTimes(p[1..], share);
    }
  }

  /** The flows never add up to more than one share per chargeable bank. */
  lemma {:induction false} FlowsBelowShares(f: seq<real>, p: seq<real>, share: real)
    requires |f| == |p|
    requires forall i :: 0 <= i < |f| ==> f[i] <= share
    requires forall i :: 0 <= i < |f| && p[i] <= 0.0 ==> f[i] == 0.0
    ensures Total(f) <= ShareSum(p, share)
    decreases |f|
  {
    if f != [] {
      assert forall i :: 1 <= i < |f| ==> f[1..][i - 1] == f[i] && p[1..][i - 1] == p[i];
      FlowsBelowShares(f[1..], p[1..], share);
    }
  }

  /** `d` split evenly over the chargeable banks. */
  function EqualShare(p: seq<real>, d: real): (share: real)
    requires d > 0.0 && Chargeable(p) > 0
    ensures share > 0.0
    ensures ShareSum(p, share) == d
  {
    var k := Chargeable(p) as real;
    var share := d / k;
    ShareSumIsProduct(p, share);
    assert k * share == d;
    share
  }

  /** `d` offered in equal shares to the chargeable banks, with each bank's noise. */
  function SharedFlows(p: seq<real>, d: real, noise: seq<real>): (f: seq<real>)
    requires |noise| == |p| && d > 0.0 && Chargeable(p) > 0
    requires forall i :: 0 <= i < |p| ==> p[i] >= 0.0
    ensures |f| == |p|
    ensures forall i :: 0 <= i < |f| ==> 0.0 <= f[i] <= p[i]
    ensures 0.0 <= Total(f) <= d
    ensures Total(f) <= Total(p)
  {
    var share := EqualShare(p, d);
    var f := ChargeFlows(p, share, noise);
    FlowsBelowPossible(f, p);
    FlowsBelowShares(f, p, share);
    f
  }

  datatype Charging = Charging(flows: seq<real>, used: real)

  /** Phase 1: the battery's share of solar split equally among the banks that can take it. */
  function Charge(stored: seq<real>, toBattery: real, noise: seq<real>): (c: Charging)
    requires |noise| == |stored|
    ensures |c.flows| == |stored|
    ensures c.used == Total(c.flows)
    ensures 0.0 <= c.used <= RealMax(0.0, toBattery)
    ensures c.used <= Total(Possible(stored))
    ensures forall i :: 0 <= i < |c.flows| ==> 0.0 <= c.flows[i] <= PossibleCharge(stored[i])
    ensures toBattery <= 0.0 ==> forall i :: 0 <= i < |c.flows| ==> c.flows[i] == 0.0
  {
    var p := Possible(stored);
    var d := RealMin(toBattery, Total(p));
    var k := Chargeable(p);
    if d > 0.0 && k > 0 then
      var f := SharedFlows(p, d, noise);
      Charging(f, Total(f))
    else
      var f := seq(|stored|, i => 0.0);
      FlowsBelowPossible(f, p);
      TotalOfZeros(f);
      Charging(f, Total(f))
  }

  // ---------------------------------------------------------------------------
  // Discharging
  // ---------------------------------------------------------------------------

  /** The noisy draw from one bank, capped by the remaining deficit. */
  function DrawFrom(remaining: real, factor: real, stored: real, noise: real): (m: real)
    requires remaining > 0.0
    ensures 0.0 <= m <= remaining
  {
    var amount := RealMin(RealMin(remaining, MaxRate * factor), stored * 0.95);
    RealMin(RealMax(0.0, amount + noise), remaining)
  }

  /**
   * Phase 2, bank by bank: a bank with energy draws while a deficit remains;
   * the draw is applied only to a bank that did not charge, but it reduces
   * the deficit either way.
   */
  function Drain(stored: seq<real>, charged: seq<real>, remaining: real, factor: real, noise: seq<real>): (m: seq<real>)
    requires |charged| == |stored| && |noise| == |stored|
    ensures |m| == |stored|
    ensures forall i :: 0 <= i < |m| ==> m[i] >= 0.0
    ensures forall i :: 0 <= i < |m| && m[i] > 0.0 ==> charged[i] == 0.0 && stored[i] > 0.0
    ensures Total(m) <= RealMax(0.0, remaining)
    decreases |stored|
  {
    if stored == [] then []
    else
      var taken := if remaining > 0.0 && stored[0] > 0.0 then DrawFrom(remaining, factor, stored[0], noise[0]) else 0.0;
      var applied := if charged[0] == 0.0 then taken else 0.0;
      var rest := Drain(stored[1..], charged[1..], remaining - taken, factor, noise[1..]);
      var m := [applied] + rest;
      assert m[1..] == rest;
      assert forall i :: 1 <= i < |m| ==> m[i] == rest[i - 1] && stored[i] == stored[1..][i - 1] && charged[i] == charged[1..][i - 1];
      m
  }

  // ---------------------------------------------------------------------------
  // The hour
  // ---------------------------------------------------------------------------

  datatype Hour = Hour(
    direct: real,
    toBattery: real,
    flows: seq<real>,
    stored: seq<real>,
    usedToCharge: real,
    totalEnergy: real)

  /** `true` when the banks discharge this hour: demand left over and no direct solar. */
  predicate Discharges(base: real, direct: real)
  {
    base - direct > 0.0 && direct == 0.0
  }

  /** The flow (positive charge, negative discharge) and the stored-energy change of each bank. */
  function Net(c: seq<real>, m: seq<real>): (r: (seq<real>, seq<real>))
    requires |c| == |m|
    ensures |r.0| == |c| && |r.1| == |c|
    ensures forall i :: 0 <= i < |c| ==> r.0[i] == c[i] - m[i]
    ensures forall i :: 0 <= i < |c| ==> r.1[i] == c[i] * 0.95 - m[i] / 0.95
  {
    (seq(|c|, i requires 0 <= i < |c| => c[i] - m[i]),
     seq(|c|, i requires 0 <= i < |c| => c[i] * 0.95 - m[i] / 0.95))
  }

  /** Phase 2 as a whole: the banks drain only when they discharge this hour. */
  function Discharge(stored: seq<real>, charged: seq<real>, base: real, direct: real,
                     factor: real, noise: seq<real>): (m: seq<real>)
    requires |charged| == |stored| && |noise| == |stored|
    ensures |m| == |stored|
    ensures forall i :: 0 <= i < |m| ==> m[i] >= 0.0
    ensures forall i :: 0 <= i < |m| && m[i] > 0.0 ==> Discharges(base, direct) && charged[i] == 0.0 && stored[i] > 0.0
    ensures Discharges(base, direct) ==> Total(m) <= base - direct
  {
    if Discharges(base, direct) then Drain(stored, charged, base - direct, factor, noise)
    else seq(|stored|, i => 0.0)
  }

  /** The final clip of every bank into `[0, capacity]`. */
  function Settle(stored: seq<real>, changes: seq<real>): (after: seq<real>)
    requires |changes| == |stored|
    ensures |after| == |stored|
    ensures forall i :: 0 <= i < |after| ==> 0.0 <= after[i] <= Capacity
    ensures forall i :: 0 <= i < |after| && 0.0 <= stored[i] + changes[i] <= Capacity ==> after[i] == stored[i] + changes[i]
  {
    seq(|stored|, i requires 0 <= i < |stored| => Clip(stored[i] + changes[i], 0.0, Capacity))
  }

  /** The battery part of one generated hour. */
  function Step(stored: seq<real>, generation: real, base: real,
                chargeNoise: seq<real>, factor: real, drawNoise: seq<real>): (h: Hour)
    requires |chargeNoise| == |stored| && |drawNoise| == |stored|
    ensures h.direct + h.toBattery == RealMax(0.0, generation)
    ensures |h.flows| == |stored| && |h.stored| == |stored|
    ensures forall i :: 0 <= i < |h.stored| ==> 0.0 <= h.stored[i] <= Capacity
    ensures 0.0 <= h.usedToCharge <= h.toBattery
    ensures h.usedToCharge <= Total(Possible(stored))
    ensures h.totalEnergy == base + h.usedToCharge
    ensures forall i :: 0 <= i < |h.flows| && h.flows[i] > 0.0 ==> stored[i] < Capacity
    ensures forall i :: 0 <= i < |h.flows| && h.flows[i] < 0.0 ==>
              Discharges(base, h.direct) && stored[i] > 0.0 && h.usedToCharge == 0.0
  {
    var split := SolarSplit(generation);
    var c := Charge(stored, split.1, chargeNoise);
    var m := Discharge(stored, c.flows, base, split.0, factor, drawNoise);
    var net := Net(c.flows, m);
    Hour(split.0, split.1, net.0, Settle(stored, net.1), c.used, base + c.used)
  }

  /** When the banks discharge, nothing charged, so the "not already charging" guard always passes. */
  lemma DischargeExcludesCharge(stored: seq<real>, generation: real, base: real, chargeNoise: seq<real>)
    requires |chargeNoise| == |stored|
    requires Discharges(base, SolarSplit(generation).0)
    ensures forall i :: 0 <= i < |stored| ==> Charge(stored, SolarSplit(generation).1, chargeNoise).flows[i] == 0.0
  {
  }

  /** The banks together never deliver more than the demand left after direct solar. */
  lemma DrawNeverExceedsDemand(stored: seq<real>, generation: real, base: real,
                               chargeNoise: seq<real>, factor: real, drawNoise: seq<real>)
    requires |chargeNoise| == |stored| && |drawNoise| == |stored|
    requires Discharges(base, SolarSplit(generation).0)
    ensures -Total(Step(stored, generation, base, chargeNoise, factor, drawNoise).flows) <= base
  {
    var split := SolarSplit(generation);
    var c := Charge(stored, split.1, chargeNoise);
    var m := Discharge(stored, c.flows, base, split.0, factor, drawNoise);
    var h := Step(stored, generation, base, chargeNoise, factor, drawNoise);
    assert forall i :: 0 <= i < |stored| ==> h.flows[i] == -m[i];
    NegatedTotal(h.flows, m);
  }

  lemma {:induction false} NegatedTotal(a: seq<real>, b: seq<real>)
    requires |a| == |b|
    requires forall i :: 0 <= i < |a| ==> a[i] == -b[i]
    ensures Total(a) == -Total(b)
    decreases |a|
  {
    if a != [] {
      assert forall i :: 1 <= i < |a| ==> a[1..][i - 1] == a[i] && b[1..][i - 1] == b[i];
      NegatedTotal(a[1..], b[1..]);
    }
  }

  /** A charge alone never overfills a bank: only a discharge can need the final clip. */
  lemma ChargeNeverOverfills(stored: seq<real>, toBattery: real, noise: seq<real>, i: nat)
    requires |noise| == |stored| && i < |stored|
    requires 0.0 <= stored[i] <= Capacity
    ensures stored[i] + Charge(stored, toBattery, noise).flows[i] * 0.95 <= Capacity
  {
    var f := Charge(stored, toBattery, noise).flows[i];
    if stored[i] < Capacity {
      assert f * 0.95 <= PossibleCharge(stored[i]) * 0.95;
    } else {
      assert PossibleCharge(stored[i]) == 0.0;
    }
  }
}
