/**
 * The rule-based recommendation engine `generate_recommendations`: a
 * decision procedure over the period (hourly, daily, weekly), the
 * optimisation goal and a set of fixed thresholds, applied to the current
 * key figures and an hourly forecast.
 *
 * Energies, prices and profits are reals; timestamps are seconds on a
 * common UTC clock. Each recommendation is identified by the rule that produced
 * it; its `type` text is `Kind(rule)`. The free-text `action` and
 * `financial_impact` strings are not modelled.
 */
module Engine {

  import opened Seqs

  // ---------------------------------------------------------------------------
  // Inputs
  // ---------------------------------------------------------------------------

  /** A forecast row; `time` is None when the timestamp is missing or empty. */
  datatype Forecast = Forecast(time: Option<int>, solar: real, price: real, total: real)

  /** A forecast row with a usable timestamp. */
  datatype Point = Point(time: int, solar: real, price: real, total: real)

  /** The current figures the rules read; a missing one reads as 0. */
  datatype CurrentStatus = CurrentStatus(
    time: Option<int>,
    consumption: Option<real>,
    battery1: Option<real>,
    battery2: Option<real>,
    price: Option<real>,
    hvac: Option<real>,
    lighting: Option<real>)

  datatype Kpis = Kpis(consumption: real, b1: real, b2: real, price: real, hvac: real, lighting: real)

  function OrZero(x: Option<real>): real { if x.Some? then x.value else 0.0 }

  function KpisOf(st: CurrentStatus): (k: Kpis)
    ensures st.consumption.Some? ==> k.consumption == st.consumption.value
    ensures st.consumption.None? ==> k.consumption == 0.0
    ensures st.battery1.Some? ==> k.b1 == st.battery1.value
    ensures st.battery1.None? ==> k.b1 == 0.0
    ensures st.battery2.Some? ==> k.b2 == st.battery2.value
    ensures st.battery2.None? ==> k.b2 == 0.0
    ensures st.price.Some? ==> k.price == st.price.value
    ensures st.price.None? ==> k.price == 0.0
    ensures st.hvac.Some? ==> k.hvac == st.hvac.value
    ensures st.hvac.None? ==> k.hvac == 0.0
    ensures st.lighting.Some? ==> k.lighting == st.lighting.value
    ensures st.lighting.None? ==> k.lighting == 0.0
  {
    Kpis(OrZero(st.consumption), OrZero(st.battery1), OrZero(st.battery2), OrZero(st.price),
         OrZero(st.hvac), OrZero(st.lighting))
  }

  /** The reference time: the status timestamp if usable, else the clock reading. */
  function Now(st: CurrentStatus, clock: int): int
  {
    if st.time.Some? then st.time.value else clock
  }

  // ---------------------------------------------------------------------------
  // Constants
  // ---------------------------------------------------------------------------

  /** One hour on the clock, in seconds. */
  const Hour: int := 3600

  const Capacity: real := 500.0
  const ChargeLow: real := 0.20 * Capacity
  const ChargeHigh: real := 0.80 * Capacity
  const PriceHigh: real := 0.25
  const PriceLow: real := 0.10
  const SolarHigh: real := 50.0
  const ConsumptionHigh: real := 200.0
  const HvacPerDegree: real := 10.0
  const LightingLoad: real := 20.0

  // ---------------------------------------------------------------------------
  // Output
  // ---------------------------------------------------------------------------

  /** Every rule of the engine that can emit a recommendation. */
  datatype Rule =
    | NoValidForecast
    | SolarCharge | PeakDischarge | PeakHvac | PeakLighting | GridCharge | CheapHvac | LoadShift
    | HighConsumption
    | SolarCarbon | SolarHvacCarbon | SolarLightingCarbon | DefaultCarbon
    | LowBattery | HighBattery | OptimalBattery
    | DailyShort | DailyEmpty | DailySolar | DailyHighPrice | DailyLowPrice | DailyHighConsumption
    | DailySolarCarbon | DailyDefaultCarbon | DailyLongevity
    | WeeklyShort | WeeklyEmpty | WeeklySolar | WeeklyHighPrice | WeeklyHighConsumption
    | WeeklySolarCarbon | WeeklyDefaultCarbon | WeeklyLongevity
    | UnsupportedPeriod
    | NothingToRecommend

  datatype Rec = Rec(rule: Rule, profit: real)

  /** The `type` text of a rule's recommendation, exactly as emitted. */
  function Kind(rule: Rule): string
  {
    match rule
    case NoValidForecast => "Info"
    case DailyEmpty => "Info"
    case WeeklyEmpty => "Info"
    case NothingToRecommend => "Info"
    case UnsupportedPeriod => "Error"
    case DailyShort => "Warning"
    case WeeklyShort => "warning"
    case SolarCharge => "Battery Management"
    case PeakDischarge => "Battery Management"
    case GridCharge => "Battery Management"
    case LowBattery => "Battery Management"
    case HighBattery => "Battery Management"
    case OptimalBattery => "Battery Management"
    case PeakHvac => "Device Control"
    case PeakLighting => "Device Control"
    case CheapHvac => "Device Control"
    case SolarHvacCarbon => "Device Control"
    case SolarLightingCarbon => "Device Control"
    case LoadShift => "Load Shifting"
    case HighConsumption => "Operational Efficiency"
    case SolarCarbon => "Carbon  Reduction"
    case DefaultCarbon => "Carbon  Reduction"
    case DailySolarCarbon => "Carbon  Reduction"
    case DailyDefaultCarbon => "Carbon  Reduction"
    case WeeklySolarCarbon => "Carbon  Reduction"
    case WeeklyDefaultCarbon => "Carbon  Reduction"
    case _ => "Strategic Planning"
  }

  /** The rules whose recommendation always carries a profit of 0. */
  predicate ZeroProfit(rule: Rule)
  {
    !(rule in {SolarCharge, PeakDischarge, PeakHvac, PeakLighting, GridCharge, CheapHvac, HighConsumption,
               DailySolar, DailyHighPrice, DailyLowPrice, DailyHighConsumption,
               WeeklySolar, WeeklyHighPrice, WeeklyHighConsumption})
  }

  /** Which rules belong to which period and goal: an independent table of the branch structure. */
  predicate RuleFits(rule: Rule, period: string, goal: string)
  {
    match rule
    case NoValidForecast => true
    case NothingToRecommend => true
    case UnsupportedPeriod => period !in {"hourly", "daily", "weekly"}
    case SolarCharge => period == "hourly" && goal == "cost_reduction"
    case PeakDischarge => period == "hourly" && goal == "cost_reduction"
    case PeakHvac => period == "hourly" && goal == "cost_reduction"
    case PeakLighting => period == "hourly" && goal == "cost_reduction"
    case GridCharge => period == "hourly" && goal == "cost_reduction"
    case CheapHvac => period == "hourly" && goal == "cost_reduction"
    case LoadShift => period == "hourly" && goal == "cost_reduction"
    case HighConsumption => period == "hourly" && goal == "cost_reduction"
    case SolarCarbon => period == "hourly" && goal == "carbon_footprint"
    case SolarHvacCarbon => period == "hourly" && goal == "carbon_footprint"
    case SolarLightingCarbon => period == "hourly" && goal == "carbon_footprint"
    case DefaultCarbon => period == "hourly" && goal == "carbon_footprint"
    case LowBattery => period == "hourly" && goal == "battery_longevity"
    case HighBattery => period == "hourly" && goal == "battery_longevity"
    case OptimalBattery => period == "hourly" && goal == "battery_longevity"
    case DailyShort => period == "daily"
    case DailyEmpty => period == "daily"
    case DailySolar => period == "daily" && goal == "cost_reduction"
    case DailyHighPrice => period == "daily" && goal == "cost_reduction"
    case DailyLowPrice => period == "daily" && goal == "cost_reduction"
    case DailyHighConsumption => period == "daily" && goal == "cost_reduction"
    case DailySolarCarbon => period == "daily" && goal == "carbon_footprint"
    case DailyDefaultCarbon => period == "daily" && goal == "carbon_footprint"
    case DailyLongevity => period == "daily" && goal == "battery_longevity"
    case WeeklyShort => period == "weekly"
    case WeeklyEmpty => period == "weekly"
    case WeeklySolar => period == "weekly" && goal == "cost_reduction"
    case WeeklyHighPrice => period == "weekly" && goal == "cost_reduction"
    case WeeklyHighConsumption => period == "weekly" && goal == "cost_reduction"
    case WeeklySolarCarbon => period == "weekly" && goal == "carbon_footprint"
    case WeeklyDefaultCarbon => period == "weekly" && goal == "carbon_footprint"
    case WeeklyLongevity => period == "weekly" && goal == "battery_longevity"
  }

  /** Every recommendation belongs to the branch taken and zero-profit rules carry 0. */
  predicate WellFormed(recs: seq<Rec>, period: string, goal: string)
  {
    forall i :: 0 <= i < |recs| ==> RuleFits(recs[i].rule, period, goal) && (ZeroProfit(recs[i].rule) ==> recs[i].profit == 0.0)
  }

  lemma WellFormedAppend(a: seq<Rec>, b: seq<Rec>, period: string, goal: string)
    requires WellFormed(a, period, goal) && WellFormed(b, period, goal)
    ensures WellFormed(a + b, period, goal)
  {
    forall i | 0 <= i < |a + b|
      ensures RuleFits((a + b)[i].rule, period, goal) && (ZeroProfit((a + b)[i].rule) ==> (a + b)[i].profit == 0.0)
    {
      if i < |a| {
        assert (a + b)[i] == a[i];
      } else {
        assert (a + b)[i] == b[i - |a|];
      }
    }
  }

  /** Every member of a well-formed list belongs to the branch taken. */
  lemma MembersFit(recs: seq<Rec>, period: string, goal: string)
    requires WellFormed(recs, period, goal)
    ensures forall x :: x in recs ==> RuleFits(x.rule, period, goal)
  {
    forall x | x in recs ensures RuleFits(x.rule, period, goal) {
      var i :| 0 <= i < |recs| && recs[i] == x;
    }
  }

  /** Four well-formed lists joined: still well-formed, holding exactly their members. */
  lemma JoinFour(a: seq<Rec>, b: seq<Rec>, c: seq<Rec>, d: seq<Rec>, period: string, goal: string)
    requires WellFormed(a, period, goal) && WellFormed(b, period, goal)
    requires WellFormed(c, period, goal) && WellFormed(d, period, goal)
    ensures WellFormed(a + b + c + d, period, goal)
    ensures forall x :: x in a + b + c + d <==> x in a || x in b || x in c || x in d
  {
    WellFormedAppend(a, b, period, goal);
    WellFormedAppend(a + b, c, period, goal);
    WellFormedAppend(a + b + c, d, period, goal);
  }

  /** A well-formed list for a supported period never carries the unsupported-period error. */
  lemma SupportedPeriodNeverErrs(recs: seq<Rec>, period: string, goal: string)
    requires WellFormed(recs, period, goal)
    requires period == "hourly" || period == "daily" || period == "weekly"
    ensures forall x :: x in recs ==> x.rule != UnsupportedPeriod
  {
    forall x | x in recs ensures x.rule != UnsupportedPeriod {
      var i :| 0 <= i < |recs| && recs[i] == x;
      assert RuleFits(recs[i].rule, period, goal);
    }
  }

  function Opt(c: bool, x: Rec): (r: seq<Rec>)
    ensures c ==> r == [x]
    ensures !c ==> r == []
  {
    if c then [x] else []
  }

  // ---------------------------------------------------------------------------
  // Forecast preparation
  // ---------------------------------------------------------------------------

  predicate HasTime(f: Forecast) { f.time.Some? }

  /** A row read as a point; only ever applied to rows with a timestamp. */
  function PointOf(f: Forecast): Point
  {
    Point(if f.time.Some? then f.time.value else 0, f.solar, f.price, f.total)
  }

  /** The rows with a timestamp, in order. */
  function Valid(forecast: seq<Forecast>): (r: seq<Point>)
    ensures r == Map(Filter(forecast, HasTime), PointOf)
    ensures |r| <= |forecast|
    ensures r == [] <==> forall i :: 0 <= i < |forecast| ==> forecast[i].time.None?
    decreases |forecast|
  {
    if forecast == [] then []
    else
      var init := forecast[..|forecast| - 1];
      var f := forecast[|forecast| - 1];
      var v := Valid(init);
      assert forall i :: 0 <= i < |init| ==> init[i] == forecast[i];
      assert forecast == init + [f];
      FilterSnoc(init, f, HasTime);
      MapSnoc(Filter(init, HasTime), f, PointOf);
      if f.time.Some? then v + [Point(f.time.value, f.solar, f.price, f.total)] else v
  }

  /** Every valid point is some row with its timestamp and figures, and every row with a timestamp is a valid point. */
  lemma ValidMembers(forecast: seq<Forecast>, r: seq<Point>)
    requires r == Valid(forecast)
    ensures forall k :: 0 <= k < |r| ==>
              exists i :: 0 <= i < |forecast| && forecast[i] == Forecast(Some(r[k].time), r[k].solar, r[k].price, r[k].total)
    ensures forall f :: f in forecast && f.time.Some? ==> Point(f.time.value, f.solar, f.price, f.total) in r
  {
    var kept := Filter(forecast, HasTime);
    FilterMembers(forecast, HasTime);
    forall k | 0 <= k < |r|
      ensures exists i :: 0 <= i < |forecast| && forecast[i] == Forecast(Some(r[k].time), r[k].solar, r[k].price, r[k].total)
    {
      RowOfPoint(forecast, kept, r, k);
    }
    forall f | f in forecast && f.time.Some? ensures Point(f.time.value, f.solar, f.price, f.total) in r {
      PointOfRow(f, kept, r);
    }
  }

  lemma RowOfPoint(forecast: seq<Forecast>, kept: seq<Forecast>, r: seq<Point>, k: nat)
    requires forall f :: f in kept ==> f in forecast && HasTime(f)
    requires r == Map(kept, PointOf) && k < |r|
    ensures exists i :: 0 <= i < |forecast| && forecast[i] == Forecast(Some(r[k].time), r[k].solar, r[k].price, r[k].total)
  {
    assert kept[k] in kept;
    var i :| 0 <= i < |forecast| && forecast[i] == kept[k];
    assert r[k] == PointOf(forecast[i]);
  }

  lemma PointOfRow(f: Forecast, kept: seq<Forecast>, r: seq<Point>)
    requires f in kept && HasTime(f)
    requires r == Map(kept, PointOf)
    ensures PointOf(f) in r
  {
    var k :| 0 <= k < |kept| && kept[k] == f;
    assert r[k] == PointOf(kept[k]);
  }

  predicate InWindow(lo: int, hi: int, p: Point) { lo <= p.time < hi }

  predicate After(now: int, p: Point) { p.time > now }

  /** The hourly horizon: the rows strictly after the reference time. */
  function Future(points: seq<Point>, now: int): (r: seq<Point>)
    ensures IsSubsequence(r, points)
    ensures forall p :: p in r <==> p in points && p.time > now
  {
    FilterIsSubsequence(points, p => After(now, p));
    FilterCounts(points, p => After(now, p));
    Filter(points, p => After(now, p))
  }

  /** The rows with `lo <= time < hi`. */
  function Window(points: seq<Point>, lo: int, hi: int): (r: seq<Point>)
    ensures IsSubsequence(r, points)
    ensures forall p :: p in r <==> p in points && lo <= p.time < hi
  {
    FilterIsSubsequence(points, p => InWindow(lo, hi, p));
    FilterCounts(points, p => InWindow(lo, hi, p));
    Filter(points, p => InWindow(lo, hi, p))
  }

  function SolarOf(p: Point): real { p.solar }
  function PriceOf(p: Point): real { p.price }
  function TotalOf(p: Point): real { p.total }

  /** Python's `max(s, key=f)`: the FIRST element with the largest key. */
  function ArgMax(s: seq<Point>, f: Point -> real): (r: nat)
    requires s != []
    ensures r < |s|
    ensures forall j :: 0 <= j < |s| ==> f(s[j]) <= f(s[r])
    ensures forall j :: 0 <= j < r ==> f(s[j]) < f(s[r])
    decreases |s|
  {
    if |s| == 1 then 0
    else
      var i := ArgMax(s[..|s| - 1], f);
      if f(s[|s| - 1]) > f(s[i]) then |s| - 1 else i
  }

  /** Python's `min(s, key=f)`: the FIRST element with the smallest key. */
  function ArgMin(s: seq<Point>, f: Point -> real): (r: nat)
    requires s != []
    ensures r < |s|
    ensures forall j :: 0 <= j < |s| ==> f(s[r]) <= f(s[j])
    ensures forall j :: 0 <= j < r ==> f(s[r]) < f(s[j])
    decreases |s|
  {
    if |s| == 1 then 0
    else
      var i := ArgMin(s[..|s| - 1], f);
      if f(s[|s| - 1]) < f(s[i]) then |s| - 1 else i
  }

  // ---------------------------------------------------------------------------
  // Hourly rules
  // ---------------------------------------------------------------------------

  /** Room left in both banks: the sum of `max(0, capacity - stored)`. */
  function ChargePotential(k: Kpis): (r: real)
    ensures r >= 0.0
    ensures r == 0.0 <==> k.b1 >= Capacity && k.b2 >= Capacity
  {
    RealMax(0.0, Capacity - k.b1) + RealMax(0.0, Capacity - k.b2)
  }

  /** Energy above the low threshold in both banks: the sum of `max(0, stored - low)`. */
  function DischargePotential(k: Kpis): (r: real)
    ensures r >= 0.0
    ensures r > 0.0 <==> k.b1 > ChargeLow || k.b2 > ChargeLow
  {
    RealMax(0.0, k.b1 - ChargeLow) + RealMax(0.0, k.b2 - ChargeLow)
  }

  lemma ProductNonNegative(a: real, b: real)
    ensures a >= 0.0 && b >= 0.0 ==> a * b >= 0.0
  {
    if a >= 0.0 && b >= 0.0 {
      assert a * b >= 0.0 * b;
    }
  }

  /** The rules that produced the recommendations in `r`. */
  function RulesOf(r: seq<Rec>): (rules: set<Rule>)
    ensures forall x :: x in r ==> x.rule in rules
    decreases |r|
  {
    if r == [] then {} else RulesOf(r[..|r| - 1]) + {r[|r| - 1].rule}
  }

  /** A rule fires in a joined list exactly when it fires in one of the parts. */
  lemma {:induction false} RulesOfAppend(a: seq<Rec>, b: seq<Rec>)
    ensures RulesOf(a + b) == RulesOf(a) + RulesOf(b)
    decreases |b|
  {
    if b != [] {
      RulesOfAppend(a, b[..|b| - 1]);
      assert (a + b)[..|a + b| - 1] == a + b[..|b| - 1];
    } else {
      assert a + b == a;
    }
  }

  lemma RulesOfOpt(c: bool, x: Rec)
    ensures RulesOf(Opt(c, x)) == if c then {x.rule} else {}
  {
    if c {
      assert Opt(c, x)[..0] == [];
    }
  }

  /** The sunniest future hour; the first of them on a tie, as Python's `max` picks. */
  function MaxSolar(relevant: seq<Point>): (p: Point)
    requires relevant != []
    ensures p in relevant
    ensures forall q :: q in relevant ==> q.solar <= p.solar
  {
    relevant[ArgMax(relevant, SolarOf)]
  }

  /** The dearest future hour; the first of them on a tie. */
  function MaxPrice(relevant: seq<Point>): (p: Point)
    requires relevant != []
    ensures p in relevant
    ensures forall q :: q in relevant ==> q.price <= p.price
  {
    relevant[ArgMax(relevant, PriceOf)]
  }

  /** The cheapest future hour; the first of them on a tie, as Python's `min` picks. */
  function MinPrice(relevant: seq<Point>): (p: Point)
    requires relevant != []
    ensures p in relevant
    ensures forall q :: q in relevant ==> p.price <= q.price
  {
    relevant[ArgMin(relevant, PriceOf)]
  }

  /** Scenario 1 applies: strong sun ahead and a bank below the high threshold. */
  predicate SolarChargeFires(k: Kpis, now: int, relevant: seq<Point>)
  {
    relevant != [] && MaxSolar(relevant).solar > SolarHigh && (k.b1 < ChargeHigh || k.b2 < ChargeHigh)
    && MaxSolar(relevant).time > now
  }

  /** Scenario 2 applies: a price peak ahead and a bank above the low threshold. */
  predicate PeakFires(k: Kpis, now: int, relevant: seq<Point>)
  {
    relevant != [] && MaxPrice(relevant).price > PriceHigh && (k.b1 > ChargeLow || k.b2 > ChargeLow)
    && MaxPrice(relevant).time > now
  }

  /** Scenario 3 applies: a cheap hour more than an hour ahead and a bank that is not full. */
  predicate CheapFires(k: Kpis, now: int, relevant: seq<Point>)
  {
    relevant != [] && MinPrice(relevant).price < PriceLow && (k.b1 < Capacity || k.b2 < Capacity)
    && MinPrice(relevant).time > now + Hour
  }

  /** The carbon rules' condition: strong sun at some future hour. */
  predicate SolarAhead(now: int, relevant: seq<Point>)
  {
    relevant != [] && MaxSolar(relevant).solar > SolarHigh && MaxSolar(relevant).time > now
  }

  /** HVAC draws more than a tenth of the consumption. */
  predicate HvacHeavy(k: Kpis) { k.hvac > 0.1 * k.consumption }

  /** Lighting draws more than a tenth of the consumption. */
  predicate LightingHeavy(k: Kpis) { k.lighting > 0.1 * k.consumption }

  /** Scenario 1: plenty of solar ahead and a bank below the high threshold. */
  function SolarChargeRecs(k: Kpis, now: int, relevant: seq<Point>): (r: seq<Rec>)
    ensures |r| <= 1
    ensures WellFormed(r, "hourly", "cost_reduction")
    ensures r != [] <==> SolarChargeFires(k, now, relevant)
    ensures r != [] ==> r[0] == Rec(SolarCharge, RealMin(ChargePotential(k), MaxSolar(relevant).solar) * k.price)
    ensures r != [] && k.price >= 0.0 ==> r[0].profit >= 0.0
    ensures RulesOf(r) <= {SolarCharge}
  {
    if relevant == [] then []
    else
      var ms := MaxSolar(relevant);
      var amount := RealMin(ChargePotential(k), ms.solar);
      assert amount >= 0.0 || ms.solar <= SolarHigh;
      RulesOfOpt(SolarChargeFires(k, now, relevant), Rec(SolarCharge, amount * k.price));
      Opt(SolarChargeFires(k, now, relevant), Rec(SolarCharge, amount * k.price))
  }

  /** Scenario 2: a price peak ahead and stored energy to spare, with the HVAC and lighting follow-ups. */
  function PeakRecs(k: Kpis, now: int, relevant: seq<Point>): (r: seq<Rec>)
    ensures WellFormed(r, "hourly", "cost_reduction")
    ensures r != [] <==> PeakFires(k, now, relevant)
    ensures r != [] ==> r[0] == Rec(PeakDischarge, DischargePotential(k) * MaxPrice(relevant).price)
                        && r[0].profit > 0.0
    ensures PeakHvac in RulesOf(r) <==> PeakFires(k, now, relevant) && HvacHeavy(k) && k.price > PriceHigh
    ensures PeakLighting in RulesOf(r) <==> PeakFires(k, now, relevant) && LightingHeavy(k) && k.price > PriceHigh
    ensures RulesOf(r) <= {PeakDischarge, PeakHvac, PeakLighting}
    ensures |r| <= 3
  {
    if PeakFires(k, now, relevant) then
      var mp := MaxPrice(relevant);
      var potential := DischargePotential(k);
      assert potential * mp.price > 0.0;
      var hvac := Opt(HvacHeavy(k) && k.price > PriceHigh, Rec(PeakHvac, HvacPerDegree * 2.0 * mp.price));
      var lighting := Opt(LightingHeavy(k) && k.price > PriceHigh, Rec(PeakLighting, LightingLoad * mp.price));
      RulesOfOpt(true, Rec(PeakDischarge, potential * mp.price));
      RulesOfOpt(HvacHeavy(k) && k.price > PriceHigh, Rec(PeakHvac, HvacPerDegree * 2.0 * mp.price));
      RulesOfOpt(LightingHeavy(k) && k.price > PriceHigh, Rec(PeakLighting, LightingLoad * mp.price));
      RulesOfAppend([Rec(PeakDischarge, potential * mp.price)], hvac);
      RulesOfAppend([Rec(PeakDischarge, potential * mp.price)] + hvac, lighting);
      [Rec(PeakDischarge, potential * mp.price)] + hvac + lighting
    else []
  }

  /** Scenario 3: a cheap hour more than an hour ahead and room in a bank: charge from the grid, shift loads. */
  function CheapRecs(k: Kpis, now: int, relevant: seq<Point>): (r: seq<Rec>)
    ensures WellFormed(r, "hourly", "cost_reduction")
    ensures r != [] <==> CheapFires(k, now, relevant)
    ensures r != [] ==> r[0] == Rec(GridCharge, -(ChargePotential(k) * MinPrice(relevant).price))
                        && r[|r| - 1] == Rec(LoadShift, 0.0)
    ensures CheapHvac in RulesOf(r) <==> CheapFires(k, now, relevant) && HvacHeavy(k) && k.price > MinPrice(relevant).price
    ensures LoadShift in RulesOf(r) <==> CheapFires(k, now, relevant)
    ensures relevant != [] && MinPrice(relevant).price >= 0.0 ==>
              forall x :: x in r && x.rule == GridCharge ==> x.profit <= 0.0
    ensures RulesOf(r) <= {GridCharge, CheapHvac, LoadShift}
    ensures |r| <= 3
  {
    if CheapFires(k, now, relevant) then
      var lp := MinPrice(relevant);
      var potential := ChargePotential(k);
      ProductNonNegative(potential, lp.price);
      var hvac := Opt(HvacHeavy(k) && k.price > lp.price, Rec(CheapHvac, HvacPerDegree * 2.0 * (k.price - lp.price)));
      RulesOfOpt(true, Rec(GridCharge, -(potential * lp.price)));
      RulesOfOpt(HvacHeavy(k) && k.price > lp.price, Rec(CheapHvac, HvacPerDegree * 2.0 * (k.price - lp.price)));
      RulesOfOpt(true, Rec(LoadShift, 0.0));
      RulesOfAppend([Rec(GridCharge, -(potential * lp.price))], hvac);
      RulesOfAppend([Rec(GridCharge, -(potential * lp.price))] + hvac, [Rec(LoadShift, 0.0)]);
      [Rec(GridCharge, -(potential * lp.price))] + hvac + [Rec(LoadShift, 0.0)]
    else []
  }

  /** The hourly cost rules: scenarios 1 to 3, then the high-consumption rule, in that order. */
  function HourlyCost(k: Kpis, now: int, relevant: seq<Point>): (r: seq<Rec>)
    ensures WellFormed(r, "hourly", "cost_reduction")
    ensures SolarCharge in RulesOf(r) <==> SolarChargeFires(k, now, relevant)
    ensures PeakDischarge in RulesOf(r) <==> PeakFires(k, now, relevant)
    ensures PeakHvac in RulesOf(r) <==> PeakFires(k, now, relevant) && HvacHeavy(k) && k.price > PriceHigh
    ensures PeakLighting in RulesOf(r) <==> PeakFires(k, now, relevant) && LightingHeavy(k) && k.price > PriceHigh
    ensures GridCharge in RulesOf(r) <==> CheapFires(k, now, relevant)
    ensures CheapHvac in RulesOf(r) <==> CheapFires(k, now, relevant) && HvacHeavy(k) && k.price > MinPrice(relevant).price
    ensures LoadShift in RulesOf(r) <==> CheapFires(k, now, relevant)
    ensures HighConsumption in RulesOf(r) <==> k.consumption > ConsumptionHigh
    ensures (forall p :: p in relevant ==> p.price >= 0.0) ==>
              forall x :: x in r && x.rule == GridCharge ==> x.profit <= 0.0
    ensures r == SolarChargeRecs(k, now, relevant) + PeakRecs(k, now, relevant) + CheapRecs(k, now, relevant)
                 + Opt(k.consumption > ConsumptionHigh, Rec(HighConsumption, k.consumption * k.price * 0.1))
  {
    var a := SolarChargeRecs(k, now, relevant);
    var b := PeakRecs(k, now, relevant);
    var c := CheapRecs(k, now, relevant);
    var d := Opt(k.consumption > ConsumptionHigh, Rec(HighConsumption, k.consumption * k.price * 0.1));
    JoinFour(a, b, c, d, "hourly", "cost_reduction");
    RulesOfOpt(k.consumption > ConsumptionHigh, Rec(HighConsumption, k.consumption * k.price * 0.1));
    OnlyCheapChargesFromGrid(a, b, c, d);
    assert relevant != [] ==> MinPrice(relevant) in relevant;
    RulesOfAppend(a, b);
    RulesOfAppend(a + b, c);
    RulesOfAppend(a + b + c, d);
    CostRules(k, now, relevant);
    a + b + c + d
  }

  /** Only the scenario-3 list can hold a grid charge, so its sign decides the sign of every grid charge. */
  lemma OnlyCheapChargesFromGrid(a: seq<Rec>, b: seq<Rec>, c: seq<Rec>, d: seq<Rec>)
    requires RulesOf(a) <= {SolarCharge}
    requires RulesOf(b) <= {PeakDischarge, PeakHvac, PeakLighting}
    requires RulesOf(d) <= {HighConsumption}
    ensures (forall x :: x in c && x.rule == GridCharge ==> x.profit <= 0.0) ==>
              forall x :: x in a + b + c + d && x.rule == GridCharge ==> x.profit <= 0.0
  {
  }

  /** Which rules the four hourly cost lists produce between them. */
  lemma CostRules(k: Kpis, now: int, relevant: seq<Point>)
    ensures var rules := RulesOf(SolarChargeRecs(k, now, relevant)) + RulesOf(PeakRecs(k, now, relevant))
                         + RulesOf(CheapRecs(k, now, relevant))
                         + RulesOf(Opt(k.consumption > ConsumptionHigh, Rec(HighConsumption, k.consumption * k.price * 0.1)));
            && (SolarCharge in rules <==> SolarChargeFires(k, now, relevant))
            && (PeakDischarge in rules <==> PeakFires(k, now, relevant))
            && (PeakHvac in rules <==> PeakFires(k, now, relevant) && HvacHeavy(k) && k.price > PriceHigh)
            && (PeakLighting in rules <==> PeakFires(k, now, relevant) && LightingHeavy(k) && k.price > PriceHigh)
            && (GridCharge in rules <==> CheapFires(k, now, relevant))
            && (CheapHvac in rules <==> CheapFires(k, now, relevant) && HvacHeavy(k) && k.price > MinPrice(relevant).price)
            && (LoadShift in rules <==> CheapFires(k, now, relevant))
            && (HighConsumption in rules <==> k.consumption > ConsumptionHigh)
  {
    var d := Opt(k.consumption > ConsumptionHigh, Rec(HighConsumption, k.consumption * k.price * 0.1));
    RulesOfOpt(k.consumption > ConsumptionHigh, Rec(HighConsumption, k.consumption * k.price * 0.1));
    UnionOfCostRules(RulesOf(SolarChargeRecs(k, now, relevant)), RulesOf(PeakRecs(k, now, relevant)),
                     RulesOf(CheapRecs(k, now, relevant)), RulesOf(d),
                     SolarChargeFires(k, now, relevant), PeakFires(k, now, relevant),
                     PeakFires(k, now, relevant) && HvacHeavy(k) && k.price > PriceHigh,
                     PeakFires(k, now, relevant) && LightingHeavy(k) && k.price > PriceHigh,
                     CheapFires(k, now, relevant),
                     CheapFires(k, now, relevant) && HvacHeavy(k) && k.price > MinPrice(relevant).price,
                     k.consumption > ConsumptionHigh);
  }

  /** The union of the four rule sets, one rule family at a time. */
  lemma UnionOfCostRules(a: set<Rule>, b: set<Rule>, c: set<Rule>, d: set<Rule>,
                         solar: bool, peak: bool, peakHvac: bool, peakLighting: bool,
                         cheap: bool, cheapHvac: bool, high: bool)
    requires a <= {SolarCharge} && (SolarCharge in a <==> solar)
    requires b <= {PeakDischarge, PeakHvac, PeakLighting}
    requires (PeakDischarge in b <==> peak) && (PeakHvac in b <==> peakHvac) && (PeakLighting in b <==> peakLighting)
    requires c <= {GridCharge, CheapHvac, LoadShift}
    requires (GridCharge in c <==> cheap) && (CheapHvac in c <==> cheapHvac) && (LoadShift in c <==> cheap)
    requires d == if high then {HighConsumption} else {}
    ensures var u := a + b + c + d;
            && (SolarCharge in u <==> solar)
            && (PeakDischarge in u <==> peak)
            && (PeakHvac in u <==> peakHvac)
            && (PeakLighting in u <==> peakLighting)
            && (GridCharge in u <==> cheap)
            && (CheapHvac in u <==> cheapHvac)
            && (LoadShift in u <==> cheap)
            && (HighConsumption in u <==> high)
  {
  }

  /** The hourly carbon rules: with strong sun ahead, solar advice and its follow-ups; otherwise the default. */
  function HourlyCarbon(k: Kpis, now: int, relevant: seq<Point>): (r: seq<Rec>)
    ensures 1 <= |r| <= 3
    ensures WellFormed(r, "hourly", "carbon_footprint")
    ensures forall i :: 0 <= i < |r| ==> r[i].profit == 0.0
    ensures SolarCarbon in RulesOf(r) <==> SolarAhead(now, relevant)
    ensures DefaultCarbon in RulesOf(r) <==> !SolarAhead(now, relevant)
    ensures !SolarAhead(now, relevant) ==> r == [Rec(DefaultCarbon, 0.0)]
    ensures SolarHvacCarbon in RulesOf(r) <==> SolarAhead(now, relevant) && HvacHeavy(k)
    ensures SolarLightingCarbon in RulesOf(r) <==> SolarAhead(now, relevant) && LightingHeavy(k)
  {
    if SolarAhead(now, relevant) then
      SolarCarbonRecs(k, MaxSolar(relevant).solar > SolarHigh)
    else
      RulesOfOpt(true, Rec(DefaultCarbon, 0.0));
      [Rec(DefaultCarbon, 0.0)]
  }

  /** The carbon advice when strong sun is ahead: solar first, then the HVAC and lighting follow-ups when `strong`. */
  function SolarCarbonRecs(k: Kpis, strong: bool): (r: seq<Rec>)
    ensures 1 <= |r| <= 3
    ensures WellFormed(r, "hourly", "carbon_footprint")
    ensures forall i :: 0 <= i < |r| ==> r[i].profit == 0.0
    ensures r[0] == Rec(SolarCarbon, 0.0)
    ensures SolarCarbon in RulesOf(r) && DefaultCarbon !in RulesOf(r)
    ensures SolarHvacCarbon in RulesOf(r) <==> strong && HvacHeavy(k)
    ensures SolarLightingCarbon in RulesOf(r) <==> strong && LightingHeavy(k)
  {
    var hvac := Opt(HvacHeavy(k) && strong, Rec(SolarHvacCarbon, 0.0));
    var lighting := Opt(LightingHeavy(k) && strong, Rec(SolarLightingCarbon, 0.0));
    CarbonJoin(hvac, lighting, HvacHeavy(k) && strong, LightingHeavy(k) && strong);
    [Rec(SolarCarbon, 0.0)] + hvac + lighting
  }

  /** The solar carbon entry followed by the optional follow-ups: each follow-up present exactly when chosen. */
  lemma CarbonJoin(hvac: seq<Rec>, lighting: seq<Rec>, withHvac: bool, withLighting: bool)
    requires hvac == Opt(withHvac, Rec(SolarHvacCarbon, 0.0))
    requires lighting == Opt(withLighting, Rec(SolarLightingCarbon, 0.0))
    ensures var r := [Rec(SolarCarbon, 0.0)] + hvac + lighting;
            && 1 <= |r| <= 3 && r[0] == Rec(SolarCarbon, 0.0)
            && WellFormed(r, "hourly", "carbon_footprint")
            && (forall i :: 0 <= i < |r| ==> r[i].profit == 0.0)
            && SolarCarbon in RulesOf(r) && DefaultCarbon !in RulesOf(r)
            && (SolarHvacCarbon in RulesOf(r) <==> withHvac)
            && (SolarLightingCarbon in RulesOf(r) <==> withLighting)
  {
    RulesOfOpt(true, Rec(SolarCarbon, 0.0));
    RulesOfOpt(withHvac, Rec(SolarHvacCarbon, 0.0));
    RulesOfOpt(withLighting, Rec(SolarLightingCarbon, 0.0));
    RulesOfAppend([Rec(SolarCarbon, 0.0)], hvac);
    RulesOfAppend([Rec(SolarCarbon, 0.0)] + hvac, lighting);
  }

  /** The longevity advice, by the average stored energy of the two banks. */
  function HourlyLongevity(k: Kpis): (r: Rec)
    ensures r.profit == 0.0 && Kind(r.rule) == "Battery Management"
    ensures r.rule == LowBattery <==> (k.b1 + k.b2) / 2.0 < ChargeLow
    ensures r.rule == HighBattery <==> ChargeHigh < (k.b1 + k.b2) / 2.0
    ensures r.rule == OptimalBattery <==> ChargeLow <= (k.b1 + k.b2) / 2.0 <= ChargeHigh
  {
    var avg := (k.b1 + k.b2) / 2.0;
    if avg < ChargeLow then Rec(LowBattery, 0.0)
    else if avg > ChargeHigh then Rec(HighBattery, 0.0)
    else Rec(OptimalBattery, 0.0)
  }

  function Hourly(k: Kpis, now: int, valid: seq<Point>, goal: string): (r: seq<Rec>)
    ensures WellFormed(r, "hourly", goal)
    ensures goal == "battery_longevity" ==> r == [HourlyLongevity(k)]
    ensures goal !in {"cost_reduction", "carbon_footprint", "battery_longevity"} ==> r == []
    ensures goal == "cost_reduction" ==> r == HourlyCost(k, now, Future(valid, now))
    ensures goal == "carbon_footprint" ==> r == HourlyCarbon(k, now, Future(valid, now))
    ensures (forall p :: p in valid ==> p.price >= 0.0) ==>
              forall i :: 0 <= i < |r| && r[i].rule == GridCharge ==> r[i].profit <= 0.0
  {
    var relevant := Future(valid, now);
    if goal == "cost_reduction" then HourlyCost(k, now, relevant)
    else if goal == "carbon_footprint" then HourlyCarbon(k, now, relevant)
    else if goal == "battery_longevity" then [HourlyLongevity(k)]
    else []
  }

  // ---------------------------------------------------------------------------
  // Daily and weekly rules
  // ---------------------------------------------------------------------------

  /** The window's solar sum, average price and consumption sum. */
  function Aggregate(w: seq<Point>): (r: (real, real, real))
    requires w != []
    ensures r.1 * |w| as real == SumOf(w, PriceOf)
  {
    (SumOf(w, SolarOf), SumOf(w, PriceOf) / |w| as real, SumOf(w, TotalOf))
  }

  /** The daily price rule: a high average saves, a low one costs a charge from the grid. */
  function DailyPrice(avg: real, cons: real): (r: seq<Rec>)
    ensures WellFormed(r, "daily", "cost_reduction")
    ensures |r| <= 1
    ensures DailyHighPrice in RulesOf(r) <==> avg > PriceHigh
    ensures DailyLowPrice in RulesOf(r) <==> avg < PriceLow
    ensures RulesOf(r) <= {DailyHighPrice, DailyLowPrice}
    ensures forall x :: x in r && x.rule == DailyLowPrice ==> avg < PriceLow && (cons >= 0.0 ==> x.profit <= 0.0)
  {
    if avg > PriceHigh then
      RulesOfOpt(true, Rec(DailyHighPrice, cons * (avg - PriceLow) * 0.1));
      [Rec(DailyHighPrice, cons * (avg - PriceLow) * 0.1)]
    else if avg < PriceLow then
      ProductNonNegative(cons, PriceLow - avg);
      RulesOfOpt(true, Rec(DailyLowPrice, -(cons * (PriceLow - avg) * 0.05)));
      [Rec(DailyLowPrice, -(cons * (PriceLow - avg) * 0.05))]
    else []
  }

  /** The daily cost rules, given the window's solar sum, average price and consumption sum. */
  function DailyCost(solar: real, avg: real, cons: real): (r: seq<Rec>)
    ensures WellFormed(r, "daily", "cost_reduction")
    ensures |r| <= 3
    ensures DailySolar in RulesOf(r) <==> solar > 200.0
    ensures DailyHighPrice in RulesOf(r) <==> avg > PriceHigh
    ensures DailyLowPrice in RulesOf(r) <==> avg < PriceLow
    ensures DailyHighConsumption in RulesOf(r) <==> cons > 3000.0
    ensures forall x :: x in r && x.rule == DailyLowPrice ==> avg < PriceLow && (cons >= 0.0 ==> x.profit <= 0.0)
  {
    var a := Opt(solar > 200.0, Rec(DailySolar, solar * avg * 0.5));
    var b := DailyPrice(avg, cons);
    var c := Opt(cons > 3000.0, Rec(DailyHighConsumption, cons * avg * 0.05));
    RulesOfOpt(solar > 200.0, Rec(DailySolar, solar * avg * 0.5));
    RulesOfOpt(cons > 3000.0, Rec(DailyHighConsumption, cons * avg * 0.05));
    DailyJoin(a, b, c, solar > 200.0, avg > PriceHigh, avg < PriceLow, cons > 3000.0);
    a + b + c
  }

  /** The three daily cost lists joined: well-formed, and each rule present exactly when its part has it. */
  lemma DailyJoin(a: seq<Rec>, b: seq<Rec>, c: seq<Rec>, solar: bool, high: bool, low: bool, heavy: bool)
    requires WellFormed(a, "daily", "cost_reduction") && WellFormed(b, "daily", "cost_reduction")
    requires WellFormed(c, "daily", "cost_reduction")
    requires RulesOf(a) == if solar then {DailySolar} else {}
    requires RulesOf(b) <= {DailyHighPrice, DailyLowPrice}
    requires (DailyHighPrice in RulesOf(b) <==> high) && (DailyLowPrice in RulesOf(b) <==> low)
    requires RulesOf(c) == if heavy then {DailyHighConsumption} else {}
    ensures WellFormed(a + b + c, "daily", "cost_reduction")
    ensures forall x :: x in a + b + c && x.rule == DailyLowPrice ==> x in b
    ensures DailySolar in RulesOf(a + b + c) <==> solar
    ensures DailyHighPrice in RulesOf(a + b + c) <==> high
    ensures DailyLowPrice in RulesOf(a + b + c) <==> low
    ensures DailyHighConsumption in RulesOf(a + b + c) <==> heavy
  {
    WellFormedAppend(a, b, "daily", "cost_reduction");
    WellFormedAppend(a + b, c, "daily", "cost_reduction");
    RulesOfAppend(a, b);
    RulesOfAppend(a + b, c);
  }

  /** The weekly cost rules; unlike the daily ones there is no low-price rule. */
  function WeeklyCost(solar: real, avg: real, cons: real): (r: seq<Rec>)
    ensures WellFormed(r, "weekly", "cost_reduction")
    ensures |r| <= 3
    ensures (solar > 1000.0 || avg > PriceHigh || cons > 15000.0) <==> r != []
    ensures WeeklySolar in RulesOf(r) <==> solar > 1000.0
    ensures WeeklyHighPrice in RulesOf(r) <==> avg > PriceHigh
    ensures WeeklyHighConsumption in RulesOf(r) <==> cons > 15000.0
  {
    var a := Opt(solar > 1000.0, Rec(WeeklySolar, solar * avg * 0.4));
    var b := Opt(avg > PriceHigh, Rec(WeeklyHighPrice, cons * (avg - PriceLow) * 0.08));
    var c := Opt(cons > 15000.0, Rec(WeeklyHighConsumption, cons * avg * 0.03));
    RulesOfOpt(solar > 1000.0, Rec(WeeklySolar, solar * avg * 0.4));
    RulesOfOpt(avg > PriceHigh, Rec(WeeklyHighPrice, cons * (avg - PriceLow) * 0.08));
    RulesOfOpt(cons > 15000.0, Rec(WeeklyHighConsumption, cons * avg * 0.03));
    WeeklyJoin(a, b, c, solar > 1000.0, avg > PriceHigh, cons > 15000.0);
    a + b + c
  }

  /** The three weekly cost lists joined: well-formed, and each rule present exactly when its part has it. */
  lemma WeeklyJoin(a: seq<Rec>, b: seq<Rec>, c: seq<Rec>, solar: bool, high: bool, heavy: bool)
    requires WellFormed(a, "weekly", "cost_reduction") && WellFormed(b, "weekly", "cost_reduction")
    requires WellFormed(c, "weekly", "cost_reduction")
    requires RulesOf(a) == (if solar then {WeeklySolar} else {}) && (a == [] <==> !solar)
    requires RulesOf(b) == (if high then {WeeklyHighPrice} else {}) && (b == [] <==> !high)
    requires RulesOf(c) == (if heavy then {WeeklyHighConsumption} else {}) && (c == [] <==> !heavy)
    ensures WellFormed(a + b + c, "weekly", "cost_reduction")
    ensures (solar || high || heavy) <==> a + b + c != []
    ensures WeeklySolar in RulesOf(a + b + c) <==> solar
    ensures WeeklyHighPrice in RulesOf(a + b + c) <==> high
    ensures WeeklyHighConsumption in RulesOf(a + b + c) <==> heavy
  {
    WellFormedAppend(a, b, "weekly", "cost_reduction");
    WellFormedAppend(a + b, c, "weekly", "cost_reduction");
    RulesOfAppend(a, b);
    RulesOfAppend(a + b, c);
  }

  /** The daily rules over a non-empty window. */
  function DailyRules(w: seq<Point>, goal: string): (r: seq<Rec>)
    requires w != []
    ensures WellFormed(r, "daily", goal)
    ensures goal == "carbon_footprint" || goal == "battery_longevity" ==> |r| == 1
    ensures goal == "carbon_footprint" ==> (r[0].rule == DailySolarCarbon <==> SumOf(w, SolarOf) > 200.0)
    ensures goal == "cost_reduction" ==>
              && (DailySolar in RulesOf(r) <==> SumOf(w, SolarOf) > 200.0)
              && (DailyHighPrice in RulesOf(r) <==> SumOf(w, PriceOf) / |w| as real > PriceHigh)
              && (DailyLowPrice in RulesOf(r) <==> SumOf(w, PriceOf) / |w| as real < PriceLow)
              && (DailyHighConsumption in RulesOf(r) <==> SumOf(w, TotalOf) > 3000.0)
  {
    var agg := Aggregate(w);
    if goal == "cost_reduction" then DailyCost(agg.0, agg.1, agg.2)
    else if goal == "carbon_footprint" then
      [if agg.0 > 200.0 then Rec(DailySolarCarbon, 0.0) else Rec(DailyDefaultCarbon, 0.0)]
    else if goal == "battery_longevity" then [Rec(DailyLongevity, 0.0)]
    else []
  }

  function Daily(valid: seq<Point>, now: int, goal: string): (r: seq<Rec>)
    ensures WellFormed(r, "daily", goal)
    ensures |valid| < 24 ==> r == [Rec(DailyShort, 0.0)]
    ensures |valid| >= 24 && Window(valid, now + Hour, now + 25 * Hour) == [] ==> r == [Rec(DailyEmpty, 0.0)]
    ensures |valid| >= 24 && Window(valid, now + Hour, now + 25 * Hour) != [] ==>
              r == DailyRules(Window(valid, now + Hour, now + 25 * Hour), goal)
    ensures goal in {"carbon_footprint", "battery_longevity"} ==> |r| == 1
  {
    if |valid| < 24 then [Rec(DailyShort, 0.0)]
    else
      var w := Window(valid, now + Hour, now + 25 * Hour);
      if w == [] then [Rec(DailyEmpty, 0.0)] else DailyRules(w, goal)
  }

  /** The weekly rules over a non-empty window. */
  function WeeklyRules(w: seq<Point>, goal: string): (r: seq<Rec>)
    requires w != []
    ensures WellFormed(r, "weekly", goal)
    ensures goal == "carbon_footprint" || goal == "battery_longevity" ==> |r| == 1
    ensures goal == "carbon_footprint" ==> (r[0].rule == WeeklySolarCarbon <==> SumOf(w, SolarOf) > 1000.0)
    ensures goal == "cost_reduction" ==>
              && (WeeklySolar in RulesOf(r) <==> SumOf(w, SolarOf) > 1000.0)
              && (WeeklyHighPrice in RulesOf(r) <==> SumOf(w, PriceOf) / |w| as real > PriceHigh)
              && (WeeklyHighConsumption in RulesOf(r) <==> SumOf(w, TotalOf) > 15000.0)
  {
    var agg := Aggregate(w);
    if goal == "cost_reduction" then WeeklyCost(agg.0, agg.1, agg.2)
    else if goal == "carbon_footprint" then
      [if agg.0 > 1000.0 then Rec(WeeklySolarCarbon, 0.0) else Rec(WeeklyDefaultCarbon, 0.0)]
    else if goal == "battery_longevity" then [Rec(WeeklyLongevity, 0.0)]
    else []
  }

  function Weekly(valid: seq<Point>, now: int, goal: string): (r: seq<Rec>)
    ensures WellFormed(r, "weekly", goal)
    ensures |valid| < 168 ==> r == [Rec(WeeklyShort, 0.0)]
    ensures |valid| >= 168 && Window(valid, now + Hour, now + 169 * Hour) == [] ==> r == [Rec(WeeklyEmpty, 0.0)]
    ensures |valid| >= 168 && Window(valid, now + Hour, now + 169 * Hour) != [] ==>
              r == WeeklyRules(Window(valid, now + Hour, now + 169 * Hour), goal)
    ensures goal in {"carbon_footprint", "battery_longevity"} ==> |r| == 1
  {
    if |valid| < 168 then [Rec(WeeklyShort, 0.0)]
    else
      var w := Window(valid, now + Hour, now + 169 * Hour);
      if w == [] then [Rec(WeeklyEmpty, 0.0)] else WeeklyRules(w, goal)
  }

  /** The hourly rules see the forecast only through its rows after the reference time. */
  lemma HourlySeesOnlyTheFuture(k: Kpis, now: int, v1: seq<Point>, v2: seq<Point>, goal: string)
    requires Future(v1, now) == Future(v2, now)
    ensures Hourly(k, now, v1, goal) == Hourly(k, now, v2, goal)
  {
  }

  /** A row at or before the reference time changes no hourly recommendation. */
  lemma PastRowIgnored(k: Kpis, now: int, valid: seq<Point>, p: Point, goal: string)
    requires p.time <= now
    ensures Hourly(k, now, valid + [p], goal) == Hourly(k, now, valid, goal)
  {
    FilterSnoc(valid, p, q => After(now, q));
    HourlySeesOnlyTheFuture(k, now, valid + [p], valid, goal);
  }

  /**
   * The daily rules see the forecast only through its length (against 24)
   * and its rows in the window [now + 1 h, now + 25 h).
   */
  lemma DailySeesOnlyItsWindow(v1: seq<Point>, v2: seq<Point>, now: int, goal: string)
    requires |v1| < 24 <==> |v2| < 24
    requires Window(v1, now + Hour, now + 25 * Hour) == Window(v2, now + Hour, now + 25 * Hour)
    ensures Daily(v1, now, goal) == Daily(v2, now, goal)
  {
  }

  /** Once there are 24 rows, a row outside the daily window changes nothing. */
  lemma RowOutsideDayIgnored(valid: seq<Point>, p: Point, now: int, goal: string)
    requires |valid| >= 24
    requires !(now + Hour <= p.time < now + 25 * Hour)
    ensures Daily(valid + [p], now, goal) == Daily(valid, now, goal)
  {
    FilterSnoc(valid, p, q => InWindow(now + Hour, now + 25 * Hour, q));
    DailySeesOnlyItsWindow(valid + [p], valid, now, goal);
  }

  /**
   * The weekly rules see the forecast only through its length (against 168)
   * and its rows in the window [now + 1 h, now + 169 h).
   */
  lemma WeeklySeesOnlyItsWindow(v1: seq<Point>, v2: seq<Point>, now: int, goal: string)
    requires |v1| < 168 <==> |v2| < 168
    requires Window(v1, now + Hour, now + 169 * Hour) == Window(v2, now + Hour, now + 169 * Hour)
    ensures Weekly(v1, now, goal) == Weekly(v2, now, goal)
  {
  }

  /** Once there are 168 rows, a row outside the weekly window changes nothing. */
  lemma RowOutsideWeekIgnored(valid: seq<Point>, p: Point, now: int, goal: string)
    requires |valid| >= 168
    requires !(now + Hour <= p.time < now + 169 * Hour)
    ensures Weekly(valid + [p], now, goal) == Weekly(valid, now, goal)
  {
    FilterSnoc(valid, p, q => InWindow(now + Hour, now + 169 * Hour, q));
    WeeklySeesOnlyItsWindow(valid + [p], valid, now, goal);
  }

  // ---------------------------------------------------------------------------
  // The whole procedure
  // ---------------------------------------------------------------------------

  /** The dispatch on the period, before the fallback entry is added. */
  function ByPeriod(k: Kpis, now: int, valid: seq<Point>, goal: string, period: string): (r: seq<Rec>)
    ensures WellFormed(r, period, goal)
    ensures period !in {"hourly", "daily", "weekly"} ==> r == [Rec(UnsupportedPeriod, 0.0)]
    ensures period == "daily" && |valid| < 24 ==> r == [Rec(DailyShort, 0.0)]
    ensures period == "weekly" && |valid| < 168 ==> r == [Rec(WeeklyShort, 0.0)]
    ensures period == "hourly" ==> r == Hourly(k, now, valid, goal)
    ensures period == "daily" ==> r == Daily(valid, now, goal)
    ensures period == "weekly" ==> r == Weekly(valid, now, goal)
  {
    if period == "hourly" then Hourly(k, now, valid, goal)
    else if period == "daily" then Daily(valid, now, goal)
    else if period == "weekly" then Weekly(valid, now, goal)
    else [Rec(UnsupportedPeriod, 0.0)]
  }

  /** `generate_recommendations`. */
  function Generate(st: CurrentStatus, clock: int, forecast: seq<Forecast>, goal: string, period: string): (r: seq<Rec>)
    ensures r != []
    ensures WellFormed(r, period, goal)
    ensures Valid(forecast) == [] ==> r == [Rec(NoValidForecast, 0.0)]
    ensures Valid(forecast) != [] && period !in {"hourly", "daily", "weekly"} ==> r == [Rec(UnsupportedPeriod, 0.0)]
    ensures Valid(forecast) != [] && period == "daily" && |Valid(forecast)| < 24 ==> r == [Rec(DailyShort, 0.0)]
    ensures Valid(forecast) != [] && period == "weekly" && |Valid(forecast)| < 168 ==> r == [Rec(WeeklyShort, 0.0)]
    ensures Valid(forecast) != [] ==>
              var recs := ByPeriod(KpisOf(st), Now(st, clock), Valid(forecast), goal, period);
              && (recs != [] ==> r == recs)
              && (recs == [] ==> r == [Rec(NothingToRecommend, 0.0)])
  {
    var valid := Valid(forecast);
    if valid == [] then
      assert RuleFits(NoValidForecast, period, goal);
      [Rec(NoValidForecast, 0.0)]
    else
      var recs := ByPeriod(KpisOf(st), Now(st, clock), valid, goal, period);
      assert RuleFits(NothingToRecommend, period, goal);
      if recs == [] then [Rec(NothingToRecommend, 0.0)] else recs
  }

  /** The hourly cost rules over the future rows reach the caller unchanged, or the info fallback when none fired. */
  lemma HourlyCostReachesGenerate(st: CurrentStatus, clock: int, forecast: seq<Forecast>)
    requires Valid(forecast) != []
    ensures var now := Now(st, clock);
            var recs := HourlyCost(KpisOf(st), now, Future(Valid(forecast), now));
            && (recs != [] ==> Generate(st, clock, forecast, "cost_reduction", "hourly") == recs)
            && (recs == [] ==> Generate(st, clock, forecast, "cost_reduction", "hourly") == [Rec(NothingToRecommend, 0.0)])
  {
  }

  /** The hourly carbon rules over the future rows always reach the caller unchanged. */
  lemma HourlyCarbonReachesGenerate(st: CurrentStatus, clock: int, forecast: seq<Forecast>)
    requires Valid(forecast) != []
    ensures var now := Now(st, clock);
            Generate(st, clock, forecast, "carbon_footprint", "hourly") == HourlyCarbon(KpisOf(st), now, Future(Valid(forecast), now))
  {
  }

  /** Hourly battery longevity yields exactly one Battery Management entry worth 0. */
  lemma HourlyLongevityIsSingle(st: CurrentStatus, clock: int, forecast: seq<Forecast>)
    requires Valid(forecast) != []
    ensures var r := Generate(st, clock, forecast, "battery_longevity", "hourly");
            |r| == 1 && Kind(r[0].rule) == "Battery Management" && r[0].profit == 0.0
  {
  }

  /** With non-negative forecast prices, charging from the grid is always a cost. */
  lemma GridChargeIsCost(st: CurrentStatus, clock: int, forecast: seq<Forecast>, goal: string, period: string)
    requires forall i :: 0 <= i < |forecast| ==> forecast[i].price >= 0.0
    ensures forall x :: x in Generate(st, clock, forecast, goal, period) && x.rule == GridCharge ==> x.profit <= 0.0
  {
    var valid := Valid(forecast);
    var r := Generate(st, clock, forecast, goal, period);
    if valid != [] && period == "hourly" {
      ValidMembers(forecast, valid);
      assert forall p :: p in valid ==> p.price >= 0.0;
      var recs := Hourly(KpisOf(st), Now(st, clock), valid, goal);
      assert r == recs || r == [Rec(NothingToRecommend, 0.0)];
    } else {
      MembersFit(r, period, goal);
    }
  }

  /** Every carbon-footprint recommendation is worth 0. */
  lemma CarbonIsWorthZero(st: CurrentStatus, clock: int, forecast: seq<Forecast>, period: string)
    ensures forall x :: x in Generate(st, clock, forecast, "carbon_footprint", period) ==> x.profit == 0.0
  {
    var r := Generate(st, clock, forecast, "carbon_footprint", period);
    forall x | x in r ensures x.profit == 0.0 {
      var i :| 0 <= i < |r| && r[i] == x;
      CarbonRuleIsFree(x.rule, period);
    }
  }

  /** No rule that fits the carbon goal carries a monetary figure. */
  lemma CarbonRuleIsFree(rule: Rule, period: string)
    ensures RuleFits(rule, period, "carbon_footprint") ==> ZeroProfit(rule)
  {
  }

  /** An unknown goal for a known period with enough data yields only the fallback entry. */
  lemma UnknownGoalFallsBack(st: CurrentStatus, clock: int, forecast: seq<Forecast>, goal: string)
    requires Valid(forecast) != []
    requires goal !in {"cost_reduction", "carbon_footprint", "battery_longevity"}
    ensures Generate(st, clock, forecast, goal, "hourly") == [Rec(NothingToRecommend, 0.0)]
  {
  }
}
