/**
 * The hourly ingestion around the battery step: where each generator gets
 * its starting charge, the row it writes, and the object key the Lambda
 * stores that row under (and the loader later looks it up by).
 */
module Ingestion {

  import opened Seqs
  import Decimal
  import Battery

  // ---------------------------------------------------------------------------
  // The row
  // ---------------------------------------------------------------------------

  const Stored1: string := "Battery_1_Energy_Stored(t)"
  const Stored2: string := "Battery_2_Energy_Stored(t)"
  const Flow1: string := "Battery_1_Charge_Discharge(t)"
  const Flow2: string := "Battery_2_Charge_Discharge(t)"
  const SolarForUse: string := "Solar_Available_for_Use(t)"
  const SolarToBattery: string := "Solar_Used_to_Charge_Battery(t)"
  const BaseLoads: string := "Base_Consumption_Loads(t)"
  const TotalEnergy: string := "Total_Energy(t)"

  /** The five generated loads; their shapes and noise are inputs. */
  datatype Loads = Loads(hvac: real, refrigeration: real, lighting: real, it: real, other: real)

  function Base(l: Loads): real
  {
    l.hvac + l.refrigeration + l.lighting + l.it + l.other
  }

  /** The numeric battery and energy columns of the written row. */
  function RowOf(h: Battery.Hour, base: real): (row: map<string, real>)
    requires |h.flows| == 2 && |h.stored| == 2
    ensures Stored1 in row && Stored2 in row && TotalEnergy in row && SolarToBattery in row
    ensures row[Stored1] == h.stored[0] && row[Stored2] == h.stored[1]
    ensures row[TotalEnergy] == h.totalEnergy && row[SolarToBattery] == h.usedToCharge
  {
    map[SolarForUse := h.direct, SolarToBattery := h.usedToCharge, BaseLoads := base,
        TotalEnergy := h.totalEnergy,
        Flow1 := h.flows[0], Stored1 := h.stored[0],
        Flow2 := h.flows[1], Stored2 := h.stored[1]]
  }

  // ---------------------------------------------------------------------------
  // The Lambda generator
  // ---------------------------------------------------------------------------

  const HalfCapacity: real := 250.0

  /** The previous row's stored energies when both are present, else half capacity each. */
  function LambdaInitial(previous: Option<map<string, real>>): (s: seq<real>)
    ensures |s| == 2
    ensures previous.Some? && Stored1 in previous.value && Stored2 in previous.value ==>
              s == [previous.value[Stored1], previous.value[Stored2]]
    ensures previous.None? || Stored1 !in previous.value || Stored2 !in previous.value ==> s == [HalfCapacity, HalfCapacity]
  {
    if previous.Some? && Stored1 in previous.value && Stored2 in previous.value then
      [previous.value[Stored1], previous.value[Stored2]]
    else [HalfCapacity, HalfCapacity]
  }

  /** One Lambda hour: read the previous state, step the banks, produce the row. */
  function LambdaHour(previous: Option<map<string, real>>, loads: Loads, generation: real,
                      chargeNoise: seq<real>, factor: real, drawNoise: seq<real>): (row: map<string, real>)
    requires |chargeNoise| == 2 && |drawNoise| == 2
    ensures Stored1 in row && Stored2 in row && TotalEnergy in row && SolarToBattery in row
    ensures 0.0 <= row[Stored1] <= Battery.Capacity && 0.0 <= row[Stored2] <= Battery.Capacity
    ensures row[TotalEnergy] == Base(loads) + row[SolarToBattery]
    ensures row[SolarToBattery] >= 0.0
  {
    var h := Battery.Step(LambdaInitial(previous), generation, Base(loads), chargeNoise, factor, drawNoise);
    RowOf(h, Base(loads))
  }

  /** The state a Lambda hour writes is exactly the state the next hour starts from. */
  lemma StateCarriesOver(previous: Option<map<string, real>>, loads: Loads, generation: real,
                         chargeNoise: seq<real>, factor: real, drawNoise: seq<real>)
    requires |chargeNoise| == 2 && |drawNoise| == 2
    ensures var row := LambdaHour(previous, loads, generation, chargeNoise, factor, drawNoise);
            LambdaInitial(Some(row)) == [row[Stored1], row[Stored2]]
    ensures forall i :: 0 <= i < 2 ==>
              0.0 <= LambdaInitial(Some(LambdaHour(previous, loads, generation, chargeNoise, factor, drawNoise)))[i] <= Battery.Capacity
  {
  }

  // ---------------------------------------------------------------------------
  // The local-testing generator
  // ---------------------------------------------------------------------------

  /** Half capacity plus a random offset per bank, clipped into `[0, capacity]`. */
  function LocalInitial(offsets: seq<real>): (s: seq<real>)
    requires |offsets| == 2
    ensures |s| == 2
    ensures forall i :: 0 <= i < 2 ==> 0.0 <= s[i] <= Battery.Capacity
    ensures forall i :: 0 <= i < 2 && -HalfCapacity <= offsets[i] <= HalfCapacity ==> s[i] == HalfCapacity + offsets[i]
  {
    [Battery.Clip(HalfCapacity + offsets[0], 0.0, Battery.Capacity),
     Battery.Clip(HalfCapacity + offsets[1], 0.0, Battery.Capacity)]
  }

  /** One local-testing hour: the same battery step from a random starting charge. */
  function LocalHour(offsets: seq<real>, loads: Loads, generation: real,
                     chargeNoise: seq<real>, factor: real, drawNoise: seq<real>): (row: map<string, real>)
    requires |offsets| == 2 && |chargeNoise| == 2 && |drawNoise| == 2
    ensures Stored1 in row && Stored2 in row && TotalEnergy in row && SolarToBattery in row
    ensures 0.0 <= row[Stored1] <= Battery.Capacity && 0.0 <= row[Stored2] <= Battery.Capacity
    ensures row[TotalEnergy] == Base(loads) + row[SolarToBattery]
  {
    var h := Battery.Step(LocalInitial(offsets), generation, Base(loads), chargeNoise, factor, drawNoise);
    RowOf(h, Base(loads))
  }

  /** Both generators compute the same hour from the same starting charge. */
  lemma GeneratorsAgree(offsets: seq<real>, previous: map<string, real>, loads: Loads, generation: real,
                        chargeNoise: seq<real>, factor: real, drawNoise: seq<real>)
    requires |offsets| == 2 && |chargeNoise| == 2 && |drawNoise| == 2
    requires Stored1 in previous && Stored2 in previous
    requires LocalInitial(offsets) == [previous[Stored1], previous[Stored2]]
    ensures LocalHour(offsets, loads, generation, chargeNoise, factor, drawNoise)
            == LambdaHour(Some(previous), loads, generation, chargeNoise, factor, drawNoise)
  {
  }

  // ---------------------------------------------------------------------------
  // The object key
  // ---------------------------------------------------------------------------

  /** A UTC hour, as the handler reads it from the clock. */
  datatype DateHour = DateHour(year: nat, month: nat, day: nat, hour: nat)

  predicate ValidDateHour(t: DateHour)
  {
    1 <= t.month <= 12 && 1 <= t.day <= 31 && t.hour < 24
  }

  const Prefix: string := "historical_store1_energy_data/"
  const Head: string := Prefix + "year="

  /** Everything after the year: month, day and hour, each two digits. */
  function Tail(t: DateHour): (s: string)
    requires ValidDateHour(t)
    ensures |s| == 41
  {
    "/month=" + Decimal.Pad2(t.month) + "/day=" + Decimal.Pad2(t.day)
    + "/store_energy_data_" + Decimal.Pad2(t.hour) + ".csv"
  }

  /** `year=YYYY/month=MM/day=DD/store_energy_data_HH.csv` under the data prefix. */
  function Key(t: DateHour): (k: string)
    requires ValidDateHour(t)
    ensures |k| > |Head| + 41
    ensures k[..|Prefix|] == Prefix
  {
    Head + Decimal.NatText(t.year) + Tail(t)
  }

  /** Reads month, day and hour back from a 41-character tail. */
  function ParseTail(s: string): (r: Option<(nat, nat, nat)>)
  {
    if |s| == 41 && s[..7] == "/month=" && s[9..14] == "/day=" && s[16..35] == "/store_energy_data_"
       && s[37..] == ".csv" && Decimal.AllDigits(s[7..9]) && Decimal.AllDigits(s[14..16])
       && Decimal.AllDigits(s[35..37]) then
      Some((Decimal.ParseNat(s[7..9]), Decimal.ParseNat(s[14..16]), Decimal.ParseNat(s[35..37])))
    else None
  }

  /** Reads the hour back from a key, or None when the text is not a key. */
  function ParseKey(k: string): (r: Option<DateHour>)
  {
    if |k| < |Head| + 42 || k[..|Head|] != Head || !Decimal.AllDigits(k[|Head|..|k| - 41]) then None
    else match ParseTail(k[|k| - 41..])
      case None => None
      case Some((m, d, h)) => Some(DateHour(Decimal.ParseNat(k[|Head|..|k| - 41]), m, d, h))
  }

  lemma TailRoundTrip(t: DateHour)
    requires ValidDateHour(t)
    ensures ParseTail(Tail(t)) == Some((t.month, t.day, t.hour))
  {
    var s := Tail(t);
    assert s[..7] == "/month=";
    assert s[7..9] == Decimal.Pad2(t.month);
    assert s[9..14] == "/day=";
    assert s[14..16] == Decimal.Pad2(t.day);
    assert s[16..35] == "/store_energy_data_";
    assert s[35..37] == Decimal.Pad2(t.hour);
    assert s[37..] == ".csv";
    Decimal.Pad2RoundTrip(t.month);
    Decimal.Pad2RoundTrip(t.day);
    Decimal.Pad2RoundTrip(t.hour);
  }

  /** Every key reads back as the hour it was made from. */
  lemma KeyRoundTrip(t: DateHour)
    requires ValidDateHour(t)
    ensures ParseKey(Key(t)) == Some(t)
  {
    var k := Key(t);
    var y := Decimal.NatText(t.year);
    assert k[..|Head|] == Head;
    assert k[|Head|..|k| - 41] == y;
    assert k[|k| - 41..] == Tail(t);
    TailRoundTrip(t);
    Decimal.NatTextRoundTrip(t.year);
  }

  /** Distinct hours are stored under distinct keys, so no hour overwrites another. */
  lemma KeysAreDistinct(a: DateHour, b: DateHour)
    requires ValidDateHour(a) && ValidDateHour(b)
    requires a != b
    ensures Key(a) != Key(b)
  {
    KeyRoundTrip(a);
    KeyRoundTrip(b);
  }
}
