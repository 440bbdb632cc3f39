/**
 * The request handling of the FastAPI service around the engine: the
 * current-status KPIs, the validation of the historical-data query, and the
 * recommendations endpoint (parameter validation, forecast horizon, engine
 * call, response).
 *
 * Handlers return either a body or an `HttpError`. Where the code raises an
 * `HTTPException` inside a `try` whose `except Exception` catches it again,
 * the client sees the wrapping 500; the `...AsWritten` members model that,
 * and the members without the suffix model the status the code evidently
 * meant.
 */
module Api {

  import opened Seqs
  import Decimal
  import Engine

  datatype HttpError = HttpError(status: int, detail: string)

  datatype Reply<T> = Ok(body: T) | Err(error: HttpError)

  /** The text Python gives an `HTTPException` when it is interpolated into a message. */
  function ExceptionText(e: HttpError): (s: string)
    ensures |s| >= |e.detail| + 2
    ensures s[|s| - |e.detail|..] == e.detail
    ensures s[|s| - |e.detail| - 2..|s| - |e.detail|] == ": "
    ensures Decimal.ParseInt(s[..|s| - |e.detail| - 2]) == Some(e.status)
  {
    var code := Decimal.IntText(e.status);
    Decimal.IntTextRoundTrip(e.status);
    var s := code + ": " + e.detail;
    assert s[..|code|] == code;
    assert s[|code|..|code| + 2] == ": ";
    s
  }

  // ---------------------------------------------------------------------------
  // Current status
  // ---------------------------------------------------------------------------

  /** The latest hourly row: its timestamp (if any) and its numeric columns. */
  datatype Row = Row(time: Option<int>, columns: map<string, real>)

  /** An empty row is falsy, like an empty dict. */
  predicate IsEmptyRow(row: Row) { row.time.None? && row.columns == map[] }

  /** `row.get(column, 0.0)`. */
  function Column(row: Row, name: string): (v: real)
    ensures name !in row.columns ==> v == 0.0
    ensures name in row.columns ==> v == row.columns[name]
  {
    if name in row.columns then row.columns[name] else 0.0
  }

  /** Grid import: the base load not covered by solar, never negative. */
  function GridImport(row: Row): (g: real)
    ensures g >= 0.0
    ensures g >= Column(row, "Base_Consumption_Loads(t)") - Column(row, "Solar_Available_for_Use(t)")
    ensures g == 0.0 || g == Column(row, "Base_Consumption_Loads(t)") - Column(row, "Solar_Available_for_Use(t)")
  {
    RealMax(0.0, Column(row, "Base_Consumption_Loads(t)") - Column(row, "Solar_Available_for_Use(t)"))
  }

  datatype StatusBody = StatusBody(
    time: int,
    consumption: real,
    solar: real,
    battery1: real,
    battery2: real,
    gridImport: real,
    price: real,
    hvac: real,
    lighting: real)

  function Body(time: int, row: Row): (b: StatusBody)
    ensures b.time == time && b.gridImport >= 0.0
  {
    StatusBody(time, Column(row, "Total_Energy(t)"), Column(row, "Solar_Available_for_Use(t)"),
               Column(row, "Battery_1_Energy_Stored(t)"), Column(row, "Battery_2_Energy_Stored(t)"),
               GridImport(row), Column(row, "Electricity_Price(t)"),
               Column(row, "HVAC_Energy(t)"), Column(row, "Lighting_Energy(t)"))
  }

  const NoStatus: HttpError := HttpError(404, "No current status data available")

  /**
   * `get_current_status` as written: the 404 for a missing row is raised
   * inside the `try` and comes out wrapped in a 500; a row without a
   * timestamp fails on `.isoformat()` and also gives a 500.
   */
  function CurrentStatusAsWritten(latest: Option<Row>, timeError: string): (r: Reply<StatusBody>)
    ensures latest.Some? && !IsEmptyRow(latest.value) && latest.value.time.Some? <==> r.Ok?
    ensures r.Ok? ==> r.body == Body(latest.value.time.value, latest.value)
    ensures r.Err? ==> r.error.status == 500
  {
    if latest.None? || IsEmptyRow(latest.value) then
      Err(HttpError(500, "Internal server error: " + ExceptionText(NoStatus)))
    else if latest.value.time.None? then
      Err(HttpError(500, "Internal server error: " + timeError))
    else
      Ok(Body(latest.value.time.value, latest.value))
  }

  /** A missing row reaches the client as 500, not as the 404 the handler raises. */
  lemma MissingStatusIs500(timeError: string)
    ensures CurrentStatusAsWritten(None, timeError).Err?
    ensures CurrentStatusAsWritten(None, timeError).error.status == 500
    ensures CurrentStatusAsWritten(None, timeError).error.status != NoStatus.status
  {
  }

  /** `get_current_status` with the 404 reaching the client. */
  function CurrentStatus(latest: Option<Row>, timeError: string): (r: Reply<StatusBody>)
    ensures latest.Some? && !IsEmptyRow(latest.value) && latest.value.time.Some? <==> r.Ok?
    ensures r.Ok? ==> r.body == Body(latest.value.time.value, latest.value)
    ensures latest.None? ==> r == Err(NoStatus)
    ensures r.Err? ==> r.error.status == 404 || r.error.status == 500
  {
    if latest.None? || IsEmptyRow(latest.value) then Err(NoStatus)
    else if latest.value.time.None? then Err(HttpError(500, "Internal server error: " + timeError))
    else Ok(Body(latest.value.time.value, latest.value))
  }

  /** The two versions differ only in the status of the missing-row error. */
  lemma CurrentStatusDiffersOnlyWhenMissing(latest: Option<Row>, timeError: string)
    ensures CurrentStatus(latest, timeError).Ok? <==> CurrentStatusAsWritten(latest, timeError).Ok?
    ensures CurrentStatus(latest, timeError).Ok? ==> CurrentStatus(latest, timeError) == CurrentStatusAsWritten(latest, timeError)
    ensures CurrentStatus(latest, timeError) != CurrentStatusAsWritten(latest, timeError) ==>
              CurrentStatus(latest, timeError) == Err(NoStatus)
  {
  }

  // ---------------------------------------------------------------------------
  // Historical data
  // ---------------------------------------------------------------------------

  /** What the loaders produce: some number of rows, a missing file, or another failure. */
  datatype Loaded = Rows(count: nat) | FileMissing | LoadFailed(message: string)

  datatype HistoryBody = HistoryBody(start: int, end: int, level: string, rows: nat)

  const BadRange: HttpError := HttpError(400, "start_date cannot be after end_date.")
  const BadLevel: HttpError := HttpError(400, "Invalid aggregation_level. Must be 'hourly' or 'daily'.")
  const NoFiles: HttpError := HttpError(404, "Required data files not found. Ensure data generation is complete.")
  const NoHistory: HttpError := HttpError(404, "No historical data found for the specified date range.")

  function Failure(message: string): HttpError
  {
    HttpError(500, "Failed to retrieve historical data: " + message)
  }

  /**
   * `get_historical_data` as written; dates are day numbers. An empty hourly
   * result raises the 404 inside the `try`, and `except Exception` turns it
   * into a 500.
   */
  function HistoricalAsWritten(start: int, end: int, level: string, loaded: Loaded): (r: Reply<HistoryBody>)
    ensures start > end ==> r == Err(BadRange)
    ensures start <= end && level !in {"hourly", "daily"} ==> r == Err(BadLevel)
    ensures r.Ok? <==> start <= end && level in {"hourly", "daily"} && loaded.Rows? && (level == "daily" || loaded.count > 0)
    ensures r.Ok? ==> r.body == HistoryBody(start, end, level, loaded.count)
  {
    if start > end then Err(BadRange)
    else if level !in {"hourly", "daily"} then Err(BadLevel)
    else match loaded
      case FileMissing => Err(NoFiles)
      case LoadFailed(m) => Err(Failure(m))
      case Rows(n) =>
        if level == "hourly" && n == 0 then Err(Failure(ExceptionText(NoHistory)))
        else Ok(HistoryBody(start, end, level, n))
  }

  /** An empty hourly range reaches the client as 500, not as the 404 the handler raises. */
  lemma EmptyHourlyRangeIs500(day: int)
    ensures HistoricalAsWritten(day, day, "hourly", Rows(0)).Err?
    ensures HistoricalAsWritten(day, day, "hourly", Rows(0)).error.status == 500
  {
  }

  /** `get_historical_data` with the 404 for an empty hourly range reaching the client. */
  function Historical(start: int, end: int, level: string, loaded: Loaded): (r: Reply<HistoryBody>)
    ensures start > end ==> r == Err(BadRange)
    ensures start <= end && level !in {"hourly", "daily"} ==> r == Err(BadLevel)
    ensures start <= end && level == "hourly" && loaded == Rows(0) ==> r == Err(NoHistory)
    ensures r.Ok? <==> start <= end && level in {"hourly", "daily"} && loaded.Rows? && (level == "daily" || loaded.count > 0)
    ensures r.Ok? ==> r.body == HistoryBody(start, end, level, loaded.count)
    ensures r.Err? && r.error.status == 400 ==> start > end || level !in {"hourly", "daily"}
  {
    if start > end then Err(BadRange)
    else if level !in {"hourly", "daily"} then Err(BadLevel)
    else match loaded
      case FileMissing => Err(NoFiles)
      case LoadFailed(m) => Err(Failure(m))
      case Rows(n) =>
        if level == "hourly" && n == 0 then Err(NoHistory)
        else Ok(HistoryBody(start, end, level, n))
  }

  /** The corrected handler agrees with the original everywhere except on an empty hourly range. */
  lemma HistoricalDiffersOnlyOnEmptyHourly(start: int, end: int, level: string, loaded: Loaded)
    ensures Historical(start, end, level, loaded) != HistoricalAsWritten(start, end, level, loaded) <==>
              start <= end && level == "hourly" && loaded == Rows(0)
  {
    if start <= end && level == "hourly" && loaded == Rows(0) {
      assert Historical(start, end, level, loaded).error.status == 404;
    }
  }

  // ---------------------------------------------------------------------------
  // Recommendations
  // ---------------------------------------------------------------------------

  const Goals: seq<string> := ["cost_reduction", "carbon_footprint", "battery_longevity"]
  const Periods: seq<string> := ["hourly", "daily", "weekly"]

  const BadGoal: HttpError :=
    HttpError(400, "Invalid optimization_goal. Must be one of: cost_reduction, carbon_footprint, battery_longevity")
  const BadPeriod: HttpError := HttpError(400, "Invalid period. Must be one of: hourly, daily, weekly")
  const NoForecast: HttpError := HttpError(404, "No forecast data available to generate recommendations.")

  /** The hours of forecast requested for a period. */
  function Horizon(period: string): (h: nat)
    ensures period == "weekly" ==> h == 168
    ensures period != "weekly" ==> h == 24
    ensures h >= 24
  {
    if period == "hourly" then 24
    else if period == "daily" then 24
    else if period == "weekly" then 168
    else 24
  }

  /** The status the engine sees: every KPI the endpoint reports is present. */
  function EngineStatus(b: StatusBody): (st: Engine.CurrentStatus)
    ensures st.time == Some(b.time)
    ensures st.battery1 == Some(b.battery1) && st.battery2 == Some(b.battery2)
    ensures st.consumption == Some(b.consumption) && st.price == Some(b.price)
  {
    Engine.CurrentStatus(Some(b.time), Some(b.consumption), Some(b.battery1), Some(b.battery2),
                         Some(b.price), Some(b.hvac), Some(b.lighting))
  }

  datatype RecBody = RecBody(goal: string, period: string, suggestions: seq<Engine.Rec>)

  /**
   * `get_recommendations`. The query defaults are "cost_reduction" and
   * "hourly"; `status` is the current-status reply, `forecast` the model's
   * output for a given horizon and `clock` the time the engine falls back to.
   */
  function Recommendations(goal: string, period: string, status: Reply<StatusBody>,
                           forecast: nat -> seq<Engine.Forecast>, clock: int): (r: Reply<RecBody>)
    ensures goal !in Goals ==> r == Err(BadGoal)
    ensures goal in Goals && period !in Periods ==> r == Err(BadPeriod)
    ensures goal in Goals && period in Periods && status.Err? ==> r == Err(status.error)
    ensures goal in Goals && period in Periods && status.Ok? && forecast(Horizon(period)) == [] ==> r == Err(NoForecast)
    ensures r.Ok? <==> goal in Goals && period in Periods && status.Ok? && forecast(Horizon(period)) != []
    ensures r.Ok? ==> r.body.goal == goal && r.body.period == period
    ensures r.Ok? ==>
              r.body.suggestions == Engine.Generate(EngineStatus(status.body), clock, forecast(Horizon(period)), goal, period)
  {
    if goal !in Goals then Err(BadGoal)
    else if period !in Periods then Err(BadPeriod)
    else if status.Err? then Err(status.error)
    else
      var data := forecast(Horizon(period));
      if data == [] then Err(NoForecast)
      else
        var suggestions := Engine.Generate(EngineStatus(status.body), clock, data, goal, period);
        if suggestions == [] then Ok(RecBody(goal, period, []))
        else Ok(RecBody(goal, period, suggestions))
  }

  /** A valid request never shows the engine's unsupported-period error, and never an empty list. */
  lemma AcceptedRequestsAreSupported(goal: string, period: string, status: Reply<StatusBody>,
                                     forecast: nat -> seq<Engine.Forecast>, clock: int)
    requires Recommendations(goal, period, status, forecast, clock).Ok?
    ensures Recommendations(goal, period, status, forecast, clock).body.suggestions != []
    ensures forall x :: x in Recommendations(goal, period, status, forecast, clock).body.suggestions ==>
              x.rule != Engine.UnsupportedPeriod
  {
    var s := Engine.Generate(EngineStatus(status.body), clock, forecast(Horizon(period)), goal, period);
    assert Recommendations(goal, period, status, forecast, clock).body.suggestions == s;
    assert period == "hourly" || period == "daily" || period == "weekly";
    Engine.SupportedPeriodNeverErrs(s, period, goal);
  }

  /** The goal is checked before the period: a bad goal wins whatever the period. */
  lemma GoalCheckedFirst(goal: string, period: string, status: Reply<StatusBody>,
                         forecast: nat -> seq<Engine.Forecast>, clock: int)
    requires goal !in Goals
    ensures Recommendations(goal, period, status, forecast, clock).error == BadGoal
  {
  }

  /**
   * A daily request asks for 24 hours, so a single row without a timestamp
   * sends it down the engine's early exits.
   */
  lemma DailyNeedsEveryRow(goal: string, status: Reply<StatusBody>, forecast: nat -> seq<Engine.Forecast>, clock: int)
    requires |forecast(24)| <= 24
    requires exists i :: 0 <= i < |forecast(24)| && forecast(24)[i].time.None?
    requires Recommendations(goal, "daily", status, forecast, clock).Ok?
    ensures Recommendations(goal, "daily", status, forecast, clock).body.suggestions
              in {[Engine.Rec(Engine.DailyShort, 0.0)], [Engine.Rec(Engine.NoValidForecast, 0.0)]}
  {
    var fs := forecast(24);
    assert Horizon("daily") == 24;
    var i :| 0 <= i < |fs| && fs[i].time.None?;
    ValidDropsMissing(fs, i);
  }

  lemma {:induction false} ValidDropsMissing(fs: seq<Engine.Forecast>, i: nat)
    requires i < |fs| && fs[i].time.None?
    ensures |Engine.Valid(fs)| < |fs|
    decreases |fs|
  {
    var init := fs[..|fs| - 1];
    if i < |fs| - 1 {
      assert init[i] == fs[i];
      ValidDropsMissing(init, i);
    }
  }
}
