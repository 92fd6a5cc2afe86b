/** The per-neighbourhood forecasting model of the training package: the training frame
    it builds, the Prophet configuration it records, and the post-processing that zeroes
    the forecast at hours when street parking is not regulated and clamps it at 0.
    Prophet itself (fit and predict) is a parameter of the model. */
module ProphetModel {
  import opened Wrappers
  import opened Calendar
  import opened Seqs
  import opened Tuner

  /** One row of the frame `fit` receives. */
  datatype TrainRow = TrainRow(ds: Timestamp, y: real)

  /** One row of Prophet's forecast: the timestamp and the point forecast. */
  datatype ForecastRow = ForecastRow(ds: Timestamp, yhat: real)

  /** An extra seasonality registered with `add_seasonality`. */
  datatype Seasonality = Seasonality(name: string, period: real, fourierOrder: int)

  /** The keyword arguments passed to `Prophet(...)`; None leaves Prophet's default. */
  datatype ProphetConfig = ProphetConfig(
    changepointPriorScale: Option<real>,
    seasonalityPriorScale: Option<real>,
    seasonalityMode: Option<string>,
    yearlySeasonality: Option<string>,
    weeklySeasonality: Option<string>,
    dailySeasonality: bool)

  /** A Prophet object: its configuration, extra seasonalities and the frame it was fitted on. */
  datatype Prophet = Prophet(config: ProphetConfig, seasonalities: seq<Seasonality>, history: seq<TrainRow>)

  /** Prophet's `fit`, as far as this model follows it: a frame with fewer than two rows
      raises a ValueError; otherwise the model keeps the frame as its history. */
  function Fit(p: Prophet, frame: seq<TrainRow>): (r: Result<Prophet>)
    ensures r.Failure? <==> |frame| < 2
    ensures r.Failure? ==> r.error == ValueError
    ensures r.Success? ==> r.value == Prophet(p.config, p.seasonalities, frame)
  {
    if |frame| < 2 then Failure(ValueError) else Success(p.(history := frame))
  }

  /** Prophet's `predict`, which this model does not look inside. */
  type Predictor = (Prophet, seq<Timestamp>) -> seq<ForecastRow>

  /** The parameters `train` passes to `_build_model`. */
  const TrainConfig: ProphetConfig :=
    ProphetConfig(Some(0.001), Some(10.0), Some("additive"), Some("auto"), Some("auto"), true)

  const DefaultDailyFourier: int := 8

  // ---------------------------------------------------------------- training frame

  /** `_create_nh_agg_df`: the rows of one neighbourhood, in order. */
  function CreateNhAggDf(aggDf: seq<TunedRow>, barrioId: int): seq<TunedRow> {
    Filter(aggDf, (r: TunedRow) => r.barrioId == barrioId)
  }

  /** `_create_nh_agg_df` keeps exactly the rows of its neighbourhood. */
  lemma CreateNhAggDfKeeps(aggDf: seq<TunedRow>, barrioId: int, r: TunedRow)
    ensures r in CreateNhAggDf(aggDf, barrioId) <==> r in aggDf && r.barrioId == barrioId
  {
  }

  /** The index of the aggregated frame: the hour each row stands for, as a timestamp. */
  function IndexStamps(aggDf: seq<TunedRow>): (ix: seq<Timestamp>)
    ensures |ix| == |aggDf|
  {
    seq(|aggDf|, i requires 0 <= i < |aggDf| => aggDf[i].hour * SecondsPerHour)
  }

  function Stamps(rows: seq<TrainRow>): seq<Timestamp> {
    seq(|rows|, i requires 0 <= i < |rows| => rows[i].ds)
  }

  function Values(rows: seq<TrainRow>): seq<real> {
    seq(|rows|, i requires 0 <= i < |rows| => rows[i].y)
  }

  /** `_create_train_df`: pairs the first `|y|` index timestamps with `y`; when the index is
      shorter than `y` the columns differ in length and the frame constructor raises. */
  function CreateTrainDf(y: seq<real>, aggDf: seq<TunedRow>): (r: Result<seq<TrainRow>>)
    ensures r.Failure? <==> |y| > |aggDf|
    ensures r.Failure? ==> r.error == ValueError
    ensures r.Success? ==> Values(r.value) == y && Stamps(r.value) == IndexStamps(aggDf)[..|y|]
  {
    if |y| > |aggDf| then Failure(ValueError)
    else
      var rows := seq(|y|, i requires 0 <= i < |y| => TrainRow(aggDf[i].hour * SecondsPerHour, y[i]));
      assert Values(rows) == y;
      assert Stamps(rows) == IndexStamps(aggDf)[..|y|];
      Success(rows)
  }

  /** The default training target: the neighbourhood's own counts. */
  function ActiveTickets(rows: seq<TunedRow>): (ys: seq<real>)
    ensures |ys| == |rows|
  {
    seq(|rows|, i requires 0 <= i < |rows| => rows[i].activeTickets)
  }

  /** With the default target the training frame always builds, and it is the
      neighbourhood's own series. */
  lemma DefaultTrainDf(aggDf: seq<TunedRow>)
    ensures var r := CreateTrainDf(ActiveTickets(aggDf), aggDf);
      r.Success? && |r.value| == |aggDf|
      && forall i :: 0 <= i < |aggDf| ==> r.value[i] == TrainRow(aggDf[i].hour * SecondsPerHour, aggDf[i].activeTickets)
  {
    var r := CreateTrainDf(ActiveTickets(aggDf), aggDf).value;
    forall i | 0 <= i < |aggDf|
      ensures r[i] == TrainRow(aggDf[i].hour * SecondsPerHour, aggDf[i].activeTickets)
    {
      assert Values(r)[i] == r[i].y;
      assert Stamps(r)[i] == r[i].ds;
    }
  }

  // ---------------------------------------------------------------- closed hours

  predicate OnSunday(t: Timestamp) { DayOfWeek(t) == 6 }

  predicate Night(t: Timestamp) { Hour(t) >= 21 || Hour(t) < 9 }

  predicate SaturdayAfternoon(t: Timestamp) { DayOfWeek(t) == 5 && 15 <= Hour(t) < 21 }

  predicate AugustAfternoon(t: Timestamp) { Month(t) == 8 && DayOfWeek(t) < 5 && 15 <= Hour(t) < 21 }

  predicate Holiday(t: Timestamp, isHoliday: Date -> bool) { isHoliday(CivilFromDays(DayIndex(t))) }

  /** Street parking is not regulated: any of the five masks holds. */
  predicate Closed(t: Timestamp, isHoliday: Date -> bool) {
    OnSunday(t) || Night(t) || SaturdayAfternoon(t) || AugustAfternoon(t) || Holiday(t, isHoliday)
  }

  /** `np.where(y < 0, 0, y)`. */
  function Clamp(y: real): (r: real)
    ensures r >= 0.0 && r >= y
    ensures y >= 0.0 ==> r == y
  {
    if y < 0.0 then 0.0 else y
  }

  /** The returned value for a forecast `yhat` at `t`. */
  function Prediction(t: Timestamp, yhat: real, isHoliday: Date -> bool): real {
    if Closed(t, isHoliday) then 0.0 else Clamp(yhat)
  }

  /** Every returned prediction is at least 0; it is 0 at every closed hour; elsewhere it
      is the forecast, raised to 0 when negative. */
  lemma PredictionRules(t: Timestamp, yhat: real, isHoliday: Date -> bool)
    ensures Prediction(t, yhat, isHoliday) >= 0.0
    ensures OnSunday(t) ==> Prediction(t, yhat, isHoliday) == 0.0
    ensures Night(t) ==> Prediction(t, yhat, isHoliday) == 0.0
    ensures SaturdayAfternoon(t) ==> Prediction(t, yhat, isHoliday) == 0.0
    ensures AugustAfternoon(t) ==> Prediction(t, yhat, isHoliday) == 0.0
    ensures Holiday(t, isHoliday) ==> Prediction(t, yhat, isHoliday) == 0.0
    ensures !Closed(t, isHoliday) ==> Prediction(t, yhat, isHoliday) == if yhat < 0.0 then 0.0 else yhat
  {
  }

  /** The regulated hours: Monday to Friday 9:00-20:59 outside August afternoons,
      Saturday 9:00-14:59, never Sunday, never on a holiday. */
  lemma OpenHours(t: Timestamp, isHoliday: Date -> bool)
    ensures !Closed(t, isHoliday) <==>
      && !Holiday(t, isHoliday)
      && ((DayOfWeek(t) < 5 && Month(t) != 8 && 9 <= Hour(t) < 21)
        || (DayOfWeek(t) < 6 && 9 <= Hour(t) < 15))
  {
  }

  /** The forecast's predictions; the AttributeError of calling `predict` on a model
      never built (None); or the bare `Exception` Prophet's `predict` raises on a model
      that was built but never fitted (no history). */
  function Predictions(model: Option<Prophet>, dates: seq<Timestamp>, predict: Predictor, isHoliday: Date -> bool): (r: Result<seq<real>>)
    ensures r.Failure? <==> model.None? || model.value.history == []
    ensures r.Failure? ==> r.error == if model.None? then AttributeError else Exception
    ensures r.Success? ==> var f := predict(model.value, dates);
      |r.value| == |f| && forall i :: 0 <= i < |f| ==> r.value[i] == Prediction(f[i].ds, f[i].yhat, isHoliday)
  {
    if model.None? then Failure(AttributeError)
    else if model.value.history == [] then Failure(Exception)
    else
      var f := predict(model.value, dates);
      Success(seq(|f|, i requires 0 <= i < |f| => Prediction(f[i].ds, f[i].yhat, isHoliday)))
  }

  // ---------------------------------------------------------------- in-place masks

  /** `forecast.loc[mask, "yhat"] = 0` for the rows whose timestamp `p` selects. */
  method ZeroYhatWhere(ds: seq<Timestamp>, yhat: array<real>, p: Timestamp -> bool)
    requires |ds| == yhat.Length
    modifies yhat
    ensures forall i :: 0 <= i < yhat.Length ==> yhat[i] == if p(ds[i]) then 0.0 else old(yhat[i])
  {
    for i := 0 to yhat.Length
      invariant forall k :: 0 <= k < i ==> yhat[k] == if p(ds[k]) then 0.0 else old(yhat[k])
      invariant forall k :: i <= k < yhat.Length ==> yhat[k] == old(yhat[k])
    {
      if p(ds[i]) {
        yhat[i] := 0.0;
      }
    }
  }

  /** The five masks one after another zero exactly the closed rows. */
  method MaskClosedHours(ds: seq<Timestamp>, yhat: array<real>, isHoliday: Date -> bool)
    requires |ds| == yhat.Length
    modifies yhat
    ensures forall i :: 0 <= i < yhat.Length ==> yhat[i] == if Closed(ds[i], isHoliday) then 0.0 else old(yhat[i])
  {
    ZeroYhatWhere(ds, yhat, OnSunday);
    ZeroYhatWhere(ds, yhat, Night);
    ZeroYhatWhere(ds, yhat, SaturdayAfternoon);
    ZeroYhatWhere(ds, yhat, AugustAfternoon);
    ZeroYhatWhere(ds, yhat, t => Holiday(t, isHoliday));
  }

  /** `np.where(y < 0, 0, y)` over the whole column. */
  function ClampAll(ys: seq<real>): (r: seq<real>)
    ensures |r| == |ys| && forall i :: 0 <= i < |ys| ==> r[i] == Clamp(ys[i])
  {
    seq(|ys|, i requires 0 <= i < |ys| => Clamp(ys[i]))
  }

  /** Runs Prophet's forecast, which raises on an unfitted model, masks its `yhat`
      column in place and clamps it. */
  method MaskedForecast(model: Prophet, dates: seq<Timestamp>, predict: Predictor, isHoliday: Date -> bool)
    returns (r: Result<seq<real>>)
    ensures r == Predictions(Some(model), dates, predict, isHoliday)
  {
    if model.history == [] {
      return Failure(Exception);
    }
    var forecast := predict(model, dates);
    var ds := seq(|forecast|, i requires 0 <= i < |forecast| => forecast[i].ds);
    var yhat := new real[|forecast|](i requires 0 <= i < |forecast| => forecast[i].yhat);
    MaskClosedHours(ds, yhat, isHoliday);
    var preds := ClampAll(yhat[..]);
    ghost var expected := Predictions(Some(model), dates, predict, isHoliday).value;
    forall i | 0 <= i < |preds|
      ensures preds[i] == expected[i]
    {
      assert ds[i] == forecast[i].ds;
    }
    assert preds == expected;
    r := Success(preds);
  }

  // ---------------------------------------------------------------- the model

  /** `CustomProphetModelNH` of the training package: one neighbourhood's model. */
  class CustomProphetModelNH {
    var model: Option<Prophet>
    const barrioId: int

    constructor(barrioId: int)
      ensures this.barrioId == barrioId && model.None?
    {
      this.barrioId := barrioId;
      model := None;
    }

    /** `_build_model`: a fresh Prophet with the given keyword arguments and a daily
        seasonality of period 1 whose Fourier order defaults to 8. */
    method BuildModel(config: ProphetConfig, customDailyFourier: Option<int>)
      modifies this
      ensures model == Some(Prophet(config, [Seasonality("custom_daily", 1.0,
        if customDailyFourier.Some? then customDailyFourier.value else DefaultDailyFourier)], []))
    {
      var order := if customDailyFourier.Some? then customDailyFourier.value else DefaultDailyFourier;
      model := Some(Prophet(config, [Seasonality("custom_daily", 1.0, order)], []));
    }

    /** `train`: builds the model, then fits it on the neighbourhood's frame paired with
        `yTrain` (its own counts when none is given). The frame raises when `yTrain` is
        longer than the neighbourhood's series, and `fit` raises on fewer than two rows;
        the built but unfitted model stays in place either way. */
    method Train(yTrain: Option<seq<real>>, aggDf: seq<TunedRow>) returns (r: Result<()>)
      modifies this
      ensures var nh := CreateNhAggDf(aggDf, barrioId);
        var y := if yTrain.Some? then yTrain.value else ActiveTickets(nh);
        var frame := CreateTrainDf(y, nh);
        && (r.Failure? <==> frame.Failure? || |frame.value| < 2)
        && (r.Failure? ==> r.error == ValueError)
        && model.Some?
        && model.value.config == TrainConfig
        && model.value.seasonalities == [Seasonality("custom_daily", 1.0, DefaultDailyFourier)]
        && (r.Success? ==> model.value.history == frame.value)
        && (r.Failure? ==> model.value.history == [])
    {
      BuildModel(TrainConfig, Some(DefaultDailyFourier));
      var nh := CreateNhAggDf(aggDf, barrioId);
      var y := if yTrain.Some? then yTrain.value else ActiveTickets(nh);
      var frame := CreateTrainDf(y, nh);
      if frame.Failure? {
        return Failure(frame.error);
      }
      var fitted := Fit(model.value, frame.value);
      if fitted.Failure? {
        return Failure(fitted.error);
      }
      model := Some(fitted.value);
      r := Success(());
    }

    /** `inference`: the masked, clamped forecast of the fitted model. */
    method Inference(dates: seq<Timestamp>, predict: Predictor, isHoliday: Date -> bool)
      returns (r: Result<seq<real>>)
      ensures r == Predictions(model, dates, predict, isHoliday)
    {
      if model.None? {
        return Failure(AttributeError);
      }
      r := MaskedForecast(model.value, dates, predict, isHoliday);
    }
  }
}
