/** The serving package's copy of the per-neighbourhood model: the same training frame
    and forecast post-processing, with a monthly seasonality in place of the custom daily
    one, and a `predict` whose evaluation-window branch reads an attribute the class
    never sets. */
module BackendModel {
  import opened Wrappers
  import opened Calendar
  import opened Tuner
  import opened ProphetModel

  /** `Prophet(daily_seasonality=True)`: every other argument left at Prophet's default. */
  const ServingConfig: ProphetConfig := ProphetConfig(None, None, None, None, None, true)

  /** The seasonality `_build_model` adds: monthly, period 30.5 days, Fourier order 5. */
  const Monthly: Seasonality := Seasonality("monthly", 30.5, 5)

  class CustomProphetModelNH {
    var model: Option<Prophet>
    const barrioId: int

    constructor(barrioId: int)
      ensures this.barrioId == barrioId && model.None?
    {
      this.barrioId := barrioId;
      model := None;
    }

    /** `_build_model`: a fresh Prophet with daily seasonality and a monthly seasonality. */
    method BuildModel()
      modifies this
      ensures model == Some(Prophet(ServingConfig, [Monthly], []))
    {
      model := Some(Prophet(ServingConfig, [Monthly], []));
    }

    /** `train`: as in the training package, with this class's `_build_model`. */
    method Train(yTrain: Option<seq<real>>, aggDf: seq<TunedRow>) returns (r: Result<()>)
      modifies this
      ensures var nh := CreateNhAggDf(aggDf, barrioId);
        var y := if yTrain.Some? then yTrain.value else ActiveTickets(nh);
        var frame := CreateTrainDf(y, nh);
        && (r.Failure? <==> frame.Failure? || |frame.value| < 2)
        && (r.Failure? ==> r.error == ValueError)
        && model.Some?
        && model.value.config == ServingConfig
        && model.value.seasonalities == [Monthly]
        && (r.Success? ==> model.value.history == frame.value)
        && (r.Failure? ==> model.value.history == [])
    {
      BuildModel();
      var nh := CreateNhAggDf(aggDf, barrioId);
      var y := if yTrain.Some? then yTrain.value else ActiveTickets(nh);
      var frame := CreateTrainDf(y, nh);
      if frame.Failure? {
        return Failure(frame.error);
      }
      var fitted := Fit(model.value, frame.value);
      if fitted.Failure? {
        return Failure(fitted.error);
      }
      model := Some(fitted.value);
      r := Success(());
    }

    /** `predict`: with `X_test` given, reading `self.agg_df` raises an AttributeError
        (no method of the class sets it); otherwise the masked, clamped forecast for
        `dates`, exactly as the training package's `inference`. */
    method Predict(dates: seq<Timestamp>, xTest: Option<seq<real>>, predict: Predictor, isHoliday: Date -> bool)
      returns (r: Result<seq<real>>)
      ensures xTest.Some? ==> r == Failure(AttributeError)
      ensures xTest.None? ==> r == Predictions(model, dates, predict, isHoliday)
    {
      if xTest.Some? {
        return Failure(AttributeError);
      }
      if model.None? {
        return Failure(AttributeError);
      }
      r := MaskedForecast(model.value, dates, predict, isHoliday);
    }
  }
}
