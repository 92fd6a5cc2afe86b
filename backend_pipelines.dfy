/** The serving package's inference pipeline: the same wrapping, with the capacity looked
    up by neighbourhood code and the free fraction left unclamped. */
module BackendPipelines {
  import opened Wrappers
  import opened Calendar
  import opened ProphetModel
  import opened BackendModel
  import opened Pipelines

  /** `1 - pred / num_plazas`, with no clamp. */
  function RawFraction(pred: real, numPlazas: int): real
    requires numPlazas != 0
  {
    1.0 - pred / numPlazas as real
  }

  /** No car gives 1, a full neighbourhood gives 0, more cars than spaces give a negative
      fraction, and a non-negative prediction never gives more than 1. */
  lemma RawFractionFacts(pred: real, numPlazas: int)
    requires numPlazas != 0
    ensures pred == 0.0 ==> RawFraction(pred, numPlazas) == 1.0
    ensures pred == numPlazas as real ==> RawFraction(pred, numPlazas) == 0.0
    ensures numPlazas > 0 && pred > numPlazas as real ==> RawFraction(pred, numPlazas) < 0.0
    ensures numPlazas > 0 && pred >= 0.0 ==> RawFraction(pred, numPlazas) <= 1.0
  {
    var n := numPlazas as real;
    if numPlazas > 0 && pred > n {
      assert pred / n > n / n;
    }
    if numPlazas > 0 && pred >= 0.0 {
      assert pred / n >= 0.0;
    }
  }

  /** The two packages agree wherever the serving fraction is not negative: the training
      package's value is the serving value raised to 0. */
  lemma ClampedIsRaisedRaw(pred: real, numPlazas: int)
    requires numPlazas != 0
    ensures FreeFraction(pred, numPlazas) == if RawFraction(pred, numPlazas) < 0.0 then 0.0 else RawFraction(pred, numPlazas)
  {
  }

  function RawPercentages(preds: seq<real>, numPlazas: int): (r: seq<real>)
    requires numPlazas != 0
    ensures |r| == |preds| && forall i :: 0 <= i < |preds| ==> r[i] == RawFraction(preds[i], numPlazas)
  {
    seq(|preds|, i requires 0 <= i < |preds| => RawFraction(preds[i], numPlazas))
  }

  /** `_inference`: the model's predictions for the wrapped timestamps. */
  method Inference(model: BackendModel.CustomProphetModelNH, datetime: DatetimeArg, predict: Predictor, isHoliday: Date -> bool)
    returns (r: Result<seq<real>>)
    ensures r == Predictions(model.model, Dates(datetime), predict, isHoliday)
  {
    r := model.Predict(Dates(datetime), None, predict, isHoliday);
  }

  /** `run`: the predictions unchanged, or, with `return_percentage`, the unclamped free
      fractions against `spaces_dict[barrio_id]`, a missing code raising a KeyError once
      the predictions exist. */
  method Run(datetime: DatetimeArg, model: BackendModel.CustomProphetModelNH, spacesDict: map<string, int>,
             barrioId: string, returnPercentage: bool, predict: Predictor, isHoliday: Date -> bool)
    returns (r: Result<seq<real>>)
    requires returnPercentage && barrioId in spacesDict ==> spacesDict[barrioId] != 0
    ensures var p := Predictions(model.model, Dates(datetime), predict, isHoliday);
      && (p.Failure? ==> r == p)
      && (p.Success? && !returnPercentage ==> r == p)
      && (p.Success? && returnPercentage && barrioId !in spacesDict ==> r == Failure(KeyError))
      && (p.Success? && returnPercentage && barrioId in spacesDict ==>
            r == Success(RawPercentages(p.value, spacesDict[barrioId])))
    ensures r.Success? && returnPercentage && spacesDict[barrioId] > 0 ==>
      forall i :: 0 <= i < |r.value| ==> r.value[i] <= 1.0
  {
    var predictions := Inference(model, datetime, predict, isHoliday);
    if predictions.Failure? || !returnPercentage {
      return predictions;
    }
    if barrioId !in spacesDict {
      return Failure(KeyError);
    }
    var numPlazas := spacesDict[barrioId];
    var preds := predictions.value;
    r := Success(RawPercentages(preds, numPlazas));
    if numPlazas > 0 {
      var f := predict(model.model.value, Dates(datetime));
      forall i | 0 <= i < |preds|
        ensures RawFraction(preds[i], numPlazas) <= 1.0
      {
        PredictionRules(f[i].ds, f[i].yhat, isHoliday);
        RawFractionFacts(preds[i], numPlazas);
      }
    }
  }
}
