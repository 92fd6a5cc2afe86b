/** The training package's inference pipeline: wraps a single timestamp into a list,
    runs the neighbourhood model and, on request, turns each predicted count into the
    fraction of spaces left free, clamped at 0. */
module Pipelines {
  import opened Wrappers
  import opened Calendar
  import opened ProphetModel

  /** The `datetime` argument: one timestamp, or a list / DatetimeIndex of them. */
  datatype DatetimeArg = Single(t: Timestamp) | Many(ts: seq<Timestamp>)

  /** A single timestamp becomes a one-element list; a list passes through unchanged. */
  function Dates(arg: DatetimeArg): (r: seq<Timestamp>)
    ensures arg.Single? ==> r == [arg.t]
    ensures arg.Many? ==> r == arg.ts
  {
    match arg
    case Single(t) => [t]
    case Many(ts) => ts
  }

  /** `np.maximum(0, 1 - pred / num_plazas)` for one prediction. */
  function FreeFraction(pred: real, numPlazas: int): real
    requires numPlazas != 0
  {
    var v := 1.0 - pred / numPlazas as real;
    if v < 0.0 then 0.0 else v
  }

  /** The free fraction is never negative; for a non-negative prediction and a positive
      capacity it is at most 1, exactly 1 for no car, exactly 0 once the prediction reaches
      the capacity, and otherwise the unclamped `1 - pred / num_plazas`. */
  lemma FreeFractionBounds(pred: real, numPlazas: int)
    requires numPlazas != 0
    ensures FreeFraction(pred, numPlazas) >= 0.0
    ensures pred == 0.0 ==> FreeFraction(pred, numPlazas) == 1.0
    ensures pred >= 0.0 && numPlazas > 0 ==> FreeFraction(pred, numPlazas) <= 1.0
    ensures numPlazas > 0 && pred >= numPlazas as real ==> FreeFraction(pred, numPlazas) == 0.0
    ensures numPlazas > 0 && pred <= numPlazas as real ==> FreeFraction(pred, numPlazas) == 1.0 - pred / numPlazas as real
  {
    var n := numPlazas as real;
    if numPlazas > 0 {
      if pred >= 0.0 {
        assert pred / n >= 0.0;
      }
      if pred >= n {
        assert pred / n >= n / n;
      }
      if pred <= n {
        assert pred / n <= n / n;
      }
    }
  }

  /** The free fraction of every prediction, in order. */
  function Percentages(preds: seq<real>, numPlazas: int): (r: seq<real>)
    requires numPlazas != 0
    ensures |r| == |preds| && forall i :: 0 <= i < |preds| ==> r[i] == FreeFraction(preds[i], numPlazas)
  {
    seq(|preds|, i requires 0 <= i < |preds| => FreeFraction(preds[i], numPlazas))
  }

  /** `_inference`: the model's predictions for the wrapped timestamps. */
  method Inference(model: CustomProphetModelNH, datetime: DatetimeArg, predict: Predictor, isHoliday: Date -> bool)
    returns (r: Result<seq<real>>)
    ensures r == Predictions(model.model, Dates(datetime), predict, isHoliday)
  {
    r := model.Inference(Dates(datetime), predict, isHoliday);
  }

  /** `run`: the predictions unchanged, or, with `return_percentage`, their free
      fractions, which then all lie between 0 and 1 for a positive capacity. */
  method Run(datetime: DatetimeArg, model: CustomProphetModelNH, numPlazas: int, returnPercentage: bool,
             predict: Predictor, isHoliday: Date -> bool)
    returns (r: Result<seq<real>>)
    requires returnPercentage ==> numPlazas != 0
    ensures var p := Predictions(model.model, Dates(datetime), predict, isHoliday);
      && (r.Failure? <==> p.Failure?)
      && (r.Failure? ==> r.error == p.error)
      && (r.Success? && !returnPercentage ==> r.value == p.value)
      && (r.Success? && returnPercentage ==> r.value == Percentages(p.value, numPlazas))
    ensures r.Success? && returnPercentage && numPlazas > 0 ==>
      forall i :: 0 <= i < |r.value| ==> 0.0 <= r.value[i] <= 1.0
  {
    var predictions := Inference(model, datetime, predict, isHoliday);
    if predictions.Failure? || !returnPercentage {
      return predictions;
    }
    var preds := predictions.value;
    r := Success(Percentages(preds, numPlazas));
    if numPlazas > 0 {
      var f := predict(model.model.value, Dates(datetime));
      forall i | 0 <= i < |preds|
        ensures 0.0 <= FreeFraction(preds[i], numPlazas) <= 1.0
      {
        PredictionRules(f[i].ds, f[i].yhat, isHoliday);
        FreeFractionBounds(preds[i], numPlazas);
      }
    }
  }
}
