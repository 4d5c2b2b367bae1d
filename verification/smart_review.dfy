/**
 * The scheduler of `SmartReview`: the choice between the Leitner ladder and
 * the learned interval, and the model state that training and loading set.
 */
module SmartReview {
  import opened Wrappers
  import opened ReviewLog
  import opened Leitner
  import opened Features

  /** A fitted regressor, seen only through its prediction in hours. */
  datatype Regressor = Regressor(predict: FeatureVector -> real)

  /** The feature scaler: a fresh `StandardScaler()` or one fitted to training features. */
  datatype Scaler = Unfitted | Fitted(transform: FeatureVector -> FeatureVector)

  /** What `joblib.load` returns from the model file: the regressor and the scaler's transform. */
  datatype StoredModel = StoredModel(regressor: Regressor, transform: FeatureVector -> FeatureVector)

  /** `train_model` refuses fewer samples than this (smart_review.py:120). */
  const MinTrainingSamples: nat := 10

  /** The smallest delay a prediction may produce, in hours (smart_review.py:164). */
  const MinPredictedHours: real := 1.0

  /**
   * The delay, in hours, chosen by `get_next_review_time`: the ladder when
   * there are no features or no model, otherwise the prediction on the scaled
   * features floored at one hour.
   */
  function ReviewDelayHours(features: Option<FeatureVector>, model: Option<Regressor>, scaler: Scaler, level: int): (r: Result<real>)
    requires model.Some? ==> scaler.Fitted?
    ensures features.None? || model.None? ==>
              r == (match LadderHours(level)
                    case Success(h) => Success(h as real)
                    case Failure(e) => Failure(e))
    ensures features.Some? && model.Some? ==>
              && r.Success?
              && r.value >= MinPredictedHours
              && r.value >= model.value.predict(scaler.transform(features.value))
              && (r.value == MinPredictedHours || r.value == model.value.predict(scaler.transform(features.value)))
    ensures r.Success? ==> r.value >= 0.0
  {
    if features.None? || model.None? then
      match LadderHours(level)
      case Success(h) => Success(h as real)
      case Failure(e) => Failure(e)
    else
      var predicted := model.value.predict(scaler.transform(features.value));
      Success(if predicted >= MinPredictedHours then predicted else MinPredictedHours)
  }

  /** The regressor's feature inputs after scaling. */
  function Scaled(transform: FeatureVector -> FeatureVector, samples: seq<Sample>): (xs: seq<FeatureVector>)
    ensures |xs| == |samples|
  {
    seq(|samples|, i requires 0 <= i < |samples| => transform(samples[i].features))
  }

  function FeatureMatrix(samples: seq<Sample>): (xs: seq<FeatureVector>)
    ensures |xs| == |samples|
  {
    seq(|samples|, i requires 0 <= i < |samples| => samples[i].features)
  }

  function Targets(samples: seq<Sample>): (ys: seq<real>)
    ensures |ys| == |samples|
  {
    seq(|samples|, i requires 0 <= i < |samples| => samples[i].targetHours)
  }

  /** `SmartReview`: the in-memory model and scaler. The file paths and file access are left to the caller. */
  class SmartReview {
    var model: Option<Regressor>
    var scaler: Scaler

    /** A model is only ever installed together with the scaler fitted for it. */
    ghost predicate Valid()
      reads this
    {
      model.Some? ==> scaler.Fitted?
    }

    /** `__init__`: no model and a fresh scaler. */
    constructor ()
      ensures Valid()
      ensures model == None && scaler == Unfitted
    {
      model := None;
      scaler := Unfitted;
    }

    /**
     * `train_model`, given the log as loaded and the two fitting procedures
     * of the learning library (deterministic: the forest has a fixed seed).
     * An empty log or fewer than ten samples leave the state unchanged and
     * answer false; an exception while assembling samples escapes.
     */
    method TrainModel(log: Log, clock: Clock,
                      fitScaler: seq<FeatureVector> -> (FeatureVector -> FeatureVector),
                      fitRegressor: (seq<FeatureVector>, seq<real>) -> (FeatureVector -> real))
      returns (r: Result<bool>)
      requires Valid()
      modifies this
      ensures Valid()
      ensures IsEmpty(log) ==> r == Success(false)
      ensures !IsEmpty(log) && TrainingSamples(log, clock).Failure? ==> r == Failure(TrainingSamples(log, clock).error)
      ensures r == Success(true) <==>
                !IsEmpty(log) && TrainingSamples(log, clock).Success?
                && |TrainingSamples(log, clock).value| >= MinTrainingSamples
      ensures r == Success(true) ==>
                var samples := TrainingSamples(log, clock).value;
                var transform := fitScaler(FeatureMatrix(samples));
                && scaler == Fitted(transform)
                && model == Some(Regressor(fitRegressor(Scaled(transform, samples), Targets(samples))))
      ensures (!IsEmpty(log) && TrainingSamples(log, clock).Success?
               && |TrainingSamples(log, clock).value| < MinTrainingSamples) ==> r == Success(false)
      ensures r != Success(true) ==> model == old(model) && scaler == old(scaler)
    {
      if IsEmpty(log) {
        return Success(false);
      }
      var prepared := PrepareTrainingData(log, clock);
      if prepared.Failure? {
        return Failure(prepared.error);
      }
      var samples := prepared.value;
      if |samples| < MinTrainingSamples {
        return Success(false);
      }
      var transform := fitScaler(FeatureMatrix(samples));
      scaler := Fitted(transform);
      model := Some(Regressor(fitRegressor(Scaled(transform, samples), Targets(samples))));
      return Success(true);
    }

    /** `load_model`: install the stored model and scaler when the model file exists. */
    method LoadModel(stored: Option<StoredModel>) returns (loaded: bool)
      requires Valid()
      modifies this
      ensures Valid()
      ensures loaded <==> stored.Some?
      ensures loaded ==> model == Some(stored.value.regressor) && scaler == Fitted(stored.value.transform)
      ensures !loaded ==> model == old(model) && scaler == old(scaler)
    {
      if stored.None? {
        return false;
      }
      model := Some(stored.value.regressor);
      scaler := Fitted(stored.value.transform);
      return true;
    }

    /**
     * `get_next_review_time`: the review timestamp, in seconds, `now` plus the
     * chosen delay. It never lies before `now`, it is the ladder's when there
     * are no features or no model, and otherwise at least an hour away.
     */
    function NextReviewTime(log: Log, card: string, setName: string, level: int, clock: Clock): (r: Result<real>)
      reads this
      requires Valid()
      ensures r.Success? ==> r.value >= clock.now as real
      ensures var e := ExtractFeatures(log, card, setName, clock);
              && (e.Failure? ==> r == Failure(e.error) && r.error.KeyError?)
              && (e.Success? && (e.value.None? || model.None?) ==>
                    r == (match LadderHours(level)
                          case Success(h) => Success(clock.now as real + 3600.0 * h as real)
                          case Failure(x) => Failure(x)))
              && (e.Success? && (e.value.None? || model.None?) && level >= 0 ==>
                    r == Success(clock.now as real + 3600.0 * BaseIntervals[Min(level, MaxLevel)] as real))
              && (e.Success? && e.value.Some? && model.Some? ==>
                    var p := model.value.predict(scaler.transform(e.value.value));
                    && r == Success(clock.now as real + 3600.0 * (if p >= MinPredictedHours then p else MinPredictedHours))
                    && r.value >= clock.now as real + 3600.0 * MinPredictedHours)
    {
      match ExtractFeatures(log, card, setName, clock)
      case Failure(e) => Failure(e)
      case Success(features) =>
        match ReviewDelayHours(features, model, scaler, level)
        case Failure(e) => Failure(e)
        case Success(hours) => Success(clock.now as real + 3600.0 * hours)
    }
  }

  /** A card that only one session mentions is always scheduled from the ladder, trained or not. */
  lemma SingleReviewUsesLadder(reviewer: SmartReview, log: Log, card: string, setName: string, level: nat, clock: Clock)
    requires reviewer.Valid()
    requires card in log.columns && Mentions(log.rows, card) == 1
    ensures reviewer.NextReviewTime(log, card, setName, level, clock)
         == Success(clock.now as real + 3600.0 * BaseIntervals[Min(level, MaxLevel)] as real)
  {
  }
}
