/** The backend's `ModelEngine`: an object holding the fitted estimator, the
    model kind it was asked for and the feature columns, with `train`
    (feature selection and dispatch on the kind; the fitting itself is
    abstract) and the classifier branch of `predict`. */
module Engine {
  import opened Common
  import opened Forecast
  import opened Importance

  /** The columns `train` never uses as features. */
  const Excluded: seq<string> :=
    ["Target_Direction", "Future_Close", "Open", "High", "Low", "Close", "Volume", "Date"]

  /** `[c for c in columns if c not in exclude]`. */
  function SelectFeatures(columns: seq<string>): (r: seq<string>)
    ensures forall c :: c in r <==> c in columns && c !in Excluded
    ensures |r| <= |columns|
  {
    if columns == [] then []
    else (if columns[0] in Excluded then [] else [columns[0]]) + SelectFeatures(columns[1..])
  }

  /** The selection keeps the columns' order: selecting from two consecutive
      blocks of columns gives the selection of the first block followed by
      that of the second. */
  lemma {:induction false} SelectFeaturesAppend(a: seq<string>, b: seq<string>)
    ensures SelectFeatures(a + b) == SelectFeatures(a) + SelectFeatures(b)
  {
    if a == [] {
      assert a + b == b;
    } else {
      assert (a + b)[0] == a[0] && (a + b)[1..] == a[1..] + b;
      SelectFeaturesAppend(a[1..], b);
    }
  }

  /** A frame with no excluded column uses every column as a feature, in
      order. */
  lemma {:induction false} SelectFeaturesKeepsPlainColumns(columns: seq<string>)
    requires forall i :: 0 <= i < |columns| ==> columns[i] !in Excluded
    ensures SelectFeatures(columns) == columns
  {
    if columns != [] {
      SelectFeaturesKeepsPlainColumns(columns[1..]);
      assert columns == [columns[0]] + columns[1..];
    }
  }

  /** No label column is ever a feature, so a model trained on a labelled
      frame cannot read the outcome it is asked to predict. */
  lemma NoLabelLeak(columns: seq<string>)
    ensures "Target_Direction" !in SelectFeatures(columns)
    ensures "Future_Close" !in SelectFeatures(columns)
  {
  }

  /** The estimator object `train` installs; each stands for a fitted model. */
  datatype Estimator = XGBClassifier | RandomForestClassifier | LogisticRegression | Prophet

  /** The classifier `train` builds for a model kind, if the kind is known. */
  function ClassifierFor(kind: string): (e: Option<Estimator>)
    ensures e.Some? <==> kind in {"xgboost", "random_forest", "logistic_regression"}
    ensures e.Some? ==> e.value != Prophet
  {
    if kind == "xgboost" then Some(XGBClassifier)
    else if kind == "random_forest" then Some(RandomForestClassifier)
    else if kind == "logistic_regression" then Some(LogisticRegression)
    else None
  }

  /** What `train` returns: the kind, the mean cross-validated accuracy and,
      for classifiers, its standard deviation. */
  datatype Metrics = Metrics(modelType: string, accuracy: real, accuracyStd: Option<real>)

  /** The dict `predict` returns for a classifier. The confidence interval is
      the (lower, upper) pair around the predicted price. */
  datatype ForecastResult = ForecastResult(
    direction: Direction,
    probability: real,
    featureImportance: seq<Entry>,
    predictedPrice: real,
    forecastDates: seq<int>,
    forecastValues: seq<real>,
    confidenceInterval: (real, real))

  /** `predict`'s answer: the time-series library's own forecast, which this
      model does not describe, or the classifier forecast. */
  datatype Prediction = ProphetForecast | Classified(forecast: ForecastResult)

  /** The first of `wanted` that is not a column, if any (pandas' `KeyError`). */
  function MissingColumn(columns: seq<string>, wanted: seq<string>): (m: Option<string>)
    ensures m.None? <==> forall c :: c in wanted ==> c in columns
    ensures m.Some? ==> m.value in wanted && m.value !in columns
  {
    if wanted == [] then None
    else if wanted[0] !in columns then Some(wanted[0])
    else MissingColumn(columns, wanted[1..])
  }

  /** The importance dict `predict` builds from the model's weight vector.
      Only the tree ensembles pass the `hasattr(model, 'feature_importances_')`
      test and give their top five; the logistic model gives every
      coefficient of `coef_`. */
  function ImportanceFor(e: Estimator, features: seq<string>, weights: seq<real>): (r: seq<Entry>)
    ensures e == XGBClassifier || e == RandomForestClassifier ==> r == TreeImportance(features, weights)
    ensures e == LogisticRegression ==> r == LinearImportance(features, weights)
    ensures e == XGBClassifier || e == RandomForestClassifier ==> |r| <= 5
    ensures forall x :: x in r ==> x.0 in features
  {
    if e == XGBClassifier || e == RandomForestClassifier then TreeImportance(features, weights)
    else LinearImportance(features, weights)
  }

  /** Values built step by step as `StepValue(.., k + 1)` form the path. */
  lemma LoopBuildsPath(values: seq<real>, current: real, target: real, horizon: int)
    requires horizon >= 1 && |values| == horizon
    requires forall k :: 0 <= k < horizon ==> values[k] == StepValue(current, target, horizon, k + 1)
    ensures values == Path(current, target, horizon)
  {
  }

  class ModelEngine {
    var model: Option<Estimator>
    var modelType: Option<string>
    var features: Option<seq<string>>

    constructor ()
      ensures model == None && modelType == None && features == None
    {
      model := None;
      modelType := None;
      features := None;
    }

    /** `train(df, target_col, model_type, feature_cols)` on a frame with the
        given columns. The kind is recorded first; the time-series kind
        installs its model and touches nothing else; any other kind records
        its feature list (the given one, or every column not excluded) before
        looking the columns up and before dispatching on the kind, so a
        missing column or an unknown kind raises with the old estimator still
        in place. A known kind installs its new estimator before
        cross-validation and fitting run, so an exception from either
        (`fitError`) leaves that unfitted estimator behind. Fitting is
        abstract; `cvAccuracy` and `cvAccuracyStd` are what cross-validation
        reports. */
    method Train(columns: seq<string>, targetCol: string, kind: string,
                 featureCols: Option<seq<string>>, fitError: Option<PyError>,
                 cvAccuracy: real, cvAccuracyStd: real)
      returns (r: Result<Metrics>)
      modifies this
      ensures modelType == Some(kind)
      ensures kind == "prophet" ==>
        model == Some(Prophet) && features == old(features) &&
        r == (if fitError.Some? then Failure(fitError.value)
              else Success(Metrics("prophet", 0.0, None)))
      ensures kind != "prophet" ==>
        features == Some(if featureCols.Some? then featureCols.value else SelectFeatures(columns))
      ensures kind != "prophet" && MissingColumn(columns, features.value + [targetCol]).Some? ==>
        model == old(model) &&
        r == Failure(KeyError(MissingColumn(columns, features.value + [targetCol]).value))
      ensures kind != "prophet" && MissingColumn(columns, features.value + [targetCol]).None? ==>
        if ClassifierFor(kind).None? then
          model == old(model) && r == Failure(ValueError("Unknown model type: " + kind))
        else
          model == ClassifierFor(kind) &&
          r == (if fitError.Some? then Failure(fitError.value)
                else Success(Metrics(kind, cvAccuracy, Some(cvAccuracyStd))))
    {
      modelType := Some(kind);
      if kind == "prophet" {
        model := Some(Prophet);
        if fitError.Some? {
          return Failure(fitError.value);
        }
        return Success(Metrics("prophet", 0.0, None));
      }
      var cols := if featureCols.Some? then featureCols.value else SelectFeatures(columns);
      features := Some(cols);
      var missing := MissingColumn(columns, cols + [targetCol]);
      if missing.Some? {
        return Failure(KeyError(missing.value));
      }
      var estimator := ClassifierFor(kind);
      if estimator.None? {
        return Failure(ValueError("Unknown model type: " + kind));
      }
      model := estimator;
      if fitError.Some? {
        return Failure(fitError.value);
      }
      return Success(Metrics(kind, cvAccuracy, Some(cvAccuracyStd)));
    }

    /** `predict(df_latest, horizon_days)`. A fresh engine raises; the
        time-series kind answers with its library's forecast; otherwise the
        classifier's probability `prob` of an up-move for the last row becomes
        a direction, a target price, a path of `max(horizon_days, 1)` daily
        values dated one calendar day apart after `lastDay`, a band around the
        predicted price and an importance dict made from `weights` (the
        model's `feature_importances_`, or its `coef_[0]`). `current` is the
        last close. */
    method Predict(horizonDays: int, prob: real, current: real, lastDay: int, weights: seq<real>)
      returns (r: Result<Prediction>)
      ensures model.None? ==> r == Failure(ValueError("Model not trained."))
      ensures model.Some? && modelType == Some("prophet") ==> r == Success(ProphetForecast)
      ensures model.Some? && modelType != Some("prophet") && features.None? ==>
        r == Failure(ValueError("Features not defined."))
      ensures model == Some(Prophet) && modelType != Some("prophet") && features.Some? ==>
        r.Failure?
      ensures model.Some? && model != Some(Prophet) && modelType != Some("prophet") && features.Some? ==>
        r.Success? && r.value.Classified? &&
        var f := r.value.forecast;
        var h := Max(horizonDays, 1);
        f.direction == DirectionOf(prob) && f.probability == prob &&
        |f.forecastDates| == h && |f.forecastValues| == h &&
        (forall i :: 0 <= i < h ==> f.forecastDates[i] == lastDay + i + 1) &&
        (forall i, j :: 0 <= i < j < h ==> f.forecastDates[i] < f.forecastDates[j]) &&
        f.forecastValues == Path(current, TargetPrice(prob, current, h), h) &&
        f.predictedPrice == f.forecastValues[h - 1] == TargetPrice(prob, current, h) &&
        f.confidenceInterval == Interval(f.predictedPrice, prob) &&
        f.featureImportance == ImportanceFor(model.value, features.value, weights)
    {
      if model.None? {
        return Failure(ValueError("Model not trained."));
      }
      if modelType == Some("prophet") {
        return Success(ProphetForecast);
      }
      if features.None? {
        return Failure(ValueError("Features not defined."));
      }
      var estimator := model.value;
      if estimator == Prophet {
        return Failure(AttributeError("'Prophet' object has no attribute 'predict_proba'"));
      }
      var direction := DirectionOf(prob);
      var horizon := Max(horizonDays, 1);
      var targetPrice := TargetPrice(prob, current, horizon);

      var dates: seq<int> := [];
      var values: seq<real> := [];
      for i := 1 to horizon + 1
        invariant |dates| == |values| == i - 1
        invariant forall k :: 0 <= k < i - 1 ==> dates[k] == lastDay + k + 1
        invariant forall k :: 0 <= k < i - 1 ==>
          values[k] == StepValue(current, targetPrice, horizon, k + 1)
      {
        dates := dates + [lastDay + i];
        var ratio := i as real / horizon as real;
        var interpolated := current + (targetPrice - current) * ratio;
        assert interpolated == StepValue(current, targetPrice, horizon, i);
        values := values + [interpolated];
      }
      LoopBuildsPath(values, current, targetPrice, horizon);

      var predicted := values[|values| - 1];
      var interval := Interval(predicted, prob);

      var importance := ImportanceFor(estimator, features.value, weights);
      return Success(Classified(ForecastResult(direction, prob, importance, predicted,
                                               dates, values, interval)));
    }
  }

  /** A failed `train` does not clear an earlier fit: after a successful
      "xgboost" training, a second `train` with an unknown kind raises, yet
      the engine still predicts with the earlier estimator, now paired with
      the feature list the failed call recorded. The engine itself never
      notices the mismatch; whether the estimator accepts the new columns is
      up to its library, which `prob` stands for. */
  method StaleModelAfterFailedTrain(prob: real, current: real, lastDay: int)
    returns (before: Result<Prediction>, after: Result<Prediction>)
    ensures before.Success? && before.value.Classified?
    ensures after.Success? && after.value.Classified?
    ensures before.value.forecast.featureImportance == ImportanceFor(XGBClassifier, ["RSI_14"], [1.0])
    ensures after.value.forecast.featureImportance == ImportanceFor(XGBClassifier, ["EMA_20"], [1.0])
  {
    var engine := new ModelEngine();
    var trained := engine.Train(["RSI_14", "EMA_20", "Target_Direction"], "Target_Direction",
                                "xgboost", Some(["RSI_14"]), None, 0.5, 0.0);
    assert engine.model == Some(XGBClassifier) && engine.features == Some(["RSI_14"]);
    before := engine.Predict(14, prob, current, lastDay, [1.0]);
    var failed := engine.Train(["RSI_14", "EMA_20", "Target_Direction"], "Target_Direction",
                               "lstm", Some(["EMA_20"]), None, 0.5, 0.0);
    assert engine.model == Some(XGBClassifier) && engine.features == Some(["EMA_20"]);
    after := engine.Predict(14, prob, current, lastDay, [1.0]);
  }
}
