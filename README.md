# forecast_stocks backend core in Dafny

This project models the computational core of the forecast_stocks backend.
The backend downloads daily bars for a ticker, adds technical indicators and
two candle-pattern flags, labels each day with whether the close rises over
the next `h` days, trains a classifier, and turns the classifier's up-move
probability into a direction, a price path, a confidence band and a
feature-importance dict.

Modules:

- `Common` (common.dfy) holds `Option`, Python's exceptions as `PyError`, `Result`, and `Max`/`Min`/`AbsReal`.
- `Processing` (data_processor.dfy) models `DataProcessor`.
  - The frame is a sequence of `Row`s. A cell is `Option<real>`, where `None` is NaN; a comparison with NaN is false.
  - The class keeps `df` as a mutable field.
  - `add_indicators`, `prepare_target` and `get_processed_data` are methods proved against the functions `WithIndicators`, `LabelledFrame` and `DropMissing`.
- `Importance` (importance.dfy) models the importance dict.
  - A Python dict is an insertion-ordered list of (name, weight) entries, with last-value-wins `dict(zip(...))` (`DictFrom`).
  - Python's stable descending `sorted` is modelled by an insertion sort (`SortDesc`).
- `Forecast` (forecast.dfy) holds the arithmetic of `predict`: direction, base move, horizon scale, target price, the linear path, the band and the interval.
- `Engine` (model_engine.dfy) models `ModelEngine`.
  - The class has the fields `model`, `modelType` and `features`.
  - `Train` models kind dispatch and the state it leaves behind; fitting is abstract.
  - `Predict`'s classifier branch builds dates and values in a loop. The loop is proved equal to `Forecast.Path`.

Nothing here talks to the network, a clock or a learning library. Those
values are method parameters:
- the downloaded rows (`FetchData`);
- the indicator library's columns (`AddIndicators`);
- the cross-validation scores and any exception cross-validation or fitting raises (`Train`);
- the classifier's probability, the last close, the last date as a day number, and the model's weight vector (`Predict`).

## Model

| member | source | states |
|---|---|---|
| Processing.DataProcessor.constructor | backend/data_processor.py:8-10 | a new processor holds its ticker and no frame |
| Processing.DataProcessor.FetchData | backend/data_processor.py:17-34 | the downloaded frame is stored even when empty; an empty download raises ValueError "No data found for <ticker>" |
| Processing.WithIndicators | backend/data_processor.py:85-102 | same rows and bars, indicator columns appended, CDL_DOJI = 1 iff all four prices present and \|close-open\| ≤ 0.1·(high-low), CDL_ENGULFING = 1 iff previous bar red, current green, open below previous close and close above previous open; row 0 is never engulfing; flags are 0/1 |
| Processing.CandlesAreCausal | backend/data_processor.py:92-102 | the flags of row i depend on rows i-1 and i only: frames that agree up to row i get the same flags there |
| Processing.DataProcessor.AddIndicators | backend/data_processor.py:50-105 | a missing or empty frame raises "Dataframe is empty. Fetch data first." and is left alone; otherwise the frame is replaced by WithIndicators of it |
| Processing.FutureClose | backend/data_processor.py:124 | `shift(-h)` of the close column: the close h rows later when that row is in the frame, NaN otherwise |
| Processing.LabelFrom | backend/data_processor.py:124-128 | every kept row well labelled (direction 1 iff future close > close), never more than the rows whose future row lies in the frame; with all closes present exactly those rows, in order, each labelled with its future close |
| Processing.KeptRows | backend/data_processor.py:124-128 | only indices of rows whose close h rows later exists, in strictly increasing order (so each at most once) |
| Processing.KeptRowsComplete | backend/data_processor.py:124-128 | every row whose close h rows later exists is among the KeptRows indices |
| Processing.LabelFromExact | backend/data_processor.py:124-128 | on any frame, the labelled suffix is exactly the KeptRows rows, in order, each labelled with its future close |
| Processing.LabelFromComplete | backend/data_processor.py:124-128 | every row whose close h rows later exists is kept, labelled with that close |
| Processing.LabelFromOrdered | backend/data_processor.py:124-128 | kept rows stay in input order: an earlier kept row comes from an earlier input row |
| Processing.LabelledFrame | backend/data_processor.py:124-128 | at most n-h rows, all well labelled; with all closes present and 0 ≤ h ≤ n exactly the first n-h rows, unchanged except Future_Close = close[k+h] and Target_Direction = (close[k+h] > close[k]) |
| Processing.LabelFromSource | backend/data_processor.py:124-128 | every kept row is an input row at or after the start whose close h rows later exists, labelled with that close |
| Processing.KeepsEveryRealisedRow | backend/data_processor.py:124-128 | prepare_target drops only rows with an unknown outcome: every row whose future close was observed is kept, labelled with it |
| Processing.PrepareTargetExact | backend/data_processor.py:124-128 | prepare_target on any frame (missing closes included) keeps exactly the rows whose close h rows later exists, in input order, each labelled with that close |
| Processing.OnlyRealisedOutcomes | backend/data_processor.py:124-128 | every row prepare_target keeps is an input row whose future close was observed, with that close and the strict comparison as its target |
| Processing.PrepareTargetTwice | backend/data_processor.py:107-131 | two calls with h1 then h2 keep n-h1-h2 rows, and the targets look h2 rows ahead in the original frame |
| Processing.DataProcessor.PrepareTarget | backend/data_processor.py:107-131 | no frame raises "No data." and changes nothing; otherwise the frame is replaced by LabelledFrame of it |
| Processing.DropMissing | backend/data_processor.py:133-137 | keeps exactly the complete rows (no NaN in any column), never more rows, and a complete frame unchanged |
| Processing.DropMissingAppend | backend/data_processor.py:137 | dropna keeps order: it distributes over concatenation |
| Processing.DataProcessor.GetProcessedData | backend/data_processor.py:133-137 | no frame fails; otherwise the complete rows, and the frame is not modified |
| Importance.Zip | backend/model_engine.py:154 | `zip`: as many pairs as the shorter input, pair i made of the i-th name and the i-th weight |
| Importance.Put | backend/model_engine.py:154 | `d[k] = v`: the keys become those of d plus k; a new key is appended; when keys are distinct, an existing key keeps its place and takes the new entry and every other entry stays where it was; distinct keys stay distinct |
| Importance.DictFrom | backend/model_engine.py:154 | one entry per distinct key, same key set as the pairs, each holding the key's last value; pairs with distinct keys stay as they are |
| Importance.InsertDesc | backend/model_engine.py:155 | inserting into a non-increasing list keeps it non-increasing and adds exactly the entry |
| Importance.SortDesc | backend/model_engine.py:155 | the result is non-increasing by weight and a permutation of the input |
| Importance.TreeImportance | backend/model_engine.py:152-155 | min(5, number of distinct names among the zipped (feature, weight) pairs) entries, distinct keys, non-increasing weights, each a feature with its weight, and no feature left out outweighs one kept |
| Importance.LinearImportance | backend/model_engine.py:156-158 | distinct keys, each a feature with its (signed) coefficient, every zipped feature present; for distinct features exactly the zipped pairs in feature order |
| Forecast.DirectionOf | backend/model_engine.py:125 | UP iff prob > 0.5 |
| Forecast.BaseMove | backend/model_engine.py:130 | within ±8% for a probability, positive iff prob > 0.5, negative iff prob < 0.5 |
| Forecast.HorizonScale | backend/model_engine.py:131 | in (0, 2] for a horizon of at least 1, equal to 2 iff the horizon is at least 60 days, horizon/30 below that |
| Forecast.TargetPrice | backend/model_engine.py:128-132 | the target is within 16% of the current price |
| Forecast.TargetSide | backend/model_engine.py:125-132 | target above current iff price and probability lean the same way, equal iff price 0 or probability 0.5 |
| Forecast.DirectionAgreesWithPrice | backend/model_engine.py:125-132 | for a positive price, UP iff the predicted price is above the current price |
| Forecast.Path | backend/model_engine.py:134-143 | horizon values, the last one the target |
| Forecast.PathEqualSteps | backend/model_engine.py:134-143 | the first value is one step above the current price and each later value one more: every step is (target-current)/horizon |
| Forecast.PathMonotone | backend/model_engine.py:134-143 | the path never goes down toward a higher target and never up toward a lower one |
| Forecast.ForecastPathDirection | backend/model_engine.py:124-143 | for a non-negative price, the path weakly rises when prob > 0.5 and weakly falls when prob < 0.5 |
| Forecast.Band | backend/model_engine.py:144 | at most 4%, 4% exactly at prob 0.5; for a probability at least 2%, 2% exactly at 0 and 1 |
| Forecast.BandSymmetric | backend/model_engine.py:144 | the band is symmetric around 0.5 |
| Forecast.BandNarrowsWithConfidence | backend/model_engine.py:144 | the further prob is from 0.5, the narrower the band |
| Forecast.WidthBounds | backend/model_engine.py:145-148 | for a non-negative price and a band in [2%, 4%], the interval contains the price and is 4% to 8% of it wide |
| Forecast.Interval | backend/model_engine.py:143-148 | centred on the predicted price with width 2·band·price; for a non-negative price and a probability it contains the price and its width is between 4% and 8% of it |
| Engine.SelectFeatures | backend/model_engine.py:35-38 | a column is a feature iff it is a column and not excluded; never more features than columns |
| Engine.SelectFeaturesKeepsPlainColumns | backend/model_engine.py:35-38 | when no column is excluded, the features are every column, in order |
| Engine.SelectFeaturesAppend | backend/model_engine.py:38 | the selection keeps column order: it distributes over concatenation |
| Engine.NoLabelLeak | backend/model_engine.py:37-38 | Target_Direction and Future_Close are never features |
| Engine.ClassifierFor | backend/model_engine.py:44-51 | a classifier exists exactly for xgboost, random_forest and logistic_regression |
| Engine.MissingColumn | backend/model_engine.py:41-42 | none iff every wanted column exists; otherwise a wanted column that does not exist |
| Engine.ImportanceFor | backend/model_engine.py:152-158 | the `hasattr` dispatch: XGBoost and random forest give TreeImportance (at most five entries), logistic regression gives LinearImportance; every key is a feature |
| Engine.ModelEngine.constructor | backend/model_engine.py:14-17 | a new engine has no model, no kind and no features |
| Engine.ModelEngine.Train | backend/model_engine.py:19-86 | the kind is always recorded; prophet installs its model, keeps the features and reports accuracy 0.0; other kinds record the features (given or selected) first, then a missing column raises KeyError and an unknown kind raises "Unknown model type: <kind>", both keeping the old model; a known kind installs its classifier and reports the CV metrics, or, when cross-validation or fitting raises, re-raises with the new unfitted classifier left installed (likewise Prophet's fit) |
| Engine.ModelEngine.Predict | backend/model_engine.py:88-168 | no model raises "Model not trained."; prophet delegates; no features raises "Features not defined."; otherwise max(h,1) dates one day apart after the last date, values equal to Forecast.Path to TargetPrice, predicted price = last value = target, direction and probability from prob, interval around the predicted price, importance by tree or linear rule |
| Engine.StaleModelAfterFailedTrain | backend/model_engine.py:40-51 | after a trained engine fails to train an unknown kind, the engine itself goes on to predict with the old estimator and the newly recorded features; whether the estimator's library then accepts the changed columns is outside the model (its answer is the parameter `prob`) |

## Left out

- Downloading in `fetch_data` is not modelled: the rows are a parameter. Flattening MultiIndex columns and capitalising column names are not modelled either.
- The pandas_ta indicators (EMA, MACD, Ichimoku, RSI, Stoch, ROC, BBands, ATR) are foreign calls. Their columns are the `library` parameter of `AddIndicators`, which requires one list of cells per row.
- Fitting, cross-validation and `predict_proba` are foreign calls. Their results are parameters (`cvAccuracy`, `cvAccuracyStd`, `prob`, `weights`), and so is the exception cross-validation or fitting may raise (`fitError`).
- The Prophet branches are not modelled. `_train_prophet`'s data preparation and fit are abstract; only its effect on the engine's state and its metrics are modelled. `predict`'s Prophet branch is the outcome `ProphetForecast`, with nothing said about its content.
- Floats are modelled as exact reals, so rounding is not captured.
- Dates are integer day numbers one calendar day apart; `strftime` formatting is not modelled.
- Engine.ModelEngine.Train: the KeyError carries the first missing column name rather than pandas' message text.
- Engine.ModelEngine.Predict: a missing feature column in `df_latest` (KeyError) and an empty `df_latest` (IndexError) are not modelled, because the row's values reach the model only through `prob` and `current`. For a Prophet estimator left behind under another kind, the contract only says that the call fails. An unfitted estimator left behind by a failed fit is not distinguished: its `predict_proba` error belongs to the learning library, which `prob` stands for. For the same reason, the error the library raises when the feature names differ from those it was fitted on is not modelled.
- Processing.LabelFrom: its own contract gives exact contents only when every close is present. On any frame, the closed form (every row listed by Processing.KeptRows, in order, labelled) is the lemma Processing.LabelFromExact.
- Processing.LabelledFrame: its own contract states exact row contents only when every close is present and 0 ≤ h ≤ n. For other frames it states the length bounds and well-labelledness, and the lemma Processing.PrepareTargetExact gives the exact contents.
- Default arguments are not modelled: every parameter is passed explicitly. The source's defaults are `ticker="SPY"`, `horizon_days=14` for both `prepare_target` and `predict`, `target_col='Target_Direction'`, `model_type='xgboost'` and `feature_cols=None`.
- Importance.TreeImportance: the order among equal weights (sort stability) is not stated. The contract gives non-increasing order and the top-five property.
- Importance.SortDesc: the body is a stable sort, but the contract does not state the order of entries with equal weights. It states only non-increasing order and permutation.
- Importance.DictFrom: when keys repeat, the contract does not state that each key keeps the position of its first occurrence. It states key order only for pairs with distinct keys, where the result is the pairs themselves.
- Forecast.TargetPrice and Forecast.Interval: the bounds are stated for probabilities in [0, 1] and, for the interval, for non-negative prices.
- Processing.DataProcessor.AddIndicators: the indicator library's columns replace earlier ones instead of being appended again, which matches pandas_ta overwriting same-named columns.
