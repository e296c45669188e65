/**
 * The prediction half of the upload endpoint and the endpoint itself
 * (services/backend/app/controller/DataModelController.py): the two feature tables lose
 * their bookkeeping columns and become one prepared table per method, every configured
 * classifier runs on its table, the results are flattened into the maps the frontend reads
 * and merged into the frame previews, and `store` answers each failure with its envelope.
 *
 * The classifiers, scalers, PCA and the hybrid selection are opaque: each is a function from
 * a table to a result, an `Err` standing for the exception it raises.
 */
module Predictions {
  import opened Wrappers
  import opened Text
  import opened OrderedDict
  import opened Quadrants
  import opened Response
  import opened BackendHelper
  import FrameFeatures
  import StoreRequest
  import Preprocessing
  import NaturalSort

  /** `UPLOAD_FOLDER`, `UPLOAD_FOLDER_VIDEO`, `UPLOAD_FOLDER_IMAGE`, `UPLOAD_FOLDER_DATA` (services/backend/config.py). */
  const UPLOAD_FOLDER := "assets"
  const UPLOAD_FOLDER_VIDEO := "videos"
  const UPLOAD_FOLDER_IMAGE := "images"
  const UPLOAD_FOLDER_DATA := "data"

  /** The bookkeeping columns every row carries and no classifier sees. */
  const EXCEPT_COLUMNS: seq<string> := ["Frame", "Folder Path", "Label"]

  const EMPTY_DATA_MESSAGE := "Empty data frame."
  const NO_FEATURES_MESSAGE := "No faces detected or features extracted."
  const INVALID_FORM_MESSAGE := "Invalid request form validation"
  const INTERNAL_ERROR_PREFIX := "An internal server error occurred: "

  /** The method keys of the one training setup, `random_sampling`, of `GLOBAL_MODELS`. */
  const GLOBAL_METHODS: seq<string> := ["fitur_all_component", "fitur_pca_component", "4qmv_all_component", "full_model_lda"]

  /** The keys of the file links `_save_feature_dataframes` returns. */
  const CSV_KEYS: seq<string> := ["nilai_fitur_asli_csv", "nilai_fitur_asli_xlsx", "nilai_4qmv_csv", "nilai_4qmv_xlsx"]

  // ---------------------------------------------------------------------------
  // Tables and feature sets

  /** A data frame built from a list of row dicts. */
  type Table = seq<Row>

  /** `DataFrame.empty` for a frame built from row dicts: its columns are the keys any row
      has, so it is empty when it has no row or every row is an empty dict. */
  predicate Empty(t: Table)
  {
    forall i :: 0 <= i < |t| ==> t[i] == []
  }

  /** The row without the given columns, the other entries in order. */
  function Without(row: Row, columns: seq<string>): Row
  {
    if row == [] then []
    else if row[0].0 in columns then Without(row[1..], columns)
    else [row[0]] + Without(row[1..], columns)
  }

  /** `df.drop(columns=columns)`. */
  function Drop(t: Table, columns: seq<string>): (r: Table)
    ensures |r| == |t|
  {
    seq(|t|, i requires 0 <= i < |t| => Without(t[i], columns))
  }

  /** A row loses everything under `Without` exactly when all its columns are dropped ones. */
  lemma {:induction false} WithoutEmpty(row: Row, columns: seq<string>)
    ensures Without(row, columns) == [] <==> forall j :: 0 <= j < |row| ==> row[j].0 in columns
  {
    if row != [] {
      WithoutEmpty(row[1..], columns);
      if row[0].0 in columns {
        forall j | 0 <= j < |row| && (forall j' :: 0 <= j' < |row| - 1 ==> row[1..][j'].0 in columns)
          ensures row[j].0 in columns
        {
          if j > 0 {
            assert row[j] == row[1..][j - 1];
          }
        }
      }
    }
  }

  /** A prepared table is empty, and its classifier answers "Empty data frame.", exactly
      when no row of the extracted table holds a feature column. */
  lemma {:induction false} DropEmptyIffNoFeatures(t: Table)
    ensures Empty(Drop(t, EXCEPT_COLUMNS)) <==>
      forall i, j :: 0 <= i < |t| && 0 <= j < |t[i]| ==> t[i][j].0 in EXCEPT_COLUMNS
  {
    forall i | 0 <= i < |t|
      ensures Drop(t, EXCEPT_COLUMNS)[i] == [] <==> forall j :: 0 <= j < |t[i]| ==> t[i][j].0 in EXCEPT_COLUMNS
    {
      WithoutEmpty(t[i], EXCEPT_COLUMNS);
    }
  }

  /** A step that transforms a table and may raise: a scaler, the PCA model, the hybrid
      selection (which yields an empty table when its preprocessors are missing). */
  type Transform = Table -> Result<Table>

  /** `_prepare_feature_sets`: the feature and quadrant tables without the bookkeeping
      columns, the PCA projection when the default scaler and the PCA model are loaded
      (`pca`), the feature table again for LDA, and the hybrid selection when its info and
      scaler are loaded (`hybrid`). The keys are distinct, so each assignment appends. An
      exception of PCA comes first, since it runs first. */
  function PrepareFeatureSets(featureRows: Table, quadrantRows: Table, pca: Option<Transform>, hybrid: Option<Transform>)
    : (r: Result<Dict<Table>>)
    ensures var all := Drop(featureRows, EXCEPT_COLUMNS);
      && (r.Err? <==> (pca.Some? && pca.value(all).Err?) || (hybrid.Some? && hybrid.value(all).Err?))
      && (pca.Some? && pca.value(all).Err? ==> r == Err(pca.value(all).message))
  {
    var all := Drop(featureRows, EXCEPT_COLUMNS);
    var projected := if pca.Some? then pca.value(all) else Ok([]);
    var selected := if hybrid.Some? then hybrid.value(all) else Ok([]);
    if projected.Err? then Err(projected.message)
    else if selected.Err? then Err(selected.message)
    else
      Ok(FeatureSetsOf(all, Drop(quadrantRows, EXCEPT_COLUMNS),
                       if pca.Some? then Some(projected.value) else None,
                       if hybrid.Some? then Some(selected.value) else None))
  }

  /** The dictionary `_prepare_feature_sets` builds from its tables. */
  function FeatureSetsOf(all: Table, quadrants: Table, projected: Option<Table>, selected: Option<Table>): Dict<Table>
  {
    [("fitur_all_component", all), ("4qmv_all_component", quadrants)]
    + (if projected.Some? then [("fitur_pca_component", projected.value)] else [])
    + [("full_model_lda", all)] + (if selected.Some? then [("hybrid_component", selected.value)] else [])
  }

  lemma {:induction false} FeatureSetsOfKeys(all: Table, quadrants: Table, projected: Option<Table>, selected: Option<Table>)
    ensures Keys(FeatureSetsOf(all, quadrants, projected, selected))
         == ["fitur_all_component", "4qmv_all_component"] + (if projected.Some? then ["fitur_pca_component"] else [])
            + ["full_model_lda"] + (if selected.Some? then ["hybrid_component"] else [])
  {
    var base := [("fitur_all_component", all), ("4qmv_all_component", quadrants)];
    var mid: Dict<Table> := if projected.Some? then [("fitur_pca_component", projected.value)] else [];
    var tail: Dict<Table> := if selected.Some? then [("hybrid_component", selected.value)] else [];
    assert FeatureSetsOf(all, quadrants, projected, selected) == base + mid + [("full_model_lda", all)] + tail;
    assert Keys(base) == ["fitur_all_component", "4qmv_all_component"];
    assert Keys(mid) == if projected.Some? then ["fitur_pca_component"] else [];
    assert Keys(tail) == if selected.Some? then ["hybrid_component"] else [];
    assert Keys([("full_model_lda", all)]) == ["full_model_lda"];
    KeysAppend(base, mid);
    KeysAppend(base + mid, [("full_model_lda", all)]);
    KeysAppend(base + mid + [("full_model_lda", all)], tail);
  }

  lemma {:induction false} FeatureSetsOfTables(all: Table, quadrants: Table, projected: Option<Table>, selected: Option<Table>)
    ensures var d := FeatureSetsOf(all, quadrants, projected, selected);
      && "fitur_all_component" in Keys(d) && "4qmv_all_component" in Keys(d) && "full_model_lda" in Keys(d)
      && Get(d, "fitur_all_component") == Get(d, "full_model_lda") == all
      && Get(d, "4qmv_all_component") == quadrants
  {
    FeatureSetsOfFront(all, quadrants, projected, selected);
    FeatureSetsOfLda(all, quadrants, projected, selected);
  }

  lemma {:induction false} FeatureSetsOfFront(all: Table, quadrants: Table, projected: Option<Table>, selected: Option<Table>)
    ensures var d := FeatureSetsOf(all, quadrants, projected, selected);
      && "fitur_all_component" in Keys(d) && "4qmv_all_component" in Keys(d)
      && Get(d, "fitur_all_component") == all && Get(d, "4qmv_all_component") == quadrants
  {
    var d := FeatureSetsOf(all, quadrants, projected, selected);
    var first: Dict<Table> := [("fitur_all_component", all)];
    var rest := (if projected.Some? then [("fitur_pca_component", projected.value)] else [])
                + [("full_model_lda", all)] + (if selected.Some? then [("hybrid_component", selected.value)] else []);
    assert d == [] + first + ([("4qmv_all_component", quadrants)] + rest);
    assert d == first + [("4qmv_all_component", quadrants)] + rest;
    GetFirst([], "fitur_all_component", all, [("4qmv_all_component", quadrants)] + rest);
    assert Keys(first) == ["fitur_all_component"];
    GetFirst(first, "4qmv_all_component", quadrants, rest);
  }

  lemma {:induction false} FeatureSetsOfLda(all: Table, quadrants: Table, projected: Option<Table>, selected: Option<Table>)
    ensures var d := FeatureSetsOf(all, quadrants, projected, selected);
      "full_model_lda" in Keys(d) && Get(d, "full_model_lda") == all
  {
    var front := [("fitur_all_component", all), ("4qmv_all_component", quadrants)]
                 + (if projected.Some? then [("fitur_pca_component", projected.value)] else []);
    var tail: Dict<Table> := if selected.Some? then [("hybrid_component", selected.value)] else [];
    assert FeatureSetsOf(all, quadrants, projected, selected) == front + [("full_model_lda", all)] + tail;
    assert "full_model_lda" !in Keys(front) by {
      forall i | 0 <= i < |front| ensures Keys(front)[i] != "full_model_lda" {
        assert Keys(front)[i] == front[i].0;
      }
    }
    GetFirst(front, "full_model_lda", all, tail);
  }

  /** The prepared tables: both base tables, PCA exactly when it is loaded, LDA on the very
      table the feature method gets, and the hybrid selection exactly when it is loaded. */
  lemma {:induction false} FeatureSetsLayout(featureRows: Table, quadrantRows: Table, pca: Option<Transform>, hybrid: Option<Transform>)
    requires PrepareFeatureSets(featureRows, quadrantRows, pca, hybrid).Ok?
    ensures var d := PrepareFeatureSets(featureRows, quadrantRows, pca, hybrid).value;
      && Keys(d) == ["fitur_all_component", "4qmv_all_component"] + (if pca.Some? then ["fitur_pca_component"] else [])
                    + ["full_model_lda"] + (if hybrid.Some? then ["hybrid_component"] else [])
      && Get(d, "fitur_all_component") == Get(d, "full_model_lda") == Drop(featureRows, EXCEPT_COLUMNS)
      && Get(d, "4qmv_all_component") == Drop(quadrantRows, EXCEPT_COLUMNS)
  {
    var all := Drop(featureRows, EXCEPT_COLUMNS);
    var projected := if pca.Some? then Some(pca.value(all).value) else None;
    var selected := if hybrid.Some? then Some(hybrid.value(all).value) else None;
    assert PrepareFeatureSets(featureRows, quadrantRows, pca, hybrid).value
        == FeatureSetsOf(all, Drop(quadrantRows, EXCEPT_COLUMNS), projected, selected);
    FeatureSetsOfKeys(all, Drop(quadrantRows, EXCEPT_COLUMNS), projected, selected);
    FeatureSetsOfTables(all, Drop(quadrantRows, EXCEPT_COLUMNS), projected, selected);
  }

  // ---------------------------------------------------------------------------
  // One prediction

  /** One method of `GLOBAL_MODELS`: its scaler (`None` for the PCA method), `model.predict`
      and `label_encoder.inverse_transform`; `except_features` is never read. */
  datatype ModelConfig = ModelConfig(scaler: Option<Transform>, predict: Table -> Result<seq<int>>,
                                     decode: seq<int> -> Result<seq<string>>)

  /** Scaling when a scaler is configured, then predicting, then decoding; the first step
      that raises gives the message. */
  function Classify(config: ModelConfig, data: Table): Result<seq<string>>
  {
    var scaled := if config.scaler.Some? then config.scaler.value(data) else Ok(data);
    if scaled.Err? then Err(scaled.message)
    else
      var predicted := config.predict(scaled.value);
      if predicted.Err? then Err(predicted.message) else config.decode(predicted.value)
  }

  /** The fields of a result without an error: the decoded labels, the majority label, the
      per-label counts and the time `model.predict` took. */
  datatype Scored = Scored(decoded: seq<string>, result: Option<string>, list: seq<PredictionCount>, seconds: real)

  /** `{"error": message}` or the four fields. */
  datatype Prediction = Failed(error: string) | Predicted(scored: Scored)

  /** What `get_calculate_from_predict` promises about its two results. */
  ghost predicate Tallied(decoded: seq<string>, result: Option<string>, list: seq<PredictionCount>)
  {
    && Names(list) == Distinct(decoded)
    && (forall j :: 0 <= j < |list| ==> list[j].count == Count(decoded, list[j].name))
    && (forall j :: 0 <= j < |list| ==> |decoded| > 0 && list[j].percentage == Percentage(list[j].count, |decoded|))
    && (result.None? <==> decoded == [])
    && (result.Some? ==> exists k :: IsEarliestMax(list, k) && list[k].name == result.value)
  }

  /** What `_run_single_prediction` answers for a table, `elapsed` being the time measured
      around `model.predict`. */
  ghost predicate SinglePrediction(config: ModelConfig, data: Table, elapsed: real, p: Prediction)
  {
    if Empty(data) then p == Failed(EMPTY_DATA_MESSAGE)
    else
      match Classify(config, data)
      case Err(e) => p == Failed(e)
      case Ok(decoded) =>
        && p.Predicted? && p.scored.decoded == decoded && p.scored.seconds == elapsed
        && Tallied(decoded, p.scored.result, p.scored.list)
  }

  /** `_run_single_prediction(model, scaler, label_encoder, data)`. */
  method RunSinglePrediction(config: ModelConfig, data: Table, elapsed: real) returns (p: Prediction)
    ensures SinglePrediction(config, data, elapsed, p)
  {
    if Empty(data) {
      return Failed(EMPTY_DATA_MESSAGE);
    }
    var input := data;
    if config.scaler.Some? {
      var scaled := config.scaler.value(input);
      if scaled.Err? {
        return Failed(scaled.message);
      }
      input := scaled.value;
    }
    var predictions := config.predict(input);
    if predictions.Err? {
      return Failed(predictions.message);
    }
    var decoded := config.decode(predictions.value);
    if decoded.Err? {
      return Failed(decoded.message);
    }
    var result, list := GetCalculateFromPredict(decoded.value);
    return Predicted(Scored(decoded.value, result, list, elapsed));
  }

  // ---------------------------------------------------------------------------
  // All predictions

  /** The keys of `ks` that are also in `among`, in the order of `ks`. */
  function Present(ks: seq<string>, among: seq<string>): seq<string>
    decreases |ks|
  {
    if ks == [] then []
    else Present(ks[..|ks| - 1], among) + (if ks[|ks| - 1] in among then [ks[|ks| - 1]] else [])
  }

  lemma {:induction false} PresentWithin(ks: seq<string>, among: seq<string>, x: string)
    ensures x in Present(ks, among) ==> x in ks && x in among
  {
    if ks != [] {
      PresentWithin(ks[..|ks| - 1], among, x);
      assert x in ks[..|ks| - 1] ==> x in ks;
    }
  }

  /** The results of one training setup: a result for every configured method with a
      prepared table, in configuration order, timed by `timing(trainKey, method)`. */
  ghost predicate MethodsPredicted(trainKey: string, methods: Dict<ModelConfig>, sets: Dict<Table>,
                             timing: (string, string) -> real, preds: Dict<Prediction>)
    decreases |methods|
  {
    if methods == [] then preds == []
    else
      var m := methods[|methods| - 1];
      var front := methods[..|methods| - 1];
      if m.0 in Keys(sets) then
        && preds != []
        && MethodsPredicted(trainKey, front, sets, timing, preds[..|preds| - 1])
        && preds[|preds| - 1].0 == m.0
        && SinglePrediction(m.1, Get(sets, m.0), timing(trainKey, m.0), preds[|preds| - 1].1)
      else
        MethodsPredicted(trainKey, front, sets, timing, preds)
  }

  /** The structure `MethodsPredicted` gives the last configured method. */
  lemma MethodsPredictedLast(trainKey: string, methods: Dict<ModelConfig>, sets: Dict<Table>,
                             timing: (string, string) -> real, preds: Dict<Prediction>)
    requires methods != [] && MethodsPredicted(trainKey, methods, sets, timing, preds)
    ensures var m := methods[|methods| - 1];
      && (m.0 in Keys(sets) ==>
            preds != [] && preds[|preds| - 1].0 == m.0 &&
            MethodsPredicted(trainKey, methods[..|methods| - 1], sets, timing, preds[..|preds| - 1]))
      && (m.0 !in Keys(sets) ==> MethodsPredicted(trainKey, methods[..|methods| - 1], sets, timing, preds))
  {
  }

  /** The methods that get a result are the configured ones that have a prepared table. */
  lemma {:induction false} PredictedKeys(trainKey: string, methods: Dict<ModelConfig>, sets: Dict<Table>,
                                         timing: (string, string) -> real, preds: Dict<Prediction>)
    requires MethodsPredicted(trainKey, methods, sets, timing, preds)
    ensures Keys(preds) == Present(Keys(methods), Keys(sets))
  {
    if methods != [] {
      var front := methods[..|methods| - 1];
      var m := methods[|methods| - 1];
      PresentLast(methods, Keys(sets));
      MethodsPredictedLast(trainKey, methods, sets, timing, preds);
      if m.0 in Keys(sets) {
        PredictedKeys(trainKey, front, sets, timing, preds[..|preds| - 1]);
        KeysLast(preds);
      } else {
        PredictedKeys(trainKey, front, sets, timing, preds);
      }
    }
  }

  /** `Present` of a configuration's keys, split at its last method. */
  lemma PresentLast(methods: Dict<ModelConfig>, among: seq<string>)
    requires methods != []
    ensures var m := methods[|methods| - 1];
      Present(Keys(methods), among) == Present(Keys(methods[..|methods| - 1]), among) + (if m.0 in among then [m.0] else [])
  {
    KeysLast(methods);
    PresentSnoc(Keys(methods[..|methods| - 1]), methods[|methods| - 1].0, among);
  }

  /** A method whose feature set is missing adds no result. */
  lemma MethodSkipped(trainKey: string, methods: Dict<ModelConfig>, sets: Dict<Table>,
                      timing: (string, string) -> real, preds: Dict<Prediction>, j: nat)
    requires j < |methods| && methods[j].0 !in Keys(sets)
    requires MethodsPredicted(trainKey, methods[..j], sets, timing, preds)
    ensures MethodsPredicted(trainKey, methods[..j + 1], sets, timing, preds)
  {
    assert methods[..j + 1][..j] == methods[..j];
  }

  /** A method whose feature set is there adds its result last. */
  lemma MethodAppended(trainKey: string, methods: Dict<ModelConfig>, sets: Dict<Table>,
                       timing: (string, string) -> real, preds: Dict<Prediction>, j: nat, p: Prediction)
    requires j < |methods| && methods[j].0 in Keys(sets)
    requires MethodsPredicted(trainKey, methods[..j], sets, timing, preds)
    requires SinglePrediction(methods[j].1, Get(sets, methods[j].0), timing(trainKey, methods[j].0), p)
    ensures MethodsPredicted(trainKey, methods[..j + 1], sets, timing, preds + [(methods[j].0, p)])
  {
    assert methods[..j + 1][..j] == methods[..j];
    assert (preds + [(methods[j].0, p)])[..|preds|] == preds;
  }

  /** The methods of one training setup: the inner loop of `_run_all_predictions`. */
  method PredictMethods(trainKey: string, methods: Dict<ModelConfig>, sets: Dict<Table>, timing: (string, string) -> real)
    returns (preds: Dict<Prediction>)
    requires DistinctKeys(methods)
    ensures MethodsPredicted(trainKey, methods, sets, timing, preds)
  {
    preds := [];
    for j := 0 to |methods|
      invariant MethodsPredicted(trainKey, methods[..j], sets, timing, preds)
    {
      var (key, config) := methods[j];
      if key !in Keys(sets) {
        MethodSkipped(trainKey, methods, sets, timing, preds, j);
        continue;
      }
      var result := RunSinglePrediction(config, Get(sets, key), timing(trainKey, key));
      assert key !in Keys(preds) by {
        PredictedKeys(trainKey, methods[..j], sets, timing, preds);
        PresentWithin(Keys(methods[..j]), Keys(sets), key);
        forall a | 0 <= a < j ensures Keys(methods[..j])[a] != key {
          assert Keys(methods[..j])[a] == methods[a].0;
        }
      }
      PutFresh(preds, key, result);
      MethodAppended(trainKey, methods, sets, timing, preds, j, result);
      preds := Put(preds, key, result);
    }
    assert methods[..|methods|] == methods;
  }

  /** The results of every training setup, under the setup's key. */
  ghost predicate AllPredicted(models: Dict<Dict<ModelConfig>>, sets: Dict<Table>, timing: (string, string) -> real,
                         all: Dict<Dict<Prediction>>)
  {
    && |all| == |models|
    && forall i :: 0 <= i < |all| ==>
         all[i].0 == models[i].0 && MethodsPredicted(models[i].0, models[i].1, sets, timing, all[i].1)
  }

  /** `_run_all_predictions(feature_sets)` over the loaded `GLOBAL_MODELS`. */
  method RunAllPredictions(models: Dict<Dict<ModelConfig>>, sets: Dict<Table>, timing: (string, string) -> real)
    returns (all: Dict<Dict<Prediction>>)
    requires DistinctKeys(models)
    requires forall i :: 0 <= i < |models| ==> DistinctKeys(models[i].1)
    ensures AllPredicted(models, sets, timing, all)
  {
    all := [];
    for i := 0 to |models|
      invariant |all| == i
      invariant forall k :: 0 <= k < i ==>
                  all[k].0 == models[k].0 && MethodsPredicted(models[k].0, models[k].1, sets, timing, all[k].1)
    {
      var (trainKey, methods) := models[i];
      var preds := PredictMethods(trainKey, methods, sets, timing);
      assert trainKey !in Keys(all) by {
        forall k | 0 <= k < i ensures Keys(all)[k] != trainKey {
          assert Keys(all)[k] == models[k].0;
        }
      }
      PutFresh(all, trainKey, preds);
      all := Put(all, trainKey, preds);
    }
  }

  lemma {:induction false} PresentSnoc(ks: seq<string>, x: string, among: seq<string>)
    ensures Present(ks + [x], among) == Present(ks, among) + (if x in among then [x] else [])
  {
    assert (ks + [x])[..|ks|] == ks;
  }

  /** Which configured methods the keys `_prepare_feature_sets` produces contain. */
  lemma {:induction false} LayoutMembers(sets: seq<string>, projected: bool, selected: bool)
    requires sets == ["fitur_all_component", "4qmv_all_component"] + (if projected then ["fitur_pca_component"] else [])
                     + ["full_model_lda"] + (if selected then ["hybrid_component"] else [])
    ensures "fitur_all_component" in sets && "4qmv_all_component" in sets && "full_model_lda" in sets
    ensures "fitur_pca_component" in sets <==> projected
  {
    assert sets[0] == "fitur_all_component" && sets[1] == "4qmv_all_component";
    assert sets[if projected then 3 else 2] == "full_model_lda";
    if projected {
      assert sets[2] == "fitur_pca_component";
    } else {
      forall i | 0 <= i < |sets| ensures sets[i] != "fitur_pca_component" {
        assert sets[i] in {"fitur_all_component", "4qmv_all_component", "full_model_lda", "hybrid_component"};
      }
    }
  }

  /** The configured methods filtered by keys that hold the three base tables, and the PCA
      table exactly when `projected`. */
  lemma {:induction false} ConfiguredPresent(sets: seq<string>, projected: bool)
    requires "fitur_all_component" in sets && "4qmv_all_component" in sets && "full_model_lda" in sets
    requires "fitur_pca_component" in sets <==> projected
    ensures Present(GLOBAL_METHODS, sets) ==
      if projected then GLOBAL_METHODS else ["fitur_all_component", "4qmv_all_component", "full_model_lda"]
  {
    var one := ["fitur_all_component"];
    var two := ["fitur_all_component", "fitur_pca_component"];
    var three := ["fitur_all_component", "fitur_pca_component", "4qmv_all_component"];
    assert GLOBAL_METHODS == three + ["full_model_lda"];
    assert three == two + ["4qmv_all_component"];
    assert two == one + ["fitur_pca_component"];
    assert one == [] + ["fitur_all_component"];
    PresentSnoc([], "fitur_all_component", sets);
    PresentSnoc(one, "fitur_pca_component", sets);
    PresentSnoc(two, "4qmv_all_component", sets);
    PresentSnoc(three, "full_model_lda", sets);
  }

  /** With the configured methods, the PCA method gets a result exactly when the PCA model
      is loaded, the three others always do, and the hybrid table is never classified. */
  lemma {:induction false} ConfiguredMethodsPredicted(methods: Dict<ModelConfig>, featureRows: Table, quadrantRows: Table,
                                                      pca: Option<Transform>, hybrid: Option<Transform>)
    requires Keys(methods) == GLOBAL_METHODS
    requires PrepareFeatureSets(featureRows, quadrantRows, pca, hybrid).Ok?
    ensures Present(Keys(methods), Keys(PrepareFeatureSets(featureRows, quadrantRows, pca, hybrid).value)) ==
      if pca.Some? then GLOBAL_METHODS else ["fitur_all_component", "4qmv_all_component", "full_model_lda"]
  {
    FeatureSetsLayout(featureRows, quadrantRows, pca, hybrid);
    var sets := Keys(PrepareFeatureSets(featureRows, quadrantRows, pca, hybrid).value);
    LayoutMembers(sets, pca.Some?, hybrid.Some?);
    ConfiguredPresent(sets, pca.Some?);
  }

  // ---------------------------------------------------------------------------
  // The response maps

  /** The key a result is read under: `f"{metode_key}with{train_key}"`. */
  function ResultKey(methodKey: string, trainKey: string): string
  {
    methodKey + "with" + trainKey
  }

  /** The results of one setup without an error, under their response keys, in order. */
  function FlatMethods(trainKey: string, preds: Dict<Prediction>): Dict<Scored>
    decreases |preds|
  {
    if preds == [] then []
    else
      var last := preds[|preds| - 1];
      FlatMethods(trainKey, preds[..|preds| - 1])
        + (if last.1.Predicted? then [(ResultKey(last.0, trainKey), last.1.scored)] else [])
  }

  /** The results of every setup without an error, in the order the loops visit them. */
  function Flat(all: Dict<Dict<Prediction>>): Dict<Scored>
    decreases |all|
  {
    if all == [] then []
    else Flat(all[..|all| - 1]) + FlatMethods(all[|all| - 1].0, all[|all| - 1].1)
  }

  /** A key is flattened from one setup exactly when a method of it has a result without an error. */
  lemma {:induction false} FlatMethodsKeys(trainKey: string, preds: Dict<Prediction>, key: string)
    ensures key in Keys(FlatMethods(trainKey, preds)) <==>
      exists j :: 0 <= j < |preds| && preds[j].1.Predicted? && key == ResultKey(preds[j].0, trainKey)
  {
    if preds != [] {
      var n := |preds|;
      var front := preds[..n - 1];
      FlatMethodsKeys(trainKey, front, key);
      var last := if preds[n - 1].1.Predicted? then [(ResultKey(preds[n - 1].0, trainKey), preds[n - 1].1.scored)] else [];
      assert Keys(FlatMethods(trainKey, preds)) == Keys(FlatMethods(trainKey, front)) + Keys(last);
      if exists j :: 0 <= j < n && preds[j].1.Predicted? && key == ResultKey(preds[j].0, trainKey) {
        var j :| 0 <= j < n && preds[j].1.Predicted? && key == ResultKey(preds[j].0, trainKey);
        if j < n - 1 {
          assert front[j] == preds[j];
        } else {
          assert Keys(last) == [key];
        }
      }
    }
  }

  /** The response keys are exactly `{method}with{setup}` for the results without an error. */
  lemma {:induction false} FlatKeys(all: Dict<Dict<Prediction>>, key: string)
    ensures key in Keys(PutAll([], Flat(all))) <==>
      exists i, j :: 0 <= i < |all| && 0 <= j < |all[i].1| && all[i].1[j].1.Predicted? && key == ResultKey(all[i].1[j].0, all[i].0)
  {
    PutAllKeys([], Flat(all), key);
    FlatKeysOf(all, key);
    assert HasScored(all, key) <==> exists i, j :: 0 <= i < |all| && 0 <= j < |all[i].1| && all[i].1[j].1.Predicted? && key == ResultKey(all[i].1[j].0, all[i].0);
  }

  /** Some setup has a result without an error whose key is `key`. */
  ghost predicate HasScored(all: Dict<Dict<Prediction>>, key: string)
  {
    exists i, j :: 0 <= i < |all| && 0 <= j < |all[i].1| && all[i].1[j].1.Predicted? && key == ResultKey(all[i].1[j].0, all[i].0)
  }

  lemma {:induction false} ScoredSnoc(all: Dict<Dict<Prediction>>, key: string)
    requires all != []
    ensures var last := all[|all| - 1];
      HasScored(all, key) <==>
        (|| HasScored(all[..|all| - 1], key)
         || exists j :: 0 <= j < |last.1| && last.1[j].1.Predicted? && key == ResultKey(last.1[j].0, last.0))
  {
    var n := |all|;
    var front := all[..n - 1];
    if HasScored(all, key) {
      var i, j :| 0 <= i < n && 0 <= j < |all[i].1| && all[i].1[j].1.Predicted? && key == ResultKey(all[i].1[j].0, all[i].0);
      if i < n - 1 {
        assert front[i] == all[i];
      }
    }
    if HasScored(front, key) {
      var i, j :| 0 <= i < n - 1 && 0 <= j < |front[i].1| && front[i].1[j].1.Predicted? && key == ResultKey(front[i].1[j].0, front[i].0);
      assert front[i] == all[i];
    }
  }

  lemma {:induction false} FlatKeysOf(all: Dict<Dict<Prediction>>, key: string)
    ensures key in Keys(Flat(all)) <==> HasScored(all, key)
  {
    if all != [] {
      var n := |all|;
      var front := all[..n - 1];
      var last := all[n - 1];
      FlatKeysOf(front, key);
      FlatMethodsKeys(last.0, last.1, key);
      ScoredSnoc(all, key);
      assert key in Keys(Flat(all)) <==> key in Keys(Flat(front)) || key in Keys(FlatMethods(last.0, last.1)) by {
        KeysAppend(Flat(front), FlatMethods(last.0, last.1));
      }
    }
  }

  /** With one training setup whose method keys are distinct, no two results share a
      response key. */
  lemma {:induction false} OneSetupKeysDistinct(all: Dict<Dict<Prediction>>)
    requires |all| == 1 && DistinctKeys(all[0].1)
    ensures DistinctKeys(Flat(all))
  {
    assert all[..0] == [];
    FlatMethodsDistinct(all[0].0, all[0].1);
  }

  lemma {:induction false} FlatMethodsDistinct(trainKey: string, preds: Dict<Prediction>)
    requires DistinctKeys(preds)
    ensures DistinctKeys(FlatMethods(trainKey, preds))
  {
    if preds != [] {
      var n := |preds|;
      var front := preds[..n - 1];
      DistinctKeysPrefix(preds, n - 1);
      FlatMethodsDistinct(trainKey, front);
      var last := preds[n - 1];
      if last.1.Predicted? {
        var key := ResultKey(last.0, trainKey);
        assert key !in Keys(FlatMethods(trainKey, front)) by {
          if key in Keys(FlatMethods(trainKey, front)) {
            FlatMethodsKeys(trainKey, front, key);
            var j :| 0 <= j < |front| && front[j].1.Predicted? && key == ResultKey(front[j].0, trainKey);
            assert ResultKey(front[j].0, trainKey) == front[j].0 + ("with" + trainKey);
            assert ResultKey(last.0, trainKey) == last.0 + ("with" + trainKey);
            SuffixCancel(front[j].0, last.0, "with" + trainKey);
            assert false;
          }
        }
        DistinctSnoc(FlatMethods(trainKey, front), key, last.1.scored);
      }
    }
  }

  /** Equal strings with the same suffix have the same prefix. */
  lemma {:induction false} SuffixCancel(a: string, b: string, suffix: string)
    requires a + suffix == b + suffix
    ensures a == b
  {
    assert |a| == |b|;
    assert a == (a + suffix)[..|a|];
    assert b == (b + suffix)[..|b|];
  }

  // ---------------------------------------------------------------------------
  // The previews

  /** `(key, decoded[k])` for every flattened result long enough to hold prediction `k`. */
  function AtFrame(flat: Dict<Scored>, k: nat): Dict<string>
    decreases |flat|
  {
    if flat == [] then []
    else
      var last := flat[|flat| - 1];
      AtFrame(flat[..|flat| - 1], k) + (if k < |last.1.decoded| then [(last.0, last.1.decoded[k])] else [])
  }

  /** The `prediction` entry of the preview whose frame has feature row `k`. */
  function FrameEntry(all: Dict<Dict<Prediction>>, k: nat): Dict<string>
  {
    PutAll([], AtFrame(Flat(all), k))
  }

  /** A preview item: the frame's preview and its `prediction` (`None` for the first frame). */
  datatype PreviewItem = PreviewItem(frame: FrameFeatures.FramePreview, prediction: Option<Dict<string>>)

  /** Preview `i > 0` is paired with feature row `i - 1`, since the first frame gives no row. */
  ghost predicate PreviewsMerged(all: Dict<Dict<Prediction>>, previews: seq<FrameFeatures.FramePreview>, items: seq<PreviewItem>)
  {
    && |items| == |previews|
    && forall i :: 0 <= i < |items| ==>
         items[i] == PreviewItem(previews[i], if i == 0 then None else Some(FrameEntry(all, i - 1)))
  }

  lemma {:induction false} AtFrameKeysWithin(flat: Dict<Scored>, k: nat, key: string)
    ensures key in Keys(AtFrame(flat, k)) ==> key in Keys(flat)
  {
    if flat != [] {
      var n := |flat|;
      var front := flat[..n - 1];
      var last := flat[n - 1];
      AtFrameKeysWithin(front, k, key);
      var tail := if k < |last.1.decoded| then [(last.0, last.1.decoded[k])] else [];
      assert key in Keys(AtFrame(flat, k)) ==> key in Keys(AtFrame(front, k)) || key == last.0 by {
        assert AtFrame(flat, k) == AtFrame(front, k) + tail;
        KeysAppend(AtFrame(front, k), tail);
        assert Keys(tail) == if k < |last.1.decoded| then [last.0] else [];
      }
      assert flat == front + [last];
      SnocHas(front, last, key);
    }
  }

  lemma {:induction false} AtFrameDistinct(flat: Dict<Scored>, k: nat)
    requires DistinctKeys(flat)
    ensures DistinctKeys(AtFrame(flat, k))
  {
    if flat != [] {
      var n := |flat|;
      var front := flat[..n - 1];
      var last := flat[n - 1];
      assert flat == front + [last];
      DistinctSnoc(front, last.0, last.1);
      AtFrameDistinct(front, k);
      if k < |last.1.decoded| {
        AtFrameKeysWithin(front, k, last.0);
        DistinctSnoc(AtFrame(front, k), last.0, last.1.decoded[k]);
      }
    }
  }

  /** In a flattened map with distinct keys, a key has an entry for row `k` exactly when its
      decoded labels reach `k`, and the entry is the `k`-th label. */
  lemma {:induction false} AtFrameAgrees(flat: Dict<Scored>, k: nat, key: string)
    requires DistinctKeys(flat) && key in Keys(flat)
    ensures key in Keys(AtFrame(flat, k)) <==> k < |Get(flat, key).decoded|
    ensures key in Keys(AtFrame(flat, k)) ==> Get(AtFrame(flat, k), key) == Get(flat, key).decoded[k]
    decreases |flat|, 1
  {
    var n := |flat|;
    var front := flat[..n - 1];
    var last := flat[n - 1];
    assert flat == front + [last];
    KeysLast(flat);
    DistinctLast(flat);
    assert Keys(flat) == Keys(front) + [last.0];
    assert DistinctKeys(front) && last.0 !in Keys(front);
    if key == last.0 {
      AtFrameLast(flat, front, last, k);
    } else {
      assert key in Keys(front);
      AtFrameEarlier(flat, front, last, k, key);
    }
  }

  /** A flattened result before the last one keeps its entry. */
  lemma {:induction false} AtFrameEarlier(flat: Dict<Scored>, front: Dict<Scored>, last: (string, Scored), k: nat, key: string)
    requires flat == front + [last]
    requires DistinctKeys(front) && key in Keys(front) && key != last.0
    ensures key in Keys(flat)
    ensures key in Keys(AtFrame(flat, k)) <==> k < |Get(flat, key).decoded|
    ensures key in Keys(AtFrame(flat, k)) ==> Get(AtFrame(flat, k), key) == Get(flat, key).decoded[k]
    decreases |front| + 1, 0
  {
    var earlier := AtFrame(front, k);
    var tail := if k < |last.1.decoded| then [(last.0, last.1.decoded[k])] else [];
    assert AtFrame(flat, k) == earlier + tail by {
      assert flat[..|flat| - 1] == front;
    }
    assert Get(flat, key) == Get(front, key) by {
      GetSnoc(front, last.0, last.1, key);
    }
    AtFrameAgrees(front, k, key);
    if tail != [] {
      assert Keys(earlier + tail) == Keys(earlier) + [last.0] by {
        KeysAppend(earlier, tail);
      }
      if key in Keys(earlier) {
        GetSnoc(earlier, last.0, last.1.decoded[k], key);
      }
    } else {
      assert earlier + tail == earlier;
    }
  }

  /** The last flattened result under a fresh key. */
  lemma {:induction false} AtFrameLast(flat: Dict<Scored>, front: Dict<Scored>, last: (string, Scored), k: nat)
    requires flat == front + [last]
    requires last.0 !in Keys(front)
    ensures last.0 in Keys(flat) && Get(flat, last.0) == last.1
    ensures last.0 in Keys(AtFrame(flat, k)) <==> k < |last.1.decoded|
    ensures last.0 in Keys(AtFrame(flat, k)) ==> Get(AtFrame(flat, k), last.0) == last.1.decoded[k]
  {
    GetSnoc(front, last.0, last.1, last.0);
    var tail := if k < |last.1.decoded| then [(last.0, last.1.decoded[k])] else [];
    assert flat[..|flat| - 1] == front;
    assert AtFrame(flat, k) == AtFrame(front, k) + tail;
    KeysAppend(AtFrame(front, k), tail);
    AtFrameKeysWithin(front, k, last.0);
    if tail != [] {
      GetSnoc(AtFrame(front, k), last.0, last.1.decoded[k], last.0);
    }
  }

  /** The prediction shown on preview `k + 1` under a key is the `k`-th label of that key's
      array prediction, and it is shown exactly when the array reaches that far. */
  lemma {:induction false} PreviewAgreesWithArray(all: Dict<Dict<Prediction>>, k: nat, key: string)
    requires DistinctKeys(Flat(all)) && key in Keys(PutAll([], Flat(all)))
    ensures var scored := PutAll([], Flat(all));
      && (key in Keys(FrameEntry(all, k)) <==> k < |Get(scored, key).decoded|)
      && (key in Keys(FrameEntry(all, k)) ==> Get(FrameEntry(all, k), key) == Get(scored, key).decoded[k])
  {
    PutAllDistinct(Flat(all));
    AtFrameAgrees(Flat(all), k, key);
    AtFrameDistinct(Flat(all), k);
    PutAllDistinct(AtFrame(Flat(all), k));
  }

  // ---------------------------------------------------------------------------
  // Formatting the answer

  /** `response_data`; the four prediction maps are written together under the same key, so
      the model keeps them as one map of `Scored` fields. */
  datatype ApiResponse = ApiResponse(videoUrl: string, videoName: string, csvFile: Dict<string>,
                                     predictions: Dict<Scored>, images: Option<seq<PreviewItem>>)

  /** What `_format_api_response` returns. */
  ghost predicate Formatted(videoUrl: string, videoName: string, csvUrls: Dict<string>, all: Dict<Dict<Prediction>>,
                      previews: seq<FrameFeatures.FramePreview>, withPreview: bool, resp: ApiResponse)
    requires forall k :: k in CSV_KEYS ==> k in Keys(csvUrls)
  {
    && resp.videoUrl == videoUrl && resp.videoName == videoName
    && Keys(resp.csvFile) == CSV_KEYS
    && (forall k :: k in CSV_KEYS ==> Get(resp.csvFile, k) == Get(csvUrls, k))
    && resp.predictions == PutAll([], Flat(all))
    && (resp.images.Some? <==> withPreview)
    && (withPreview ==> PreviewsMerged(all, previews, resp.images.value))
  }

  /** The first double loop of `_format_api_response`. */
  method FlattenPredictions(all: Dict<Dict<Prediction>>) returns (scored: Dict<Scored>)
    ensures scored == PutAll([], Flat(all))
  {
    scored := [];
    ghost var flat: Dict<Scored> := [];
    for i := 0 to |all|
      invariant flat == Flat(all[..i]) && scored == PutAll([], flat)
    {
      var (trainKey, methods) := all[i];
      for j := 0 to |methods|
        invariant flat == Flat(all[..i]) + FlatMethods(trainKey, methods[..j])
        invariant scored == PutAll([], flat)
      {
        var (methodKey, result) := methods[j];
        assert methods[..j + 1][..j] == methods[..j];
        if result.Failed? {
          continue;
        }
        var key := ResultKey(methodKey, trainKey);
        PutAllSnoc([], flat, key, result.scored);
        flat := flat + [(key, result.scored)];
        scored := Put(scored, key, result.scored);
      }
      assert methods[..|methods|] == methods;
      assert all[..i + 1][..i] == all[..i];
    }
    assert all[..|all|] == all;
  }

  /** One more flattened result adds its prediction for frame `k`, when it has one. */
  lemma {:induction false} FrameEntryStep(flat: Dict<Scored>, key: string, s: Scored, k: nat, entry: Dict<string>)
    requires entry == PutAll([], AtFrame(flat, k))
    ensures PutAll([], AtFrame(flat + [(key, s)], k))
      == if k < |s.decoded| then Put(entry, key, s.decoded[k]) else entry
  {
    assert (flat + [(key, s)])[..|flat|] == flat;
    if k < |s.decoded| {
      PutAllSnoc([], AtFrame(flat, k), key, s.decoded[k]);
    } else {
      assert AtFrame(flat + [(key, s)], k) == AtFrame(flat, k) + [];
      assert AtFrame(flat, k) + [] == AtFrame(flat, k);
    }
  }

  /** The results of the first `j + 1` methods: those of the first `j`, then the `j`-th's
      when it predicted. */
  lemma {:induction false} FlatMethodsPrefix(trainKey: string, methods: Dict<Prediction>, j: nat)
    requires j < |methods|
    ensures FlatMethods(trainKey, methods[..j + 1])
         == FlatMethods(trainKey, methods[..j])
            + (if methods[j].1.Predicted? then [(ResultKey(methods[j].0, trainKey), methods[j].1.scored)] else [])
  {
    assert methods[..j + 1][..j] == methods[..j];
  }

  /** The inner loop of the preview merge: one setup's results add their predictions for frame `k`. */
  method SetupFrameEntries(trainKey: string, methods: Dict<Prediction>, k: nat, ghost flat: Dict<Scored>, entry: Dict<string>)
    returns (next: Dict<string>)
    requires entry == PutAll([], AtFrame(flat, k))
    ensures next == PutAll([], AtFrame(flat + FlatMethods(trainKey, methods), k))
  {
    next := entry;
    ghost var seen: Dict<Scored> := flat;
    for j := 0 to |methods|
      invariant seen == flat + FlatMethods(trainKey, methods[..j])
      invariant next == PutAll([], AtFrame(seen, k))
    {
      var (methodKey, result) := methods[j];
      FlatMethodsPrefix(trainKey, methods, j);
      if result.Failed? {
        continue;
      }
      var key := ResultKey(methodKey, trainKey);
      FrameEntryStep(seen, key, result.scored, k, next);
      if k < |result.scored.decoded| {
        next := Put(next, key, result.scored.decoded[k]);
      }
      assert flat + FlatMethods(trainKey, methods[..j + 1]) == seen + [(key, result.scored)];
      seen := seen + [(key, result.scored)];
    }
    assert methods[..|methods|] == methods;
  }

  /** The `prediction_entry` of the preview whose frame has feature row `k`. */
  method FramePrediction(all: Dict<Dict<Prediction>>, k: nat) returns (entry: Dict<string>)
    ensures entry == FrameEntry(all, k)
  {
    entry := [];
    for i := 0 to |all|
      invariant entry == PutAll([], AtFrame(Flat(all[..i]), k))
    {
      var (trainKey, methods) := all[i];
      entry := SetupFrameEntries(trainKey, methods, k, Flat(all[..i]), entry);
      assert all[..i + 1][..i] == all[..i];
    }
    assert all[..|all|] == all;
  }

  /** No link name repeats an earlier one. */
  lemma CsvKeyFirst(i: nat)
    requires i < |CSV_KEYS|
    ensures CSV_KEYS[i] !in CSV_KEYS[..i]
  {
  }

  /** The `csv_file` map: the four links copied in their fixed order. */
  lemma {:induction false} CsvFileCopied(csvUrls: Dict<string>, csvFile: Dict<string>)
    requires forall k :: k in CSV_KEYS ==> k in Keys(csvUrls)
    requires csvFile == seq(|CSV_KEYS|, i requires 0 <= i < |CSV_KEYS| => (CSV_KEYS[i], Get(csvUrls, CSV_KEYS[i])))
    ensures Keys(csvFile) == CSV_KEYS
    ensures forall k :: k in CSV_KEYS ==> Get(csvFile, k) == Get(csvUrls, k)
  {
    assert Keys(csvFile) == CSV_KEYS;
    forall k | k in CSV_KEYS ensures Get(csvFile, k) == Get(csvUrls, k) {
      var i :| 0 <= i < |CSV_KEYS| && CSV_KEYS[i] == k;
      assert Keys(csvFile[..i]) == CSV_KEYS[..i];
      CsvKeyFirst(i);
      GetIndex(csvFile, i);
    }
  }

  /** The preview loop of `_format_api_response`. */
  method MergePreviews(all: Dict<Dict<Prediction>>, previews: seq<FrameFeatures.FramePreview>)
    returns (items: seq<PreviewItem>)
    ensures PreviewsMerged(all, previews, items)
  {
    items := [];
    for i := 0 to |previews|
      invariant PreviewsMerged(all, previews[..i], items)
    {
      var prediction: Option<Dict<string>> := None;
      if i > 0 {
        var entry := FramePrediction(all, i - 1);
        prediction := Some(entry);
      }
      items := items + [PreviewItem(previews[i], prediction)];
    }
    assert previews[..|previews|] == previews;
  }

  /** `_format_api_response(video_info, csv_urls, predictions_result_all, preview_data_list, with_preview)`. */
  method FormatApiResponse(videoUrl: string, videoName: string, csvUrls: Dict<string>, all: Dict<Dict<Prediction>>,
                           previews: seq<FrameFeatures.FramePreview>, withPreview: bool)
    returns (resp: ApiResponse)
    requires forall k :: k in CSV_KEYS ==> k in Keys(csvUrls)
    ensures Formatted(videoUrl, videoName, csvUrls, all, previews, withPreview, resp)
  {
    var csvFile := seq(|CSV_KEYS|, i requires 0 <= i < |CSV_KEYS| => (CSV_KEYS[i], Get(csvUrls, CSV_KEYS[i])));
    CsvFileCopied(csvUrls, csvFile);
    var predictions := FlattenPredictions(all);
    var images: Option<seq<PreviewItem>> := None;
    if withPreview {
      var items := MergePreviews(all, previews);
      images := Some(items);
    }
    resp := ApiResponse(videoUrl, videoName, csvFile, predictions, images);
  }

  // ---------------------------------------------------------------------------
  // The JSON of the answer

  function StringsJson(ss: seq<string>): Json
  {
    JArray(seq(|ss|, i requires 0 <= i < |ss| => JStr(ss[i])))
  }

  function CountJson(c: PredictionCount): Json
  {
    JObject([("name", JStr(c.name)), ("count", JInt(c.count)), ("percentage", JReal(c.percentage))])
  }

  /** One of the four prediction maps, selected by its response key. */
  function FieldJson(s: Scored, field: string): Json
  {
    if field == "array_predictions" then StringsJson(s.decoded)
    else if field == "result" then MessageJson(s.result)
    else if field == "list_predictions" then JArray(seq(|s.list|, i requires 0 <= i < |s.list| => CountJson(s.list[i])))
    else JReal(s.seconds)
  }

  function Column(predictions: Dict<Scored>, field: string): (r: Dict<Json>)
    ensures Keys(r) == Keys(predictions)
  {
    seq(|predictions|, i requires 0 <= i < |predictions| => (predictions[i].0, FieldJson(predictions[i].1, field)))
  }

  function StringMapJson(d: Dict<string>): Json
  {
    JObject(seq(|d|, i requires 0 <= i < |d| => (d[i].0, JStr(d[i].1))))
  }

  function ComponentJson(c: FrameFeatures.ComponentPreview): Json
  {
    JObject([("url_source", MessageJson(c.urlSource))] + (if c.urlResult.Some? then [("url_result", JStr(c.urlResult.value))] else []))
  }

  function PreviewJson(item: PreviewItem): Json
  {
    var f := item.frame;
    JObject([
      ("name", JStr(f.name)),
      ("url", MessageJson(f.url)),
      ("components", JObject(seq(|f.components|, i requires 0 <= i < |f.components| => (f.components[i].0, ComponentJson(f.components[i].1))))),
      ("prediction", if item.prediction.Some? then StringMapJson(item.prediction.value) else JNull)])
  }

  /** `response_data` as `json.dumps` writes it. */
  function ResponseJson(r: ApiResponse): Json
  {
    JObject([
      ("video", JObject([("url", JStr(r.videoUrl)), ("name", JStr(r.videoName))])),
      ("csv_file", StringMapJson(r.csvFile)),
      ("array_predictions", JObject(Column(r.predictions, "array_predictions"))),
      ("result", JObject(Column(r.predictions, "result"))),
      ("list_predictions", JObject(Column(r.predictions, "list_predictions"))),
      ("testing_times", JObject(Column(r.predictions, "testing_times")))]
      + (if r.images.Some? then [("images", JArray(seq(|r.images.value|, i requires 0 <= i < |r.images.value| => PreviewJson(r.images.value[i]))))] else []))
  }

  /** A field no earlier field shadows is what a client reads under its name. */
  lemma {:induction false} FieldAt(fields: Dict<Json>, i: nat)
    requires i < |fields| && fields[i].0 !in Keys(fields)[..i]
    ensures Field(JObject(fields), fields[i].0) == Some(fields[i].1)
  {
    assert Keys(fields[..i]) == Keys(fields)[..i];
    GetIndex(fields, i);
  }

  /** The fields of `response_data` in the order the handler writes them, before `images`. */
  const RESPONSE_KEYS: seq<string> := ["video", "csv_file", "array_predictions", "result", "list_predictions", "testing_times"]

  lemma {:induction false} ResponseFieldAt(fields: Dict<Json>, i: nat)
    requires 6 <= |fields| && 2 <= i < 6
    requires Keys(fields)[..6] == RESPONSE_KEYS
    ensures Field(JObject(fields), RESPONSE_KEYS[i]) == Some(fields[i].1)
  {
    assert Keys(fields)[..i] == RESPONSE_KEYS[..i];
    assert RESPONSE_KEYS[i] !in RESPONSE_KEYS[..i];
    FieldAt(fields, i);
  }

  lemma {:induction false} ResponseImagesField(fields: Dict<Json>, images: bool)
    requires |fields| == if images then 7 else 6
    requires Keys(fields)[..6] == RESPONSE_KEYS
    requires images ==> fields[6].0 == "images"
    ensures Field(JObject(fields), "images").Some? <==> images
  {
    var ks := Keys(fields);
    assert "images" in ks <==> images by {
      assert ks == ks[..6] + ks[6..];
      assert "images" !in ks[..6];
    }
  }

  /** The four prediction maps of the answer are the columns of the flattened results, and
      `images` is there exactly when previews were asked for. */
  lemma {:induction false} ResponseShape(r: ApiResponse)
    ensures var body := ResponseJson(r);
      && Field(body, "array_predictions") == Some(JObject(Column(r.predictions, "array_predictions")))
      && Field(body, "result") == Some(JObject(Column(r.predictions, "result")))
      && Field(body, "list_predictions") == Some(JObject(Column(r.predictions, "list_predictions")))
      && Field(body, "testing_times") == Some(JObject(Column(r.predictions, "testing_times")))
      && (Field(body, "images").Some? <==> r.images.Some?)
  {
    var fields := ResponseJson(r).fields;
    assert |fields| == if r.images.Some? then 7 else 6;
    assert Keys(fields)[..6] == RESPONSE_KEYS;
    ResponseFieldAt(fields, 2);
    ResponseFieldAt(fields, 3);
    ResponseFieldAt(fields, 4);
    ResponseFieldAt(fields, 5);
    ResponseImagesField(fields, r.images.Some?);

  }

  /** Every key of the answer's maps is `{method}with{setup}` of a result without an
      error, and each such result is there. */
  lemma {:induction false} ResponseKeys(r: ApiResponse, all: Dict<Dict<Prediction>>, key: string)
    requires r.predictions == PutAll([], Flat(all))
    ensures Field(ResponseJson(r), "array_predictions").Some?
    ensures key in Keys(Field(ResponseJson(r), "array_predictions").value.fields) <==>
      exists i, j :: 0 <= i < |all| && 0 <= j < |all[i].1| && all[i].1[j].1.Predicted? && key == ResultKey(all[i].1[j].0, all[i].0)
  {
    ResponseShape(r);
    FlatKeys(all, key);
  }

  // ---------------------------------------------------------------------------
  // The endpoint

  /** The stored video's name: `{base}.{ext}` with the upload's lower-cased last extension,
      renamed to `{base}.avi` when a non-AVI upload is converted. */
  function StoredVideoName(base: string, uploadName: string): (name: string)
    ensures name == base + ".avi"
  {
    var pieces := Split(uploadName, '.');
    var extension := Lower(pieces[|pieces| - 1]);
    if extension != "avi" then base + ".avi" else base + "." + extension
  }

  /** `assets/images/output/{base}`: the directory the frames are written to. */
  function FramesDir(base: string): string
  {
    Preprocessing.PathJoin(Preprocessing.PathJoin(Preprocessing.PathJoin(UPLOAD_FOLDER, UPLOAD_FOLDER_IMAGE), "output"), base)
  }

  /** The public URL of the stored video. */
  function VideoUrl(urlRoot: string, videoName: string): string
  {
    Preprocessing.StaticUrl(urlRoot, Preprocessing.PathJoin(Preprocessing.PathJoin(UPLOAD_FOLDER, UPLOAD_FOLDER_VIDEO), videoName))
  }

  /** The links `_save_feature_dataframes` returns for the four files it writes under
      `assets/data/{base}`. */
  function SavedFileUrls(urlRoot: string, base: string): (urls: Dict<string>)
    ensures Keys(urls) == CSV_KEYS
  {
    var dir := Preprocessing.PathJoin(Preprocessing.PathJoin(UPLOAD_FOLDER, UPLOAD_FOLDER_DATA), base);
    var files := ["nilai-fitur-all-component.csv", "nilai-fitur-all-component.xlsx",
                  "4qmv-all-component.csv", "4qmv-all-component.xlsx"];
    seq(|CSV_KEYS|, i requires 0 <= i < |CSV_KEYS| => (CSV_KEYS[i], Preprocessing.StaticUrl(urlRoot, Preprocessing.PathJoin(dir, files[i]))))
  }

  /** `request_data.errors`: the messages of the `file` field. */
  function FormErrorsJson(errors: seq<string>): Json
  {
    JObject([("file", StringsJson(errors))])
  }

  /** `if error:` after frame extraction: a non-empty message. */
  predicate VideoFailed(frames: Preprocessing.FramesOutcome)
  {
    frames.Frames? && frames.error.Some? && frames.error.value != ""
  }

  /** The frame loop over the frames directory of this upload. */
  function Extracted(env: FrameFeatures.Vision, urlRoot: string, base: string, images: seq<Preprocessing.FrameImage>,
                     withPreview: bool, listing: seq<string>): Option<FrameFeatures.LoopState>
  {
    FrameFeatures.Run(env, urlRoot, FramesDir(base), images, withPreview,
                      FrameFeatures.FrameFiles(env, NaturalSort.SortByNaturalKey(listing)), FrameFeatures.INITIAL)
  }

  /** What `store()` answers once non-empty feature tables exist: the internal-error envelope
      when a projection raises, otherwise 200 "Ok" with every model's results formatted. */
  ghost predicate Answered(urlRoot: string, base: string, videoName: string, featureRows: Table, quadrantRows: Table,
                           previews: seq<FrameFeatures.FramePreview>, withPreview: bool,
                           pca: Option<Transform>, hybrid: Option<Transform>,
                           models: Dict<Dict<ModelConfig>>, timing: (string, string) -> real, response: HttpResponse)
  {
    var sets := PrepareFeatureSets(featureRows, quadrantRows, pca, hybrid);
    && (sets.Err? ==> response == Error(500, Some(INTERNAL_ERROR_PREFIX + sets.message)))
    && (sets.Ok? ==>
          exists all, resp ::
            && AllPredicted(models, sets.value, timing, all)
            && Formatted(VideoUrl(urlRoot, videoName), videoName, SavedFileUrls(urlRoot, base), all,
                         previews, withPreview, resp)
            && response == Success(200, Some("Ok"), ResponseJson(resp)))
  }

  /** The tail of `store()`: feature sets, every prediction, the formatted answer. */
  method Answer(urlRoot: string, base: string, videoName: string, featureRows: Table, quadrantRows: Table,
                previews: seq<FrameFeatures.FramePreview>, withPreview: bool,
                pca: Option<Transform>, hybrid: Option<Transform>,
                models: Dict<Dict<ModelConfig>>, timing: (string, string) -> real)
    returns (response: HttpResponse)
    requires DistinctKeys(models)
    requires forall i :: 0 <= i < |models| ==> DistinctKeys(models[i].1)
    ensures Answered(urlRoot, base, videoName, featureRows, quadrantRows, previews, withPreview, pca, hybrid, models, timing, response)
    ensures response.status == 200 || response.status == 500
  {
    var videoUrl := VideoUrl(urlRoot, videoName);
    var csvUrls := SavedFileUrls(urlRoot, base);
    var sets := PrepareFeatureSets(featureRows, quadrantRows, pca, hybrid);
    if sets.Err? {
      return Error(500, Some(INTERNAL_ERROR_PREFIX + sets.message));
    }
    var all := RunAllPredictions(models, sets.value, timing);
    var resp := FormatApiResponse(videoUrl, videoName, csvUrls, all, previews, withPreview);
    response := Success(200, Some("Ok"), ResponseJson(resp));
  }

  /** What `store()` answers once the frames are on disk: the unbound-variable error when
      the frame loop never bound a feature row, the empty-feature answer, then `Answered`. */
  ghost predicate FramesProcessed(urlRoot: string, base: string, withPreview: bool, images: seq<Preprocessing.FrameImage>,
                                  env: FrameFeatures.Vision, listing: seq<string>,
                                  pca: Option<Transform>, hybrid: Option<Transform>,
                                  models: Dict<Dict<ModelConfig>>, timing: (string, string) -> real, response: HttpResponse)
  {
    var run := Extracted(env, urlRoot, base, images, withPreview, listing);
    && (run.None? ==>
          || response == Error(500, Some(INTERNAL_ERROR_PREFIX + FrameFeatures.UnboundMessage("current_frame_all_features")))
          || response == Error(500, Some(INTERNAL_ERROR_PREFIX + FrameFeatures.UnboundMessage("current_frame_quadran_data"))))
    && (run.Some? && (Empty(run.value.featureRows) || Empty(run.value.quadrantRows)) ==>
          response == Error(500, Some(NO_FEATURES_MESSAGE)))
    && (run.Some? && !Empty(run.value.featureRows) && !Empty(run.value.quadrantRows) ==>
          Answered(urlRoot, base, base + ".avi", run.value.featureRows, run.value.quadrantRows, run.value.previews,
                   withPreview, pca, hybrid, models, timing, response))
  }

  /** What `store()` answers for a valid form: the video failures, then `FramesProcessed`. */
  ghost predicate Processed(urlRoot: string, base: string, withPreview: bool,
                            frames: Preprocessing.FramesOutcome, env: FrameFeatures.Vision, listing: seq<string>,
                            pca: Option<Transform>, hybrid: Option<Transform>,
                            models: Dict<Dict<ModelConfig>>, timing: (string, string) -> real, response: HttpResponse)
  {
    && (frames.Raised? ==> response == Error(500, Some(INTERNAL_ERROR_PREFIX + frames.exception)))
    && (VideoFailed(frames) ==> response == Error(500, frames.error))
    && (frames.Frames? && !VideoFailed(frames) ==>
          FramesProcessed(urlRoot, base, withPreview, frames.images, env, listing, pca, hybrid, models, timing, response))
  }

  /** Steps 2 to 6 of `store()`: features from the frames, the empty check, the answer. */
  method ProcessFrames(urlRoot: string, base: string, videoName: string, withPreview: bool,
                       images: seq<Preprocessing.FrameImage>, env: FrameFeatures.Vision, listing: seq<string>,
                       pca: Option<Transform>, hybrid: Option<Transform>,
                       models: Dict<Dict<ModelConfig>>, timing: (string, string) -> real)
    returns (response: HttpResponse)
    requires videoName == base + ".avi"
    requires DistinctKeys(models)
    requires forall i :: 0 <= i < |models| ==> DistinctKeys(models[i].1)
    ensures FramesProcessed(urlRoot, base, withPreview, images, env, listing, pca, hybrid, models, timing, response)
    ensures response.status == 200 || response.status == 500
  {
    ghost var run := Extracted(env, urlRoot, base, images, withPreview, listing);
    var extraction := FrameFeatures.ExtractFeaturesFromFrames(env, urlRoot, FramesDir(base), listing, images, withPreview);
    assert extraction.Err? <==> run.None?;
    if extraction.Err? {
      return Error(500, Some(INTERNAL_ERROR_PREFIX + extraction.message));
    }
    var featureRows := extraction.value.featureRows;
    var quadrantRows := extraction.value.quadrantRows;
    assert featureRows == run.value.featureRows && quadrantRows == run.value.quadrantRows;
    if Empty(featureRows) || Empty(quadrantRows) {
      return Error(message := Some(NO_FEATURES_MESSAGE));
    }
    response := Answer(urlRoot, base, videoName, featureRows, quadrantRows, extraction.value.previews, withPreview,
                       pca, hybrid, models, timing);
  }

  /** The `try` block of `store()`, after the form has validated. */
  method Process(urlRoot: string, base: string, uploadName: string, withPreview: bool,
                 frames: Preprocessing.FramesOutcome, env: FrameFeatures.Vision, listing: seq<string>,
                 pca: Option<Transform>, hybrid: Option<Transform>,
                 models: Dict<Dict<ModelConfig>>, timing: (string, string) -> real)
    returns (response: HttpResponse)
    requires DistinctKeys(models)
    requires forall i :: 0 <= i < |models| ==> DistinctKeys(models[i].1)
    ensures Processed(urlRoot, base, withPreview, frames, env, listing, pca, hybrid, models, timing, response)
    ensures response.status == 200 || response.status == 500
  {
    var videoName := StoredVideoName(base, uploadName);
    if frames.Raised? {
      return Error(500, Some(INTERNAL_ERROR_PREFIX + frames.exception));
    }
    if frames.error.Some? && frames.error.value != "" {
      return Error(message := frames.error);
    }
    response := ProcessFrames(urlRoot, base, videoName, withPreview, frames.images, env, listing, pca, hybrid, models, timing);
  }

  /** `store()`. `frames` is what `get_frames_by_input_video` gave for the saved video,
      `listing` the frames directory's contents, `base` the `video-{uuid}` name; the
      response is the envelope before serialisation. */
  method Store(urlRoot: string, base: string, file: StoreRequest.FileData, withPreview: bool,
               frames: Preprocessing.FramesOutcome, env: FrameFeatures.Vision, listing: seq<string>,
               pca: Option<Transform>, hybrid: Option<Transform>,
               models: Dict<Dict<ModelConfig>>, timing: (string, string) -> real)
    returns (response: HttpResponse)
    requires DistinctKeys(models)
    requires forall i :: 0 <= i < |models| ==> DistinctKeys(models[i].1)
    ensures response.status == 422 <==> StoreRequest.FileFieldErrors(file) != []
    ensures StoreRequest.FileFieldErrors(file) != [] ==>
      response == Error(422, Some(INVALID_FORM_MESSAGE), FormErrorsJson(StoreRequest.FileFieldErrors(file)))
    ensures StoreRequest.FileFieldErrors(file) == [] ==>
      Processed(urlRoot, base, withPreview, frames, env, listing, pca, hybrid, models, timing, response)
  {
    var errors := StoreRequest.FileFieldErrors(file);
    if errors != [] {
      return Error(422, Some(INVALID_FORM_MESSAGE), FormErrorsJson(errors));
    }
    response := Process(urlRoot, base, file.filename, withPreview, frames, env, listing, pca, hybrid, models, timing);
  }
}
