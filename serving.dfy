/** The prediction service of `src/app_mlflow.py`: model resolution with an ordered fallback
    (registry, then local file), the state written once at startup, the health and model-info
    reports, and the scoring endpoint's input assembly, output normalisation and threshold.
    The registry, the file system and the model itself are parameters; HTTP routing and request
    validation are not modelled. */
module Serving {
  import opened Wrappers
  import opened Text
  import Training

  const MODEL_URI: string := "models:/admission_lr@champion"
  /** The column order the model was trained with. */
  const FEATURE_ORDER: seq<string> := ["2345-7", "718-7"]
  const THRESHOLD: real := 0.5
  const REGISTRY_NOTE: string := "mlflow.pyfunc"
  const FALLBACK_NOTE: string := "joblib fallback"
  const PREDICTION_FAILED: string := "Prediction failed: "

  /** The single-row frame handed to the model: column names and one row of values. */
  datatype Frame = Frame(columns: seq<string>, values: seq<real>)

  /** How a loaded model scores a frame: an sklearn estimator with `predict_proba` (the class
      probabilities of the row), or a model with only `predict` (its raw output, flattened).
      Either call may raise. */
  datatype Scorer =
    | HasProba(predictProba: Frame -> Result<seq<real>, string>)
    | PredictOnly(predict: Frame -> Result<seq<real>, string>)

  /** A loaded model; `flavors` is the flavour list of its pyfunc metadata, when it has one. */
  datatype Model = Model(scorer: Scorer, flavors: Option<seq<string>>)

  /** `{"model": ..., "source": ..., "note": ...}`. */
  datatype ModelBundle = ModelBundle(model: Model, source: string, note: string)

  // ---------------------------------------------------------------------------------------
  // Model resolution
  // ---------------------------------------------------------------------------------------

  /** The steps `_load_model` takes, in order. */
  datatype Attempt = RegistryLoad | LocalFileCheck | LocalLoad

  datatype Resolution = Resolution(bundle: Result<ModelBundle, string>, attempts: seq<Attempt>)

  /** `_load_model`: the registry outcome, whether the local file exists, and what loading it
      gives. Returns the bundle or the RuntimeError message, and the steps taken. */
  function LoadModel(registry: Result<Model, string>, fallbackPath: string, fileExists: bool,
                     local: Result<Model, string>): (l: Resolution)
    ensures |l.attempts| >= 1 && l.attempts[0] == RegistryLoad
    ensures registry.Success? ==>
      l == Resolution(Success(ModelBundle(registry.value, MODEL_URI, REGISTRY_NOTE)), [RegistryLoad])
    ensures registry.Failure? ==> |l.attempts| >= 2 && l.attempts[..2] == [RegistryLoad, LocalFileCheck]
    ensures LocalLoad in l.attempts <==> registry.Failure? && fileExists
    ensures registry.Failure? && fileExists && local.Success? ==>
      l.bundle == Success(ModelBundle(local.value, fallbackPath, FALLBACK_NOTE))
    ensures l.bundle.Failure? <==> registry.Failure? && (!fileExists || local.Failure?)
  {
    match registry
    case Success(m) => Resolution(Success(ModelBundle(m, MODEL_URI, REGISTRY_NOTE)), [RegistryLoad])
    case Failure(e) =>
      var mlErr := "MLflow load failed: " + e;
      if fileExists then
        match local
        case Success(m) =>
          Resolution(Success(ModelBundle(m, fallbackPath, FALLBACK_NOTE)), [RegistryLoad, LocalFileCheck, LocalLoad])
        case Failure(le) =>
          Resolution(Failure(mlErr + " ; Joblib fallback failed: " + le), [RegistryLoad, LocalFileCheck, LocalLoad])
      else
        var jbErr := "Joblib file not found: " + fallbackPath;
        // The RuntimeError raised inside the try is caught by the same handler and wrapped again.
        var inner := mlErr + " ; " + jbErr;
        Resolution(Failure(mlErr + " ; Joblib fallback failed: " + inner), [RegistryLoad, LocalFileCheck])
  }

  /** `a` occurs at two separate places in `b`. */
  ghost predicate OccursTwice(a: string, b: string) {
    exists x: string, y: string, z: string :: b == x + a + y + a + z
  }

  /** When the registry fails and the local file exists but will not load, the message
      carries both the registry error and the load error. */
  lemma LoadFailureMessageLoadError(registryError: string, fallbackPath: string, loadError: string)
    ensures var l := LoadModel(Failure(registryError), fallbackPath, true, Failure(loadError));
      && l.bundle.Failure?
      && IsInfix("MLflow load failed: " + registryError, l.bundle.error)
      && IsInfix(loadError, l.bundle.error)
  {
    var mlErr := "MLflow load failed: " + registryError;
    var mid := " ; Joblib fallback failed: ";
    var msg := LoadModel(Failure(registryError), fallbackPath, true, Failure(loadError)).bundle.error;
    assert msg == mlErr + mid + loadError;
    InfixWitness(msg, [], mlErr, mid + loadError);
    InfixWitness(msg, mlErr + mid, loadError, []);
  }

  /** When the registry fails and the local file is missing, the message carries the registry
      error and the missing-file text; the registry text is there twice, because the inner
      RuntimeError is caught and wrapped again by the same handler. */
  lemma LoadFailureMessageMissingFile(registryError: string, fallbackPath: string, local: Result<Model, string>)
    ensures var l := LoadModel(Failure(registryError), fallbackPath, false, local);
      && l.bundle.Failure?
      && IsInfix("Joblib file not found: " + fallbackPath, l.bundle.error)
      && OccursTwice("MLflow load failed: " + registryError, l.bundle.error)
  {
    var mlErr := "MLflow load failed: " + registryError;
    var mid := " ; Joblib fallback failed: ";
    var msg := LoadModel(Failure(registryError), fallbackPath, false, local).bundle.error;
    var jbErr := "Joblib file not found: " + fallbackPath;
    var sep := " ; ";
    assert msg == mlErr + mid + (mlErr + sep + jbErr);
    InfixWitness(msg, mlErr + mid + mlErr + sep, jbErr, []);
    TwiceWitness(msg, [], mlErr, mid, sep + jbErr);
  }

  lemma InfixWitness(b: string, x: string, a: string, y: string)
    requires b == x + a + y
    ensures IsInfix(a, b)
  {
  }

  lemma TwiceWitness(b: string, x: string, a: string, y: string, z: string)
    requires b == x + a + y + a + z
    ensures OccursTwice(a, b)
  {
  }

  // ---------------------------------------------------------------------------------------
  // Scoring
  // ---------------------------------------------------------------------------------------

  /** The request body: two optional lab values. */
  datatype AdmissionRequest = AdmissionRequest(glucose: Option<real>, hemoglobin: Option<real>)

  /** The request's value for a feature, by LOINC code, an absent value read as 0.0. */
  function FieldFor(req: AdmissionRequest, code: string): real {
    if code == "2345-7" then req.glucose.GetOr(0.0)
    else if code == "718-7" then req.hemoglobin.GetOr(0.0)
    else 0.0
  }

  /** `pd.DataFrame([[f_glu, f_hgb]], columns=FEATURE_ORDER)`. */
  function InputRow(req: AdmissionRequest): (row: Frame)
    ensures row.columns == FEATURE_ORDER && |row.values| == |FEATURE_ORDER|
    ensures forall j :: 0 <= j < |row.columns| ==> row.values[j] == FieldFor(req, row.columns[j])
  {
    Frame(FEATURE_ORDER, [req.glucose.GetOr(0.0), req.hemoglobin.GetOr(0.0)])
  }

  /** An absent field becomes 0.0 and a supplied one passes through, glucose first and
      hemoglobin second; `{2345-7: 160, 718-7: 12.0}` gives the row `[160.0, 12.0]`. */
  lemma InputRowDefaults(g: real, h: real)
    ensures InputRow(AdmissionRequest(None, None)).values == [0.0, 0.0]
    ensures InputRow(AdmissionRequest(Some(g), None)).values == [g, 0.0]
    ensures InputRow(AdmissionRequest(None, Some(h))).values == [0.0, h]
    ensures InputRow(AdmissionRequest(Some(160.0), Some(12.0))) == Frame(["2345-7", "718-7"], [160.0, 12.0])
  {
  }

  /** Whenever both codes occur in the curated table, the serving column order is the feature
      list the training run saved. */
  lemma ServingOrderIsTrainingOrder(rows: seq<Training.LabRow>)
    requires exists r :: r in rows && r.loinc == "2345-7"
    requires exists r :: r in rows && r.loinc == "718-7"
    ensures Training.Train(rows).savedFeatureList == FEATURE_ORDER
  {
    Training.FeatureColumnChoice(rows);
  }

  /** The probability `predict` derives from the model's output. */
  function Probability(s: Scorer, row: Frame): (r: Result<real, string>)
    ensures s.HasProba? ==>
      (r.Success? <==> s.predictProba(row).Success? && |s.predictProba(row).value| >= 2)
    ensures s.HasProba? && r.Success? ==> r.value == s.predictProba(row).value[1]
    ensures s.PredictOnly? ==>
      (r.Success? <==> s.predict(row).Success? && |s.predict(row).value| >= 1)
    ensures s.PredictOnly? && r.Success? ==>
      var y0 := s.predict(row).value[0];
      && 0.0 <= r.value <= 1.0
      && (0.0 <= y0 <= 1.0 ==> r.value == y0)
      && (y0 > 1.0 ==> r.value == 1.0)
      && (y0 < 0.0 ==> r.value == 0.0)
  {
    match s
    case HasProba(proba) =>
      (match proba(row)
       case Failure(e) => Failure(e)
       case Success(p) =>
         if |p| < 2 then Failure("index 1 is out of bounds for axis 1 with size " + (if |p| == 0 then "0" else "1"))
         else Success(p[1]))
    case PredictOnly(predict) =>
      (match predict(row)
       case Failure(e) => Failure(e)
       case Success(yhat) =>
         if |yhat| == 0 then Failure("index 0 is out of bounds for axis 0 with size 0")
         else if 0.0 <= yhat[0] <= 1.0 then Success(yhat[0])
         else Success(if yhat[0] >= THRESHOLD then 1.0 else 0.0))
  }

  /** `int(proba >= 0.5)`. */
  function Decide(probability: real): (predicted: nat)
    ensures predicted <= 1
    ensures predicted == 1 <==> probability >= 0.5
  {
    if probability >= THRESHOLD then 1 else 0
  }

  /** The successful response body. */
  datatype Prediction = Prediction(
    ok: bool,
    modelSource: string,
    features: map<string, real>,
    probability: real,
    predictedLabel: nat,
    threshold: real,
    featureOrder: seq<string>)

  /** The body of `predict` inside its try block, given the loaded bundle. */
  function Score(b: ModelBundle, req: AdmissionRequest): (r: Result<Prediction, string>)
    ensures r.Success? <==> Probability(b.model.scorer, InputRow(req)).Success?
    ensures r.Success? ==>
      && r.value.ok
      && r.value.modelSource == b.source
      && r.value.probability == Probability(b.model.scorer, InputRow(req)).value
      && (r.value.predictedLabel == 1 <==> r.value.probability >= 0.5)
      && r.value.predictedLabel <= 1
      && r.value.threshold == 0.5
      && r.value.featureOrder == FEATURE_ORDER
      && r.value.features.Keys == {"2345-7", "718-7"}
      && forall j :: 0 <= j < |FEATURE_ORDER| ==>
           r.value.features[FEATURE_ORDER[j]] == InputRow(req).values[j]
  {
    var row := InputRow(req);
    match Probability(b.model.scorer, row)
    case Failure(e) => Failure(e)
    case Success(p) =>
      Success(Prediction(true, b.source, map["2345-7" := row.values[0], "718-7" := row.values[1]],
                         p, Decide(p), THRESHOLD, FEATURE_ORDER))
  }

  /** A probability of exactly 0.5 is labelled 1; a model without `predict_proba` whose output
      is empty fails rather than answering. */
  lemma ScoreEdgeCases(b: ModelBundle, req: AdmissionRequest)
    ensures Score(b, req).Success? && Score(b, req).value.probability == 0.5 ==> Score(b, req).value.predictedLabel == 1
    ensures b.model.scorer.PredictOnly? && b.model.scorer.predict(InputRow(req)) == Success([]) ==>
      Score(b, req).Failure?
  {
  }

  // ---------------------------------------------------------------------------------------
  // The service
  // ---------------------------------------------------------------------------------------

  datatype HttpError = HttpError(status: nat, detail: string)

  datatype HealthReport = HealthReport(ok: bool, modelSource: string, note: string, features: seq<string>)

  datatype ModelInfoReport = ModelInfoReport(modelSource: string, features: seq<string>, flavors: Option<seq<string>>)

  /** The application: `app.state.model_bundle`, absent until startup has stored it. */
  class PredictionService {
    var bundle: Option<ModelBundle>

    constructor ()
      ensures bundle == None
    {
      bundle := None;
    }

    /** `startup_load`: store the resolved bundle; a resolution error aborts startup and the
        state is left as it was. */
    method StartupLoad(registry: Result<Model, string>, fallbackPath: string, fileExists: bool,
                       local: Result<Model, string>) returns (failure: Option<string>)
      modifies this
      ensures var l := LoadModel(registry, fallbackPath, fileExists, local);
        && (l.bundle.Success? ==> bundle == Some(l.bundle.value) && failure == None)
        && (l.bundle.Failure? ==> bundle == old(bundle) && failure == Some(l.bundle.error))
    {
      var l := LoadModel(registry, fallbackPath, fileExists, local);
      match l.bundle
      case Success(b) =>
        bundle := Some(b);
        failure := None;
      case Failure(e) =>
        failure := Some(e);
    }

    /** `GET /health`: the active model source and note. Reading the state before startup
        raises outside any handler, which the framework turns into a 500. */
    method Health() returns (r: Result<HealthReport, HttpError>)
      ensures bundle.None? <==> r.Failure?
      ensures r.Failure? ==> r.error.status == 500
      ensures bundle.Some? ==> (r.Success? && r.value.ok && r.value.modelSource == bundle.value.source
        && r.value.note == bundle.value.note && r.value.features == FEATURE_ORDER)
    {
      match bundle
      case None => r := Failure(HttpError(500, "Internal Server Error"));
      case Some(b) => r := Success(HealthReport(true, b.source, b.note, FEATURE_ORDER));
    }

    /** `GET /model-info`: source, features and, best effort, the metadata flavours. */
    method ModelInfo() returns (r: Result<ModelInfoReport, HttpError>)
      ensures bundle.None? <==> r.Failure?
      ensures r.Failure? ==> r.error.status == 500
      ensures bundle.Some? ==> (r.Success? && r.value.modelSource == bundle.value.source
        && r.value.features == FEATURE_ORDER && r.value.flavors == bundle.value.model.flavors)
    {
      match bundle
      case None => r := Failure(HttpError(500, "Internal Server Error"));
      case Some(b) => r := Success(ModelInfoReport(b.source, FEATURE_ORDER, b.model.flavors));
    }

    /** `POST /predict/admission`: any failure inside, including a missing bundle, becomes a
        500 whose detail is "Prediction failed: " and the error text. */
    method Predict(req: AdmissionRequest) returns (r: Result<Prediction, HttpError>)
      ensures bundle.None? ==> r.Failure?
      ensures bundle.Some? ==> (r.Success? <==> Score(bundle.value, req).Success?)
      ensures bundle.Some? && r.Success? ==> r.value == Score(bundle.value, req).value
      ensures bundle.Some? && r.Failure? ==>
        r.error == HttpError(500, PREDICTION_FAILED + Score(bundle.value, req).error)
      ensures r.Failure? ==> r.error.status == 500 && PREDICTION_FAILED <= r.error.detail
    {
      match bundle
      case None =>
        r := Failure(HttpError(500, PREDICTION_FAILED + "'State' object has no attribute 'model_bundle'"));
      case Some(b) =>
        match Score(b, req)
        case Success(p) => r := Success(p);
        case Failure(e) => r := Failure(HttpError(500, PREDICTION_FAILED + e));
    }
  }
}
