# Mayo-Demo admission pipeline — a verified model of its deterministic rules

Mayo-Demo is a small clinical machine-learning demonstration. It does the following:

- It loads Synthea FHIR documents into a Neo4j knowledge graph.
- It curates long-format lab results: one row per (patient, encounter, LOINC code, value).
- It derives a demo "admission" label from glucose (LOINC 2345-7) and hemoglobin (LOINC 718-7).
- It pivots the labs into one feature row per encounter and trains classifiers on them.
- It explains one of the classifiers with SHAP.
- It serves a model over HTTP, with an MLflow-registry-then-local-file fallback.

Most of it is glue over pandas, scikit-learn, SHAP, MLflow, FastAPI and Neo4j. This project
models the rules inside that glue, in Dafny, and proves what they guarantee.

| module (file) | models |
|---|---|
| `Wrappers` (wrappers.dfy) | `Option` and `Result` |
| `Text` (text.dfy) | `str.split`, `" ".join`, and "the text after the last separator" |
| `Ordering` (ordering.dfy) | the code-point order of Python strings; sorting with duplicates removed, which is how `pivot_table` orders its index and its columns |
| `Training` (training.dfy) | `src/train_admission.py` |
| `Evaluation` (evaluation.dfy) | `src/evaluate_admission.py` |
| `Serving` (serving.dfy) | `src/app_mlflow.py`: `PredictionService` is a class whose `bundle` field is the application state written at startup |
| `Etl` (etl.dfy) | `src/etl_pipeline.py` |
| `Fhir` (fhir.dfy) | `scripts/load_synthea_neo4j.py`: `Collect` is the imperative collection loop, proved equal to the recursive `CollectFrom`; `Run` and `RunAsWritten` compose it with the drop |
| `Shap` (shap.dfy) | `to_scalar_base` and `pick_2d_shap` of `src/shap_explain.py`, with arrays represented by their shapes |

Modelling choices:

- **Numbers.** Lab values, probabilities and scores are exact `real`s. A NaN is an absent value (`Option`) only where the code tests `pd.notna`.
- **External systems.** The model registry, the local model file, the model's scoring calls, the diagnosis query and the graph's existing node ids are parameters of the functions that use them.
- **Documents.** The FHIR documents are parsed JSON values, given in the order the directory walk visits them. An unreadable file is `None`.

## Model

| member | source | states |
|---|---|---|
| Text.Split | scripts/load_synthea_neo4j.py:34 | `str.split(sep)`: at least one piece, and no piece contains the separator |
| Text.JoinSplit | scripts/load_synthea_neo4j.py:34 | joining the pieces of a split with the separator gives back the original string |
| Text.LastPieceIsSuffixAfterLastSeparator | scripts/load_synthea_neo4j.py:34 | `split("/")[-1]` contains no "/" and is a suffix of the string. With no "/" it is the whole string; otherwise a "/" stands right before it |
| Ordering.Insert | src/train_admission.py:26-32 | inserting into a strictly sorted sequence keeps it strictly sorted, and its elements become the old ones plus the new one |
| Ordering.SortedDistinct | src/train_admission.py:26-32 | the result is strictly sorted, so each value appears once, and holds exactly the input's values |
| Training.AdmitLabel | src/train_admission.py:19-23 | the row label: 1 for glucose ≥ 150 or hemoglobin < 11.5, else 0; specified by `AdmitLabelBoundaries` and `AdmitLabelMonotone` |
| Training.AdmitLabelBoundaries | src/train_admission.py:19-23 | glucose 150 → 1 and 149.99 → 0; hemoglobin 11.5 → 0 and 11.49 → 1; any other code → 0 |
| Training.AdmitLabelMonotone | src/train_admission.py:20-23 | the label is 0 or 1; it never falls as glucose rises or as hemoglobin falls; other codes give 0 |
| Training.PivotKeys | src/train_admission.py:26-32 | the pivot index is sorted by (patient_id, encounter_id), with no duplicates, and holds exactly the keys that occur in the input |
| Training.PivotCodes | src/train_admission.py:26-32 | the LOINC columns are sorted, with no duplicates, and are exactly the codes that occur in the input |
| Training.GroupSums | src/train_admission.py:26-29 | the `pivot_table` group-by accumulation of (sum, count) per (encounter, code); specified by `GroupSumsMeaning` |
| Training.GroupSumsMeaning | src/train_admission.py:26-29 | the group-by accumulation has an entry for (key, code) exactly when that group has values, and the entry holds their sum and count |
| Training.GroupValuesNonEmpty | src/train_admission.py:26-32 | a group has values exactly when some input row has that key and code |
| Training.Pivot | src/train_admission.py:26-32 | one row per pivot key, one cell per LOINC column |
| Training.PivotRowsAreTheInputKeys | src/train_admission.py:26-32 | each distinct input key is one pivot row, no row repeats, and no row lacks an input key; likewise for the codes |
| Training.PivotCellIsGroupMean | src/train_admission.py:26-32 | cell (i, j) is the mean of the values with row i's key and column j's code; it is 0.0 when there are none |
| Training.GroupMax | src/train_admission.py:35-36 | `groupby(...)["admit_label"].max()` per encounter; specified by `GroupMaxIsOr` |
| Training.GroupMaxIsOr | src/train_admission.py:35-36 | each encounter's group maximum is 0 or 1, and it is 1 exactly when one of the encounter's rows admits |
| Training.EncounterLabels | src/train_admission.py:34-39 | y has one entry per pivot row, in pivot order; y[i] is 1 exactly when some row with key i admits, else 0 |
| Training.FeatureColumns | src/train_admission.py:41-42 | every chosen feature column is a column after the two key columns |
| Training.Select | src/train_admission.py:43 | X has one row per encounter and one value per chosen column |
| Training.SelectAllCodes | src/train_admission.py:42-43 | selecting all LOINC columns in table order gives the whole cell block |
| Training.MinClassCount | src/train_admission.py:46-47 | the result is 0 for no labels; otherwise it is the count of a class that occurs, and no occurring class has fewer |
| Training.TinyData | src/train_admission.py:46-50 | the tiny-data test `n < 4 or min_class < 2`, where `min_class` is the smallest class count in `Counter(y)`, or 0 when y is empty; specified by `TinyDataIff` and `TinyDataExamples` |
| Training.TinyDataIff | src/train_admission.py:46-50 | tiny-data mode holds exactly when n < 4 or some class that occurs has fewer than 2 members |
| Training.TinyDataExamples | src/train_admission.py:46-50 | [1,1,1,1] is not tiny: the absent class does not count as 0. [0,0,0,1] and [] are tiny |
| Training.PlanSplit | src/train_admission.py:45-60 | no holdout exactly in tiny-data mode, and then train = test = (X, y); otherwise a stratified split on y with test size 0.3 and seed 42 |
| Training.Train | src/train_admission.py:41-84 | X and y are aligned with the pivot rows, and the feature list written to disk is the list used to build X |
| Training.TrainingMatrixMeaning | src/train_admission.py:26-43 | X[i][j] is the mean of encounter i's values for feature j (0.0 when there are none); y[i] is 1 exactly when one of encounter i's rows has label 1 |
| Training.FeatureColumnChoice | src/train_admission.py:41-43 | when both codes occur, the features and the saved list are exactly ["2345-7", "718-7"]; otherwise they are all LOINC columns in table order |
| Evaluation.EvalFeatures | src/evaluate_admission.py:28 | the two lab columns when both exist, else every LOINC column; specified by `EvaluationMatchesTraining`, which shows it is training's X |
| Evaluation.EvalLabelMatchesTraining | src/evaluate_admission.py:15-16 | the evaluation label equals the training label on every row, boundaries included |
| Evaluation.Prepare | src/evaluate_admission.py:14-28 | one feature row and one label per encounter key, in the same order; each label is the OR of the encounter's row labels |
| Evaluation.EvaluationMatchesTraining | src/evaluate_admission.py:18-28 | on the same table, evaluation's keys, X and y are training's, and every X row is as wide as the saved feature list |
| Evaluation.RowScores | src/evaluate_admission.py:34-38 | on validated rows: with `predict_proba`, score i is column 1 of row i's probabilities, and indexing column 1 fails (IndexError) exactly when some row has fewer than two; without it, scores are `decision_function` and never fail |
| Evaluation.Scores | src/evaluate_admission.py:33-38 | an X with no rows fails (ValueError), and so does an X whose width is not the model's fitted feature count; otherwise the row scores above. With `predict_proba` it succeeds exactly when X is non-empty, every row has the fitted width and every row has at least two class probabilities; with `decision_function` exactly when X is non-empty and of the fitted width |
| Evaluation.ScoresAcceptTrainingWidth | src/evaluate_admission.py:14-38 | a model fitted on the training matrix of the same table never fails the width check on the evaluation matrix, and a model without `predict_proba` then scores every encounter |
| Serving.LoadModel | src/app_mlflow.py:32-53 | registry first (source MODEL_URI, note "mlflow.pyfunc"); the local file only after it fails (source the path, note "joblib fallback"); an error exactly when both fail. Details below |
| Serving.LoadFailureMessageLoadError | src/app_mlflow.py:45-53 | when the registry fails and the file exists but will not load, the message contains the registry error text and the load error text |
| Serving.LoadFailureMessageMissingFile | src/app_mlflow.py:49-53 | when the registry fails and the file is missing, the message contains the file-not-found text and contains the registry text twice |
| Serving.InputRow | src/app_mlflow.py:80-82 | the row's columns are FEATURE_ORDER, and each value is the request's value for that code, 0.0 when absent |
| Serving.InputRowDefaults | src/app_mlflow.py:80-82 | an absent field becomes 0.0; a supplied value passes through unchanged; glucose always comes first |
| Serving.ServingOrderIsTrainingOrder | src/app_mlflow.py:24 | when both codes occur in the training table, FEATURE_ORDER is the feature list training saved |
| Serving.Probability | src/app_mlflow.py:86-96 | the class-1 column of `predict_proba`; otherwise the first `predict` output, coerced so that it always lies in [0,1]. Details below |
| Serving.Decide | src/app_mlflow.py:98 | the label is 1 exactly when the probability is ≥ 0.5, else 0 |
| Serving.Score | src/app_mlflow.py:79-106 | it succeeds exactly when the probability does, and then the response carries `ok` = true, the bundle's source, that probability, its thresholded label, threshold 0.5, FEATURE_ORDER, and the two input values keyed by code |
| Serving.ScoreEdgeCases | src/app_mlflow.py:93-98 | a probability of exactly 0.5 is labelled 1; an empty `predict` output fails |
| Serving.PredictionService.constructor | src/app_mlflow.py:55-57 | before startup no bundle is stored |
| Serving.PredictionService.StartupLoad | src/app_mlflow.py:55-57 | stores the resolved bundle; on a resolution error it leaves the state as it was and reports the message |
| Serving.PredictionService.Health | src/app_mlflow.py:59-62 | with a bundle, it reports ok, the source, the note and FEATURE_ORDER; without one, a 500 |
| Serving.PredictionService.ModelInfo | src/app_mlflow.py:64-75 | with a bundle, it reports the source, FEATURE_ORDER and the metadata flavours when there are any; without one, it fails, and every failure is a 500 |
| Serving.PredictionService.Predict | src/app_mlflow.py:77-110 | it answers with `Score`'s response; any failure, including a missing bundle, is a 500 whose detail starts "Prediction failed: " |
| Etl.SchemaOk | src/etl_pipeline.py:4-13 | `REQUIRED.issubset(df.columns)`; specified by `SchemaOkMeaning` |
| Etl.SchemaOkMeaning | src/etl_pipeline.py:4-13 | the check passes exactly when the six required columns are present; extra columns are allowed; dropping a required column fails it |
| Etl.FetchDx | src/etl_pipeline.py:6-9 | the codes of the query's first result row, or [] when it returns no rows |
| Etl.IsValueValid | src/etl_pipeline.py:21 | valid exactly when the value is present and > 0 |
| Etl.ValidityBoundaries | src/etl_pipeline.py:21 | 0, negative and missing values are invalid; positive values are valid |
| Etl.AddColumn | src/etl_pipeline.py:18-21 | a new column goes at the end and an existing one stays where it is; no other column changes |
| Etl.Curate | src/etl_pipeline.py:13-21 | it fails exactly when the schema check fails, reporting the columns it found; otherwise every row is kept, in order and unchanged, with its `dx_codes` lookup and validity flag |
| Etl.CurateAddsExactlyTwoColumns | src/etl_pipeline.py:18-21 | the original columns keep their order, and the only columns added are `dx_codes` and `is_value_valid`, at the end when new |
| Fhir.Then | scripts/load_synthea_neo4j.py:10-28 | a generator's output followed by another's, where an error in the first ends the stream |
| Fhir.ThenAssociative | scripts/load_synthea_neo4j.py:10-28 | following is associative, so a walk can be cut between any two files or entries |
| Fhir.EntryResources | scripts/load_synthea_neo4j.py:19-22 | the loop over a Bundle's entries; specified by `EntryResourcesInOrder`, `EntryResourcesMembers` and `EntryResourcesYieldTruthy` |
| Fhir.EntryResourcesInOrder | scripts/load_synthea_neo4j.py:19-22 | an object entry yields its `resource` when truthy, else nothing; object entries split in two yield the first part's resources then the second's; an entry that is not an object raises AttributeError |
| Fhir.EntryResourcesMembers | scripts/load_synthea_neo4j.py:19-22 | entries that are all objects never raise, and yield exactly the truthy resources they hold |
| Fhir.BundleResources | scripts/load_synthea_neo4j.py:19 | iterating `doc.get("entry", [])`: a list walks its entries; an empty string or object yields nothing; a non-empty one raises on `.get`; anything else is not iterable; specified by `DocumentKinds` for lists and missing entries |
| Fhir.ListResources | scripts/load_synthea_neo4j.py:25-28 | a list document yields exactly its elements that are objects with a truthy resourceType |
| Fhir.ListResourcesInOrder | scripts/load_synthea_neo4j.py:25-28 | one element yields itself exactly when it is an object with a truthy resourceType; a list split in two yields the first part's resources then the second's, so order and repeats are kept |
| Fhir.DocResources | scripts/load_synthea_neo4j.py:18-28 | the resources of one parsed document; specified by `DocumentKinds` and `DocResourcesYieldTruthy` |
| Fhir.DocumentKinds | scripts/load_synthea_neo4j.py:18-28 | a Bundle without `entry` yields nothing, and one whose entries are objects yields exactly their truthy resources without raising; another object yields itself exactly when its resourceType is truthy; a list yields its qualifying elements; any other value yields nothing |
| Fhir.IterResources | scripts/load_synthea_neo4j.py:10-28 | the generator over all files in walk order; specified by `IterResourcesInOrder`, `UnreadableFileIsSkipped`, `FailureEndsTheWalk` and `IterResourcesYieldsTruthy` |
| Fhir.IterResourcesInOrder | scripts/load_synthea_neo4j.py:12-28 | files are handled one after the other: the walk over two runs of files is the first run's walk followed by the second's |
| Fhir.IterResourcesYieldsTruthy | scripts/load_synthea_neo4j.py:10-28 | every yielded resource is truthy, so empty bundle entries are skipped |
| Fhir.DocResourcesYieldTruthy | scripts/load_synthea_neo4j.py:18-28 | the same for one document: Bundle, single resource or list |
| Fhir.EntryResourcesYieldTruthy | scripts/load_synthea_neo4j.py:19-22 | the same for a Bundle's entries |
| Fhir.UnreadableFileIsSkipped | scripts/load_synthea_neo4j.py:13-17 | an unreadable file changes nothing: the walk is the same without it |
| Fhir.FailureEndsTheWalk | scripts/load_synthea_neo4j.py:10-28 | once the walk has raised, later files add nothing |
| Fhir.RefId | scripts/load_synthea_neo4j.py:30-34 | `_ref_id`: None exactly for a missing or empty reference; its value is specified by `RefIdMeaning` |
| Fhir.RefIdMeaning | scripts/load_synthea_neo4j.py:30-34 | None for a missing or empty reference; otherwise the text after the last "/" (the whole string without one), which contains no "/" |
| Fhir.PatientName | scripts/load_synthea_neo4j.py:45-47 | the patient name expression; specified by `PatientNameMissing`, `PatientNameText` and `PatientNameFromParts` |
| Fhir.PatientNameMissing | scripts/load_synthea_neo4j.py:45-47 | a patient with no name, an empty name list or a null name gets " " |
| Fhir.PatientNameText | scripts/load_synthea_neo4j.py:45 | a non-empty `name[0].text` is the name, whatever else the entry holds |
| Fhir.GivenNames | scripts/load_synthea_neo4j.py:46 | a `given` that is a list of strings reads as those strings in order; a missing `given` reads as no names |
| Fhir.NameOfParts | scripts/load_synthea_neo4j.py:45-47 | an entry without a non-empty string `text` names the patient by its given names joined by spaces, a space, then the family name or "" |
| Fhir.PatientNameFromParts | scripts/load_synthea_neo4j.py:45-47 | for every patient whose first name entry has no non-empty string `text`, whose `given` is a list of strings gs (or missing, gs = []) and whose `family` is a string f or missing: the name is `" ".join(gs) + " " + (f or "")` |
| Fhir.PatientNameFromPartsExamples | scripts/load_synthea_neo4j.py:45-47 | given ["Ann","B"] with family "Lee" gives "Ann B Lee", and given ["Ann"] alone gives "Ann " |
| Fhir.PatientRowOf | scripts/load_synthea_neo4j.py:43-49 | the patient row: id, the name above, birthDate; specified through `PatientName`'s lemmas and `CollectWithoutLimit` |
| Fhir.EncounterRowOf | scripts/load_synthea_neo4j.py:51-57 | the encounter row: id, the subject's `_ref_id`, period start and end, `type[0].text` when `type` is truthy; specified through `RefIdMeaning` and `CollectWithoutLimit` |
| Fhir.ObservationRowOf | scripts/load_synthea_neo4j.py:59-70 | the observation row: id, the subject's and encounter's `_ref_id`, `coding[0]` code and display, valueQuantity value and unit, effectiveDateTime; specified through `RefIdMeaning` and `CollectWithoutLimit` |
| Fhir.Classify | scripts/load_synthea_neo4j.py:41-70 | one iteration of the loop; specified by `GatherStep` |
| Fhir.CollectFrom | scripts/load_synthea_neo4j.py:40-73 | the loop as a recursive function; specified by `CollectBound`, `CollectWithLimit`, `CollectUnderLimit` and `CollectWithoutLimit`, and `Collect` is proved equal to it |
| Fhir.Collect | scripts/load_synthea_neo4j.py:38-73 | the loop's result is the recursive specification `CollectFrom` applied to the whole walk |
| Fhir.CollectBound | scripts/load_synthea_neo4j.py:72-73 | a positive limit keeps at most limit + 1 rows |
| Fhir.GatherStep | scripts/load_synthea_neo4j.py:40-70 | classifying one object adds its row to its own list only, or nothing for any other type |
| Fhir.CollectWithoutLimit | scripts/load_synthea_neo4j.py:40-73 | with no limit (None or 0), each list holds every resource of its type in walk order; other types are ignored; a generator error is reported |
| Fhir.CollectWithLimit | scripts/load_synthea_neo4j.py:40-73 | with a positive limit, a walk of objects keeps exactly its rows up to and including the first Patient, Encounter or Observation that takes the total past the limit, in walk order; resources of other types do not count; a generator error after the break is never reported |
| Fhir.CollectUnderLimit | scripts/load_synthea_neo4j.py:40-73 | with a positive limit that the walk's rows never exceed, the result is the one with no limit: every row in walk order, or the generator's error |
| Fhir.KeepPatients | scripts/load_synthea_neo4j.py:76 | keeps exactly the patient rows that have an id |
| Fhir.KeepPatientsInOrder | scripts/load_synthea_neo4j.py:76 | one row is kept exactly when it has an id; a list split in two keeps the first part's rows then the second's, so order and repeats are kept |
| Fhir.KeepEncounters | scripts/load_synthea_neo4j.py:77 | keeps exactly the encounter rows with both an id and a patient id |
| Fhir.KeepEncountersInOrder | scripts/load_synthea_neo4j.py:77 | one row is kept exactly when it has an id and a patient id; a split list keeps the first part's rows then the second's |
| Fhir.KeepObservations | scripts/load_synthea_neo4j.py:78 | keeps exactly the observation rows that have an id |
| Fhir.KeepObservationsInOrder | scripts/load_synthea_neo4j.py:78 | one row is kept exactly when it has an id; a split list keeps the first part's rows then the second's |
| Fhir.DropMissingAsWritten | scripts/load_synthea_neo4j.py:76-78 | as written, it succeeds exactly when none of the three lists is empty |
| Fhir.DropMissingAsWrittenFailsOnEmptyList | scripts/load_synthea_neo4j.py:72-78 | with limit 1 on a patient–encounter–observation walk, no observation is collected and the as-written drop raises |
| Fhir.DropMissing | scripts/load_synthea_neo4j.py:76-78 | the intended drop: exactly the rows with the required ids remain, and an empty list stays empty |
| Fhir.DropMissingInOrder | scripts/load_synthea_neo4j.py:76-78 | the intended drop works row by row: dropping from two collections one after the other (`Append`, a helper that concatenates list by list) is dropping from each; a single row of each kind is kept exactly when it has the ids its frame requires |
| Fhir.RunAsWritten | scripts/load_synthea_neo4j.py:36-78 | `run` up to the writes as written: it fails when the walk or the collection does, and otherwise exactly when the as-written drop raises, i.e. when one of the three lists is empty; on success the rows are the collected rows with missing ids dropped |
| Fhir.Run | scripts/load_synthea_neo4j.py:36-78 | `run` with the corrected drop of the finding below: it fails exactly when the walk or the collection does; otherwise it returns the collected rows with missing ids dropped |
| Fhir.EncounterEdges | scripts/load_synthea_neo4j.py:91-99 | HAD_ENCOUNTER is created exactly when the encounter's patient exists |
| Fhir.ObservationEdges | scripts/load_synthea_neo4j.py:101-119 | the HAS_OBSERVATION edges the observation query creates; specified by `ObservationLinkedAtMostOnce` |
| Fhir.ObservationLinkedAtMostOnce | scripts/load_synthea_neo4j.py:102-119 | an observation is linked to its encounter when that exists, else to its patient when that exists; never to both, and to nothing otherwise |
| Shap.Flatten | src/shap_explain.py:31-32 | `np.ravel(np.array(ev))` of a regular nested value: its numbers in row-major order; specified by `LastLeafIsLastOfFlatten` |
| Shap.ToScalarBase | src/shap_explain.py:28-33 | a scalar is returned unchanged |
| Shap.LastLeafIsLastOfFlatten | src/shap_explain.py:30-33 | a search from the back for the last number agrees with the last element of the flattening; both are empty together |
| Shap.ToScalarBaseIsLastLeaf | src/shap_explain.py:28-33 | the base is the last number held, and it fails (IndexError) exactly when no number is held |
| Shap.ToScalarBaseExamples | src/shap_explain.py:28-33 | [0.3, 0.7] gives 0.7; [[0.1, 0.2], [0.3, 0.4]] gives 0.4; [[], []] and [] fail with IndexError |
| Shap.Squeeze | src/shap_explain.py:59-64 | no axis of length 1 remains, and every other axis does |
| Shap.SqueezeAxisByAxis | src/shap_explain.py:59-64 | a single axis is dropped exactly when its length is 1; a shape split in two squeezes to the first part squeezed then the second, so the other axes keep their order and repeats |
| Shap.SqueezeKeepsCells | src/shap_explain.py:59-66 | squeezing keeps the number of cells, and squeezing twice is squeezing once |
| Shap.UnsqueezeInBounds | src/shap_explain.py:59-66 | every cell of a squeezed array maps to a cell of the original array |
| Shap.Chosen | src/shap_explain.py:44-47 | the array `pick_2d_shap` works on; specified by `ListUsesLastOutput` |
| Shap.PickFromArray | src/shap_explain.py:49-67 | every successful result is 2-D |
| Shap.Pick2dShap | src/shap_explain.py:35-67 | every successful result is 2-D |
| Shap.ListUsesLastOutput | src/shap_explain.py:44-47 | a list is handled through its last element only, whatever precedes it; an empty list fails |
| Shap.TwoDimensionalUnchecked | src/shap_explain.py:49-50 | a 2-D array is returned as given, with no check against n_samples or n_features |
| Shap.ThreeDimensionalRules | src/shap_explain.py:51-62 | (o, n, f) takes the last output along axis 0 and wins over (n, o, f), which takes it along axis 1; any other 3-D shape must squeeze to (n, f); every 3-D success has shape (n, f). Details below |
| Shap.OtherDimensionsRule | src/shap_explain.py:63-67 | for any other number of axes, the squeezed array is returned exactly when it is 2-D, else ValueError; 0-D and 1-D arrays always fail |
| Shap.PickedCellsComeFromTheInput | src/shap_explain.py:52-66 | each result cell is a cell of the chosen input array, and the sliced views read the last output |

Rows whose states need several parts:

- `Serving.LoadModel`:
  - The registry is tried first. On success, the source is MODEL_URI, the note is "mlflow.pyfunc", and nothing else is tried.
  - The local file is tried only after the registry fails.
  - On a local load, the source is the path and the note is "joblib fallback".
  - It fails exactly when the registry fails and the file is missing or will not load.
- `Serving.Probability`:
  - With `predict_proba`, the probability is the class-1 column, and it fails when there are fewer than two classes.
  - Without it, the first output is used: as is when in [0,1], otherwise 1.0 when ≥ 0.5 and 0.0 when not. So the result is always in [0,1].
  - An empty output fails.
- `Shap.ThreeDimensionalRules`:
  - (o, n, f) gives the last output along axis 0, and this layout wins when both match.
  - (n, o, f) gives the last output along axis 1.
  - Either slice raises IndexError when the output axis has length 0.
  - Any other shape succeeds only when it squeezes to (n, f), else ValueError.
  - Every 3-D success has shape exactly (n, f).

## Left out

- Neo4j sessions, constraints and Cypher execution are not modelled. `scripts/neo4j_common.py`, `scripts/load_mimic_neo4j.py`, `src/kg_load.py` and `scripts/load_neo4j.py` are not part of this model. Only the linking decisions are modelled, over the sets of node ids that already exist.
- The observation query's node properties (`toFloat(r.value)` and the rest) are not modelled. Nor is the order in which rows are written, or whether a node already existed.
- MLflow registration and its polling loop (`src/mlflow_register_latest.py`) are not part of this model. They are foreign calls with sleeps and no termination argument.
- scikit-learn fitting, `train_test_split` internals, classification reports, ROC/PR metrics, SHAP value computation and all plotting are library numerics, so they are left out. For the split, only the decision and its parameters are modelled.
- File I/O is left out: parquet, csv, joblib and json reads and writes, directory walks and creation, and the Windows paths. The walk's file order and each file's parse result are inputs; `etl/flatten_to_csv.py` and `scripts/read_mimic.py` are not part of this model.
- FastAPI routing, pydantic validation and traceback printing are left out. Each endpoint is a method that returns a report or an HTTP error.
- IEEE floating point is left out. Values are exact reals, so NaN, infinities and rounding in means are not represented. The training table has no missing lab values; the curation step's `lab_value` may be missing.
- Evaluation.Scores: scikit-learn's error texts are shortened, and its other input checks, such as the rejection of NaN or infinite values, are not modelled, since values are exact reals.
- Training.MinClassCount: the labels are `nat`s that the pipeline only ever sets to 0 or 1. `Counter`'s dictionary is not modelled; the minimum is taken over positions, which visits the same classes.
- Fhir.PatientRowOf, Fhir.EncounterRowOf and Fhir.ObservationRowOf are modelled only for well-typed resources. Whenever a field has the wrong JSON type, the model reads it as absent: a string field as None, a number as None, a list as [], an object as {}, and non-strings inside `given` are skipped. The source instead may raise (`.get` or `[0]` on a non-object, `" ".join` over non-strings), may keep the raw value (a truthy non-string `text` or `family`, a non-string id, start, end, birthDate, code, display, unit, time or value), or may convert it (`str(ref)` in `_ref_id`).
- Fhir.DocResources does not model `json.load`'s own failures. Any file that does not parse is simply `None`.
- Shap.Pick2dShap works on shapes, not values. Ragged lists, and `np.asarray` of a list element that is not an array, are not modelled.
- Shap.ToScalarBase assumes nested lists are regular. On ragged nesting, `np.array` raises ValueError with numpy 1.24 or later, and older numpy builds an object array whose last element may be a list. The model instead flattens ragged values as if they were regular.
- Fhir.Run uses the corrected drop of the finding below, not the drop as written; `Fhir.RunAsWritten` is the run as written.

## Findings

| source | as written | input that shows it | evidently intended | confidence | as-written member | corrected member |
|---|---|---|---|---|---|---|
| scripts/load_synthea_neo4j.py:76-78 | `pd.DataFrame(rows).dropna(subset=[...])` on an empty list builds a frame with no columns, so naming `id` in `subset` raises KeyError | `run(limit=1)` on a walk yielding a Patient, an Encounter, then an Observation: collection stops after two rows, the observation list is empty, and the load aborts before writing anything; a directory with no encounters does the same | rows without ids are dropped and an empty list stays empty, so whatever was collected is loaded | high: pandas' `dropna` rejects subset labels missing from the columns (not executed) | Fhir.DropMissingAsWrittenFailsOnEmptyList | Fhir.DropMissing |
