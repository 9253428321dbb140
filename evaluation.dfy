/** The deterministic part of `src/evaluate_admission.py`: its own copy of the label rule, the
    same pivot, the label alignment, its feature-matrix selection, and the choice of score in
    `plot_curves`. ROC/PR metrics and plotting are not modelled. */
module Evaluation {
  import opened Wrappers
  import opened Ordering
  import Training

  /** The evaluation script's copy of the label rule, written as a boolean column. */
  predicate EvalAdmits(r: Training.LabRow) {
    (r.loinc == "2345-7" && r.labValue >= 150.0) || (r.loinc == "718-7" && r.labValue < 11.5)
  }

  /** `df["admit_label"].astype(int)`. */
  function EvalLabel(r: Training.LabRow): nat {
    if EvalAdmits(r) then 1 else 0
  }

  /** The evaluation label is the training label on every row, boundaries included. */
  lemma EvalLabelMatchesTraining(r: Training.LabRow)
    ensures EvalLabel(r) == Training.AdmitLabel(r)
    ensures EvalAdmits(r) <==> Training.Admits(r)
  {
  }

  /** `feat[["2345-7","718-7"]].values` when both codes are columns, else `feat.iloc[:, 2:]`. */
  function EvalFeatures(w: Training.Wide): (x: seq<seq<real>>)
    requires Training.WellShaped(w)
  {
    if "2345-7" in Training.Columns(w) && "718-7" in Training.Columns(w) then
      assert forall c :: c in ["2345-7", "718-7"] ==> c in w.codes by {
        assert Training.Columns(w) == ["patient_id", "encounter_id"] + w.codes;
      }
      Training.Select(w, ["2345-7", "718-7"])
    else w.cells
  }

  datatype EvalData = EvalData(keys: seq<Training.EncounterKey>, x: seq<seq<real>>, y: seq<nat>)

  /** Lines 14-28: label, pivot, y reindexed to the pivot, X. */
  function Prepare(rows: seq<Training.LabRow>): (d: EvalData)
    ensures |d.x| == |d.y| == |d.keys|
    ensures forall i :: 0 <= i < |d.y| ==>
      && d.y[i] <= 1
      && (d.y[i] == 1 <==> exists r :: r in rows && Training.KeyOf(r) == d.keys[i] && EvalLabel(r) == 1)
  {
    var w := Training.Pivot(rows);
    EvalData(w.keys, EvalFeatures(w), Training.EncounterLabels(rows, EvalAdmits))
  }

  /** On the same curated table, evaluation sees the very matrix and labels training built:
      the same encounters in the same order, the same feature columns, the same y. So X's
      columns are those of the saved feature list. */
  lemma EvaluationMatchesTraining(rows: seq<Training.LabRow>)
    ensures var d := Prepare(rows);
      var t := Training.Train(rows);
      && d.keys == t.wide.keys
      && d.x == t.x
      && d.y == t.y
      && forall i :: 0 <= i < |d.x| ==> |d.x[i]| == |t.savedFeatureList|
  {
    var w := Training.Pivot(rows);
    var d := Prepare(rows);
    var t := Training.Train(rows);
    assert Training.Columns(w)[2..] == w.codes;
    if !("2345-7" in Training.Columns(w) && "718-7" in Training.Columns(w)) {
      Training.SelectAllCodes(w);
    }
    forall i | 0 <= i < |d.y| ensures d.y[i] == t.y[i] {
      assert forall r :: EvalAdmits(r) <==> Training.Admits(r);
    }
  }

  /** What the loaded classifier offers: `predict_proba` (one probability per class for a row),
      or only `decision_function` (one score per row), and the number of features it was
      fitted on. */
  datatype Estimator =
    | WithProba(nFeatures: nat, predictProba: seq<real> -> seq<real>)
    | WithDecision(nFeatures: nat, decisionFunction: seq<real> -> real)

  const NO_SAMPLES: string := "ValueError: Found array with 0 sample(s) while a minimum of 1 is required"
  const WRONG_WIDTH: string := "ValueError: X does not have the number of features the estimator is expecting"
  const NO_CLASS_1: string := "IndexError: index 1 is out of bounds for axis 1"

  /** Scoring rows that have passed validation: column 1 of `predict_proba` for each row, which
      fails when the model reports fewer than two classes, or `decision_function`. */
  function RowScores(m: Estimator, x: seq<seq<real>>): (r: Result<seq<real>, string>)
    ensures r.Success? ==> |r.value| == |x|
    ensures m.WithProba? ==>
      && (r.Success? <==> forall i :: 0 <= i < |x| ==> |m.predictProba(x[i])| >= 2)
      && (r.Success? ==> forall i :: 0 <= i < |x| ==> r.value[i] == m.predictProba(x[i])[1])
      && (r.Failure? ==> r.error == NO_CLASS_1)
    ensures m.WithDecision? ==> r.Success? && forall i :: 0 <= i < |x| ==> r.value[i] == m.decisionFunction(x[i])
    decreases |x|
  {
    if |x| == 0 then Success([])
    else
      match RowScores(m, x[..|x| - 1])
      case Failure(e) => Failure(e)
      case Success(ps) =>
        match m
        case WithProba(_, proba) =>
          var p := proba(x[|x| - 1]);
          if |p| < 2 then Failure(NO_CLASS_1) else Success(ps + [p[1]])
        case WithDecision(_, decide) => Success(ps + [decide(x[|x| - 1])])
  }

  /** `p` in `plot_curves`: scikit-learn first rejects an X with no rows, or whose width is not
      the number of features the model was fitted on; then column 1 of `predict_proba(X)` when
      the model has it, else `decision_function(X)`. */
  function Scores(m: Estimator, x: seq<seq<real>>): (r: Result<seq<real>, string>)
    ensures |x| == 0 ==> r == Failure(NO_SAMPLES)
    ensures |x| > 0 && (exists i :: 0 <= i < |x| && |x[i]| != m.nFeatures) ==> r == Failure(WRONG_WIDTH)
    ensures r.Success? ==> |x| > 0 && |r.value| == |x| && forall i :: 0 <= i < |x| ==> |x[i]| == m.nFeatures
    ensures m.WithProba? ==>
      && (r.Success? <==> |x| > 0 && forall i :: 0 <= i < |x| ==> |x[i]| == m.nFeatures && |m.predictProba(x[i])| >= 2)
      && (r.Success? ==> forall i :: 0 <= i < |x| ==> r.value[i] == m.predictProba(x[i])[1])
    ensures m.WithDecision? ==>
      && (r.Success? <==> |x| > 0 && forall i :: 0 <= i < |x| ==> |x[i]| == m.nFeatures)
      && (r.Success? ==> forall i :: 0 <= i < |x| ==> r.value[i] == m.decisionFunction(x[i]))
  {
    if |x| == 0 then Failure(NO_SAMPLES)
    else if exists i :: 0 <= i < |x| && |x[i]| != m.nFeatures then Failure(WRONG_WIDTH)
    else RowScores(m, x)
  }

  /** A model fitted on the training matrix of the same table accepts the evaluation matrix: when
      the table has rows, the width check passes, and a model without `predict_proba` scores
      every encounter. */
  lemma ScoresAcceptTrainingWidth(rows: seq<Training.LabRow>, m: Estimator)
    requires m.nFeatures == |Training.Train(rows).savedFeatureList|
    requires |Prepare(rows).x| > 0
    ensures Scores(m, Prepare(rows).x) != Failure(WRONG_WIDTH)
    ensures m.WithDecision? ==> Scores(m, Prepare(rows).x).Success?
  {
    EvaluationMatchesTraining(rows);
  }
}
