/** The deterministic part of `src/train_admission.py`: the demo admission label, the pivot of
    long-format lab rows into one feature row per (patient_id, encounter_id), the per-encounter
    label, the feature-column choice, the tiny-data split decision and the saved feature list.
    Model fitting and reporting belong to scikit-learn and are not modelled. */
module Training {
  import opened Ordering

  const GLUCOSE: string := "2345-7"
  const HEMOGLOBIN: string := "718-7"
  /** Glucose at or above this value (mg/dL) marks a row as an admission. */
  const GLUCOSE_ADMIT_AT: real := 150.0
  /** Hemoglobin strictly below this value (g/dL) marks a row as an admission. */
  const HEMOGLOBIN_ADMIT_BELOW: real := 11.5
  /** The two index columns that `reset_index` puts in front of the LOINC columns. */
  const KEY_COLUMNS: seq<string> := ["patient_id", "encounter_id"]
  /** `train_test_split(..., test_size=0.3, random_state=42, stratify=y)`. */
  const TEST_SIZE: real := 0.3
  const RANDOM_STATE: int := 42
  /** Below this many encounters the holdout split is skipped. */
  const MIN_SAMPLES: nat := 4
  /** A class with fewer encounters than this cannot be stratified. */
  const MIN_CLASS_COUNT: nat := 2

  /** One row of the curated long-format table. */
  datatype LabRow = LabRow(patientId: string, encounterId: string, loinc: string, labValue: real)

  /** The pivot key. */
  datatype EncounterKey = EncounterKey(patientId: string, encounterId: string)

  function KeyOf(r: LabRow): EncounterKey {
    EncounterKey(r.patientId, r.encounterId)
  }

  // ---------------------------------------------------------------------------------------
  // The admission label
  // ---------------------------------------------------------------------------------------

  /** The demo rule: glucose at or above 150, or hemoglobin below 11.5. */
  predicate Admits(r: LabRow) {
    || (r.loinc == GLUCOSE && r.labValue >= GLUCOSE_ADMIT_AT)
    || (r.loinc == HEMOGLOBIN && r.labValue < HEMOGLOBIN_ADMIT_BELOW)
  }

  /** The `admit_label` column: the rule cast to an int. */
  function AdmitLabel(r: LabRow): nat {
    if Admits(r) then 1 else 0
  }

  /** The label's boundary behaviour: glucose ties go to "admitted", hemoglobin ties to "not
      admitted", and a code other than the two never admits. */
  lemma AdmitLabelBoundaries(p: string, e: string, code: string, v: real)
    ensures AdmitLabel(LabRow(p, e, GLUCOSE, 150.0)) == 1
    ensures AdmitLabel(LabRow(p, e, GLUCOSE, 149.99)) == 0
    ensures AdmitLabel(LabRow(p, e, HEMOGLOBIN, 11.5)) == 0
    ensures AdmitLabel(LabRow(p, e, HEMOGLOBIN, 11.49)) == 1
    ensures code != GLUCOSE && code != HEMOGLOBIN ==> AdmitLabel(LabRow(p, e, code, v)) == 0
  {
  }

  /** The label is a threshold on one code at a time: it rises with glucose, falls with
      hemoglobin, and ignores every other row. */
  lemma AdmitLabelMonotone(r: LabRow, v: real)
    ensures AdmitLabel(r) <= 1
    ensures r.loinc == GLUCOSE && r.labValue <= v ==> AdmitLabel(r) <= AdmitLabel(r.(labValue := v))
    ensures r.loinc == HEMOGLOBIN && v <= r.labValue ==> AdmitLabel(r) <= AdmitLabel(r.(labValue := v))
    ensures r.loinc != GLUCOSE && r.loinc != HEMOGLOBIN ==> AdmitLabel(r) == 0
  {
  }

  // ---------------------------------------------------------------------------------------
  // Pivot: index and columns
  // ---------------------------------------------------------------------------------------

  /** pandas orders a multi-index lexicographically: by patient_id, then encounter_id. */
  predicate KeyLt(a: EncounterKey, b: EncounterKey) {
    || StrLt(a.patientId, b.patientId)
    || (a.patientId == b.patientId && StrLt(a.encounterId, b.encounterId))
  }

  lemma KeyLtIsStrictTotalOrder()
    ensures StrictTotalOrder(KeyLt)
  {
    StrLtIsStrictTotalOrder();
    forall a: EncounterKey, b: EncounterKey | a != b
      ensures KeyLt(a, b) || KeyLt(b, a)
    {
      assert a.patientId != b.patientId || a.encounterId != b.encounterId;
    }
  }

  function Keys(rows: seq<LabRow>): (ks: seq<EncounterKey>)
    ensures |ks| == |rows| && forall i :: 0 <= i < |rows| ==> ks[i] == KeyOf(rows[i])
  {
    if |rows| == 0 then [] else Keys(rows[..|rows| - 1]) + [KeyOf(rows[|rows| - 1])]
  }

  function Codes(rows: seq<LabRow>): (cs: seq<string>)
    ensures |cs| == |rows| && forall i :: 0 <= i < |rows| ==> cs[i] == rows[i].loinc
  {
    if |rows| == 0 then [] else Codes(rows[..|rows| - 1]) + [rows[|rows| - 1].loinc]
  }

  /** The pivot's index: the distinct encounter keys, sorted. */
  function PivotKeys(rows: seq<LabRow>): (ks: seq<EncounterKey>)
    ensures StrictlySorted(ks, KeyLt)
    ensures forall k :: k in ks <==> exists r :: r in rows && KeyOf(r) == k
  {
    KeyLtIsStrictTotalOrder();
    var ks := SortedDistinct(Keys(rows), KeyLt);
    assert forall k :: k in Keys(rows) <==> exists r :: r in rows && KeyOf(r) == k by {
      forall k | k in Keys(rows) ensures exists r :: r in rows && KeyOf(r) == k {
        var i :| 0 <= i < |rows| && Keys(rows)[i] == k;
        assert rows[i] in rows;
      }
    }
    ks
  }

  /** The pivot's LOINC columns: the distinct codes, sorted. */
  function PivotCodes(rows: seq<LabRow>): (cs: seq<string>)
    ensures StrictlySorted(cs, StrLt)
    ensures forall c :: c in cs <==> exists r :: r in rows && r.loinc == c
  {
    StrLtIsStrictTotalOrder();
    var cs := SortedDistinct(Codes(rows), StrLt);
    assert forall c :: c in Codes(rows) <==> exists r :: r in rows && r.loinc == c by {
      forall c | c in Codes(rows) ensures exists r :: r in rows && r.loinc == c {
        var i :| 0 <= i < |rows| && Codes(rows)[i] == c;
        assert rows[i] in rows;
      }
    }
    cs
  }

  // ---------------------------------------------------------------------------------------
  // Pivot: cells
  // ---------------------------------------------------------------------------------------

  /** A running sum and count, what `aggfunc="mean"` accumulates per group. */
  datatype Acc = Acc(sum: real, count: nat)

  /** Group-by accumulation over (key, loinc): the sum and number of lab values per group. */
  function GroupSums(rows: seq<LabRow>): map<(EncounterKey, string), Acc>
    decreases |rows|
  {
    if |rows| == 0 then map[]
    else
      var m := GroupSums(rows[..|rows| - 1]);
      var r := rows[|rows| - 1];
      var g := (KeyOf(r), r.loinc);
      var prev := if g in m then m[g] else Acc(0.0, 0);
      m[g := Acc(prev.sum + r.labValue, prev.count + 1)]
  }

  /** The lab values of one group, in input order: the reference definition of a cell. */
  function GroupValues(rows: seq<LabRow>, k: EncounterKey, code: string): seq<real>
    decreases |rows|
  {
    if |rows| == 0 then []
    else
      var r := rows[|rows| - 1];
      GroupValues(rows[..|rows| - 1], k, code) + (if KeyOf(r) == k && r.loinc == code then [r.labValue] else [])
  }

  function Sum(vs: seq<real>): real
    decreases |vs|
  {
    if |vs| == 0 then 0.0 else Sum(vs[..|vs| - 1]) + vs[|vs| - 1]
  }

  /** The arithmetic mean, and 0.0 for no values (`fillna(0.0)`). */
  function Mean(vs: seq<real>): real {
    if |vs| == 0 then 0.0 else Sum(vs) / (|vs| as real)
  }

  lemma SumAppend(vs: seq<real>, v: real)
    ensures Sum(vs + [v]) == Sum(vs) + v
  {
    assert (vs + [v])[..|vs|] == vs;
  }

  /** The group-by accumulation holds exactly the groups that occur, each with the sum and the
      number of its values. */
  lemma {:induction false} GroupSumsMeaning(rows: seq<LabRow>, k: EncounterKey, code: string)
    ensures var vs := GroupValues(rows, k, code);
      && ((k, code) in GroupSums(rows) <==> |vs| > 0)
      && ((k, code) in GroupSums(rows) ==> GroupSums(rows)[(k, code)] == Acc(Sum(vs), |vs|))
    decreases |rows|
  {
    if |rows| > 0 {
      var init := rows[..|rows| - 1];
      var r := rows[|rows| - 1];
      GroupSumsMeaning(init, k, code);
      if KeyOf(r) == k && r.loinc == code {
        SumAppend(GroupValues(init, k, code), r.labValue);
      } else {
        var g := (KeyOf(r), r.loinc);
        assert g != (k, code);
        var vs := GroupValues(init, k, code);
        assert GroupValues(rows, k, code) == vs + [] == vs;
        var m := GroupSums(init);
        var prev := if g in m then m[g] else Acc(0.0, 0);
        assert GroupSums(rows) == m[g := Acc(prev.sum + r.labValue, prev.count + 1)];
      }
    }
  }

  /** A group has values exactly when some input row has that key and code. */
  lemma {:induction false} GroupValuesNonEmpty(rows: seq<LabRow>, k: EncounterKey, code: string)
    ensures |GroupValues(rows, k, code)| > 0 <==> exists r :: r in rows && KeyOf(r) == k && r.loinc == code
    decreases |rows|
  {
    if |rows| > 0 {
      var init := rows[..|rows| - 1];
      GroupValuesNonEmpty(init, k, code);
      assert rows == init + [rows[|rows| - 1]];
      assert forall r :: r in rows <==> r in init || r == rows[|rows| - 1];
    }
  }

  /** A pivot cell: the group mean when the group exists, else the 0.0 of `fillna`. */
  function Cell(sums: map<(EncounterKey, string), Acc>, k: EncounterKey, code: string): real {
    if (k, code) in sums && sums[(k, code)].count > 0
    then sums[(k, code)].sum / (sums[(k, code)].count as real)
    else 0.0
  }

  /** The wide table after `reset_index().fillna(0.0)`: its rows are `keys`, its columns are
      the two key columns followed by `codes`, and `cells[i][j]` is row i's value for codes[j]. */
  datatype Wide = Wide(keys: seq<EncounterKey>, codes: seq<string>, cells: seq<seq<real>>)

  function Columns(w: Wide): seq<string> {
    KEY_COLUMNS + w.codes
  }

  ghost predicate WellShaped(w: Wide) {
    && |w.cells| == |w.keys|
    && forall i :: 0 <= i < |w.cells| ==> |w.cells[i]| == |w.codes|
  }

  /** `df.pivot_table(index=[patient_id, encounter_id], columns="loinc", values="lab_value",
      aggfunc="mean").reset_index().fillna(0.0)`. */
  function Pivot(rows: seq<LabRow>): (w: Wide)
    ensures WellShaped(w)
    ensures w.keys == PivotKeys(rows) && w.codes == PivotCodes(rows)
  {
    var sums := GroupSums(rows);
    var ks := PivotKeys(rows);
    var cs := PivotCodes(rows);
    Wide(ks, cs, seq(|ks|, i requires 0 <= i < |ks| => seq(|cs|, j requires 0 <= j < |cs| => Cell(sums, ks[i], cs[j]))))
  }

  /** The pivot has one row per distinct encounter key of the input, no key twice and no key
      the input lacks; its columns are likewise the distinct codes of the input. */
  lemma PivotRowsAreTheInputKeys(rows: seq<LabRow>)
    ensures var w := Pivot(rows);
      && (forall i, j :: 0 <= i < j < |w.keys| ==> w.keys[i] != w.keys[j])
      && (forall k :: k in w.keys <==> exists r :: r in rows && KeyOf(r) == k)
      && (forall i, j :: 0 <= i < j < |w.codes| ==> w.codes[i] != w.codes[j])
      && (forall c :: c in w.codes <==> exists r :: r in rows && r.loinc == c)
  {
    KeyLtIsStrictTotalOrder();
    StrLtIsStrictTotalOrder();
  }

  /** Each cell is the mean of the lab values with that row's key and that column's code, or
      0.0 when the encounter has no such value. */
  lemma PivotCellIsGroupMean(rows: seq<LabRow>, i: nat, j: nat)
    requires i < |Pivot(rows).keys| && j < |Pivot(rows).codes|
    ensures var w := Pivot(rows);
      && w.cells[i][j] == Mean(GroupValues(rows, w.keys[i], w.codes[j]))
      && (w.cells[i][j] == 0.0 <== !exists r :: r in rows && KeyOf(r) == w.keys[i] && r.loinc == w.codes[j])
  {
    var w := Pivot(rows);
    GroupSumsMeaning(rows, w.keys[i], w.codes[j]);
    GroupValuesNonEmpty(rows, w.keys[i], w.codes[j]);
  }

  // ---------------------------------------------------------------------------------------
  // Per-encounter label
  // ---------------------------------------------------------------------------------------

  function Bit(b: bool): nat {
    if b then 1 else 0
  }

  /** `groupby([patient_id, encounter_id])[label].max()` for a 0/1 label given by `admits`. */
  function GroupMax(rows: seq<LabRow>, admits: LabRow -> bool): map<EncounterKey, nat>
    decreases |rows|
  {
    if |rows| == 0 then map[]
    else
      var m := GroupMax(rows[..|rows| - 1], admits);
      var r := rows[|rows| - 1];
      var prev := if KeyOf(r) in m then m[KeyOf(r)] else 0;
      m[KeyOf(r) := if prev < Bit(admits(r)) then Bit(admits(r)) else prev]
  }

  /** The group maximum of a 0/1 label is the OR of the group's labels. */
  lemma {:induction false} GroupMaxIsOr(rows: seq<LabRow>, admits: LabRow -> bool, k: EncounterKey)
    ensures k in GroupMax(rows, admits) <==> exists r :: r in rows && KeyOf(r) == k
    ensures k in GroupMax(rows, admits) ==>
      && GroupMax(rows, admits)[k] <= 1
      && (GroupMax(rows, admits)[k] == 1 <==> exists r :: r in rows && KeyOf(r) == k && admits(r))
    decreases |rows|
  {
    if |rows| > 0 {
      var init := rows[..|rows| - 1];
      GroupMaxIsOr(init, admits, k);
      assert rows == init + [rows[|rows| - 1]];
      assert forall r :: r in rows <==> r in init || r == rows[|rows| - 1];
    }
  }

  /** `y`: the group maximum reindexed to the pivot's rows. Every pivot key has a group, so
      the reindex never produces a missing value. */
  function EncounterLabels(rows: seq<LabRow>, admits: LabRow -> bool): (y: seq<nat>)
    ensures |y| == |PivotKeys(rows)|
    ensures forall i :: 0 <= i < |y| ==>
      && y[i] <= 1
      && (y[i] == 1 <==> exists r :: r in rows && KeyOf(r) == PivotKeys(rows)[i] && admits(r))
  {
    var m := GroupMax(rows, admits);
    var ks := PivotKeys(rows);
    assert forall i :: 0 <= i < |ks| ==> (ks[i] in m && m[ks[i]] <= 1
      && (m[ks[i]] == 1 <==> exists r :: r in rows && KeyOf(r) == ks[i] && admits(r))) by {
      forall i | 0 <= i < |ks|
        ensures ks[i] in m && m[ks[i]] <= 1
          && (m[ks[i]] == 1 <==> exists r :: r in rows && KeyOf(r) == ks[i] && admits(r))
      {
        assert ks[i] in ks;
        GroupMaxIsOr(rows, admits, ks[i]);
      }
    }
    seq(|ks|, i requires 0 <= i < |ks| => m[ks[i]])
  }

  // ---------------------------------------------------------------------------------------
  // Feature columns and the feature matrix
  // ---------------------------------------------------------------------------------------

  /** The two known codes when the table has both, else every column after the two keys. */
  function FeatureColumns(w: Wide): (cols: seq<string>)
    ensures forall c :: c in cols ==> c in Columns(w)[|KEY_COLUMNS|..]
  {
    assert Columns(w)[|KEY_COLUMNS|..] == w.codes;
    if GLUCOSE in Columns(w) && HEMOGLOBIN in Columns(w) then [GLUCOSE, HEMOGLOBIN]
    else Columns(w)[|KEY_COLUMNS|..]
  }

  /** Position of a column among the LOINC columns. */
  function IndexOf(cs: seq<string>, c: string): (i: nat)
    requires c in cs
    ensures i < |cs| && cs[i] == c
    ensures forall j :: 0 <= j < i ==> cs[j] != c
  {
    if cs[0] == c then 0 else 1 + IndexOf(cs[1..], c)
  }

  /** `feat[cols].values`: row i of the result holds row i's cells for `cols`, in that order. */
  function Select(w: Wide, cols: seq<string>): (x: seq<seq<real>>)
    requires WellShaped(w)
    requires forall c :: c in cols ==> c in w.codes
    ensures |x| == |w.keys|
    ensures forall i :: 0 <= i < |x| ==> |x[i]| == |cols|
  {
    seq(|w.cells|, i requires 0 <= i < |w.cells| =>
      seq(|cols|, j requires 0 <= j < |cols| => w.cells[i][IndexOf(w.codes, cols[j])]))
  }

  /** Selecting every LOINC column, in table order, is the whole cell block. */
  lemma SelectAllCodes(w: Wide)
    requires WellShaped(w) && StrictlySorted(w.codes, StrLt)
    ensures Select(w, w.codes) == w.cells
  {
    StrLtIsStrictTotalOrder();
    var x := Select(w, w.codes);
    forall i | 0 <= i < |x| ensures x[i] == w.cells[i] {
      forall j | 0 <= j < |w.codes| ensures x[i][j] == w.cells[i][j] {
        var k := IndexOf(w.codes, w.codes[j]);
        assert k == j;
      }
    }
  }

  // ---------------------------------------------------------------------------------------
  // Tiny-data decision
  // ---------------------------------------------------------------------------------------

  /** `Counter(y)[c]`. */
  function Count(y: seq<nat>, c: nat): nat
    decreases |y|
  {
    if |y| == 0 then 0 else Count(y[..|y| - 1], c) + (if y[|y| - 1] == c then 1 else 0)
  }

  /** The smallest count among the classes at positions below `n`. */
  function MinCountBelow(y: seq<nat>, n: nat): (m: nat)
    requires 0 < n <= |y|
    ensures exists i :: 0 <= i < n && m == Count(y, y[i])
    ensures forall i :: 0 <= i < n ==> m <= Count(y, y[i])
    decreases n
  {
    if n == 1 then Count(y, y[0])
    else
      var m := MinCountBelow(y, n - 1);
      if Count(y, y[n - 1]) < m then Count(y, y[n - 1]) else m
  }

  /** `min(Counter(y).values()) if len(counts) > 0 else 0`: the size of the smallest class that
      occurs. Scanning every position visits every occurring class, and only those. */
  function MinClassCount(y: seq<nat>): (m: nat)
    ensures |y| == 0 ==> m == 0
    ensures |y| > 0 ==> (exists i :: 0 <= i < |y| && m == Count(y, y[i]))
    ensures forall i :: 0 <= i < |y| ==> m <= Count(y, y[i])
  {
    if |y| == 0 then 0 else MinCountBelow(y, |y|)
  }

  /** The split is skipped when there are fewer than 4 encounters or the smallest occurring
      class has fewer than 2. */
  predicate TinyData(y: seq<nat>) {
    |y| < MIN_SAMPLES || MinClassCount(y) < MIN_CLASS_COUNT
  }

  /** Tiny-data mode holds exactly when there are fewer than 4 samples or some class that
      occurs has fewer than 2 members. A class that does not occur does not count as 0. */
  lemma TinyDataIff(y: seq<nat>)
    ensures TinyData(y) <==> |y| < 4 || exists i :: 0 <= i < |y| && Count(y, y[i]) < 2
  {
  }

  /** Four positive encounters and no negative one: the absent class is ignored, so the data
      is not tiny. A single positive among three negatives is. */
  lemma TinyDataExamples()
    ensures !TinyData([1, 1, 1, 1])
    ensures TinyData([0, 0, 0, 1])
    ensures TinyData([])
  {
    var ones: seq<nat> := [1, 1, 1, 1];
    assert ones[..3] == [1, 1, 1] && ones[..3][..2] == [1, 1] && ones[..3][..2][..1] == [1];
    assert Count([1], 1) == 1 && Count([1, 1], 1) == 2 && Count([1, 1, 1], 1) == 3;
    assert Count(ones, 1) == 4;
    var mixed: seq<nat> := [0, 0, 0, 1];
    assert mixed[..3] == [0, 0, 0] && mixed[..3][..2] == [0, 0] && mixed[..3][..2][..1] == [0];
    assert Count([0], 1) == 0 && Count([0, 0], 1) == 0 && Count([0, 0, 0], 1) == 0;
    assert Count(mixed, 1) == 1;
  }

  /** The split plan: in tiny-data mode the model trains and is evaluated on everything; else
      scikit-learn makes a stratified 70/30 split with a fixed seed (its internals are not
      modelled). */
  datatype Split =
    | NoHoldout(xTrain: seq<seq<real>>, yTrain: seq<nat>, xTest: seq<seq<real>>, yTest: seq<nat>)
    | Stratified(testSize: real, randomState: int, stratify: seq<nat>)

  function PlanSplit(x: seq<seq<real>>, y: seq<nat>): (s: Split)
    ensures s.NoHoldout? <==> |y| < 4 || exists i :: 0 <= i < |y| && Count(y, y[i]) < 2
    ensures s.NoHoldout? ==> s.xTrain == s.xTest == x && s.yTrain == s.yTest == y
    ensures s.Stratified? ==> s.testSize == 0.3 && s.randomState == 42 && s.stratify == y
  {
    if TinyData(y) then NoHoldout(x, y, x, y) else Stratified(TEST_SIZE, RANDOM_STATE, y)
  }

  // ---------------------------------------------------------------------------------------
  // The whole training preparation
  // ---------------------------------------------------------------------------------------

  datatype TrainingRun = TrainingRun(
    wide: Wide,
    featureCols: seq<string>,
    x: seq<seq<real>>,
    y: seq<nat>,
    split: Split,
    savedFeatureList: seq<string>)

  /** Lines 18-84 of the training script without the fitting: label, pivot, y, feature columns,
      X, split decision and the feature list written to `feature_list.json`. */
  function Train(rows: seq<LabRow>): (t: TrainingRun)
    ensures t.wide == Pivot(rows)
    ensures |t.x| == |t.y| == |t.wide.keys|
    ensures forall i :: 0 <= i < |t.x| ==> |t.x[i]| == |t.featureCols|
    ensures t.savedFeatureList == t.featureCols
  {
    var w := Pivot(rows);
    var y := EncounterLabels(rows, Admits);
    var cols := FeatureColumns(w);
    var x := Select(w, cols);
    TrainingRun(w, cols, x, y, PlanSplit(x, y), cols)
  }

  /** What the trained model sees: X[i][j] is the mean of encounter i's values for feature j
      (0.0 when it has none), and y[i] is 1 exactly when one of encounter i's rows admits. */
  lemma TrainingMatrixMeaning(rows: seq<LabRow>, i: nat, j: nat)
    requires i < |Train(rows).x| && j < |Train(rows).featureCols|
    ensures var t := Train(rows);
      && t.x[i][j] == Mean(GroupValues(rows, t.wide.keys[i], t.featureCols[j]))
      && t.y[i] <= 1
      && (t.y[i] == 1 <==> exists r :: r in rows && KeyOf(r) == t.wide.keys[i] && AdmitLabel(r) == 1)
  {
    var t := Train(rows);
    var w := t.wide;
    var k := IndexOf(w.codes, t.featureCols[j]);
    PivotCellIsGroupMean(rows, i, k);
  }

  /** When both known codes occur, the features are exactly glucose then hemoglobin, and that
      is also the saved feature list; otherwise they are all the LOINC columns in sorted order. */
  lemma FeatureColumnChoice(rows: seq<LabRow>)
    ensures var t := Train(rows);
      var both := (exists r :: r in rows && r.loinc == GLUCOSE) && (exists r :: r in rows && r.loinc == HEMOGLOBIN);
      && (both ==> t.featureCols == t.savedFeatureList == [GLUCOSE, HEMOGLOBIN])
      && (!both ==> t.featureCols == t.wide.codes)
  {
    var w := Pivot(rows);
    assert GLUCOSE !in KEY_COLUMNS && HEMOGLOBIN !in KEY_COLUMNS;
    assert forall c :: c in Columns(w) && c != "patient_id" && c != "encounter_id" ==> c in w.codes;
    assert Columns(w)[|KEY_COLUMNS|..] == w.codes;
  }
}
