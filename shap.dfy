/** The shape handling of `src/shap_explain.py`: `to_scalar_base`, which reduces the explainer's
    expected value to one number, and `pick_2d_shap`, which reduces the explainer's SHAP values
    to a (samples, features) matrix. Arrays are modelled by their shapes; a picked result says
    which view of the input it is, so each of its cells can be traced back to an input cell.
    Computing SHAP values and plotting are not modelled. */
module Shap {
  import opened Wrappers

  // ---------------------------------------------------------------------------------------
  // to_scalar_base
  // ---------------------------------------------------------------------------------------

  /** An expected value: a number, or a (possibly nested) list, tuple or array of them. */
  datatype ExpectedValue = Scalar(x: real) | Nested(items: seq<ExpectedValue>)

  /** `np.ravel(np.array(ev))`: the numbers in row-major order. */
  function Flatten(ev: ExpectedValue): seq<real>
    decreases ev
  {
    match ev
    case Scalar(x) => [x]
    case Nested(items) => FlattenAll(items)
  }

  function FlattenAll(items: seq<ExpectedValue>): seq<real>
    decreases items
  {
    if |items| == 0 then [] else FlattenAll(items[..|items| - 1]) + Flatten(items[|items| - 1])
  }

  const EMPTY_BASE: string := "IndexError: index -1 is out of bounds for axis 0 with size 0"

  /** `to_scalar_base`: a number is returned as it is; a container gives the last element of its
      flattening, which fails when it holds no number at all. */
  function ToScalarBase(ev: ExpectedValue): (r: Result<real, string>)
    ensures ev.Scalar? ==> r == Success(ev.x)
  {
    match ev
    case Scalar(x) => Success(x)
    case Nested(_) =>
      var flat := Flatten(ev);
      if |flat| == 0 then Failure(EMPTY_BASE) else Success(flat[|flat| - 1])
  }

  /** The last number of a value found by searching from the back, without flattening: the last
      item's last number, or, when the last item holds none, the last number before it. */
  function LastLeaf(ev: ExpectedValue): Option<real>
    decreases ev
  {
    match ev
    case Scalar(x) => Some(x)
    case Nested(items) => LastLeafAll(items)
  }

  function LastLeafAll(items: seq<ExpectedValue>): Option<real>
    decreases items
  {
    if |items| == 0 then None
    else
      match LastLeaf(items[|items| - 1])
      case Some(x) => Some(x)
      case None => LastLeafAll(items[..|items| - 1])
  }

  lemma {:induction false} LastLeafIsLastOfFlatten(ev: ExpectedValue)
    ensures LastLeaf(ev).None? <==> |Flatten(ev)| == 0
    ensures LastLeaf(ev).Some? ==> LastLeaf(ev).value == Flatten(ev)[|Flatten(ev)| - 1]
    decreases ev
  {
    match ev
    case Scalar(_) =>
    case Nested(items) => LastLeafAllIsLastOfFlattenAll(items);
  }

  lemma {:induction false} LastLeafAllIsLastOfFlattenAll(items: seq<ExpectedValue>)
    ensures LastLeafAll(items).None? <==> |FlattenAll(items)| == 0
    ensures LastLeafAll(items).Some? ==> LastLeafAll(items).value == FlattenAll(items)[|FlattenAll(items)| - 1]
    decreases items
  {
    if |items| > 0 {
      LastLeafIsLastOfFlatten(items[|items| - 1]);
      LastLeafAllIsLastOfFlattenAll(items[..|items| - 1]);
    }
  }

  /** The base value is the last number the expected value holds, searched from the back; it
      fails exactly when the value holds no number (an empty list, or lists of empty lists). */
  lemma ToScalarBaseIsLastLeaf(ev: ExpectedValue)
    ensures ToScalarBase(ev).Success? <==> LastLeaf(ev).Some?
    ensures ToScalarBase(ev).Success? ==> ToScalarBase(ev).value == LastLeaf(ev).value
    ensures ToScalarBase(ev).Failure? ==> ToScalarBase(ev).error == EMPTY_BASE
  {
    LastLeafIsLastOfFlatten(ev);
  }

  /** A binary classifier's pair of base values gives the positive class's; a regular 2x2 value
      gives its last cell; a value with no number at all fails. */
  lemma ToScalarBaseExamples()
    ensures ToScalarBase(Nested([Scalar(0.3), Scalar(0.7)])) == Success(0.7)
    ensures ToScalarBase(Nested([Nested([Scalar(0.1), Scalar(0.2)]), Nested([Scalar(0.3), Scalar(0.4)])])) == Success(0.4)
    ensures ToScalarBase(Nested([Nested([]), Nested([])])) == Failure(EMPTY_BASE)
    ensures ToScalarBase(Nested([])) == Failure(EMPTY_BASE)
  {
    var pair := Nested([Scalar(0.3), Scalar(0.7)]);
    ToScalarBaseIsLastLeaf(pair);
    var square := Nested([Nested([Scalar(0.1), Scalar(0.2)]), Nested([Scalar(0.3), Scalar(0.4)])]);
    ToScalarBaseIsLastLeaf(square);
    assert LastLeafAll([Scalar(0.3), Scalar(0.4)]) == Some(0.4);
    var empties := Nested([Nested([]), Nested([])]);
    ToScalarBaseIsLastLeaf(empties);
    assert [Nested([]), Nested([])][..1] == [Nested([])];
    assert [Nested([])][..0] == [];
  }

  // ---------------------------------------------------------------------------------------
  // np.squeeze
  // ---------------------------------------------------------------------------------------

  /** `np.squeeze`: the shape with every axis of length 1 removed. */
  function Squeeze(shape: seq<nat>): (r: seq<nat>)
    ensures |r| <= |shape|
    ensures forall d :: d in r ==> d != 1 && d in shape
    ensures forall d :: d in shape && d != 1 ==> d in r
    decreases |shape|
  {
    if |shape| == 0 then []
    else (if shape[0] == 1 then [] else [shape[0]]) + Squeeze(shape[1..])
  }

  /** Squeezing goes axis by axis, in order: one axis is dropped exactly when its length is 1,
      and a shape split in two squeezes to the squeezed first part, then the squeezed second. */
  lemma {:induction false} SqueezeAxisByAxis(a: seq<nat>, b: seq<nat>, d: nat)
    ensures Squeeze([d]) == if d == 1 then [] else [d]
    ensures Squeeze(a + b) == Squeeze(a) + Squeeze(b)
    decreases |a|
  {
    assert [d][1..] == [];
    if |a| == 0 {
      assert a + b == b;
    } else {
      assert (a + b)[0] == a[0] && (a + b)[1..] == a[1..] + b;
      SqueezeAxisByAxis(a[1..], b, d);
    }
  }

  /** The number of cells of an array of this shape. */
  function Size(shape: seq<nat>): nat
    decreases |shape|
  {
    if |shape| == 0 then 1 else shape[0] * Size(shape[1..])
  }

  /** Squeezing keeps every cell, and squeezing twice is squeezing once. */
  lemma {:induction false} SqueezeKeepsCells(shape: seq<nat>)
    ensures Size(Squeeze(shape)) == Size(shape)
    ensures Squeeze(Squeeze(shape)) == Squeeze(shape)
    decreases |shape|
  {
    if |shape| > 0 {
      SqueezeKeepsCells(shape[1..]);
      var rest := Squeeze(shape[1..]);
      if shape[0] == 1 {
        assert Squeeze(shape) == [] + rest == rest;
      } else {
        var squeezed := [shape[0]] + rest;
        assert Squeeze(shape) == squeezed;
        assert squeezed[0] == shape[0] && squeezed[1..] == rest;
        assert Size(squeezed) == shape[0] * Size(rest);
        assert Squeeze(squeezed) == [shape[0]] + Squeeze(rest);
      }
    }
  }

  /** The index into `shape` of the cell at index `idx` of the squeezed array: 0 on every axis of
      length 1, and the next coordinate of `idx` on every other axis. */
  function Unsqueeze(shape: seq<nat>, idx: seq<nat>): (r: seq<nat>)
    ensures |r| == |shape|
    decreases |shape|
  {
    if |shape| == 0 then []
    else if shape[0] == 1 || |idx| == 0 then [0] + Unsqueeze(shape[1..], if shape[0] == 1 then idx else [])
    else [idx[0]] + Unsqueeze(shape[1..], idx[1..])
  }

  predicate InBounds(idx: seq<nat>, shape: seq<nat>) {
    |idx| == |shape| && forall k :: 0 <= k < |idx| ==> idx[k] < shape[k]
  }

  /** Every cell of the squeezed array is a cell of the original. */
  lemma {:induction false} UnsqueezeInBounds(shape: seq<nat>, idx: seq<nat>)
    requires InBounds(idx, Squeeze(shape))
    ensures InBounds(Unsqueeze(shape, idx), shape)
    decreases |shape|
  {
    if |shape| > 0 {
      if shape[0] == 1 {
        UnsqueezeInBounds(shape[1..], idx);
      } else {
        assert Squeeze(shape) == [shape[0]] + Squeeze(shape[1..]);
        assert idx[0] < shape[0];
        assert InBounds(idx[1..], Squeeze(shape[1..])) by {
          forall k | 0 <= k < |idx[1..]| ensures idx[1..][k] < Squeeze(shape[1..])[k] {
            assert idx[1..][k] == idx[k + 1];
          }
        }
        UnsqueezeInBounds(shape[1..], idx[1..]);
      }
      var r := Unsqueeze(shape, idx);
      forall k | 0 <= k < |r| ensures r[k] < shape[k] {
        if k > 0 {
          assert r[k] == r[1..][k - 1];
        }
      }
    }
  }

  // ---------------------------------------------------------------------------------------
  // pick_2d_shap
  // ---------------------------------------------------------------------------------------

  /** The explainer's SHAP values: a list of per-output arrays, or one array (given by shape). */
  datatype ShapValues = PerOutput(outputs: seq<seq<nat>>) | OneArray(shape: seq<nat>)

  /** Which view of the chosen array a result is. */
  datatype View =
    | AsGiven         // `arr`
    | LastOfAxis0     // `arr[-1, :, :]`
    | LastOfAxis1     // `arr[:, -1, :]`
    | Squeezed        // `np.squeeze(arr)`

  datatype Picked = Picked(view: View, shape: seq<nat>)

  const EMPTY_LIST: string := "IndexError: list index out of range"
  const EMPTY_AXIS_0: string := "IndexError: index -1 is out of bounds for axis 0 with size 0"
  const EMPTY_AXIS_1: string := "IndexError: index -1 is out of bounds for axis 1 with size 0"
  const UNEXPECTED_SHAPE: string := "ValueError: Unexpected SHAP shape (cannot map to (samples, features))"
  const UNEXPECTED_NDIM: string := "ValueError: Unexpected SHAP ndim"

  /** The array `pick_2d_shap` works on: the last output of a list, or the array itself. */
  function Chosen(sv: ShapValues): Result<seq<nat>, string> {
    match sv
    case PerOutput(outputs) => if |outputs| == 0 then Failure(EMPTY_LIST) else Success(outputs[|outputs| - 1])
    case OneArray(shape) => Success(shape)
  }

  /** `pick_2d_shap` once the array is chosen. */
  function PickFromArray(shape: seq<nat>, nSamples: nat, nFeatures: nat): (r: Result<Picked, string>)
    ensures r.Success? ==> |r.value.shape| == 2
  {
    if |shape| == 2 then Success(Picked(AsGiven, shape))
    else if |shape| == 3 then
      if shape[1] == nSamples && shape[2] == nFeatures then
        if shape[0] == 0 then Failure(EMPTY_AXIS_0) else Success(Picked(LastOfAxis0, shape[1..]))
      else if shape[0] == nSamples && shape[2] == nFeatures then
        if shape[1] == 0 then Failure(EMPTY_AXIS_1) else Success(Picked(LastOfAxis1, [shape[0], shape[2]]))
      else if Squeeze(shape) == [nSamples, nFeatures] then Success(Picked(Squeezed, [nSamples, nFeatures]))
      else Failure(UNEXPECTED_SHAPE)
    else if |Squeeze(shape)| == 2 then Success(Picked(Squeezed, Squeeze(shape)))
    else Failure(UNEXPECTED_NDIM)
  }

  /** `pick_2d_shap(sv, n_samples, n_features)`. */
  function Pick2dShap(sv: ShapValues, nSamples: nat, nFeatures: nat): (r: Result<Picked, string>)
    ensures r.Success? ==> |r.value.shape| == 2
  {
    match Chosen(sv)
    case Failure(e) => Failure(e)
    case Success(shape) => PickFromArray(shape, nSamples, nFeatures)
  }

  /** A list is handled through its last output only; an empty list fails. */
  lemma ListUsesLastOutput(outputs: seq<seq<nat>>, nSamples: nat, nFeatures: nat)
    ensures |outputs| == 0 ==> Pick2dShap(PerOutput(outputs), nSamples, nFeatures) == Failure(EMPTY_LIST)
    ensures |outputs| > 0 ==> Pick2dShap(PerOutput(outputs), nSamples, nFeatures)
                              == Pick2dShap(OneArray(outputs[|outputs| - 1]), nSamples, nFeatures)
    ensures forall others: seq<seq<nat>> :: |outputs| > 0 ==>
      Pick2dShap(PerOutput(others + outputs), nSamples, nFeatures) == Pick2dShap(PerOutput(outputs), nSamples, nFeatures)
  {
  }

  /** A 2-D array is returned as it is, whatever the expected sizes. */
  lemma TwoDimensionalUnchecked(shape: seq<nat>, nSamples: nat, nFeatures: nat)
    requires |shape| == 2
    ensures Pick2dShap(OneArray(shape), nSamples, nFeatures) == Success(Picked(AsGiven, shape))
  {
  }

  /** The 3-D rules: (outputs, samples, features) takes the last output along axis 0 and wins
      when both layouts match; (samples, outputs, features) takes it along axis 1; any other
      3-D shape is accepted only when squeezing gives (samples, features). Whatever is returned
      has exactly the expected shape. */
  lemma ThreeDimensionalRules(shape: seq<nat>, nSamples: nat, nFeatures: nat)
    requires |shape| == 3
    ensures var r := Pick2dShap(OneArray(shape), nSamples, nFeatures);
      && (r.Success? ==> r.value.shape == [nSamples, nFeatures])
      && (shape[1] == nSamples && shape[2] == nFeatures && shape[0] > 0 ==> r.Success? && r.value.view == LastOfAxis0)
      && (shape[1] == nSamples && shape[2] == nFeatures && shape[0] == 0 ==> r == Failure(EMPTY_AXIS_0))
      && (!(shape[1] == nSamples && shape[2] == nFeatures) && shape[0] == nSamples && shape[2] == nFeatures ==>
            r == (if shape[1] == 0 then Failure(EMPTY_AXIS_1) else Success(Picked(LastOfAxis1, [nSamples, nFeatures]))))
      && (!(shape[1] == nSamples && shape[2] == nFeatures) && !(shape[0] == nSamples && shape[2] == nFeatures) ==>
            (r.Success? <==> Squeeze(shape) == [nSamples, nFeatures]) && (r.Failure? ==> r.error == UNEXPECTED_SHAPE))
  {
  }

  /** Any other number of axes: the squeezed array when it is 2-D, else an error; so a 1-D or
      0-D array is always refused, and every successful result has two axes. */
  lemma OtherDimensionsRule(shape: seq<nat>, nSamples: nat, nFeatures: nat)
    requires |shape| != 2 && |shape| != 3
    ensures var r := Pick2dShap(OneArray(shape), nSamples, nFeatures);
      && (r.Success? <==> |Squeeze(shape)| == 2)
      && (r.Success? ==> r.value == Picked(Squeezed, Squeeze(shape)))
      && (r.Failure? ==> r.error == UNEXPECTED_NDIM)
      && (|shape| < 2 ==> r.Failure?)
  {
  }

  /** The input index of the result's cell (i, j). */
  function SourceIndex(view: View, shape: seq<nat>, i: nat, j: nat): (idx: seq<nat>)
  {
    match view
    case AsGiven => [i, j]
    case LastOfAxis0 => [if |shape| > 0 && shape[0] > 0 then shape[0] - 1 else 0, i, j]
    case LastOfAxis1 => [i, if |shape| > 1 && shape[1] > 0 then shape[1] - 1 else 0, j]
    case Squeezed => Unsqueeze(shape, [i, j])
  }

  /** Every cell of a picked matrix is a cell of the chosen input array, and the slicing views
      read the last output. */
  lemma PickedCellsComeFromTheInput(shape: seq<nat>, nSamples: nat, nFeatures: nat, i: nat, j: nat)
    requires PickFromArray(shape, nSamples, nFeatures).Success?
    requires var p := PickFromArray(shape, nSamples, nFeatures).value; i < p.shape[0] && j < p.shape[1]
    ensures var p := PickFromArray(shape, nSamples, nFeatures).value;
      && InBounds(SourceIndex(p.view, shape, i, j), shape)
      && (p.view == LastOfAxis0 ==> SourceIndex(p.view, shape, i, j)[0] == shape[0] - 1)
      && (p.view == LastOfAxis1 ==> SourceIndex(p.view, shape, i, j)[1] == shape[1] - 1)
  {
    var p := PickFromArray(shape, nSamples, nFeatures).value;
    if p.view == Squeezed {
      UnsqueezeInBounds(shape, [i, j]);
    }
  }
}
