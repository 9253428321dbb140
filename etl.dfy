/** The curation step of `src/etl_pipeline.py`: the required-column check, the diagnosis lookup
    through the knowledge graph (a function parameter here) and the two columns it adds.
    Reading and writing parquet files is not modelled. */
module Etl {
  import opened Wrappers

  const REQUIRED: set<string> := {"patient_id", "encounter_id", "loinc", "lab_value", "unit", "collected_date"}
  const DX_CODES: string := "dx_codes"
  const IS_VALUE_VALID: string := "is_value_valid"

  /** One row of the clean table; `labValue` is None where the table holds NaN. */
  datatype CleanRow = CleanRow(
    patientId: string, encounterId: string, loinc: string, labValue: Option<real>,
    unit: string, collectedDate: string)

  /** A table: its column names and its rows. */
  datatype CleanTable = CleanTable(columns: seq<string>, rows: seq<CleanRow>)

  /** A curated row: the clean row untouched, plus the two derived cells. */
  datatype CuratedRow = CuratedRow(row: CleanRow, dxCodes: seq<string>, isValueValid: bool)

  datatype CuratedTable = CuratedTable(columns: seq<string>, rows: seq<CuratedRow>)

  /** `assert REQUIRED.issubset(df.columns)` fails with the columns it found. */
  datatype EtlError = SchemaMismatch(found: set<string>)

  /** The diagnosis query for one LOINC code: the rows it returns, each holding `collect(d.code)`. */
  type DxQuery = string -> seq<seq<string>>

  predicate SchemaOk(columns: seq<string>) {
    forall c :: c in REQUIRED ==> c in columns
  }

  /** The check passes exactly when none of the six required columns is missing; any extra
      column is allowed, and dropping a required one fails it. */
  lemma SchemaOkMeaning(columns: seq<string>, extra: seq<string>, missing: string)
    ensures SchemaOk(columns) <==> REQUIRED <= (set c | c in columns)
    ensures SchemaOk(columns) ==> SchemaOk(columns + extra) && SchemaOk(extra + columns)
    ensures missing in REQUIRED && missing !in columns ==> !SchemaOk(columns)
    ensures SchemaOk(["patient_id", "encounter_id", "loinc", "lab_value", "unit", "collected_date"])
  {
    var cols := ["patient_id", "encounter_id", "loinc", "lab_value", "unit", "collected_date"];
    assert forall c :: c in REQUIRED ==> c in cols;
  }

  /** `fetch_dx_for_loinc`: the codes of the first result row, or none when there is no row. */
  function FetchDx(query: DxQuery, loinc: string): (codes: seq<string>)
    ensures |query(loinc)| == 0 ==> codes == []
    ensures |query(loinc)| > 0 ==> codes == query(loinc)[0]
  {
    var res := query(loinc);
    if |res| > 0 then res[0] else []
  }

  /** `bool(pd.notna(v) and v > 0)`. */
  function IsValueValid(v: Option<real>): (valid: bool)
    ensures valid <==> v.Some? && v.value > 0.0
  {
    match v
    case None => false
    case Some(x) => x > 0.0
  }

  /** Zero, negative and missing values are invalid; any positive value is valid. */
  lemma ValidityBoundaries(x: real)
    ensures !IsValueValid(Some(0.0)) && !IsValueValid(None)
    ensures x < 0.0 ==> !IsValueValid(Some(x))
    ensures x > 0.0 ==> IsValueValid(Some(x))
  {
  }

  /** `df[name] = ...` on a frame: a new column goes at the end; an existing one is replaced
      where it stands. */
  function AddColumn(columns: seq<string>, name: string): (r: seq<string>)
    ensures columns <= r
    ensures (set c | c in r) == (set c | c in columns) + {name}
    ensures name in columns ==> r == columns
    ensures name !in columns ==> |r| == |columns| + 1
  {
    if name in columns then columns else columns + [name]
  }

  /** `main` between the read and the write: check the schema, then add `dx_codes` (the graph
      lookup of each row's code) and `is_value_valid` (the validity of each row's value). */
  function Curate(t: CleanTable, query: DxQuery): (r: Result<CuratedTable, EtlError>)
    ensures r.Failure? <==> !SchemaOk(t.columns)
    ensures r.Failure? ==> r.error == SchemaMismatch(set c | c in t.columns)
    ensures r.Success? ==>
      && r.value.columns == AddColumn(AddColumn(t.columns, DX_CODES), IS_VALUE_VALID)
      && |r.value.rows| == |t.rows|
      && forall i :: 0 <= i < |t.rows| ==>
           && r.value.rows[i].row == t.rows[i]
           && r.value.rows[i].dxCodes == FetchDx(query, t.rows[i].loinc)
           && r.value.rows[i].isValueValid == IsValueValid(t.rows[i].labValue)
  {
    if !SchemaOk(t.columns) then Failure(SchemaMismatch(set c | c in t.columns))
    else
      var rows := seq(|t.rows|, i requires 0 <= i < |t.rows| =>
        CuratedRow(t.rows[i], FetchDx(query, t.rows[i].loinc), IsValueValid(t.rows[i].labValue)));
      Success(CuratedTable(AddColumn(AddColumn(t.columns, DX_CODES), IS_VALUE_VALID), rows))
  }

  /** The curated table keeps every original column in place and in order, and its column set
      is the original one plus exactly `dx_codes` and `is_value_valid`. */
  lemma CurateAddsExactlyTwoColumns(t: CleanTable, query: DxQuery)
    requires SchemaOk(t.columns)
    ensures var r := Curate(t, query);
      && r.Success?
      && t.columns <= r.value.columns
      && (set c | c in r.value.columns) == (set c | c in t.columns) + {DX_CODES, IS_VALUE_VALID}
      && (DX_CODES !in t.columns && IS_VALUE_VALID !in t.columns ==>
            r.value.columns == t.columns + [DX_CODES, IS_VALUE_VALID])
  {
    var once := AddColumn(t.columns, DX_CODES);
    if DX_CODES !in t.columns && IS_VALUE_VALID !in t.columns {
      assert IS_VALUE_VALID !in once;
    }
  }
}
