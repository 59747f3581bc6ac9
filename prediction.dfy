/**
 * Scoring: the single-record prediction behind the form's submit button, and
 * the batch prediction that appends the model's output to an uploaded table.
 * The scoring engine itself is a parameter.
 */
module Prediction {
  import opened Wrappers
  import opened Records
  import opened Fields
  import opened Form
  import opened ModelSession

  /** Which form the prediction tab shows for the loaded model. */
  datatype FormMode = SchemaForm(fields: seq<Field>) | ManualForm

  /** The form follows the model's input field list; an empty list means manual entry. */
  function ModeOf(info: ModelInfo): (m: FormMode)
    ensures m.ManualForm? <==> info.inputFields == []
    ensures m.SchemaForm? ==> m.fields == info.inputFields
  {
    if info.inputFields != [] then SchemaForm(info.inputFields) else ManualForm
  }

  /** A load whose field lists could not be read always leads to the manual form. */
  lemma UnreadableFieldsMeanManualForm(s: SessionState, upload: Option<Upload>, h: Handle, e: string)
    requires Attempts(s, upload)
    ensures Step(s, upload, FieldsUnreadable(h, e)).info.Some?
    ensures ModeOf(Step(s, upload, FieldsUnreadable(h, e)).info.value) == ManualForm
  {
  }

  /** What the single prediction shows: nothing, the input with its prediction, or the engine's error. */
  datatype SingleResult<V, P> =
    | NotRequested
    | Predicted(input: map<string, V>, prediction: P)
    | ScoringFailed(message: string)

  /**
   * Scores the record only when the form was submitted and the record is not
   * empty; whatever the engine raises is reported, never passed on.
   */
  function PredictOne<V, P>(submitted: bool, record: map<string, V>, score: map<string, V> -> Result<P>): (r: SingleResult<V, P>)
    ensures r.NotRequested? <==> !submitted || |record| == 0
    ensures r.Predicted? ==> r.input == record && score(record) == Success(r.prediction)
    ensures r.ScoringFailed? ==> score(record) == Failure(r.message)
  {
    if submitted && |record| > 0 then
      match score(record)
      case Success(p) => Predicted(record, p)
      case Failure(e) => ScoringFailed(e)
    else NotRequested
  }

  /** A requested prediction whose scoring raised is reported with the engine's message. */
  lemma ScoringErrorIsReported<V, P>(record: map<string, V>, score: map<string, V> -> Result<P>)
    requires |record| > 0 && score(record).Failure?
    ensures PredictOne(true, record, score) == ScoringFailed(score(record).error)
  {
  }

  /** With the schema form, submitting always asks the engine: the record is never empty. */
  lemma SchemaFormAlwaysScores<P>(fields: seq<Field>, entered: seq<Value>, score: map<string, Value> -> Result<P>)
    requires |entered| == |fields| && fields != []
    ensures !PredictOne(true, Inserted(Zip(Names(fields), entered)), score).NotRequested?
  {
    SchemaRecordNonEmpty(fields, entered);
  }

  /** With the manual form, submitting asks the engine exactly when some row has a non-empty name. */
  lemma ManualFormScoresIffNamed<P>(names: seq<string>, values: seq<real>, score: map<string, real> -> Result<P>)
    requires |names| == |values|
    ensures PredictOne(true, ManualRecordOf(names, values), score).NotRequested?
        <==> forall i :: 0 <= i < |names| ==> names[i] == ""
  {
    var record := ManualRecordOf(names, values);
    if exists i :: 0 <= i < |names| && names[i] != "" {
      var i :| 0 <= i < |names| && names[i] != "";
      ManualRecordKeys(names, values, names[i]);
      assert names[i] in record;
    } else if |record| > 0 {
      var k :| k in record;
      ManualRecordKeys(names, values, k);
    }
  }

  /** A table as far as result assembly is concerned: its column names, in order, and its row count. */
  datatype Table = Table(columns: seq<string>, rows: nat)

  /** What the engine returns for a table: a table of its own, or one flat column of values. */
  datatype Predictions = Frame(table: Table) | Column(length: nat)

  /** The name of the column a flat prediction is stored under. */
  const PredictionColumn: string := "prediction"

  /**
   * The columns after the `prediction` column is assigned: a column of that name
   * already present is overwritten where it stands, otherwise one is appended.
   */
  function AssignedColumns(columns: seq<string>): (r: seq<string>)
    ensures PredictionColumn in r
    ensures PredictionColumn in columns ==> r == columns
    ensures PredictionColumn !in columns ==> r == columns + [PredictionColumn]
  {
    if PredictionColumn in columns then columns else columns + [PredictionColumn]
  }

  /**
   * Puts the predictions beside the input table. A predicted table is joined
   * column-wise after the input columns, rows aligned by position (the longer
   * side decides the row count). A flat column becomes the `prediction` column
   * and must have one value per input row, else the assignment raises; a table
   * with no rows instead takes the column's length as its row count.
   */
  function Combine(input: Table, p: Predictions): (r: Result<Table>)
    ensures r.Success? <==> p.Frame? || p.length == input.rows || input.rows == 0
    ensures r.Success? ==> input.columns <= r.value.columns
    ensures r.Success? && p.Frame? ==> r.value.columns[|input.columns|..] == p.table.columns
    ensures r.Success? && p.Column? ==> r.value.rows == p.length
    ensures r.Success? && p.Column? && input.rows > 0 ==> r.value.rows == input.rows
    ensures r.Success? && p.Column? ==> r.value.columns == AssignedColumns(input.columns)
  {
    match p
    case Frame(t) =>
      Success(Table(input.columns + t.columns, if input.rows < t.rows then t.rows else input.rows))
    case Column(n) =>
      if input.rows == 0 then Success(Table(AssignedColumns(input.columns), n))
      else if n != input.rows then Failure("Length of values does not match length of index")
      else Success(Table(AssignedColumns(input.columns), input.rows))
  }

  /** A predicted table with one row per input row leaves the row count unchanged. */
  lemma AlignedFrameKeepsRows(input: Table, t: Table)
    requires t.rows == input.rows
    ensures Combine(input, Frame(t)).Success?
    ensures Combine(input, Frame(t)).value.rows == input.rows
    ensures Combine(input, Frame(t)).value.columns == input.columns + t.columns
  {
  }

  /** A flat prediction adds at most one column, and exactly one when no `prediction` column existed. */
  lemma FlatPredictionAddsOneColumn(input: Table, n: nat)
    requires n == input.rows
    ensures Combine(input, Column(n)).Success?
    ensures PredictionColumn !in input.columns ==>
      Combine(input, Column(n)).value.columns == input.columns + [PredictionColumn]
    ensures PredictionColumn in input.columns ==> Combine(input, Column(n)).value.columns == input.columns
  {
  }

  /** An empty table (a header only) gives an empty result, not an error, for an empty prediction. */
  lemma EmptyBatchGivesEmptyResult(columns: seq<string>, p: Predictions)
    requires p == Column(0) || (p.Frame? && p.table.rows == 0)
    ensures Combine(Table(columns, 0), p).Success?
    ensures Combine(Table(columns, 0), p).value.rows == 0
  {
  }

  /**
   * A table with no rows takes a flat prediction of any length: the result has
   * one row per predicted value, under the input columns and `prediction`.
   */
  lemma HeaderOnlyTableTakesPredictionLength(columns: seq<string>, n: nat)
    ensures Combine(Table(columns, 0), Column(n)) == Success(Table(AssignedColumns(columns), n))
  {
  }

  /** What the batch tab shows. */
  datatype BatchView =
    | NoFile
    | ReadFailed(readError: string)
    | Preview(table: Table)
    | Results(result: Table)
    | BatchFailed(batchError: string)

  /**
   * The batch tab: `upload` is the CSV file's reading (absent when none is
   * uploaded); with the run button pressed, the whole table is scored at once
   * and the predictions combined with it. A reading error, a scoring error and
   * a combining error each replace the whole result.
   */
  function BatchTab(upload: Option<Result<Table>>, run: bool, score: Table -> Result<Predictions>): (v: BatchView)
    ensures v.NoFile? <==> upload.None?
    ensures v.ReadFailed? <==> upload.Some? && upload.value.Failure?
    ensures v.Preview? <==> upload.Some? && upload.value.Success? && !run
    ensures v.ReadFailed? ==> v.readError == upload.value.error
    ensures v.Preview? ==> v.table == upload.value.value
    ensures upload.Some? && upload.value.Success? && run ==>
      var t := upload.value.value;
      && (v.Results? <==> score(t).Success? && Combine(t, score(t).value).Success?)
      && (v.Results? ==> v.result == Combine(t, score(t).value).value)
      && (score(t).Failure? ==> v == BatchFailed(score(t).error))
      && (score(t).Success? && Combine(t, score(t).value).Failure? ==>
            v == BatchFailed(Combine(t, score(t).value).error))
  {
    match upload
    case None => NoFile
    case Some(Failure(e)) => ReadFailed(e)
    case Some(Success(table)) =>
      if !run then Preview(table)
      else
        match score(table)
        case Failure(e) => BatchFailed(e)
        case Success(p) =>
          match Combine(table, p)
          case Failure(e) => BatchFailed(e)
          case Success(result) => Results(result)
  }

  /**
   * A result is shown only when scoring and combining both succeeded for the
   * whole table: its columns start with the input's, and a flat prediction gives
   * one row per predicted value, which for a table with rows is its own row count.
   */
  lemma ResultsAreWholeTable(upload: Option<Result<Table>>, run: bool, score: Table -> Result<Predictions>)
    requires BatchTab(upload, run, score).Results?
    ensures upload.Some? && upload.value.Success? && run
    ensures score(upload.value.value).Success?
    ensures Combine(upload.value.value, score(upload.value.value).value) == Success(BatchTab(upload, run, score).result)
    ensures upload.value.value.columns <= BatchTab(upload, run, score).result.columns
    ensures score(upload.value.value).value.Column? ==>
      BatchTab(upload, run, score).result.rows == score(upload.value.value).value.length
    ensures score(upload.value.value).value.Column? && upload.value.value.rows > 0 ==>
      BatchTab(upload, run, score).result.rows == upload.value.value.rows
  {
  }
}
