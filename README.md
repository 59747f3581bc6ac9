# PMML predictor: session, form and result logic

This project models the decision logic of the `main` page of a Streamlit app.
The app loads a PMML model file and scores one record, entered in a form, or a
whole CSV table. The page is mostly widgets around the `pypmml` scoring engine
and pandas. What is modelled here is the logic between those calls:

- **Loading** (module `ModelSession`). The two session fields, `model` and
  `model_info`, are the fields of class `Session`. `Session.Load` is one rerun
  of the load step. The outcome of parsing the uploaded text and reading its
  field lists is a parameter of type `ParseOutcome`. `Step` is the same
  transition as a function on values. `Replay` runs a series of reruns.
- **Field types** (module `Fields`). A field object may lack its `name` or
  `dataType` attribute. `EntryFor` picks the form entry and its starting value
  from the type name. `InfoType` gives the type shown on the information tab.
- **The form record** (module `Form`). `SchemaRecord` is the loop that stores
  one value per declared field. `ManualRecord` is the fallback loop over
  user-named rows. Both are specified by `Records.Inserted`, the dictionary left
  by inserting pairs in order, where a later pair overwrites an earlier one.
- **Scoring** (module `Prediction`). `PredictOne` is the submit guard and the
  error handling around the engine's `predict`. `Combine` puts the batch
  predictions beside the input table. `BatchTab` is the nested error handling of
  the batch tab. The engine is a function parameter `score`. A table is a list of
  column names plus a row count.

Facts about the code that the model keeps:

- The code never replaces a held model. A later upload is ignored.
- When the field lists cannot be read, the code records empty input and target
  lists. It does not record a type for each field.
- The form does not parse or validate numbers. Each entry widget hands back a
  value of its own kind, so there is no "not an integer" error path.
- A field with no declared type gets the same real-number entry as `double`.

## Model

The table lists the members whose contracts state the properties. They are
proved against these reference definitions, which restate the source directly:
`Records.Inserted` (the dictionary after `d[k] = v` for each pair, in order;
app.py:84-107), `ModelSession.Attempts` (the load guard; app.py:37),
`ModelSession.Step` and `ModelSession.StepNotice` (the session fields and the
sidebar message after one rerun; app.py:37-66), `ModelSession.Replay` (a series
of reruns), `Form.ManualRecordOf` (the manual record; app.py:100-107),
`Form.DefaultName` (a row's starting name `feature_{i+1}`; app.py:103) and
`Fields.FormEntry` (the entry for an optional declared type; app.py:86-95).

| member | source | states |
|---|---|---|
| Fields.DisplayName | app.py:85 | a field is keyed by its `name` attribute, or by its string form when it has none |
| Fields.FormType | app.py:86 | the form reads a missing `dataType` as `double` |
| Fields.InfoType | app.py:193 | the information tab shows a missing `dataType` as `N/A` |
| Fields.EntryFor | app.py:88-95 | `integer`/`int` give a whole-number entry starting at 0, `string` a text entry starting empty, every other name (including `double`/`float`) a real entry starting at 0.0 |
| Fields.MissingTypeIsDouble | app.py:86-91 | a field without a declared type gets exactly the entry of `double`, a real number starting at 0.0 |
| Fields.UnrecognisedTypeIsDouble | app.py:94-95 | any type name other than the five recognised ones is treated exactly like `double` |
| Fields.StartValue | app.py:89-95 | an untouched entry hands back its starting value (0, 0.0 or the empty text), which is of the entry's own kind |
| Fields.InfoTypePredictsEntry | app.py:193 | feeding the type the information tab prints into the form's dispatch gives the entry the form actually builds, even when the type is missing (`N/A`) |
| Fields.InputLines | app.py:190-196 | the input field listing is "not available" exactly when there are no input fields; otherwise it has one (name, type) line per field, in order |
| Fields.TargetLines | app.py:199-204 | the output field listing is "not available" exactly when there are no output fields; otherwise it has one name per field, in order |
| Records.Zip | app.py:100-107 | pairs the i-th row's name with the i-th row's value |
| Records.InsertedKeys | app.py:84-95 | a key is in the dictionary exactly when some inserted pair carries it |
| Records.InsertedLastWins | app.py:84-95 | under a repeated key, the dictionary keeps the value of the last pair |
| Records.InsertedSize | app.py:84-95 | the dictionary has no more entries than pairs were inserted |
| Records.InsertedSizeDistinct | app.py:84-95 | pairs with distinct keys give exactly one entry each |
| Form.Names | app.py:84-85 | the form's keys are the fields' display names, in declaration order |
| Form.SchemaRecord | app.py:83-95 | given values of the kind each field's entry hands back, the schema-form loop yields the ordered insertion of (display name, entered value) pairs: its keys are exactly the display names, each key holds the value entered for the last field shown under it, and that value fits the entry chosen for that field's declared type; at most one entry per field |
| Form.SchemaRecordNonEmpty | app.py:84-95 | a model with at least one input field always yields a non-empty record |
| Records.LastIndex | app.py:84-107 | finds the last row carrying a key, or reports that none does |
| Form.StartValues | app.py:88-95 | the values an untouched schema form hands back: each field's entry's starting value |
| Form.UntouchedSchemaForm | app.py:84-95 | an untouched schema form over distinct display names has one entry per field, each holding the starting value (0, 0.0 or empty text) of the entry its declared type selects |
| Form.SchemaRecordLastWins | app.py:84-95 | when two fields share a display name, the record keeps the value of the later one |
| Form.ManualRecord | app.py:98-107 | the manual loop over 1 to 50 rows yields the ordered insertion of every row with the empty-named rows skipped; the empty name is never a key |
| Form.ManualRecordKeys | app.py:106-107 | a key is in the manual record exactly when it is the non-empty name of some row |
| Form.ManualRecordLastWins | app.py:100-107 | for a repeated name, the manual record keeps the value of the last row with that name |
| Form.ManualRecordSize | app.py:98-107 | the manual record has at most `num_fields` entries |
| Form.Decimal | app.py:103 | the decimal form of a row number has at least one digit, and two or more from 10 on |
| Form.DecimalInjective | app.py:103 | distinct row numbers are written differently |
| Form.DefaultNames | app.py:100-103 | row i starts with the name `feature_{i+1}` |
| Form.DefaultNamesDistinct | app.py:103 | the starting names `feature_1`, `feature_2`, ... are pairwise distinct |
| Form.UntouchedNamesFillEveryRow | app.py:100-107 | with the starting names left in place, the manual record has exactly `num_fields` entries, each holding its row's value |
| ModelSession.Session.constructor | app.py:31-34 | a new session holds neither a model nor model information |
| ModelSession.Session.Load | app.py:36-66 | one rerun that completes the load step moves the session fields exactly as `Step` does and shows the sidebar message `StepNotice` gives, keeping "model held iff information held" |
| ModelSession.NoAttemptKeepsState | app.py:37 | without an upload, or with a model already held, a rerun changes nothing and shows no load message |
| ModelSession.ModelChangesOnlyOnAttempt | app.py:37 | the held model changes only when a file is uploaded and no model was held |
| ModelSession.ParseFailureLeavesNothing | app.py:63-66 | after a failed parse, both `model` and `model_info` are empty |
| ModelSession.ParseFailureIsNoChange | app.py:63-66 | on a consistent session, a failed parse leaves the session exactly as it was |
| ModelSession.UnreadableFieldsKeepModel | app.py:55-61 | when the field lists cannot be read, the parsed model is kept with empty input and target lists and the file's name |
| ModelSession.SuccessfulLoadRecordsFields | app.py:41-51 | a full load holds the model, its input and output field lists and the file's name |
| ModelSession.StepKeepsConsistent | app.py:31-66 | no rerun that completes the load step leaves a model without information, or information without a model |
| ModelSession.HeldModelIsNeverReplaced | app.py:37 | once a model is held, no series of reruns changes the session, whatever is uploaded |
| ModelSession.ReplayKeepsConsistent | app.py:31-66 | no series of reruns leaves a consistent session half-loaded |
| ModelSession.FirstLoadedModelStays | app.py:37 | the session ends with the state of the first rerun that stored a model |
| ModelSession.ReplaySplit | app.py:31-66 | replaying two series of reruns one after the other is replaying their concatenation |
| Prediction.ModeOf | app.py:83-97 | the manual form is shown exactly when the model's input field list is empty |
| Prediction.UnreadableFieldsMeanManualForm | app.py:57-61 | a load whose field lists could not be read always leads to the manual form |
| Prediction.PredictOne | app.py:111-133 | the engine is asked exactly when the form is submitted and the record is non-empty; a success shows the record and its prediction (assuming showing them does not raise), and a raised error is reported with its message, never passed on |
| Prediction.ScoringErrorIsReported | app.py:131-133 | a requested prediction whose scoring raises ends in the report of that error |
| Prediction.SchemaFormAlwaysScores | app.py:111 | submitting the schema form of a model with input fields always asks the engine |
| Prediction.ManualFormScoresIffNamed | app.py:111 | submitting the manual form asks the engine exactly when some row has a non-empty name |
| Prediction.AssignedColumns | app.py:153 | assigning the `prediction` column overwrites an existing column of that name in place, and otherwise appends it |
| Prediction.Combine | app.py:153 | combining succeeds exactly for a predicted table, for a flat column with one value per input row, or for any flat column when the input has no rows. The input columns come first, followed by the predicted table's columns or the `prediction` column. A flat column gives one row per predicted value, which is the input's row count whenever the input has rows |
| Prediction.AlignedFrameKeepsRows | app.py:153 | a predicted table with one row per input row gives the input columns, then the predicted columns, with the input's row count |
| Prediction.FlatPredictionAddsOneColumn | app.py:153 | a flat prediction of the right length adds exactly one `prediction` column after the input columns, or none if the input already has one |
| Prediction.EmptyBatchGivesEmptyResult | app.py:153 | a header-only table with an empty prediction gives an empty result, not an error |
| Prediction.HeaderOnlyTableTakesPredictionLength | app.py:153 | a table with no rows accepts a flat prediction of any length and takes that length as its row count, with the `prediction` column after the input columns |
| Prediction.BatchTab | app.py:142-173 | the batch tab shows nothing without a file, and the reading's error for an unreadable file. A readable file's preview is shown on every rerun. Once the run button is pressed, the combined table appears below the preview when scoring and combining both succeed (assuming showing and exporting it does not raise); otherwise the error that scoring or combining raised appears there |
| Prediction.ResultsAreWholeTable | app.py:148-170 | results are shown only when scoring and combining both succeeded for the whole table. Their columns start with the input's columns. A flat prediction gives one row per predicted value, which is the input's row count whenever the input has rows |

## Left out

- Rendering is not modelled: page layout, widgets, tabs, the JSON echo of the input and the download button are UI. The choice of sidebar message after a load is modelled (`Notice`, `StepNotice`). Its wording and rendering are not. The page shows its tabs only while a model is held (app.py:69). `Consistent` is what ensures the information tab then finds `model_info`, for reruns that complete the load step.
- The field counts on the information tab (app.py:185-186) are plain `len` calls and are not modelled separately.
- `Model.fromString` and `model.predict` belong to the scoring engine. They appear only as the `ParseOutcome` parameter and the `score` function parameter. Decoding the upload as UTF-8 is part of the parse outcome: a decoding error is a `ParseFailed`.
- `pd.read_csv` and `to_csv` are not modelled. The CSV reading is the `upload` parameter of `BatchTab`. Writing the export text is left out.
- Prediction.Combine: pandas aligns a predicted table with the input by index labels. The model assumes both sides have the default positional index, so the rows line up by position and the longer side decides the row count. Row contents are not modelled, only column names and row counts.
- Prediction.Combine: the failure text for a flat prediction of the wrong length is a placeholder. It stands for pandas' own message, which also gives the two lengths.
- Prediction.Combine: a prediction that is neither a data frame nor a one-dimensional array is not modelled. For example, pandas would broadcast a scalar to every row.
- Entry values are kept as exact integers, reals and strings. Widget number formats (`%d`, `%.6f`) and floating-point rounding are presentation and are not modelled.
- The traceback text shown after a scoring error is diagnostics and is not modelled. Only the error message is kept.
- Form.SchemaRecordLastWins: describes the dictionary overwrite only. Suppose two fields share a display name and get the same kind of entry. Their widgets are then identical (same label, same arguments, no key). Streamlit rejects such duplicate widgets before the overwrite runs, and that library failure is not modelled. Only same-named fields of different entry kinds actually reach the overwrite. The same holds for `Form.SchemaRecord`.
- Form.SchemaRecord: the widget library guarantees that each entered value is of its entry's kind. The model states this as a precondition.
- ModelSession.Session.Load: each rerun is assumed to complete the load step. Streamlit can end a run at any of its calls, by raising an exception that `except Exception` does not catch. Take a run on the unreadable-fields path that ends at the sidebar warning (app.py:56). It has stored the model (app.py:41) but not yet `model_info` (app.py:57). That leaves a model held without information, which `Step` never produces and `Consistent` excludes. Such interrupted runs are not modelled.
- Prediction.BatchTab: displaying the result table (app.py:156), writing it as CSV (app.py:159) and offering the download (app.py:161) are assumed not to raise. In the code they are inside the same `try` as scoring, so an error there would show as a batch error instead of the results. One such case is not modelled: the input already carries the predicted column names (for example, a re-uploaded export), so the combined table repeats column names, which the table display may reject.
- Prediction.PredictOne: showing the input and the prediction (app.py:117-129) is assumed not to raise. In the code that is inside the same `try`, so an error there would be reported like a scoring error.
- Form.ManualRecord: the 1 to 50 bound on the row count is enforced by the number widget, not by the loop. It appears as a precondition.
