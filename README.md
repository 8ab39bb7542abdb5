# Cardiovascular risk calculator: survey-answer encoder

`app.py` is a Streamlit form. It asks 27 health-survey questions and turns
the answers into the 27-element feature vector that a fitted scaler and a
logistic-regression classifier expect. It then shows the classifier's class-1
probability and a "High" or "Low" cardiovascular-risk message. This project
models the logic between the form and the classifier:

- `Dicts`: the Python dictionaries the encoder uses. Each is an
  insertion-ordered list of `(label, code)` entries, because
  `list(d.keys())` is the list of options a selectbox shows and its first key
  is the default. `d[k]` raises `KeyError(k)` on a missing key, modelled as a
  `Result`.
- `Tables`: the eight answer-to-code tables, transcribed from their dict
  literals. The module proves that each is a bijection onto `0..n-1`, that
  the yes/no table codes "No" as 0 and "Yes" as 1, and that the ordinal
  tables list their labels in increasing code order.
- `Encoder`:
  - `FEATURE_COLUMNS`, as a `Column` enumeration and its fitted order;
  - the submitted answers, as an `Answers` record;
  - the `input_data` list literal (`InputData`), together with Python's
    left-to-right evaluation of that literal (`EvaluateList`), so the first
    failing lookup raises. `Encode` is the two combined.
- `Inference`: the step after the classifier. It reads `predict(x)[0]` and
  `predict_proba(x)[0][1]` and picks the verdict from the label alone. The
  scaler and the classifier are opaque functions held in an `Artifacts`
  value.

Numbers the form produces are `int` for the integer sliders and `real` for
the BMI slider. A cell of the vector is `Int(n)` or `Float(x)`.

The code does not range-check the numeric answers: it copies them into the
vector unchanged. The sliders alone bound them (general health 0..4, days
0..30, sleep 0..24, BMI 10.0..50.0). The model therefore passes numbers
through for any value. `FormAnswers` states the slider ranges, and
`FormSubmissionEncodes` proves what follows from them. A numeric answer
outside its range is not an error anywhere in the model.

## Model

Constants and functions without a contract of their own are covered by the
lemma that states their properties: the eight table constants (`SexMap` …
`AgeMap`) by `Tables.AllTablesWellFormed` and `Tables.TablesAreBijections`;
`Encoder.FeatureColumns` by `Encoder.FeatureColumnsListEachColumnOnce`;
`Encoder.DefaultAnswers` by `Encoder.DefaultAnswersColumn` and
`Encoder.DefaultSubmissionEncoding`; `Dicts.Get` by `Dicts.GetSpec`;
`Inference.Assess` by `Inference.AssessSpec`.

| member | source | states |
|---|---|---|
| `Dicts.Keys` | app.py:66 | `list(d.keys())` has one key per entry, in insertion order; this is Python's key list for the tables, which never repeat a key (`Tables.AllTablesWellFormed`) |
| `Dicts.GetSpec` | app.py:99-125 | `Get`, the lookup behind `d[k]`, finds a value exactly when the key is listed, and the value found is that entry's value |
| `Dicts.Subscript` | app.py:99-125 | `d[k]` fails exactly when the lookup finds nothing, and then raises `KeyError(k)`; otherwise it yields the value found |
| `Dicts.SubscriptSpec` | app.py:99-125 | `d[k]` raises `KeyError(k)` exactly when `k` is not a key, and otherwise yields a listed value |
| `Dicts.GetEntry` | app.py:21-59 | with distinct keys, every listed entry is found under its own key |
| `Dicts.TableIsBijection` | app.py:21-59 | a table with distinct keys whose codes are its positions is a bijection from its keys onto `0..n-1` |
| `Dicts.CodesFollowListingOrder` | app.py:21-59 | in such a table, a later key always has a larger code |
| `Tables.AllTablesWellFormed` | app.py:21-59 | each of the eight tables has distinct keys and codes equal to listing positions |
| `Tables.TablesAreBijections` | app.py:21-59 | the tables are bijections onto sex 0..1, last checkup 0..3, yes/no 0..1, removed teeth 0..3, diabetes 0..3, smoker 0..3, race 0..4 and age 0..12 |
| `Tables.YesNoCodes` | app.py:28 | "No" has code 0, "Yes" has code 1, and no other label has a code |
| `Tables.OrdinalTablesIncrease` | app.py:22-59 | a later age bracket, a longer time since the last checkup or more removed teeth always has a larger code |
| `Encoder.EncodeRaw` | app.py:99-125 | evaluating one element of `input_data`: a slider value is kept as it is; a failure is only ever a `KeyError` naming a selectbox answer; a looked-up answer becomes an integer cell |
| `Encoder.Encode` | app.py:98-126 | building `input_data` either gives exactly one cell per feature column or raises a `KeyError` |
| `Encoder.InputData` | app.py:98-126 | the raw vector has exactly as many entries as `FEATURE_COLUMNS` |
| `Encoder.EvaluateList` | app.py:98-126 | evaluating the list succeeds iff every element succeeds; it then holds each element's value in place, and otherwise raises the error of some element, with every earlier element succeeding |
| `Encoder.InputDataFollowsFeatureColumns` | app.py:11-18 | entry `i` of `input_data` is the answer to question `FEATURE_COLUMNS[i]` with that question's table |
| `Encoder.FeatureColumnsListEachColumnOnce` | app.py:11-18 | `FEATURE_COLUMNS` has 27 entries and lists every column exactly once |
| `Encoder.EncodeFollowsColumnOrder` | app.py:98-128 | an encoded vector has 27 cells, and cell `i` encodes the answer for `FEATURE_COLUMNS[i]` |
| `Encoder.CellEncodesColumnAnswer` | app.py:98-128 | every column's cell sits at its position and depends only on that column's answer |
| `Encoder.EncodeRawSpec` | app.py:99-125 | one element fails exactly when its label is not a key, with `KeyError` naming the label; a number passes unchanged; a known label yields its table code |
| `Encoder.EncodeFailsOnUnknownLabel` | app.py:99-125 | encoding fails exactly when some selectbox answer is not a key of its table, and the error names the first such answer in column order; no default code is substituted |
| `Encoder.AnswersOfferedByColumn` | app.py:66-92 | checking each field against its selectbox's options is the same as checking each column |
| `Encoder.EncodeSucceedsIffAnswersOffered` | app.py:66-126 | encoding succeeds exactly when every selectbox answer is one of the options that selectbox offers |
| `Encoder.FirstOptionCodeZero` | app.py:21-59 | a table's first option, the selectbox default, has code 0 |
| `Encoder.DefaultAnswersColumn` | app.py:66-92 | each column of the untouched form encodes to its slider default or to 0 |
| `Encoder.EncodeFromColumns` | app.py:98-126 | answers whose columns encode to given cells encode to the vector of those cells in column order |
| `Encoder.DefaultSubmissionEncoding` | app.py:66-126 | the untouched form encodes to `[0,2,0,0,0,0,7,0,…,0,22.0,0]` |
| `Encoder.ActiveDefaultSubmissionEncoding` | app.py:71 | answering "Yes" to physical activities on an otherwise untouched form sets cell 5 to 1 and leaves every other cell unchanged |
| `Encoder.ColumnKinds` | app.py:99-125 | exactly the fifteen yes/no questions use the yes/no table, and exactly the five sliders are passed through |
| `Encoder.AnswerTableWellFormed` | app.py:21-59 | every table a selectbox answer is looked up in is well formed and has 2 to 13 entries |
| `Encoder.YesNoCell` | app.py:104-125 | a yes/no cell is 1 exactly for "Yes", 0 exactly for "No", and always one of the two |
| `Encoder.SliderCell` | app.py:100-124 | a slider column's cell is that slider's value |
| `Encoder.SliderCells` | app.py:100-124 | general health, both day counts and sleep hours reach the vector as the same integers, and the BMI as the same real |
| `Encoder.CategoricalCell` | app.py:99-125 | a selectbox cell is an integer code in `0..n-1` that reads back, as a position in the option list, to the answer |
| `Encoder.SliderCellInRange` | app.py:67-91 | within the slider ranges, an integer slider is in 0..30 and the BMI, the only real, is in 10.0..50.0 |
| `Encoder.FormSubmissionEncodes` | app.py:66-126 | whatever the form submits encodes without error; cell 25 (BMI) is the only real and lies in 10.0..50.0; general health is in 0..4, both day counts in 0..30, sleep hours in 0..24, and every selectbox cell is an integer in 0..12 |
| `Encoder.NamedPositions` | app.py:115-124 | cell 16 is `HadDiabetes` through `diabetes_map`, cell 21 is `SmokerStatus` through `smoker_map`, and cell 25 is `BMI` passed through |
| `Inference.Package` | app.py:131-132 | packaging succeeds exactly when there is a label and a class-1 probability, and reports both unchanged; otherwise it raises `IndexError` |
| `Inference.VerdictOf` | app.py:136-139 | the verdict is high exactly for label 1 and low for every other label |
| `Inference.VerdictFollowsLabel` | app.py:136-139 | two predictions with the same label get the same verdict whatever their probabilities, so differing verdicts mean differing labels |
| `Inference.AssessSpec` | app.py:98-132 | `Assess` makes no prediction unless every selectbox answer is one the form offers; otherwise it stops with the encoder's `KeyError`; with offered answers it packages the classifier's outputs on the scaled encoded vector |
| `Inference.MockedHighRisk` | app.py:131-139 | with a classifier that always answers label 1 and probabilities [0.27, 0.73], every submission with offered answers gets label 1, probability 0.73 and the high verdict |
| `Inference.LowLabelHighProbability` | app.py:131-139 | label 0 with class-1 probability 0.9 is reported as low risk |

## Left out

- Streamlit: the widgets, the form layout, the title, the result header and the caption (app.py:62-94, app.py:134, app.py:141). They are presentation only. What they supply enters as an `Answers` record, and the slider ranges become `FormAnswers`.
- The `submitted` guard (app.py:94, app.py:96) is left out: the model encodes a submission once it is made.
- `joblib.load` of the model and the scaler (app.py:7-8) is file I/O of pickled artifacts. They enter as an `Artifacts` value.
- `pd.DataFrame` and `scaler.transform` (app.py:128-129) are library calls doing floating-point standardisation inside an unseen artifact. `Artifacts.transform` is an arbitrary function, so a scaler that rejects the column count is not modelled.
- `model.predict` and `model.predict_proba` (app.py:131-132) are an opaque classifier. They are arbitrary functions whose outputs are only indexed and passed on.
- The percentage formatting `{prediction_proba:.2%}` (app.py:135) is float-to-string formatting.
- Floating point: the BMI and the probabilities are exact reals.
- Numeric answers are not range-checked, because the code does not check them (see above). A value outside its slider range encodes like any other.
