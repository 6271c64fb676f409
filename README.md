# flask-predictor: the prediction endpoint's contract in Dafny

The service exposes a trained Iris classifier over HTTP. Its only original logic is
in `app.py`. `validate_input` checks a parsed JSON body in a fixed order and returns
either one error message or the converted feature list. The `/predict` handler picks
one of three outcomes for every request: 400, 500 or 200 with a prediction. This
project models both as pure Dafny functions and proves what the code promises about them.

Modules, one file each:

- `wrappers.dfy` (`Wrappers`): `Option`.
- `decimal.dfy` (`Decimal`): Python's `str(int)`, which writes the counts into the
  length-mismatch message, and a parser that reads them back.
- `json.dfy` (`Json`): JSON values as Python's `json` module returns them, and
  `float(x)` on them.
- `pydict.dfy` (`PyDict`): `zip`, and a dict built by a comprehension. The dict is a
  sequence of entries in insertion order.
- `validator.dfy` (`Validator`): `validate_input` and its five error messages.
- `predictor.dfy` (`Predictor`): the loaded model, the response built from the
  classifier's output, and the outcome chosen for each request.
- `scenarios.dfy` (`Scenarios`): the request bodies of the client test script,
  stated as lemmas about the model.

The loaded model (`model_data`) is a read-only `ModelData` value passed to the handler.
Its classifier is two abstract functions, one for `predict` and one for `predict_proba`.
Either may fail (`None`). The expected feature count is a field of that value. The
training script sets it to 4 (`train_model.py:69`). Python's parsing of a float from
text is the abstract parameter `parse`.

Where the code's behaviour may surprise a reader, the model follows the code:

- The 400 text at app.py:117 reads "JSON inválido o vacío" (invalid or empty JSON),
  but the code gives it only for the literal body `null`. A body that is not valid
  JSON, or is empty, under a JSON content type makes Flask's `get_json` raise
  instead. The generic handler (app.py:154-158) catches that and answers 500.
- A body that is not a JSON object still reaches `validate_input`. `'features' in data`
  is a substring test on a string and a membership test on a list. When that test is
  false, the answer is the missing-key 400. When it is true, `data['features']` raises
  and the answer is 500. On a number or a bool, `in` itself raises, which also gives 500.
- `float(True)` is `1.0`, so booleans pass as numeric features.
- `float` of an integer of magnitude at least 2^1024 - 2^970 raises OverflowError.
  Line 68 does not catch that exception, so the request ends in 500, not in the
  numeric-features 400.
- `target_names[prediction[0]]` follows Python indexing. A negative class index counts
  from the end of the label list, and an index out of range gives 500.
- The code does not check that the probabilities sum to 1. It does not check that the
  prediction is the most probable class, nor that `confidence` lies in [0, 1]. The
  model claims none of these.

## Model

| member | source | states |
|---|---|---|
| `Decimal.Show` | app.py:63 | `str(n)` is non-empty, has no space, and starts with `-` exactly for negative n |
| `Decimal.ParseInvertsShow` | app.py:63 | parsing `str(n)` gives back n, so the message's text determines the counts it reports |
| `Decimal.ShowInjective` | app.py:63 | different counts are written differently |
| `Json.ToFloat` | app.py:66-69 | `float(x)` raises ValueError or TypeError exactly for None, lists, dicts and unparsable strings; it raises OverflowError exactly for integers of magnitude at least 2^1024 - 2^970; a float is returned unchanged, a parsable string gives the parsed value, `True` and `False` give 1.0 and 0.0, and any other integer gives its own value |
| `Validator.LookupFeatures` | app.py:51-54 | `'features' in data` then `data['features']`: on a dict, missing exactly when the key is absent, and otherwise the stored value; on a string, a substring test; on a list, a membership test; on a number, bool or None, an exception |
| `Validator.ConvertAll` | app.py:66-69 | the list comprehension succeeds exactly when every element converts, and then has one float per element, in order; otherwise it stops at the first element that fails, with that element's failure |
| `Validator.AnyNonFinite` | app.py:72 | true exactly when some converted value is infinite or NaN |
| `Validator.ValidateInput` | app.py:40-75 | a missing key is reported first; a non-list is reported next, whatever its length; then a wrong length (the empty list included) with both counts; then the first element that fails `float`, as the numeric error or as an escaping exception; then any infinite or NaN value; success exactly when all five checks pass, with `feature_count` finite values equal to the element-wise conversions |
| `Validator.Message` | app.py:52-73 | the length message names the expected count right after "Se esperan " and ends with the received count, each written by `str` |
| `Validator.ParseMessageInvertsMessage` | app.py:52-73 | each error message reads back as its cause, and the length message reads back with both counts |
| `Validator.MessageInjective` | app.py:52-73 | two causes, or two pairs of counts, never produce the same message |
| `PyDict.Zip` | app.py:145-148 | `zip` pairs elements by position and stops at the shorter sequence |
| `PyDict.Get` | app.py:143-149 | a lookup finds a key exactly when it is present, and with distinct keys returns its entry's value |
| `PyDict.Put` | app.py:143-149 | assigning to an existing key keeps the key order; a new key is appended at the end |
| `PyDict.PutGet` | app.py:143-149 | after `d[k] = v`, `d[k]` is v and every other key reads as before |
| `PyDict.FromPairs` | app.py:143-149 | the comprehension has no repeated key, and its keys are exactly the keys of the pairs |
| `PyDict.FromZipKeys` | app.py:143-149 | the keys of a comprehension over `zip(ks, vs)` are the keys `zip` pairs with a value: each key is one of them and each of them is a key |
| `PyDict.FromPairsOfDistinct` | app.py:143-149 | when no key repeats, the comprehension keeps every pair, in order |
| `PyDict.FromPairsLastWins` | app.py:143-149 | for a repeated key, the comprehension keeps the value of the key's last pair |
| `Predictor.PyIndex` | app.py:136 | indexing succeeds exactly for -len <= i < len, and a negative index counts from the end |
| `Predictor.Max` | app.py:142 | `np.max` of a non-empty row is an element of the row and at least every element |
| `Predictor.Probabilities` | app.py:143-149 | the `probabilities` dict has distinct keys; every key is a label that `zip` pairs with a probability, and every such label is a key |
| `Predictor.Respond` | app.py:128-150 | a response exists exactly when both classifier calls succeed, the class index is in range and the probability row is non-empty; `prediction` is `target_names[prediction_id]`, `prediction_id` is the returned index, `confidence` is the row's maximum, and `probabilities` has distinct keys, each a label that `zip` pairs with a probability, with every such label present |
| `Predictor.ProbabilitiesAlignWithLabels` | app.py:143-149 | with at least one probability per label and no repeated label, the keys of `probabilities` are `target_names` in declared order, each paired with the probability at its position |
| `Predictor.RepeatedLabelKeepsLastProbability` | app.py:143-149 | a label that occurs twice gets the probability at its last position |
| `Predictor.Predict` | app.py:105-158 | a non-JSON content type gives 400; a `null` body gives 400; a validation failure gives 400 with the validator's own message; 400 happens for exactly these three causes; every 500 carries only the fixed generic text; 200 happens exactly for admissible features with a successful classification, and carries the response built from the validated features |
| `Predictor.ErrorTextsDistinct` | app.py:107-158 | the content-type, empty-body, validation and internal-error texts never coincide |
| `Scenarios.MisnamedKeyExample` | test_api.py:120-122 | `{"data": [1, 2, 3, 4]}` gives 400 with the missing-key message |
| `Scenarios.ShortListRejected` | test_api.py:125-127 | `{"features": [1, 2, 3]}` fails the length check with counts 4 and 3 |
| `Scenarios.ShortListExample` | test_api.py:125-127 | the same request gives 400 with "Se esperan 4 características, se recibieron 3" |
| `Scenarios.TextFeaturesExample` | test_api.py:130-132 | `{"features": ["a", "b", "c", "d"]}` gives 400 with the numeric-features message |
| `Scenarios.EmptyListExample` | test_api.py:135-137 | `{"features": []}` gives 400 with the length message naming 4 and 0 |
| `Scenarios.StringFeaturesExample` | test_api.py:140-142 | `{"features": "invalid"}` gives 400 with the list-type message |
| `Scenarios.SetosaExample` | test_api.py:51-54 | `{"features": [5.1, 3.5, 1.4, 0.2]}` is accepted, with the four floats in order |

## Left out

- `load_model` and `initialize_app` (app.py:21-37, 178-195) are not modelled. They do filesystem checks, `joblib` loading, printing and `exit(1)`. The model takes the loaded `model_data` as a read-only parameter instead.
- Flask routing, `home`, and the 404 and 405 handlers (app.py:78-93, 161-175) are not modelled. They are framework glue that returns constant JSON.
- The classifier's `predict` and `predict_proba` (app.py:132-133) are abstract functions. The numpy reshape into a one-row batch (app.py:129) is not modelled.
- The server-side log line (app.py:155) is not modelled.
- JSON serialization by `jsonify` is not modelled. This includes key order and how `JSON_SORT_KEYS` is applied. A response is the Dafny value that would be serialized.
- Json.ToFloat: an integer converts to the exact number `i as real`. The rounding of integers above 2^53 to the nearest double is not modelled. Whether a conversion succeeds, fails or raises is modelled exactly.
- Json.ToFloat: Python's parsing of a float from a string is the abstract parameter `parse`. It is not a model of CPython's grammar for float literals.
- Predictor.Max: probabilities are real numbers. NaN in a probability row, and how `np.max` propagates it, are not modelled.
- Identical requests always get identical responses. This holds because every member is a function. No separate lemma states it.
