/** The `/predict` handler (app.py:96-158): the choice among the 400, 500 and
    200 outcomes, and the shape of a successful prediction. The loaded model
    is a read-only value passed in; its classifier is two abstract calls. */
module Predictor {
  import opened Wrappers
  import opened Json
  import opened PyDict
  import opened Validator

  /** `model_data` after start-up. `predict` is the class index the classifier
      returns for the one-row batch, `predictProba` its probability row; None
      stands for the call raising. */
  datatype ModelData = ModelData(
    predict: seq<Float> -> Option<int>,
    predictProba: seq<Float> -> Option<seq<real>>,
    targetNames: seq<string>,
    featureCount: int)

  /** A body Flask could not parse as JSON makes `get_json` raise. */
  datatype Body = Malformed | Parsed(value: Json)

  /** What the handler reads of a request: whether its content type declares
      JSON (`request.is_json`) and its body. */
  datatype Request = Request(isJson: bool, body: Body)

  /** The JSON object of a successful prediction; `probabilities` is the dict
      as its entries in order. */
  datatype Prediction = Prediction(
    prediction: string,
    predictionId: int,
    confidence: real,
    probabilities: seq<(string, real)>)

  /** A 200 with a prediction, or an error status with an `error` text. */
  datatype Response = Ok(result: Prediction) | Error(status: int, error: string)

  const ContentTypeMessage: string := "Content-Type debe ser application/json"
  const EmptyBodyMessage: string := "JSON inválido o vacío"
  const InternalErrorMessage: string := "Error interno del servidor"

  /** Python and numpy indexing `s[i]`: a negative index counts from the end,
      one out of range raises IndexError (None). */
  function PyIndex<T>(s: seq<T>, i: int): (r: Option<T>)
    ensures r.Some? <==> -|s| <= i < |s|
    ensures 0 <= i < |s| ==> r == Some(s[i])
    ensures -|s| <= i < 0 ==> r == Some(s[|s| + i])
  {
    if 0 <= i < |s| then Some(s[i])
    else if -|s| <= i < 0 then Some(s[|s| + i])
    else None
  }

  /** `np.max` of a non-empty row. */
  function Max(row: seq<real>): (m: real)
    requires |row| > 0
    ensures m in row
    ensures forall i :: 0 <= i < |row| ==> row[i] <= m
  {
    if |row| == 1 then row[0]
    else
      var m := Max(row[1..]);
      assert forall i :: 1 <= i < |row| ==> row[i] == row[1..][i - 1];
      if row[0] >= m then row[0] else m
  }

  /** The `probabilities` dict of app.py:143-149: its keys are distinct, each
      is a label that `zip` pairs with a probability, and every such label is one. */
  function Probabilities(names: seq<string>, row: seq<real>): (d: seq<(string, real)>)
    ensures Distinct(Keys(d))
    ensures forall i :: 0 <= i < |d| ==>
              exists j :: 0 <= j < |names| && j < |row| && names[j] == d[i].0
    ensures forall i :: 0 <= i < |names| && i < |row| ==> names[i] in Keys(d)
  {
    FromZipKeys(names, row);
    FromPairs(Zip(names, row))
  }

  /** The response built from validated features (app.py:128-150), or None
      when something in it raises: either classifier call, the label lookup,
      or `np.max` on an empty row. */
  function Respond(features: seq<Float>, model: ModelData): (r: Option<Prediction>)
    ensures r.Some? <==>
      && model.predict(features).Some?
      && model.predictProba(features).Some?
      && -|model.targetNames| <= model.predict(features).value < |model.targetNames|
      && |model.predictProba(features).value| > 0
    ensures r.Some? ==>
      var p, row := r.value, model.predictProba(features).value;
      && p.predictionId == model.predict(features).value
      && PyIndex(model.targetNames, p.predictionId) == Some(p.prediction)
      && p.confidence in row
      && (forall i :: 0 <= i < |row| ==> row[i] <= p.confidence)
      && p.probabilities == Probabilities(model.targetNames, row)
      && Distinct(Keys(p.probabilities))
      && (forall i :: 0 <= i < |p.probabilities| ==>
            exists j :: 0 <= j < |model.targetNames| && j < |row| && model.targetNames[j] == p.probabilities[i].0)
      && (forall i :: 0 <= i < |model.targetNames| && i < |row| ==> model.targetNames[i] in Keys(p.probabilities))
  {
    var index, row := model.predict(features), model.predictProba(features);
    if index.None? || row.None? then None
    else
      match PyIndex(model.targetNames, index.value)
      case None => None
      case Some(name) =>
        if |row.value| == 0 then None
        else
          var probabilities := Probabilities(model.targetNames, row.value);
          Some(Prediction(name, index.value, Max(row.value), probabilities))
  }

  /** With a probability for every label and no label repeated, which is how
      the model is trained, `probabilities` pairs each label, in declared
      order, with the probability at the same position; probabilities past the
      last label are dropped by `zip`. */
  lemma ProbabilitiesAlignWithLabels(features: seq<Float>, model: ModelData)
    requires Respond(features, model).Some?
    requires |model.targetNames| <= |model.predictProba(features).value|
    requires Distinct(model.targetNames)
    ensures var p, row := Respond(features, model).value, model.predictProba(features).value;
      && Keys(p.probabilities) == model.targetNames
      && forall i :: 0 <= i < |model.targetNames| ==> p.probabilities[i] == (model.targetNames[i], row[i])
  {
    var row := model.predictProba(features).value;
    var z := Zip(model.targetNames, row);
    assert Keys(z) == model.targetNames;
    FromPairsOfDistinct(z);
  }

  /** A label that occurs twice keeps the probability of its last position. */
  lemma RepeatedLabelKeepsLastProbability(features: seq<Float>, model: ModelData, i: nat)
    requires Respond(features, model).Some?
    requires i < |model.targetNames| && i < |model.predictProba(features).value|
    requires forall j :: i < j < |model.targetNames| && j < |model.predictProba(features).value|
               ==> model.targetNames[j] != model.targetNames[i]
    ensures Get(Respond(features, model).value.probabilities, model.targetNames[i])
            == Some(model.predictProba(features).value[i])
  {
    var z := Zip(model.targetNames, model.predictProba(features).value);
    FromPairsLastWins(z, i);
  }

  /** The `/predict` handler: every request ends in exactly one response. */
  function Predict(req: Request, model: ModelData, parse: string -> Option<Float>): (r: Response)
    ensures r.Error? ==> r.status == 400 || r.status == 500
    // no JSON content type, or a `null` body: 400 before any validation
    ensures !req.isJson ==> r == Error(400, ContentTypeMessage)
    ensures req.isJson && req.body == Parsed(Null) ==> r == Error(400, EmptyBodyMessage)
    // a validation failure is a 400 carrying the validator's own message
    ensures req.isJson && req.body.Parsed? && req.body.value != Null
            && ValidateInput(req.body.value, model.featureCount, parse).Rejected?
            ==> r == Error(400, Message(ValidateInput(req.body.value, model.featureCount, parse).error))
    // 400 exactly for those three causes
    ensures r.Error? && r.status == 400 <==>
      || !req.isJson
      || (req.body.Parsed? && (req.body.value == Null
           || ValidateInput(req.body.value, model.featureCount, parse).Rejected?))
    // a 500 never says more than the fixed text
    ensures r.Error? && r.status == 500 ==> r.error == InternalErrorMessage
    // a 200 only for admissible features and a response built from them
    ensures r.Ok? <==>
      && req.isJson && req.body.Parsed? && req.body.value != Null
      && Admissible(req.body.value, model.featureCount, parse)
      && Respond(ValidateInput(req.body.value, model.featureCount, parse).features, model).Some?
    ensures r.Ok? ==>
      Respond(ValidateInput(req.body.value, model.featureCount, parse).features, model) == Some(r.result)
  {
    if !req.isJson then Error(400, ContentTypeMessage)
    else
      match req.body
      case Malformed => Error(500, InternalErrorMessage)
      case Parsed(data) =>
        if data.Null? then Error(400, EmptyBodyMessage)
        else
          match ValidateInput(data, model.featureCount, parse)
          case Rejected(e) => Error(400, Message(e))
          case Raised => Error(500, InternalErrorMessage)
          case Accepted(features) => (
            match Respond(features, model)
            case None => Error(500, InternalErrorMessage)
            case Some(p) => Ok(p))
  }

  /** The texts of the three kinds of outcome never coincide, so a client can
      tell a content-type error, an empty body, each validation failure and an
      internal error apart by the `error` text alone. */
  lemma ErrorTextsDistinct(e: ValidationError)
    ensures Message(e) != ContentTypeMessage
    ensures Message(e) != EmptyBodyMessage
    ensures Message(e) != InternalErrorMessage
    ensures ContentTypeMessage != EmptyBodyMessage
    ensures ContentTypeMessage != InternalErrorMessage
    ensures EmptyBodyMessage != InternalErrorMessage
  {
    ParseMessageInvertsMessage(e);
    assert ParseMessage(ContentTypeMessage) == None;
    assert ParseMessage(EmptyBodyMessage) == None;
    assert ParseMessage(InternalErrorMessage) == None;
  }
}
