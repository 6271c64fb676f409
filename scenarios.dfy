/** The requests of the repository's client test script, stated as lemmas
    about the model of the `/predict` handler for a model trained on four features. */
module Scenarios {
  import opened Wrappers
  import opened Json
  import opened Validator
  import opened Predictor

  function JsonRequest(body: map<string, Json>): Request {
    Request(true, Parsed(Obj(body)))
  }

  /** `{"data": [1, 2, 3, 4]}`: the key is misnamed. */
  lemma MisnamedKeyExample(model: ModelData, parse: string -> Option<Float>)
    requires model.featureCount == 4
    ensures Predict(JsonRequest(map["data" := List([Int(1), Int(2), Int(3), Int(4)])]), model, parse)
            == Error(400, "Falta la clave 'features' en el JSON")
  {
    assert "features" != "data";
  }

  /** `{"features": [1, 2, 3]}` fails the length check with counts 4 and 3. */
  lemma ShortListRejected(parse: string -> Option<Float>)
    ensures ValidateInput(Obj(map["features" := List([Int(1), Int(2), Int(3)])]), 4, parse)
            == Rejected(WrongLength(4, 3))
  {
  }

  /** The whole request: a 400 whose text says 4 were expected and 3 came. */
  lemma ShortListExample(model: ModelData, parse: string -> Option<Float>)
    requires model.featureCount == 4
    ensures Predict(JsonRequest(map["features" := List([Int(1), Int(2), Int(3)])]), model, parse)
            == Error(400, ExpectedPrefix + ("4" + (ReceivedInfix + "3")))
  {
    ShortListRejected(parse);
    assert Decimal.Show(4) == "4" && Decimal.Show(3) == "3";
  }

  /** `{"features": []}`: rejected by the length check, naming 0. */
  lemma EmptyListExample(model: ModelData, parse: string -> Option<Float>)
    requires model.featureCount == 4
    ensures Predict(JsonRequest(map["features" := List([])]), model, parse)
            == Error(400, ExpectedPrefix + ("4" + (ReceivedInfix + "0")))
  {
    assert Decimal.Show(4) == "4" && Decimal.Show(0) == "0";
    assert Message(WrongLength(4, 0)) == ExpectedPrefix + ("4" + (ReceivedInfix + "0"));
  }

  /** `{"features": "invalid"}`: a string is not a list, whatever its length. */
  lemma StringFeaturesExample(model: ModelData, parse: string -> Option<Float>)
    requires model.featureCount == 4
    ensures Predict(JsonRequest(map["features" := Str("invalid")]), model, parse)
            == Error(400, NotAListMessage)
  {
  }

  /** `{"features": ["a", "b", "c", "d"]}`: `float("a")` raises ValueError. */
  lemma TextFeaturesExample(model: ModelData, parse: string -> Option<Float>)
    requires model.featureCount == 4
    requires parse("a").None?
    ensures Predict(JsonRequest(map["features" := List([Str("a"), Str("b"), Str("c"), Str("d")])]), model, parse)
            == Error(400, NotNumericMessage)
  {
    var xs := [Str("a"), Str("b"), Str("c"), Str("d")];
    assert !Converts(parse, xs[0]);
  }

  /** `{"features": [5.1, 3.5, 1.4, 0.2]}`: accepted, the floats in order. */
  lemma SetosaExample(parse: string -> Option<Float>)
    ensures ValidateInput(Obj(map["features" := List([Num(Finite(5.1)), Num(Finite(3.5)), Num(Finite(1.4)), Num(Finite(0.2))])]), 4, parse)
            == Accepted([Finite(5.1), Finite(3.5), Finite(1.4), Finite(0.2)])
  {
  }
}
