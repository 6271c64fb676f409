/** `validate_input` (app.py:40-75): five checks in a fixed order, the first
    that fails decides the error, and success yields the converted features.
    The model's expected feature count is a parameter instead of the global
    `model_data`, and `float`'s parsing of text is the abstract `parse`. */
module Validator {
  import opened Wrappers
  import opened Json
  import Decimal

  /** The five reasons a request body is refused. */
  datatype ValidationError =
    | MissingFeatures
    | NotAList
    | WrongLength(expected: int, received: nat)
    | NotNumeric
    | NotFinite

  const MissingFeaturesMessage: string := "Falta la clave 'features' en el JSON"
  const NotAListMessage: string := "El campo 'features' debe ser una lista"
  // The two longer texts are written as two pieces each so that the verifier,
  // which does not unfold long string literals, can read their characters.
  const NotNumericMessage: string := "Todas las características " + "deben ser valores numéricos"
  const NotFiniteMessage: string := "Las características no " + "pueden ser infinitas o NaN"
  const ExpectedPrefix: string := "Se esperan "
  const ReceivedInfix: string := " características, se recibieron "

  /** The text app.py returns for each reason; the length message is the
      f-string of app.py:63 with both counts written by `str`. */
  function Message(e: ValidationError): (m: string)
    ensures e.WrongLength? ==>
      var a, b := Decimal.Show(e.expected), Decimal.Show(e.received);
      && |m| == |ExpectedPrefix| + |a| + |ReceivedInfix| + |b|
      && m[|ExpectedPrefix|..][..|a|] == a
      && m[|m| - |b|..] == b
  {
    match e
    case MissingFeatures => MissingFeaturesMessage
    case NotAList => NotAListMessage
    case WrongLength(expected, received) =>
      ExpectedPrefix + (Decimal.Show(expected) + (ReceivedInfix + Decimal.Show(received)))
    case NotNumeric => NotNumericMessage
    case NotFinite => NotFiniteMessage
  }

  /** The position of the first space in s, or |s| when there is none. */
  function SpaceIndex(s: string): (n: nat)
    ensures n <= |s| && ' ' !in s[..n]
    ensures n < |s| ==> s[n] == ' '
  {
    if |s| == 0 || s[0] == ' ' then 0
    else
      var n := 1 + SpaceIndex(s[1..]);
      assert s[..n] == [s[0]] + s[1..][..n - 1];
      n
  }

  /** Reads a validation message back into its reason, counts included. */
  function ParseMessage(m: string): Option<ValidationError> {
    if m == MissingFeaturesMessage then Some(MissingFeatures)
    else if m == NotAListMessage then Some(NotAList)
    else if m == NotNumericMessage then Some(NotNumeric)
    else if m == NotFiniteMessage then Some(NotFinite)
    else if |m| < |ExpectedPrefix| || m[..|ExpectedPrefix|] != ExpectedPrefix then None
    else ParseCounts(m[|ExpectedPrefix|..])
  }

  /** Reads "<expected> características, se recibieron <received>". */
  function ParseCounts(rest: string): Option<ValidationError> {
    var n := SpaceIndex(rest);
    var tail := rest[n..];
    if |tail| < |ReceivedInfix| || tail[..|ReceivedInfix|] != ReceivedInfix then None
    else
      match (Decimal.Parse(rest[..n]), Decimal.Parse(tail[|ReceivedInfix|..]))
      case (Some(expected), Some(received)) =>
        if received < 0 then None else Some(WrongLength(expected, received))
      case _ => None
  }

  lemma SpaceIndexOfConcat(a: string, b: string)
    requires ' ' !in a && |b| > 0 && b[0] == ' '
    ensures SpaceIndex(a + b) == |a|
  {
    var s := a + b;
    assert s[|a|] == ' ';
    assert s[..|a|] == a;
  }

  /** Every message names its reason, and the length message both counts:
      reading the message back gives the reason and the numbers. */
  lemma ParseMessageInvertsMessage(e: ValidationError)
    ensures ParseMessage(Message(e)) == Some(e)
  {
    if e.WrongLength? {
      ParseLengthMessage(e.expected, e.received);
    }
  }

  lemma ParseCountsInvertsShow(expected: int, received: nat)
    ensures ParseCounts(Decimal.Show(expected) + (ReceivedInfix + Decimal.Show(received)))
            == Some(WrongLength(expected, received))
  {
    var a, b := Decimal.Show(expected), Decimal.Show(received);
    var tail := ReceivedInfix + b;
    var rest := a + tail;
    SpaceIndexOfConcat(a, tail);
    assert rest[..|a|] == a;
    assert rest[|a|..] == tail;
    assert tail[..|ReceivedInfix|] == ReceivedInfix;
    assert tail[|ReceivedInfix|..] == b;
    Decimal.ParseInvertsShow(expected);
    Decimal.ParseInvertsShow(received);
  }

  lemma FixedMessagesInitials()
    ensures MissingFeaturesMessage[0] == 'F' && NotAListMessage[0] == 'E'
    ensures NotNumericMessage[0] == 'T' && NotFiniteMessage[0] == 'L'
  {
  }

  lemma ParseLengthMessage(expected: int, received: nat)
    ensures ParseMessage(Message(WrongLength(expected, received))) == Some(WrongLength(expected, received))
  {
    var rest := Decimal.Show(expected) + (ReceivedInfix + Decimal.Show(received));
    var m := ExpectedPrefix + rest;
    assert Message(WrongLength(expected, received)) == m;
    assert m[0] == 'S';
    FixedMessagesInitials();
    assert m != MissingFeaturesMessage && m != NotAListMessage;
    assert m != NotNumericMessage && m != NotFiniteMessage;
    assert m[..|ExpectedPrefix|] == ExpectedPrefix;
    assert m[|ExpectedPrefix|..] == rest;
    assert ParseMessage(m) == ParseCounts(rest);
    ParseCountsInvertsShow(expected, received);
  }

  /** Distinct reasons (or distinct counts) never share a message. */
  lemma MessageInjective(e1: ValidationError, e2: ValidationError)
    ensures Message(e1) == Message(e2) <==> e1 == e2
  {
    ParseMessageInvertsMessage(e1);
    ParseMessageInvertsMessage(e2);
  }

  /** Python's `'features' in s` on a string: a substring test. */
  predicate Contains(s: string, t: string)
    decreases |s|
  {
    |s| >= |t| && (s[..|t|] == t || Contains(s[1..], t))
  }

  /** What `'features' in data` and `data['features']` (app.py:51,54) do. */
  datatype Lookup = Missing | Found(value: Json) | LookupRaises

  /** A dict answers by key; a string by substring and a list by membership,
      and when those say yes, indexing them with a string raises TypeError;
      `in` on a number, a bool or None raises TypeError at once. */
  function LookupFeatures(data: Json): (l: Lookup)
    ensures data.Obj? ==> (l.Missing? <==> "features" !in data.fields)
    ensures data.Obj? && "features" in data.fields ==> l == Found(data.fields["features"])
    ensures l.Found? ==> data.Obj?
    ensures data.Str? ==> (l.Missing? <==> !Contains(data.s, "features"))
    ensures data.List? ==> (l.Missing? <==> Str("features") !in data.items)
    ensures data.Null? || data.Bool? || data.Int? || data.Num? ==> l.LookupRaises?
  {
    match data
    case Obj(fields) => if "features" in fields then Found(fields["features"]) else Missing
    case Str(s) => if Contains(s, "features") then LookupRaises else Missing
    case List(items) => if Str("features") in items then LookupRaises else Missing
    case _ => LookupRaises
  }

  predicate Converts(parse: string -> Option<Float>, x: Json) {
    ToFloat(parse, x).Converted?
  }

  /** The list comprehension `[float(x) for x in features]`, left to right:
      either every element converts, or the first one that does not stops it. */
  datatype Conversions = AllConverted(values: seq<Float>) | FailedAt(index: nat, failure: Conversion)

  function ConvertAll(parse: string -> Option<Float>, xs: seq<Json>): (r: Conversions)
    ensures r.AllConverted? <==> forall i :: 0 <= i < |xs| ==> Converts(parse, xs[i])
    ensures r.AllConverted? ==> |r.values| == |xs|
    ensures r.AllConverted? ==> forall i :: 0 <= i < |xs| ==> r.values[i] == ToFloat(parse, xs[i]).value
    ensures r.FailedAt? ==> r.index < |xs| && r.failure == ToFloat(parse, xs[r.index]) && !r.failure.Converted?
    ensures r.FailedAt? ==> forall j :: 0 <= j < r.index ==> Converts(parse, xs[j])
  {
    if |xs| == 0 then AllConverted([])
    else
      match ToFloat(parse, xs[0])
      case Converted(f) => (
        match ConvertAll(parse, xs[1..])
        case AllConverted(vs) => AllConverted([f] + vs)
        case FailedAt(k, c) => FailedAt(k + 1, c))
      case c => FailedAt(0, c)
  }

  /** `any(not np.isfinite(x) for x in values)`. */
  function AnyNonFinite(values: seq<Float>): (r: bool)
    ensures r <==> exists i :: 0 <= i < |values| && !IsFinite(values[i])
  {
    if |values| == 0 then false
    else if !IsFinite(values[0]) then true
    else
      var r := AnyNonFinite(values[1..]);
      assert forall i :: 1 <= i < |values| ==> values[i] == values[1..][i - 1];
      r
  }

  /** What `validate_input` gives back: the features, one of the five
      errors, or an exception escaping it (caught later by `predict`). */
  datatype Verdict = Accepted(features: seq<Float>) | Rejected(error: ValidationError) | Raised

  /** The features are present, a list of the expected length, and every
      element converts to a finite float. */
  predicate Admissible(data: Json, featureCount: int, parse: string -> Option<Float>) {
    && LookupFeatures(data).Found?
    && LookupFeatures(data).value.List?
    && |LookupFeatures(data).value.items| == featureCount
    && forall i :: 0 <= i < featureCount ==>
         Converts(parse, LookupFeatures(data).value.items[i])
         && IsFinite(ToFloat(parse, LookupFeatures(data).value.items[i]).value)
  }

  function ValidateInput(data: Json, featureCount: int, parse: string -> Option<Float>): (r: Verdict)
    // check 1: the key is missing, whatever else the body holds
    ensures LookupFeatures(data).Missing? ==> r == Rejected(MissingFeatures)
    ensures LookupFeatures(data).LookupRaises? ==> r.Raised?
    // check 2: not a list, whatever its length
    ensures LookupFeatures(data).Found? && !LookupFeatures(data).value.List? ==> r == Rejected(NotAList)
    // check 3: wrong length, the empty list included, reported with both counts
    ensures LookupFeatures(data).Found? && LookupFeatures(data).value.List?
            && |LookupFeatures(data).value.items| != featureCount
            ==> r == Rejected(WrongLength(featureCount, |LookupFeatures(data).value.items|))
    // check 4: the first element that does not convert decides, before any finiteness test
    ensures forall k :: (
              LookupFeatures(data).Found? && LookupFeatures(data).value.List?
              && |LookupFeatures(data).value.items| == featureCount
              && 0 <= k < featureCount
              && (forall j :: 0 <= j < k ==> Converts(parse, LookupFeatures(data).value.items[j]))
              && !Converts(parse, LookupFeatures(data).value.items[k])
              ==> if ToFloat(parse, LookupFeatures(data).value.items[k]).Rejects?
                  then r == Rejected(NotNumeric) else r.Raised?)
    // check 5: all convert, one is infinite or NaN
    ensures LookupFeatures(data).Found? && LookupFeatures(data).value.List?
            && |LookupFeatures(data).value.items| == featureCount
            && (forall i :: 0 <= i < featureCount ==> Converts(parse, LookupFeatures(data).value.items[i]))
            && (exists i :: 0 <= i < featureCount && !IsFinite(ToFloat(parse, LookupFeatures(data).value.items[i]).value))
            ==> r == Rejected(NotFinite)
    // success exactly when all five checks pass, with the features converted in order
    ensures r.Accepted? <==> Admissible(data, featureCount, parse)
    ensures r.Accepted? ==> |r.features| == featureCount
    ensures r.Accepted? ==> forall i :: 0 <= i < featureCount ==>
              r.features[i] == ToFloat(parse, LookupFeatures(data).value.items[i]).value
              && IsFinite(r.features[i])
  {
    match LookupFeatures(data)
    case Missing => Rejected(MissingFeatures)
    case LookupRaises => Raised
    case Found(features) =>
      if !features.List? then Rejected(NotAList)
      else if |features.items| != featureCount then Rejected(WrongLength(featureCount, |features.items|))
      else
        match ConvertAll(parse, features.items)
        case FailedAt(_, failure) => if failure.Rejects? then Rejected(NotNumeric) else Raised
        case AllConverted(values) => if AnyNonFinite(values) then Rejected(NotFinite) else Accepted(values)
  }
}
