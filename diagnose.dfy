/**
 * The `/api/diagnose` handler: a POST carrying a base64 image is forwarded
 * to the Gemini model, and the model's free-text reply is turned into a
 * JSON response, falling back to the first brace-delimited span of the
 * reply when the whole reply is not JSON.
 *
 * The Gemini call and `JSON.parse` are parameters: `gemini` maps the image
 * value to the outcome of the call, `parse` maps a string to the value
 * `JSON.parse` returns, or None where it throws.
 */
module Diagnose {
  import opened Wrappers
  import opened Text

  /** A JavaScript value, as far as its truthiness is concerned. */
  datatype JsValue =
    | Undefined
    | Null
    | Bool(b: bool)
    | Num(x: real)
    | NaN
    | Str(s: string)
    | Object

  /** JavaScript truthiness: `!v` is false. */
  predicate Truthy(v: JsValue) {
    match v
    case Undefined => false
    case Null => false
    case Bool(b) => b
    case Num(x) => x != 0.0
    case NaN => false
    case Str(s) => s != ""
    case Object => true
  }

  /**
   * `req.body` as the handler sees it: null or undefined (destructuring
   * throws), or a value whose `imageBase64` property is the given value
   * (Undefined when the body has no such property or is not an object).
   */
  datatype RequestBody = NullishBody | Body(imageBase64: JsValue)

  /** The JSON values `JSON.parse` produces. */
  datatype Json =
    | JNull
    | JBool(b: bool)
    | JNumber(x: real)
    | JString(s: string)
    | JArray(items: seq<Json>)
    | JObject(members: seq<(string, Json)>)

  /** The outcome of asking the model and reading its reply text: the text, or a thrown error. */
  datatype GeminiOutcome = Reply(text: string) | CallFailed

  /** The JSON body of a response: the model's parsed value, or an error object. */
  datatype Payload = Parsed(value: Json) | ErrorBody(error: string, rawResponse: Option<string>)

  datatype Response = Response(status: nat, payload: Payload)

  const MethodNotAllowed: string := "Method not allowed"
  const NoImage: string := "No image provided"
  const ParseFailed: string := "Failed to parse response from AI model"
  const NotExpectedFormat: string := "AI response was not in the expected format"
  const ProcessFailed: string := "Failed to process the image"

  /**
   * A match of the regular expression `/\{[\s\S]*\}/` in `s`: the slice
   * `s[i..j]` opens with `{` and closes with `}` (any characters between).
   */
  ghost predicate BraceMatch(s: string, i: int, j: int) {
    0 <= i && i + 2 <= j <= |s| && s[i] == '{' && s[j - 1] == '}'
  }

  /**
   * The bounds of the match the brace pattern finds in `s`: the
   * leftmost starting point at which the pattern matches, and from there
   * the longest match (the star is greedy).
   */
  function BraceSpan(s: string): (r: Option<(nat, nat)>)
    ensures r.Some? ==> BraceMatch(s, r.value.0, r.value.1)
    ensures r.Some? ==> forall i, j :: BraceMatch(s, i, j) ==> r.value.0 <= i
    ensures r.Some? ==> forall j :: BraceMatch(s, r.value.0, j) ==> j <= r.value.1
    ensures r.None? <==> forall i, j :: !BraceMatch(s, i, j)
  {
    match (FirstIndexOf(s, '{'), LastIndexOf(s, '}'))
    case (Some(i), Some(k)) =>
      if i < k then
        assert BraceMatch(s, i, k + 1);
        Some((i, k + 1))
      else None
    case _ => None
  }

  /** The fallback candidate: the matched text, if the pattern matches. */
  function Candidate(text: string): (r: Option<string>)
    ensures r.Some? ==> |r.value| >= 2 && r.value[0] == '{' && r.value[|r.value| - 1] == '}'
    ensures r.Some? ==> IsSubstring(r.value, text)
    ensures r.Some? <==> exists i, j :: BraceMatch(text, i, j)
  {
    match BraceSpan(text)
    case None => None
    case Some((i, j)) =>
      assert OccursAt(text[i..j], text, i);
      Some(text[i..j])
  }

  /** The candidate is exactly from the first `{` through the last `}` of the text. */
  lemma CandidateIsFirstOpenToLastClose(text: string)
    ensures Candidate(text).Some? <==>
      exists i, k :: 0 <= i < k < |text| && text[i] == '{' && text[k] == '}'
    ensures Candidate(text).Some? ==>
      var i := FirstIndexOf(text, '{').value;
      var k := LastIndexOf(text, '}').value;
      i < k && Candidate(text).value == text[i..k + 1]
  {
    CandidateIffBracePair(text);
    CandidateSpansFirstToLast(text);
  }

  /** The pattern matches exactly when some `}` follows some `{`. */
  lemma CandidateIffBracePair(text: string)
    ensures Candidate(text).Some? <==>
      exists i, k :: 0 <= i < k < |text| && text[i] == '{' && text[k] == '}'
  {
    if Candidate(text).Some? {
      var span := BraceSpan(text).value;
      assert text[span.0] == '{' && text[span.1 - 1] == '}';
    } else {
      forall i, k | 0 <= i < k < |text| && text[i] == '{' && text[k] == '}'
        ensures BraceMatch(text, i, k + 1)
      {
      }
    }
  }

  /** A match runs from the first `{` through the last `}`. */
  lemma CandidateSpansFirstToLast(text: string)
    ensures Candidate(text).Some? ==>
      var i := FirstIndexOf(text, '{').value;
      var k := LastIndexOf(text, '}').value;
      i < k && Candidate(text).value == text[i..k + 1]
  {
    var first, last := FirstIndexOf(text, '{'), LastIndexOf(text, '}');
    if first.Some? && last.Some? && first.value < last.value {
      assert BraceSpan(text) == Some((first.value, last.value + 1));
    } else {
      assert BraceSpan(text).None?;
    }
  }

  /** The part of the handler that runs once the model has replied with `text`. */
  function Interpret(text: string, parse: string -> Option<Json>): (r: Response)
    ensures r.status == 200 || r.status == 500
    ensures r.status == 200 <==> r.payload.Parsed?
    ensures parse(text).Some? ==> r == Response(200, Parsed(parse(text).value))
    ensures parse(text).None? && Candidate(text).Some? && parse(Candidate(text).value).Some? ==>
      r == Response(200, Parsed(parse(Candidate(text).value).value))
    ensures parse(text).None? && Candidate(text).Some? && parse(Candidate(text).value).None? ==>
      r == Response(500, ErrorBody(ParseFailed, Some(text)))
    ensures parse(text).None? && Candidate(text).None? ==>
      r == Response(500, ErrorBody(NotExpectedFormat, Some(text)))
  {
    match parse(text)
    case Some(v) => Response(200, Parsed(v))
    case None =>
      match Candidate(text)
      case None => Response(500, ErrorBody(NotExpectedFormat, Some(text)))
      case Some(c) =>
        match parse(c)
        case Some(v) => Response(200, Parsed(v))
        case None => Response(500, ErrorBody(ParseFailed, Some(text)))
  }

  /** The whole handler: one response per request. */
  function Handle(verb: string, body: RequestBody, gemini: JsValue -> GeminiOutcome,
                  parse: string -> Option<Json>): (r: Response)
    ensures r.status in {200, 400, 405, 500}
    ensures r.status == 405 <==> verb != "POST"
    ensures r.status == 405 ==> r.payload == ErrorBody(MethodNotAllowed, None)
    ensures r.status == 400 <==> verb == "POST" && body.Body? && !Truthy(body.imageBase64)
    ensures r.status == 400 ==> r.payload == ErrorBody(NoImage, None)
    ensures r.status == 200 <==>
      verb == "POST" && body.Body? && Truthy(body.imageBase64) && gemini(body.imageBase64).Reply? &&
      var text := gemini(body.imageBase64).text;
      (parse(text).Some? || (Candidate(text).Some? && parse(Candidate(text).value).Some?))
    ensures r.payload.Parsed? <==> r.status == 200
    ensures r.payload.ErrorBody? && r.payload.rawResponse.Some? ==>
      r.payload.error in {ParseFailed, NotExpectedFormat} && body.Body? &&
      gemini(body.imageBase64).Reply? && r.payload.rawResponse.value == gemini(body.imageBase64).text
    ensures verb == "POST" && body.Body? && Truthy(body.imageBase64) && gemini(body.imageBase64).CallFailed? ==>
      r == Response(500, ErrorBody(ProcessFailed, None))
    ensures verb == "POST" && body.NullishBody? ==> r == Response(500, ErrorBody(ProcessFailed, None))
    ensures verb == "POST" && body.Body? && Truthy(body.imageBase64) && gemini(body.imageBase64).Reply? ==>
      r == Interpret(gemini(body.imageBase64).text, parse)
  {
    if verb != "POST" then
      Response(405, ErrorBody(MethodNotAllowed, None))
    else
      match body
      case NullishBody =>
        // reading `imageBase64` from a null or undefined body throws, and the outer handler answers
        Response(500, ErrorBody(ProcessFailed, None))
      case Body(image) =>
        if !Truthy(image) then
          Response(400, ErrorBody(NoImage, None))
        else
          match gemini(image)
          case CallFailed => Response(500, ErrorBody(ProcessFailed, None))
          case Reply(text) => Interpret(text, parse)
  }

  /** The method is checked before anything else: a non-POST request is refused whatever its body or the model. */
  lemma NonPostIgnoresEverythingElse(verb: string, b1: RequestBody, b2: RequestBody,
                                     g1: JsValue -> GeminiOutcome, g2: JsValue -> GeminiOutcome,
                                     p1: string -> Option<Json>, p2: string -> Option<Json>)
    requires verb != "POST"
    ensures Handle(verb, b1, g1, p1) == Handle(verb, b2, g2, p2)
    ensures Handle(verb, b1, g1, p1) == Response(405, ErrorBody(MethodNotAllowed, None))
  {
  }

  /** A POST without a (truthy) image is refused before the model is consulted. */
  lemma MissingImageNeverReachesModel(body: RequestBody, g1: JsValue -> GeminiOutcome, g2: JsValue -> GeminiOutcome,
                                      p1: string -> Option<Json>, p2: string -> Option<Json>)
    requires body.Body? && !Truthy(body.imageBase64)
    ensures Handle("POST", body, g1, p1) == Handle("POST", body, g2, p2)
    ensures Handle("POST", body, g1, p1) == Response(400, ErrorBody(NoImage, None))
  {
  }

  /** The empty string, `undefined` and `null` all count as a missing image. */
  lemma FalsyImagesRejected(g: JsValue -> GeminiOutcome, p: string -> Option<Json>)
    ensures Handle("POST", Body(Str("")), g, p).status == 400
    ensures Handle("POST", Body(Undefined), g, p).status == 400
    ensures Handle("POST", Body(Null), g, p).status == 400
  {
  }

  /**
   * A reply made of prose without `{`, one object-shaped span, and prose
   * without `}` yields that span when the whole reply does not parse.
   */
  lemma {:induction false} EmbeddedObjectExtracted(before: string, obj: string, after: string)
    requires forall k :: 0 <= k < |before| ==> before[k] != '{'
    requires forall k :: 0 <= k < |after| ==> after[k] != '}'
    requires |obj| >= 2 && obj[0] == '{' && obj[|obj| - 1] == '}'
    ensures Candidate(before + obj + after) == Some(obj)
  {
    var text := before + obj + after;
    var i0, j0 := |before|, |before| + |obj|;
    assert text[i0] == obj[0];
    assert text[j0 - 1] == obj[|obj| - 1];
    assert BraceMatch(text, i0, j0);
    var span := BraceSpan(text);
    var i, j := span.value.0, span.value.1;
    assert i == i0;
    assert j == j0;
    assert text[i..j] == obj;
  }

  /** JSON wrapped in prose is recovered by the fallback. */
  lemma WrappedReplyAnswered(before: string, obj: string, after: string, v: Json,
                             image: JsValue, parse: string -> Option<Json>)
    requires forall k :: 0 <= k < |before| ==> before[k] != '{'
    requires forall k :: 0 <= k < |after| ==> after[k] != '}'
    requires |obj| >= 2 && obj[0] == '{' && obj[|obj| - 1] == '}'
    requires Truthy(image)
    requires parse(before + obj + after).None? && parse(obj) == Some(v)
    ensures Handle("POST", Body(image), _ => Reply(before + obj + after), parse) == Response(200, Parsed(v))
  {
    EmbeddedObjectExtracted(before, obj, after);
  }

  /** A reply with no `{`...`}` span echoes the whole reply back with a 500. */
  lemma {:induction false} NoBracesEchoesReply(text: string, parse: string -> Option<Json>)
    requires forall k :: 0 <= k < |text| ==> text[k] != '}'
    requires parse(text).None?
    ensures Interpret(text, parse) == Response(500, ErrorBody(NotExpectedFormat, Some(text)))
  {
  }
}
