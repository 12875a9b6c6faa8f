/**
 * Decoding of a commit array sent as a JSON text, as both route files do
 * it: the whole text is parsed, the result is taken as an array, and each
 * element, taken as an object, is turned into a commit, left to right, into
 * a new list. Nothing is stored until the whole array has been decoded.
 * Gson itself is not modelled: its parser and its object-to-record mapping
 * are parameters.
 */
module CommitJson {
  import opened Wrappers
  import opened Commits

  /** The kinds of element a JSON tree is made of. */
  datatype Json =
    | JsonNull
    | JsonPrimitive(text: string)
    | JsonArray(elements: seq<Json>)
    | JsonObject(members: seq<(string, Json)>)

  /** What `JsonParser.parseString` gives: a tree, or a JsonSyntaxException. */
  datatype Parsed = Parsed(json: Json) | SyntaxException

  /**
   * The Gson entry points the decoding calls: the parser, and the mapping
   * of one JSON object to a commit, where None stands for the
   * JsonSyntaxException it throws on a value of the wrong type.
   */
  datatype Gson = Gson(parseString: string -> Parsed, commitFromJsonObject: Json -> Option<CommitData>)

  /**
   * The outcome of decoding: the commits; a JsonSyntaxException, which the
   * routes catch; or another exception (the text is not an array, or an
   * element is not an object), which escapes the route.
   */
  datatype Decoded = Decoded(commits: seq<CommitData>) | SyntaxError | Escaped

  /** The element is an object that maps to a commit. */
  predicate Decodes(f: Json -> Option<CommitData>, e: Json) {
    e.JsonObject? && f(e).Some?
  }

  /** How decoding fails at an element that does not decode. */
  function FailureAt(e: Json): Decoded {
    if e.JsonObject? then SyntaxError else Escaped
  }

  /**
   * The elements decode when every one of them does, and then the commits
   * are theirs, in order and one each; otherwise the first element that does
   * not decode decides how decoding fails.
   */
  function DecodeElements(elements: seq<Json>, f: Json -> Option<CommitData>): (r: Decoded)
    ensures r.Decoded? <==> forall i :: 0 <= i < |elements| ==> Decodes(f, elements[i])
    ensures r.Decoded? ==>
      |r.commits| == |elements| && forall i :: 0 <= i < |elements| ==> f(elements[i]) == Some(r.commits[i])
    ensures !r.Decoded? ==>
      exists k :: 0 <= k < |elements| && !Decodes(f, elements[k])
        && (forall j :: 0 <= j < k ==> Decodes(f, elements[j])) && r == FailureAt(elements[k])
  {
    if |elements| == 0 then Decoded([])
    else if !elements[0].JsonObject? then Escaped
    else match f(elements[0])
      case None => SyntaxError
      case Some(c) =>
        assert forall i :: 1 <= i < |elements| ==> elements[1..][i - 1] == elements[i];
        match DecodeElements(elements[1..], f)
        case Decoded(cs) => Decoded([c] + cs)
        case failure => failure
  }

  /**
   * The decoding of a whole text: a parse failure is a syntax error, a tree
   * that is not an array an escaping exception; an array decodes exactly
   * when each of its elements does, one commit per element in order.
   */
  function Decode(text: string, gson: Gson): (r: Decoded)
    ensures gson.parseString(text).SyntaxException? ==> r == SyntaxError
    ensures gson.parseString(text).Parsed? && !gson.parseString(text).json.JsonArray? ==> r == Escaped
    ensures r.Decoded? <==>
      gson.parseString(text).Parsed? && gson.parseString(text).json.JsonArray?
      && forall i :: 0 <= i < |gson.parseString(text).json.elements| ==>
           Decodes(gson.commitFromJsonObject, gson.parseString(text).json.elements[i])
    ensures r.Decoded? ==>
      var elements := gson.parseString(text).json.elements;
      |r.commits| == |elements| && forall i :: 0 <= i < |elements| ==> gson.commitFromJsonObject(elements[i]) == Some(r.commits[i])
  {
    match gson.parseString(text)
    case SyntaxException => SyntaxError
    case Parsed(json) =>
      if json.JsonArray? then DecodeElements(json.elements, gson.commitFromJsonObject) else Escaped
  }

  /** Decodes the text, accumulating the commits in a list. */
  method DecodeCommitArray(text: string, gson: Gson) returns (decoded: Decoded)
    ensures decoded == Decode(text, gson)
  {
    var parsed := gson.parseString(text);
    if parsed.SyntaxException? {
      return SyntaxError;
    }
    if !parsed.json.JsonArray? {
      return Escaped;
    }
    var elements := parsed.json.elements;
    var f := gson.commitFromJsonObject;
    var objects: seq<CommitData> := [];
    for i := 0 to |elements|
      invariant |objects| == i
      invariant forall k :: 0 <= k < i ==> Decodes(f, elements[k]) && f(elements[k]) == Some(objects[k])
    {
      var element := elements[i];
      if !element.JsonObject? {
        return Escaped;
      }
      var commit := f(element);
      if commit.None? {
        return SyntaxError;
      }
      objects := objects + [commit.value];
    }
    decoded := Decoded(objects);
    assert DecodeElements(elements, f).commits == objects;
  }
}
