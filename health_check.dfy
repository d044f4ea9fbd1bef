/**
 * The health check `_check_process`: given the text of the buffer snapshot
 * and what the oracle call gave back, decide whether the child must be
 * restarted. The oracle call and the JSON parser are outside the model: the
 * call's outcome is an input, and the parser is a function parameter.
 * Every exception the source catches maps to "no restart".
 */
module HealthCheck {
  import opened Wrappers

  /** A value after `json.loads`, or an already structured payload: Python's JSON data model. */
  datatype Json =
    | JNull                          // None
    | JBool(b: bool)                 // True / False
    | JNumber(r: real)               // a finite int or float
    | JNonFinite                     // NaN, Infinity or -Infinity, which json.loads accepts
    | JString(s: string)
    | JArray(items: seq<Json>)
    | JObject(fields: map<string, Json>)

  /** What the call to the oracle did: it raised, or it returned a value. */
  datatype CallOutcome = Raised | Returned(value: Json)

  /** What `json.loads` did with a text: it raised, or it produced a value. */
  datatype Parse = ParseError | Parsed(value: Json)

  /** Python's `bool(v)` for JSON data: None, False, zero and empty containers are false. */
  function Truthy(v: Json): (t: bool)
    ensures !t <==> v in {JNull, JBool(false), JNumber(0.0), JString(""), JArray([]), JObject(map[])}
  {
    match v
    case JNull => false
    case JBool(b) => b
    case JNumber(r) => r != 0.0
    case JNonFinite => true
    case JString(s) => s != ""
    case JArray(items) => items != []
    case JObject(fields) => fields != map[]
  }

  /** `obj.get(key, default)`, which raises when `obj` is not a dictionary. */
  function Get(obj: Json, key: string, default: Json): Option<Json>
  {
    match obj
    case JObject(fields) => Some(if key in fields then fields[key] else default)
    case _ => None
  }

  /**
   * The value bound to `data` (coverseer.py:80-84), or None when an exception
   * was raised on the way: the field `response` of the reply (the empty
   * string when it is missing), parsed when it is a string, used as it is
   * otherwise.
   */
  function Data(reply: CallOutcome, parse: string -> Parse): (r: Option<Json>)
    ensures reply.Raised? ==> r.None?
    ensures reply.Returned? && !reply.value.JObject? ==> r.None?
  {
    match reply
    case Raised => None
    case Returned(response) =>
      match Get(response, "response", JString(""))
      case None => None
      case Some(raw) =>
        if raw.JString? then
          match parse(raw.s)
          case ParseError => None
          case Parsed(v) => Some(v)
        else Some(raw)
  }

  /** The branch on `data.get("restart_needed")` (coverseer.py:86-95): a raise counts as "no restart". */
  function Verdict(data: Json): (restart: bool)
    ensures restart <==> data.JObject? && "restart_needed" in data.fields
                         && Truthy(data.fields["restart_needed"])
  {
    match Get(data, "restart_needed", JNull)
    case None => false
    case Some(v) => Truthy(v)
  }

  /**
   * `_check_process` after the snapshot was taken: an empty text skips the
   * oracle and answers false; otherwise the answer is the verdict on the
   * reply's data, and false when no data could be obtained.
   */
  function CheckProcess(recentOutput: string, reply: CallOutcome, parse: string -> Parse): (restart: bool)
    ensures recentOutput == "" ==> !restart
    ensures restart ==> Data(reply, parse).Some? && Verdict(Data(reply, parse).value)
  {
    if recentOutput == "" then false
    else
      match Data(reply, parse)
      case None => false
      case Some(data) => Verdict(data)
  }

  /** With an empty text the oracle's reply plays no part: the check is skipped, with answer false. */
  lemma EmptyOutputSkipsOracle(reply1: CallOutcome, reply2: CallOutcome, parse: string -> Parse)
    ensures CheckProcess("", reply1, parse) == CheckProcess("", reply2, parse) == false
  {
  }

  /** With a non-empty text the answer is true exactly when the reply's data asks for a restart. */
  lemma CheckProcessIff(recentOutput: string, reply: CallOutcome, parse: string -> Parse)
    requires recentOutput != ""
    ensures CheckProcess(recentOutput, reply, parse) <==>
              exists fields :: Data(reply, parse) == Some(JObject(fields))
                && "restart_needed" in fields && Truthy(fields["restart_needed"])
  {
    if CheckProcess(recentOutput, reply, parse) {
      var fields := Data(reply, parse).value.fields;
      assert Data(reply, parse) == Some(JObject(fields));
    }
  }

  /** Every failure on the way yields false: the fail-safe policy. */
  lemma FailSafe(recentOutput: string, reply: CallOutcome, parse: string -> Parse)
    ensures reply.Raised? ==> !CheckProcess(recentOutput, reply, parse)
    ensures reply.Returned? && !reply.value.JObject? ==> !CheckProcess(recentOutput, reply, parse)
    ensures reply.Returned? && reply.value.JObject? && "response" in reply.value.fields
            && reply.value.fields["response"].JString?
            && parse(reply.value.fields["response"].s).ParseError?
            ==> !CheckProcess(recentOutput, reply, parse)
    ensures Data(reply, parse).Some? && !Data(reply, parse).value.JObject?
            ==> !CheckProcess(recentOutput, reply, parse)
    ensures Data(reply, parse).Some? && Data(reply, parse).value.JObject?
            && "restart_needed" !in Data(reply, parse).value.fields
            ==> !CheckProcess(recentOutput, reply, parse)
  {
  }

  /**
   * A reply without a `response` field is read as the empty string, which a
   * JSON parser rejects, so the answer is false.
   */
  lemma MissingResponseIsNoRestart(recentOutput: string, fields: map<string, Json>, parse: string -> Parse)
    requires "response" !in fields
    requires parse("").ParseError?
    ensures !CheckProcess(recentOutput, Returned(JObject(fields)), parse)
  {
  }

  /**
   * A textual payload that parses to `v` and the structured payload `v`
   * itself lead to the same answer (when `v` is not itself a string, which
   * would be parsed again).
   */
  lemma TextAndStructuredAgree(recentOutput: string, text: string, v: Json,
                               fields1: map<string, Json>, fields2: map<string, Json>,
                               parse: string -> Parse)
    requires parse(text) == Parsed(v) && !v.JString?
    requires "response" in fields1 && fields1["response"] == JString(text)
    requires "response" in fields2 && fields2["response"] == v
    ensures CheckProcess(recentOutput, Returned(JObject(fields1)), parse)
         == CheckProcess(recentOutput, Returned(JObject(fields2)), parse)
  {
    assert Data(Returned(JObject(fields1)), parse) == Some(v);
    assert Data(Returned(JObject(fields2)), parse) == Some(v);
  }

  /** The shape the request's schema asks for: a boolean `restart_needed` and a string `reason`. */
  predicate ConformsToSchema(data: Json)
  {
    data.JObject? &&
    "restart_needed" in data.fields && data.fields["restart_needed"].JBool? &&
    "reason" in data.fields && data.fields["reason"].JString?
  }

  /** For data in the schema's shape, the answer is the boolean `restart_needed`. */
  lemma ConformingDataDecides(recentOutput: string, reply: CallOutcome, parse: string -> Parse)
    requires recentOutput != ""
    requires Data(reply, parse).Some? && ConformsToSchema(Data(reply, parse).value)
    ensures CheckProcess(recentOutput, reply, parse)
         == Data(reply, parse).value.fields["restart_needed"].b
  {
  }

  /**
   * The source tests truthiness, not `is True`: a non-empty string such as
   * "false" in `restart_needed` asks for a restart.
   */
  lemma TruthyStringRequestsRestart(recentOutput: string, reason: Json, parse: string -> Parse)
    requires recentOutput != ""
    ensures CheckProcess(recentOutput,
              Returned(JObject(map["response" := JObject(map["restart_needed" := JString("false"),
                                                              "reason" := reason])])),
              parse)
  {
    var data := JObject(map["restart_needed" := JString("false"), "reason" := reason]);
    assert Data(Returned(JObject(map["response" := data])), parse) == Some(data);
  }
}
