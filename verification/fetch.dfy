/**
 * The data-fetching hook `useApi`: how it builds the query, turns a failed
 * response into a message, decides to retry, unwraps the endpoints whose
 * payload is nested, and maps thrown values to the text the user sees.
 *
 * JSON values are modelled by `Json`, with the JavaScript truthiness and
 * property-access rules the hook relies on. Formatting a number as text and
 * `JSON.stringify` are parameters; the HTTP transport is replaced by the
 * `Outcome` of one `fetch` call.
 */
module Fetch {

  import opened Seqs
  import Decimal

  // ---------------------------------------------------------------------------
  // Query string
  // ---------------------------------------------------------------------------

  /** A query-parameter value as the callers pass it. */
  datatype ParamValue = PStr(s: string) | PInt(i: int) | PBool(b: bool) | PUndefined | PNull

  predicate IsSet(p: (string, ParamValue)) { !p.1.PUndefined? && !p.1.PNull? }

  /** The pair `searchParams.append(key, String(value))` adds. */
  function Pair(p: (string, ParamValue)): (string, string) { (p.0, ParamText(p.1)) }

  function BoolText(b: bool): string { if b then "true" else "false" }

  /** `String(value)` for the values that reach the query. */
  function ParamText(v: ParamValue): string
  {
    match v
    case PStr(s) => s
    case PInt(i) => Decimal.IntText(i)
    case PBool(b) => BoolText(b)
    case PUndefined => "undefined"
    case PNull => "null"
  }

  /**
   * The `searchParams.append` calls, in entry order: a parameter whose
   * value is `undefined` or `null` is skipped, every other one is appended
   * as its text.
   */
  function Query(params: seq<(string, ParamValue)>): (r: seq<(string, string)>)
    ensures |r| <= |params|
    ensures r == Map(Filter(params, IsSet), Pair)
    decreases |params|
  {
    if params == [] then []
    else
      var init := params[..|params| - 1];
      var last := params[|params| - 1];
      var q := Query(init);
      assert params == init + [last];
      FilterSnoc(init, last, IsSet);
      MapSnoc(Filter(init, IsSet), last, Pair);
      q + (if IsSet(last) then [(last.0, ParamText(last.1))] else [])
  }

  /** Every appended pair is a set parameter with its text, and every set parameter is appended. */
  lemma QueryPairsAreSetParams(params: seq<(string, ParamValue)>, r: seq<(string, string)>)
    requires r == Query(params)
    ensures forall i :: 0 <= i < |r| ==>
              exists j :: 0 <= j < |params| && IsSet(params[j]) && r[i] == (params[j].0, ParamText(params[j].1))
    ensures forall j :: 0 <= j < |params| && IsSet(params[j]) ==> (params[j].0, ParamText(params[j].1)) in r
  {
    var kept := Filter(params, IsSet);
    FilterMembers(params, IsSet);
    forall i | 0 <= i < |r|
      ensures exists j :: 0 <= j < |params| && IsSet(params[j]) && r[i] == (params[j].0, ParamText(params[j].1))
    {
      PairFromKept(params, kept, r, i);
    }
    forall j | 0 <= j < |params| && IsSet(params[j]) ensures (params[j].0, ParamText(params[j].1)) in r {
      KeptHasPair(params[j], kept, r);
    }
  }

  lemma PairFromKept(params: seq<(string, ParamValue)>, kept: seq<(string, ParamValue)>, r: seq<(string, string)>, i: nat)
    requires forall x :: x in kept ==> x in params && IsSet(x)
    requires r == Map(kept, Pair) && i < |r|
    ensures exists j :: 0 <= j < |params| && IsSet(params[j]) && r[i] == (params[j].0, ParamText(params[j].1))
  {
    assert kept[i] in kept;
    var j :| 0 <= j < |params| && params[j] == kept[i];
    assert r[i] == Pair(params[j]);
  }

  lemma KeptHasPair(p: (string, ParamValue), kept: seq<(string, ParamValue)>, r: seq<(string, string)>)
    requires p in kept
    requires r == Map(kept, Pair)
    ensures (p.0, ParamText(p.1)) in r
  {
    var k :| 0 <= k < |kept| && kept[k] == p;
    assert r[k] == Pair(kept[k]);
  }

  /** Every appended text reads back as the value it came from, type by type. */
  lemma ParamTextRoundTrip(v: ParamValue)
    requires !v.PUndefined? && !v.PNull?
    ensures v.PInt? ==> Decimal.ParseInt(ParamText(v)) == Some(v.i)
    ensures v.PBool? ==> (ParamText(v) == "true" <==> v.b)
    ensures v.PStr? ==> ParamText(v) == v.s
  {
    if v.PInt? {
      Decimal.IntTextRoundTrip(v.i);
    }
  }

  // ---------------------------------------------------------------------------
  // JSON values and the JavaScript operations the hook applies to them
  // ---------------------------------------------------------------------------

  datatype Json =
    | JNull
    | JBool(b: bool)
    | JNum(n: real)
    | JStr(s: string)
    | JArr(items: seq<Json>)
    | JObj(fields: seq<(string, Json)>)

  /** JavaScript truthiness of a JSON value. */
  predicate Truthy(j: Json)
  {
    match j
    case JNull => false
    case JBool(b) => b
    case JNum(n) => n != 0.0
    case JStr(s) => s != ""
    case _ => true
  }

  /** The result of a property read `j.k`. */
  datatype Prop = Throws | Undefined | Value(v: Json)

  predicate PropTruthy(p: Prop) { p.Value? && Truthy(p.v) }

  /** The value of field `k`; when a key repeats, the last occurrence counts, as `JSON.parse` keeps it. */
  function Field(fields: seq<(string, Json)>, k: string): (r: Prop)
    ensures r != Throws
    ensures r.Value? <==> exists i :: 0 <= i < |fields| && fields[i].0 == k
    decreases |fields|
  {
    if fields == [] then Undefined
    else if fields[|fields| - 1].0 == k then Value(fields[|fields| - 1].1)
    else
      var r := Field(fields[..|fields| - 1], k);
      assert forall i :: 0 <= i < |fields| - 1 ==> fields[..|fields| - 1][i] == fields[i];
      r
  }

  /** `j.k`: reading a property of `null` throws; a non-object has no JSON fields. */
  function Get(j: Json, k: string): (r: Prop)
    ensures r == Throws <==> j == JNull
  {
    match j
    case JNull => Throws
    case JObj(fields) => Field(fields, k)
    case _ => Undefined
  }

  /** `parts.join(sep)`. */
  function Join(parts: seq<string>, sep: string): string
    decreases |parts|
  {
    if parts == [] then ""
    else if |parts| == 1 then parts[0]
    else Join(parts[..|parts| - 1], sep) + sep + parts[|parts| - 1]
  }

  /** `String(j)`: the text JavaScript's `ToString` gives a JSON value. */
  function ToText(j: Json, numText: real -> string): string
    decreases j
  {
    match j
    case JNull => "null"
    case JBool(b) => BoolText(b)
    case JNum(n) => numText(n)
    case JStr(s) => s
    case JArr(items) => Join(ElementTexts(items, numText), ",")
    case JObj(_) => "[object Object]"
  }

  /** The texts `Array.prototype.join` uses for the elements: `null` becomes empty. */
  function ElementTexts(items: seq<Json>, numText: real -> string): (r: seq<string>)
    ensures |r| == |items|
    decreases items
  {
    if items == [] then []
    else
      var last := items[|items| - 1];
      ElementTexts(items[..|items| - 1], numText) + [if last == JNull then "" else ToText(last, numText)]
  }

  // ---------------------------------------------------------------------------
  // Responses and the error message of a failed one
  // ---------------------------------------------------------------------------

  /** What `response.json()` yields: a value, or the parser's `SyntaxError` message. */
  datatype Payload = Parsed(value: Json) | Malformed(message: string)

  /**
   * One HTTP response: `text` is what `response.text()` reads and `json`
   * what `response.json()` yields; the hook reads only one of them.
   */
  datatype Response = Response(status: int, statusText: string, contentType: Option<string>,
                               text: string, json: Payload)

  predicate IsOk(status: int) { 200 <= status <= 299 }

  predicate OccursAt(s: string, sub: string, i: nat)
  {
    i + |sub| <= |s| && s[i..i + |sub|] == sub
  }

  predicate Contains(s: string, sub: string)
  {
    exists i: nat :: i <= |s| && OccursAt(s, sub, i)
  }

  /** `contentType && contentType.includes("application/json")`. */
  predicate IsJsonType(ct: Option<string>)
  {
    ct.Some? && ct.value != "" && Contains(ct.value, "application/json")
  }

  /** `HTTP ${status}: ${statusText}`. */
  function DefaultMessage(status: int, statusText: string): string
  {
    "HTTP " + Decimal.IntText(status) + ": " + statusText
  }

  /** `s.substring(0, n)`. */
  function Prefix(s: string, n: nat): (r: string)
    ensures |r| <= n && |r| <= |s|
    ensures r == s[..|r|]
    ensures |s| <= n ==> r == s
  {
    if |s| <= n then s else s[..n]
  }

  /**
   * The text one `detail` item contributes: a string is itself, otherwise a
   * truthy `msg`, else a truthy `message`, else its JSON text. A `null` item
   * makes the property read throw, which abandons the whole extraction.
   */
  function DetailItemText(d: Json, stringify: Json -> string, numText: real -> string): (r: Option<string>)
    ensures r.None? <==> d == JNull
    ensures d.JStr? ==> r == Some(d.s)
    ensures !d.JStr? && d != JNull && PropTruthy(Get(d, "msg")) ==> r == Some(ToText(Get(d, "msg").v, numText))
    ensures !d.JStr? && d != JNull && !PropTruthy(Get(d, "msg")) && PropTruthy(Get(d, "message")) ==>
              r == Some(ToText(Get(d, "message").v, numText))
    ensures !d.JStr? && d != JNull && !PropTruthy(Get(d, "msg")) && !PropTruthy(Get(d, "message")) ==>
              r == Some(stringify(d))
  {
    match d
    case JStr(s) => Some(s)
    case JNull => None
    case _ =>
      if PropTruthy(Get(d, "msg")) then Some(ToText(Get(d, "msg").v, numText))
      else if PropTruthy(Get(d, "message")) then Some(ToText(Get(d, "message").v, numText))
      else Some(stringify(d))
  }

  /** The item texts of a `detail` array, or None when some item throws. */
  function DetailTexts(items: seq<Json>, stringify: Json -> string, numText: real -> string): (r: Option<seq<string>>)
    ensures r.None? <==> JNull in items
    ensures r.Some? ==> |r.value| == |items|
    ensures r.Some? ==> forall i :: 0 <= i < |items| ==> Some(r.value[i]) == DetailItemText(items[i], stringify, numText)
    decreases |items|
  {
    if items == [] then Some([])
    else
      var init := items[..|items| - 1];
      var last := items[|items| - 1];
      assert items == init + [last];
      match DetailTexts(init, stringify, numText)
      case None => None
      case Some(ts) =>
        match DetailItemText(last, stringify, numText)
        case None => None
        case Some(t) => Some(ts + [t])
  }

  /**
   * The message taken from a parsed JSON error body, FastAPI's format
   * first: a truthy `detail` decides (array -> joined item texts, string ->
   * itself, anything else -> the default); only a falsy `detail` lets a
   * truthy `message` through. A `null` body keeps the default.
   */
  function JsonErrorMessage(body: Json, dflt: string, stringify: Json -> string,
                            numText: real -> string): (r: string)
    ensures body == JNull ==> r == dflt
    ensures PropTruthy(Get(body, "detail")) && Get(body, "detail").v.JStr? ==> r == Get(body, "detail").v.s
    ensures PropTruthy(Get(body, "detail")) && Get(body, "detail").v.JArr? ==>
              var texts := DetailTexts(Get(body, "detail").v.items, stringify, numText);
              && (texts.Some? ==> r == Join(texts.value, ", "))
              && (texts.None? <==> JNull in Get(body, "detail").v.items) && (texts.None? ==> r == dflt)
    ensures PropTruthy(Get(body, "detail")) && !Get(body, "detail").v.JStr? && !Get(body, "detail").v.JArr? ==> r == dflt
    ensures body != JNull && !PropTruthy(Get(body, "detail")) && PropTruthy(Get(body, "message")) ==>
              r == ToText(Get(body, "message").v, numText)
    ensures !PropTruthy(Get(body, "detail")) && !PropTruthy(Get(body, "message")) ==> r == dflt
  {
    var detail := Get(body, "detail");
    if detail == Throws then dflt
    else if PropTruthy(detail) then
      match detail.v
      case JArr(items) =>
        (match DetailTexts(items, stringify, numText)
         case None => dflt
         case Some(ts) => Join(ts, ", "))
      case JStr(s) => s
      case _ => dflt
    else if PropTruthy(Get(body, "message")) then ToText(Get(body, "message").v, numText)
    else dflt
  }

  /** The message of a non-ok response, before the retry decision. */
  function ErrorMessage(resp: Response, stringify: Json -> string, numText: real -> string): (r: string)
    ensures var dflt := DefaultMessage(resp.status, resp.statusText);
            && (!IsJsonType(resp.contentType) && resp.text == "" ==> r == dflt)
            && (!IsJsonType(resp.contentType) && resp.text != "" ==>
                  && |dflt| + 2 <= |r| <= |dflt| + 2 + 200
                  && r[..|dflt| + 2] == dflt + ": "
                  && |r| - |dflt| - 2 <= |resp.text|
                  && r[|dflt| + 2..] == resp.text[..|r| - |dflt| - 2]
                  && (|resp.text| <= 200 ==> r == dflt + ": " + resp.text)
                  && (|resp.text| >= 200 ==> |r| == |dflt| + 2 + 200))
            && (IsJsonType(resp.contentType) && resp.json.Malformed? ==> r == dflt)
            && (IsJsonType(resp.contentType) && resp.json.Parsed? ==>
                  r == JsonErrorMessage(resp.json.value, dflt, stringify, numText))
  {
    var dflt := DefaultMessage(resp.status, resp.statusText);
    if IsJsonType(resp.contentType) then
      match resp.json
      case Malformed(_) => dflt
      case Parsed(body) => JsonErrorMessage(body, dflt, stringify, numText)
    else if resp.text != "" then
      var p := Prefix(resp.text, 200);
      assert (dflt + ": " + p)[..|dflt| + 2] == dflt + ": ";
      assert (dflt + ": " + p)[|dflt| + 2..] == p;
      dflt + ": " + p
    else dflt
  }

  /** A non-empty string `detail` is the message, whatever else the body holds. */
  lemma DetailStringWins(fields: seq<(string, Json)>, s: string, dflt: string,
                         stringify: Json -> string, numText: real -> string)
    requires s != ""
    ensures JsonErrorMessage(JObj(fields + [("detail", JStr(s))]), dflt, stringify, numText) == s
  {
  }

  /** A `detail` array of strings is joined with ", ". */
  lemma DetailStringsJoined(fields: seq<(string, Json)>, items: seq<Json>, strs: seq<string>, dflt: string,
                            stringify: Json -> string, numText: real -> string)
    requires strs != [] && |items| == |strs|
    requires forall i :: 0 <= i < |items| ==> items[i] == JStr(strs[i])
    ensures JsonErrorMessage(JObj(fields + [("detail", JArr(items))]), dflt, stringify, numText) == Join(strs, ", ")
  {
    StringItems(items, strs, stringify, numText);
  }

  lemma {:induction false} StringItems(items: seq<Json>, strs: seq<string>, stringify: Json -> string, numText: real -> string)
    requires |items| == |strs|
    requires forall i :: 0 <= i < |items| ==> items[i] == JStr(strs[i])
    ensures DetailTexts(items, stringify, numText) == Some(strs)
    decreases |strs|
  {
    if strs != [] {
      var n := |strs| - 1;
      StringItems(items[..n], strs[..n], stringify, numText);
      assert strs == strs[..n] + [strs[n]];
    }
  }

  /** Without a `detail` field, a non-empty string `message` is used. */
  lemma MessageUsedWithoutDetail(fields: seq<(string, Json)>, m: string, dflt: string,
                                 stringify: Json -> string, numText: real -> string)
    requires m != ""
    requires forall i :: 0 <= i < |fields| ==> fields[i].0 != "detail"
    ensures JsonErrorMessage(JObj(fields + [("message", JStr(m))]), dflt, stringify, numText) == m
  {
    var all := fields + [("message", JStr(m))];
    assert Field(all, "detail") == Undefined;
  }

  /** A `null` body, or a `null` item in the `detail` array, keeps the default message. */
  lemma NullKeepsDefault(fields: seq<(string, Json)>, items: seq<Json>, dflt: string,
                         stringify: Json -> string, numText: real -> string)
    requires JNull in items
    ensures JsonErrorMessage(JNull, dflt, stringify, numText) == dflt
    ensures JsonErrorMessage(JObj(fields + [("detail", JArr(items))]), dflt, stringify, numText) == dflt
  {
  }

  // ---------------------------------------------------------------------------
  // One attempt, retries, unwrapping, and what the user sees
  // ---------------------------------------------------------------------------

  /** `status >= 500 && retryCount < 2`. */
  predicate ShouldRetry(status: int, retryCount: nat) { status >= 500 && retryCount < 2 }

  /** `2000 * (retryCount + 1)` milliseconds. */
  function RetryDelay(retryCount: nat): (ms: nat)
    ensures ms >= 2000 && ms % 2000 == 0
    ensures ms == 2000 * (retryCount + 1)
  {
    2000 * (retryCount + 1)
  }

  /** A thrown value: an `Error` with its name and message, or anything else already turned to text. */
  datatype Thrown = ErrorValue(name: string, message: string) | OtherValue(text: string)

  const NetworkMessage: string :=
    "Network error: Unable to connect to the API server. Please check your internet connection."

  /** The message stored in `error`. */
  function FriendlyError(e: Thrown): (r: string)
    ensures e == ErrorValue("TypeError", "Failed to fetch") ==> r == NetworkMessage
    ensures e.ErrorValue? && e.name != "TypeError" ==> r == e.message
    ensures e.ErrorValue? && e.message != "Failed to fetch" ==> r == e.message
    ensures e.OtherValue? ==> r == e.text
  {
    match e
    case ErrorValue(name, message) =>
      if name == "TypeError" && message == "Failed to fetch" then NetworkMessage else message
    case OtherValue(text) => text
  }

  /** What one `fetch` call produced. */
  datatype Outcome = Reply(resp: Response) | Threw(e: Thrown)

  /** How one run of `fetchData` ends. */
  datatype Attempt = Retry(delay: nat) | Failed(message: string) | Loaded(data: Json)

  /** The endpoints whose payload sits under a field, and that field. */
  function NestedField(endpoint: string): Option<string>
  {
    if endpoint == "/historical-data" then Some("data")
    else if endpoint == "/recommendations" then Some("suggestions")
    else None
  }

  /** The data stored for a successful response. */
  function Unwrap(endpoint: string, result: Json): (r: Json)
    ensures NestedField(endpoint).None? ==> r == result
    ensures NestedField(endpoint).Some? ==> r.JArr?
    ensures NestedField(endpoint).Some? ==>
              var field := Get(result, NestedField(endpoint).value);
              (field.Value? && field.v.JArr? ==> r == field.v)
    ensures NestedField(endpoint).Some? ==>
              var field := Get(result, NestedField(endpoint).value);
              (!(field.Value? && field.v.JArr?) ==> r == JArr([]))
    ensures NestedField(endpoint).Some? && !result.JObj? ==> r == JArr([])
  {
    match NestedField(endpoint)
    case None => result
    case Some(k) =>
      if !Truthy(result) then JArr([])
      else match Get(result, k)
        case Value(JArr(items)) => JArr(items)
        case _ => JArr([])
  }

  /** `Expected JSON response, got ${contentType}`. */
  function NotJsonMessage(ct: Option<string>): string
  {
    "Expected JSON response, got " + (match ct case None => "null" case Some(s) => s)
  }

  /** One run of `fetchData` with the current retry count. */
  function Run(endpoint: string, outcome: Outcome, retryCount: nat,
               stringify: Json -> string, numText: real -> string): (a: Attempt)
    ensures a.Retry? <==> outcome.Reply? && !IsOk(outcome.resp.status) && ShouldRetry(outcome.resp.status, retryCount)
    ensures a.Retry? ==> a.delay == RetryDelay(retryCount)
    ensures a.Loaded? ==> outcome.Reply? && IsOk(outcome.resp.status) && IsJsonType(outcome.resp.contentType)
                          && outcome.resp.json.Parsed?
    ensures outcome.Reply? && IsOk(outcome.resp.status) && !IsJsonType(outcome.resp.contentType)
            ==> a == Failed(NotJsonMessage(outcome.resp.contentType))
    ensures outcome == Threw(ErrorValue("TypeError", "Failed to fetch")) ==> a == Failed(NetworkMessage)
    ensures outcome.Threw? ==> a == Failed(FriendlyError(outcome.e))
    ensures outcome.Reply? && !IsOk(outcome.resp.status) && !ShouldRetry(outcome.resp.status, retryCount)
            ==> a == Failed(ErrorMessage(outcome.resp, stringify, numText))
    ensures outcome.Reply? && IsOk(outcome.resp.status) && IsJsonType(outcome.resp.contentType) && outcome.resp.json.Malformed?
            ==> a == Failed(outcome.resp.json.message)
    ensures a.Loaded? ==> a.data == Unwrap(endpoint, outcome.resp.json.value)
  {
    match outcome
    case Threw(e) => Failed(FriendlyError(e))
    case Reply(resp) =>
      if !IsOk(resp.status) then
        if ShouldRetry(resp.status, retryCount) then Retry(RetryDelay(retryCount))
        else Failed(FriendlyError(ErrorValue("Error", ErrorMessage(resp, stringify, numText))))
      else if !IsJsonType(resp.contentType) then Failed(FriendlyError(ErrorValue("Error", NotJsonMessage(resp.contentType))))
      else match resp.json
        case Malformed(m) => Failed(FriendlyError(ErrorValue("SyntaxError", m)))
        case Parsed(result) => Loaded(Unwrap(endpoint, result))
  }

  /** A final non-ok response reports exactly the extracted error message. */
  lemma FinalErrorIsExtracted(endpoint: string, resp: Response, retryCount: nat,
                              stringify: Json -> string, numText: real -> string)
    requires !IsOk(resp.status) && !ShouldRetry(resp.status, retryCount)
    ensures Run(endpoint, Reply(resp), retryCount, stringify, numText) == Failed(ErrorMessage(resp, stringify, numText))
  {
  }

  /**
   * Successive runs over a series of fetch outcomes, each retry seeing the
   * count the previous one left: the final attempt and how many outcomes it
   * consumed.
   */
  function Cycle(endpoint: string, outcomes: seq<Outcome>, retryCount: nat,
                 stringify: Json -> string, numText: real -> string): (r: (Attempt, nat))
    requires outcomes != []
    ensures 1 <= r.1 <= |outcomes|
    ensures retryCount <= 2 ==> r.1 <= 3 - retryCount
    ensures r.0.Retry? ==> r.1 == |outcomes|
    ensures !r.0.Retry? ==> r.0 == Run(endpoint, outcomes[r.1 - 1], retryCount + r.1 - 1, stringify, numText)
    ensures forall i :: 0 <= i < r.1 - 1 ==> Run(endpoint, outcomes[i], retryCount + i, stringify, numText).Retry?
    decreases |outcomes|
  {
    var a := Run(endpoint, outcomes[0], retryCount, stringify, numText);
    if a.Retry? && |outcomes| > 1 then
      var rest := Cycle(endpoint, outcomes[1..], retryCount + 1, stringify, numText);
      assert forall i :: 1 <= i < |outcomes| ==> outcomes[1..][i - 1] == outcomes[i];
      (rest.0, rest.1 + 1)
    else (a, 1)
  }

  /** Three server errors in a row from a fresh start end in failure after the third attempt. */
  lemma ThreeServerErrorsFail(endpoint: string, r1: Response, r2: Response, r3: Response,
                              stringify: Json -> string, numText: real -> string)
    requires r1.status >= 500 && r2.status >= 500 && r3.status >= 500
    ensures var c := Cycle(endpoint, [Reply(r1), Reply(r2), Reply(r3)], 0, stringify, numText);
            c == (Failed(ErrorMessage(r3, stringify, numText)), 3)
  {
    var os := [Reply(r1), Reply(r2), Reply(r3)];
    assert os[1..] == [Reply(r2), Reply(r3)];
    assert os[1..][1..] == [Reply(r3)];
    FinalErrorIsExtracted(endpoint, r3, 2, stringify, numText);
    assert Cycle(endpoint, [Reply(r3)], 2, stringify, numText) == (Failed(ErrorMessage(r3, stringify, numText)), 1);
    assert Cycle(endpoint, [Reply(r2), Reply(r3)], 1, stringify, numText) == (Failed(ErrorMessage(r3, stringify, numText)), 2);
  }

  /** The hook state the component reads. */
  datatype HookState = HookState(data: Option<Json>, loading: bool, error: Option<string>, retryCount: nat)

  /** The entry of `fetchData`: a fresh (non-retry) run shows loading and resets the count. */
  function Begin(st: HookState, isRetry: bool): (r: HookState)
    ensures r.error == None && r.data == st.data
    ensures !isRetry ==> r.loading && r.retryCount == 0
    ensures isRetry ==> r.loading == st.loading && r.retryCount == st.retryCount
  {
    if isRetry then st.(error := None) else st.(loading := true, retryCount := 0, error := None)
  }

  /** The exit of `fetchData`: `finally` clears loading, whatever the attempt did. */
  function Finish(st: HookState, a: Attempt): (r: HookState)
    ensures !r.loading
    ensures a.Retry? ==> r.retryCount == st.retryCount + 1 && r.data == st.data && r.error == st.error
    ensures a.Failed? ==> r.error == Some(a.message) && r.data == st.data && r.retryCount == st.retryCount
    ensures a.Loaded? ==> r.data == Some(a.data) && r.error == st.error && r.retryCount == st.retryCount
  {
    match a
    case Retry(_) => st.(retryCount := st.retryCount + 1, loading := false)
    case Failed(m) => st.(error := Some(m), loading := false)
    case Loaded(d) => st.(data := Some(d), loading := false)
  }

  /** A failed run keeps the previous data next to its error; a successful one clears the error. */
  lemma RunEffects(st: HookState, isRetry: bool, a: Attempt)
    ensures a.Failed? ==> Finish(Begin(st, isRetry), a).data == st.data
    ensures a.Loaded? ==> Finish(Begin(st, isRetry), a).error == None
    ensures a.Retry? ==> Finish(Begin(st, isRetry), a).error == None
  {
  }
}
