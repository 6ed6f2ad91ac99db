/** The HTTP helpers (`src/lib/api.ts`): the query-string builder, the request
    headers and body of `apiFetch`, `apiUpload` and `apiDelete`, and the rule
    that picks the error message of a failed response. The network call is
    not modelled: a response is given as its `ok` flag, its status and its
    decoded JSON body. `encodeURIComponent` and `JSON.stringify` are the
    parameters `enc` and `stringify`. */
module Api {
  import opened Wrappers
  import opened Seqs
  import opened Text

  /** A JavaScript value as far as these helpers look at it. */
  datatype JsValue = Undefined | Null | Bool(b: bool) | Num(n: int) | Str(s: string) | Obj(ref: int)

  /** JavaScript truthiness (objects and arrays are always truthy). */
  predicate JsTruthy(v: JsValue) {
    match v
    case Undefined => false
    case Null => false
    case Bool(b) => b
    case Num(n) => n != 0
    case Str(s) => |s| > 0
    case Obj(_) => true
  }

  predicate Truthy(s: Option<string>) {
    s.Some? && |s.value| > 0
  }

  // ---------- query strings ----------

  /** A query parameter value. */
  datatype QueryValue = QStr(s: string) | QNum(n: int) | QBool(b: bool) | QUndefined | QNull

  /** `String(v)`. */
  function ValueText(v: QueryValue): string
    requires !v.QUndefined? && !v.QNull?
  {
    match v
    case QStr(s) => s
    case QNum(n) => IntToString(n)
    case QBool(b) => if b then "true" else "false"
  }

  predicate Present(e: (string, QueryValue)) {
    !e.1.QUndefined? && !e.1.QNull?
  }

  /** The entries `toQuery` keeps: those whose value is neither undefined nor null. */
  function KeptEntries(entries: seq<(string, QueryValue)>): (r: seq<(string, QueryValue)>)
    ensures forall i :: 0 <= i < |r| ==> r[i] in entries && Present(r[i])
    ensures forall i :: 0 <= i < |entries| && Present(entries[i]) ==> entries[i] in r
  {
    Filter(entries, Present)
  }

  /** `k=v` with both sides encoded. */
  function Pair(e: (string, QueryValue), enc: string -> string): string
    requires Present(e)
  {
    enc(e.0) + "=" + enc(ValueText(e.1))
  }

  function Pairs(kept: seq<(string, QueryValue)>, enc: string -> string): (ps: seq<string>)
    requires forall i :: 0 <= i < |kept| ==> Present(kept[i])
    ensures |ps| == |kept|
  {
    seq(|kept|, i requires 0 <= i < |kept| => Pair(kept[i], enc))
  }

  /** `toQuery`: nothing for no query or no kept entry, otherwise "?" and the
      encoded pairs joined by "&", in entry order. */
  function ToQuery(query: Option<seq<(string, QueryValue)>>, enc: string -> string): (r: string)
    ensures query.None? ==> r == ""
    ensures |r| == 0 <==> query.None? || |KeptEntries(query.value)| == 0
    ensures |r| > 0 ==> r[0] == '?'
  {
    if query.None? then ""
    else
      var entries := KeptEntries(query.value);
      if |entries| == 0 then ""
      else "?" + Join(Pairs(entries, enc), "&")
  }

  /** Reading a query string back: when the encoder never emits "&" or "=",
      splitting after the "?" on "&" gives one piece per kept entry, in order,
      and each piece splits on "=" into the encoded key and value. */
  lemma ToQueryReadBack(entries: seq<(string, QueryValue)>, enc: string -> string)
    requires forall s :: '&' !in enc(s) && '=' !in enc(s)
    requires |KeptEntries(entries)| > 0
    ensures var parts := SplitOn(ToQuery(Some(entries), enc)[1..], '&');
      && |parts| == |KeptEntries(entries)|
      && forall j :: 0 <= j < |parts| ==>
           SplitOn(parts[j], '=') == [enc(KeptEntries(entries)[j].0), enc(ValueText(KeptEntries(entries)[j].1))]
  {
    var kept := KeptEntries(entries);
    var ps := Pairs(kept, enc);
    forall i | 0 <= i < |ps|
      ensures '&' !in ps[i]
      ensures SplitOn(ps[i], '=') == [enc(kept[i].0), enc(ValueText(kept[i].1))]
    {
      var k, v := enc(kept[i].0), enc(ValueText(kept[i].1));
      assert ps[i] == k + ['='] + v;
      SplitOnPrefix(k, '=', v);
      SplitOnPrefix(v, '=', []);
    }
    SplitOnJoin(ps, '&');
    assert ToQuery(Some(entries), enc)[1..] == Join(ps, "&");
  }

  /** Only undefined and null values are dropped: a query whose values are all
      undefined or null gives no query string. */
  lemma ToQueryAllAbsent(entries: seq<(string, QueryValue)>, enc: string -> string)
    requires forall i :: 0 <= i < |entries| ==> !Present(entries[i])
    ensures ToQuery(Some(entries), enc) == ""
  {
    FilterNone(entries, Present);
  }

  // ---------- requests ----------

  /** `Authorization: Bearer <token>` is set exactly when the token is truthy. */
  method AuthHeaders(token: Option<string>) returns (headers: map<string, string>)
    ensures Truthy(token) ==> headers == map["Authorization" := "Bearer " + token.value]
    ensures !Truthy(token) ==> headers == map[]
  {
    headers := map[];
    if token.Some? && |token.value| > 0 {
      headers := headers["Authorization" := "Bearer " + token.value];
    }
  }

  /** The headers of `apiFetch`: JSON content type unless the caller sets
      one, the caller's headers, and the bearer token when there is one. */
  method FetchHeaders(token: Option<string>, headers: map<string, string>) returns (finalHeaders: map<string, string>)
    ensures finalHeaders.Keys == headers.Keys + {"Content-Type"} + (if Truthy(token) then {"Authorization"} else {})
    ensures finalHeaders["Content-Type"] == (if "Content-Type" in headers then headers["Content-Type"] else "application/json")
    ensures Truthy(token) ==> finalHeaders["Authorization"] == "Bearer " + token.value
    ensures forall k :: k in headers && k != "Content-Type" && (k != "Authorization" || !Truthy(token)) ==>
      finalHeaders[k] == headers[k]
  {
    finalHeaders := map["Content-Type" := "application/json"] + headers;
    if token.Some? && |token.value| > 0 {
      finalHeaders := finalHeaders["Authorization" := "Bearer " + token.value];
    }
  }

  /** `JSON.stringify(body)` when the body is truthy, no body otherwise. */
  function RequestBody(body: JsValue, stringify: JsValue -> string): (r: Option<string>)
    ensures r.Some? <==> JsTruthy(body)
    ensures r.Some? ==> r.value == stringify(body)
  {
    if JsTruthy(body) then Some(stringify(body)) else None
  }

  /** The options of `apiFetch`; a missing HTTP method (`verb`) is GET. */
  datatype FetchOptions = FetchOptions(
    verb: Option<string>, token: Option<string>, body: JsValue, headers: map<string, string>)

  datatype Request = Request(url: string, verb: string, headers: map<string, string>, body: Option<string>)

  /** The request `apiFetch` issues. */
  method FetchRequest(apiUrl: string, path: string, opts: FetchOptions, stringify: JsValue -> string)
    returns (req: Request)
    ensures req.url == apiUrl + path
    ensures req.verb == opts.verb.GetOr("GET")
    ensures req.body == RequestBody(opts.body, stringify)
    ensures "Content-Type" in req.headers
    ensures Truthy(opts.token) ==> "Authorization" in req.headers && req.headers["Authorization"] == "Bearer " + opts.token.value
    ensures ("Authorization" in req.headers && !("Authorization" in opts.headers)) ==> Truthy(opts.token)
  {
    var finalHeaders := FetchHeaders(opts.token, opts.headers);
    req := Request(apiUrl + path, opts.verb.GetOr("GET"), finalHeaders, RequestBody(opts.body, stringify));
  }

  /** The request `apiUpload` issues (the form data itself is not modelled):
      a POST to the path plus the query string, with only the bearer header. */
  method UploadRequest(apiUrl: string, path: string, token: Option<string>,
                       query: Option<seq<(string, QueryValue)>>, enc: string -> string)
    returns (url: string, verb: string, headers: map<string, string>)
    ensures url == apiUrl + path + ToQuery(query, enc)
    ensures verb == "POST"
    ensures Truthy(token) ==> headers == map["Authorization" := "Bearer " + token.value]
    ensures !Truthy(token) ==> headers == map[]
  {
    url := apiUrl + path + ToQuery(query, enc);
    verb := "POST";
    headers := AuthHeaders(token);
  }

  // ---------- responses ----------

  /** The fields of a decoded error body that the message rule looks at;
      `None` when the body is absent or not JSON. */
  datatype ErrorBody = ErrorBody(error: Option<string>, message: Option<string>)

  /** `data?.error || data?.message || "API error <status>"`. */
  function ErrorMessage(data: Option<ErrorBody>, status: int): (msg: string)
    ensures data.Some? && Truthy(data.value.error) ==> msg == data.value.error.value
    ensures data.Some? && !Truthy(data.value.error) && Truthy(data.value.message) ==> msg == data.value.message.value
    ensures (data.None? || (!Truthy(data.value.error) && !Truthy(data.value.message))) ==>
      msg == "API error " + IntToString(status)
    ensures |msg| > 0
  {
    if data.Some? && Truthy(data.value.error) then data.value.error.value
    else if data.Some? && Truthy(data.value.message) then data.value.message.value
    else "API error " + IntToString(status)
  }

  /** `apiFetch` and `apiUpload`: the decoded body on success, an error with
      the chosen message otherwise. */
  function FetchOutcome<T>(ok: bool, status: int, data: T, errorBody: Option<ErrorBody>): (r: Result<T>)
    ensures r.Success? <==> ok
    ensures r.Success? ==> r.value == data
    ensures r.Failure? ==> r.error == ErrorMessage(errorBody, status)
  {
    if !ok then Failure(ErrorMessage(errorBody, status)) else Success(data)
  }

  /** `apiDelete`: the message starts as "API error <status>" and is replaced
      by the body's error or message when the body decodes. */
  method DeleteOutcome(ok: bool, status: int, json: Option<ErrorBody>) returns (r: Result<()>)
    ensures r.Success? <==> ok
    ensures r.Failure? ==> r.error == ErrorMessage(json, status)
  {
    if !ok {
      var msg := "API error " + IntToString(status);
      if json.Some? {
        var j := json.value;
        if Truthy(j.error) {
          msg := j.error.value;
        } else if Truthy(j.message) {
          msg := j.message.value;
        }
      }
      return Failure(msg);
    }
    return Success(());
  }

  /** The three helpers report the same message for the same failed response. */
  lemma SameErrorMessage(status: int, body: Option<ErrorBody>)
    ensures FetchOutcome(false, status, (), body).error == ErrorMessage(body, status)
    ensures ErrorMessage(None, status) == "API error " + IntToString(status)
  {
  }
}
