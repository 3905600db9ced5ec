/** The browser's request layer (static/js/api.js): how `ApiClient.request`
    composes the final headers (the CSRF rule and the `headers` override),
    how `get` builds its URL and drops null parameters, how a response
    settles the returned promise (`ApiError` and its message fallback),
    `authAPI.checkAuth`, and the `RealtimeConnection` state machine.
    The network is a parameter: a function from the request to the
    response, or None when `fetch` itself rejects. */
module Api {
  import opened Common

  // ---------------------------------------------------------------------
  // JSON values as the client sees them

  datatype Json =
    | JNull
    | JBool(b: bool)
    | JNumber(n: int)
    | JString(s: string)
    | JArray(items: seq<Json>)
    | JObject(fields: map<string, Json>)

  /** Property access `value.key` on a non-null value: None is `undefined`. */
  function Member(value: Json, key: string): (r: Option<Json>)
    ensures r.Some? <==> value.JObject? && key in value.fields
    ensures r.Some? ==> r.value == value.fields[key]
  {
    if value.JObject? && key in value.fields then Some(value.fields[key]) else None
  }

  /** JavaScript truthiness of a possibly undefined value. */
  predicate JsTruthy(v: Option<Json>) {
    v.Some? &&
    match v.value
    case JNull => false
    case JBool(b) => b
    case JNumber(n) => n != 0
    case JString(s) => s != ""
    case JArray(_) => true
    case JObject(_) => true
  }

  // ---------------------------------------------------------------------
  // Header composition

  const ApiBase: string := "/api"

  /** The `options` argument of `request`; absent members are None. */
  datatype RequestOptions = RequestOptions(httpMethod: Option<string>, headers: Option<map<string, string>>)

  /** The headers `fetch` finally receives. The defaults (JSON content type,
      the caller's headers, then the CSRF token for a non-GET method when a
      token is held) are built first, but spreading `options` afterwards
      replaces the whole headers object whenever the caller gave one. */
  function FinalHeaders(options: RequestOptions, csrfToken: Option<string>): (h: map<string, string>)
    ensures options.headers.Some? ==> h == options.headers.value
    ensures options.headers.None? ==> "Content-Type" in h && h["Content-Type"] == "application/json"
    ensures options.headers.None? ==>
              ("X-CSRFToken" in h <==> Truthy(options.httpMethod) && options.httpMethod.value != "GET" && Truthy(csrfToken))
    ensures options.headers.None? && "X-CSRFToken" in h ==> h["X-CSRFToken"] == csrfToken.value
    ensures options.headers.None? ==> h.Keys <= {"Content-Type", "X-CSRFToken"}
  {
    var callerHeaders := if options.headers.Some? then options.headers.value else map[];
    var defaults := map["Content-Type" := "application/json"] + callerHeaders;
    var withToken :=
      if Truthy(options.httpMethod) && options.httpMethod.value != "GET" && Truthy(csrfToken)
      then defaults["X-CSRFToken" := csrfToken.value]
      else defaults;
    if options.headers.Some? then options.headers.value else withToken
  }

  /** The options each helper passes to `request`. */
  function OptionsFor(helper: string): RequestOptions {
    if helper == "get" then RequestOptions(None, None)
    else if helper == "upload" then RequestOptions(Some("POST"), Some(map[]))
    else if helper == "post" then RequestOptions(Some("POST"), None)
    else if helper == "put" then RequestOptions(Some("PUT"), None)
    else if helper == "patch" then RequestOptions(Some("PATCH"), None)
    else RequestOptions(Some("DELETE"), None)
  }

  /** `upload` sends no headers at all: neither a content type nor the CSRF token. */
  lemma UploadSendsNoHeaders(csrfToken: Option<string>)
    ensures FinalHeaders(OptionsFor("upload"), csrfToken) == map[]
  {
  }

  /** Every state-changing helper but `upload` carries the token when one is
      held; `get` never does. */
  lemma CsrfByHelper(helper: string, csrfToken: Option<string>)
    ensures helper in {"post", "put", "patch", "delete"} && Truthy(csrfToken) ==>
              "X-CSRFToken" in FinalHeaders(OptionsFor(helper), csrfToken)
    ensures "X-CSRFToken" !in FinalHeaders(OptionsFor("get"), csrfToken)
  {
  }

  /** The client holding the CSRF token that `init` fetches. */
  class ApiClient {
    var csrfToken: Option<string>

    constructor ()
      ensures csrfToken == None
    {
      csrfToken := None;
    }

    /** `init`: the token is the `csrfToken` member of the decoded reply;
        a failed fetch or decode leaves the previous token. A member that is
        not a string is treated as no token. */
    method Init(reply: Option<Json>)
      modifies this
      ensures reply.None? ==> csrfToken == old(csrfToken)
      ensures reply.Some? && reply.value.JNull? ==> csrfToken == old(csrfToken)
      ensures reply.Some? && !reply.value.JNull? ==>
                csrfToken == (match Member(reply.value, "csrfToken")
                              case Some(JString(s)) => Some(s)
                              case _ => None)
    {
      if reply.Some? && !reply.value.JNull? {
        var token := Member(reply.value, "csrfToken");
        if token.Some? && token.value.JString? {
          csrfToken := Some(token.value.s);
        } else {
          csrfToken := None;
        }
      }
    }
  }

  // ---------------------------------------------------------------------
  // Settling the promise

  datatype Url = Url(path: string, query: seq<(string, string)>)

  /** What `fetch` is called with. */
  datatype FetchRequest = FetchRequest(url: Url, httpMethod: Option<string>, headers: map<string, string>, credentials: string)

  /** A response: its status and its body, None when the body is not JSON. */
  datatype Response = Response(status: int, body: Option<Json>)

  predicate IsOk(r: Response) { 200 <= r.status <= 299 }

  datatype Failure =
    | InvalidUrl                                    // TypeError from `new URL`
    | FetchFailed                                   // `fetch` rejected
    | BadJson                                       // an ok body that is not JSON
    | NullErrorBody                                 // `null.error` inside `new ApiError`
    | ApiErr(status: int, data: Json, message: Json)

  datatype Settled = Resolved(value: Json) | Rejected(failure: Failure)

  /** The message `ApiError` passes to `Error`: `data.error`, else
      `data.message`, else 'API Error'. None when reading a member of
      `null` throws instead. */
  function ErrorMessage(data: Json): (m: Option<Json>)
    ensures m.None? <==> data.JNull?
    ensures m.Some? && JsTruthy(Member(data, "error")) ==> m.value == data.fields["error"]
    ensures m.Some? && !JsTruthy(Member(data, "error")) && JsTruthy(Member(data, "message")) ==>
              m.value == data.fields["message"]
    ensures m.Some? && !JsTruthy(Member(data, "error")) && !JsTruthy(Member(data, "message")) ==>
              m.value == JString("API Error")
  {
    if data.JNull? then None
    else if JsTruthy(Member(data, "error")) then Member(data, "error")
    else if JsTruthy(Member(data, "message")) then Member(data, "message")
    else Some(JString("API Error"))
  }

  /** The payload used when an error body is not JSON. */
  const RequestFailed: Json := JObject(map["error" := JString("Request failed")])

  /** The body of `request` after `fetch`: a non-ok response rejects with an
      `ApiError` carrying its status; an ok one resolves to its JSON body. */
  function Settle(response: Option<Response>): (r: Settled)
    ensures response.None? ==> r == Rejected(FetchFailed)
    ensures response.Some? && IsOk(response.value) ==>
              r == (if response.value.body.Some? then Resolved(response.value.body.value) else Rejected(BadJson))
    ensures response.Some? && !IsOk(response.value) ==>
              r.Rejected? && (r.failure.ApiErr? || r.failure == NullErrorBody)
    ensures response.Some? && !IsOk(response.value) ==>
              (r == Rejected(NullErrorBody) <==> response.value.body == Some(JNull))
    ensures r.Rejected? && r.failure.ApiErr? ==>
              response.Some? && r.failure.status == response.value.status
              && r.failure.data == (if response.value.body.Some? then response.value.body.value else RequestFailed)
              && Some(r.failure.message) == ErrorMessage(r.failure.data)
  {
    if response.None? then Rejected(FetchFailed)
    else
      var resp := response.value;
      if !IsOk(resp) then
        var data := if resp.body.Some? then resp.body.value else RequestFailed;
        match ErrorMessage(data)
        case None => Rejected(NullErrorBody)
        case Some(m) => Rejected(ApiErr(resp.status, data, m))
      else if resp.body.Some? then Resolved(resp.body.value)
      else Rejected(BadJson)
  }

  /** A non-ok reply whose body is not JSON reports 'Request failed'. */
  lemma UnreadableErrorBody(status: int)
    requires !(200 <= status <= 299)
    ensures Settle(Some(Response(status, None))) == Rejected(ApiErr(status, RequestFailed, JString("Request failed")))
  {
    assert Member(RequestFailed, "error") == Some(JString("Request failed"));
  }

  /** The request `request` hands to `fetch`: the session cookie always
      goes along, and the CSRF token never rides on a GET built from the
      default headers. */
  function Outgoing(url: Url, options: RequestOptions, csrfToken: Option<string>): (req: FetchRequest)
    ensures req.url == url && req.httpMethod == options.httpMethod && req.credentials == "include"
    ensures options.headers.None? && (options.httpMethod.None? || options.httpMethod == Some("GET")) ==>
              "X-CSRFToken" !in req.headers
    ensures options.headers.None? && Truthy(options.httpMethod) && options.httpMethod.value != "GET" && Truthy(csrfToken) ==>
              "X-CSRFToken" in req.headers && req.headers["X-CSRFToken"] == csrfToken.value
  {
    FetchRequest(url, options.httpMethod, FinalHeaders(options, csrfToken), "include")
  }

  /** `request(url, options)` against the network `network`: it resolves
      exactly with the JSON body of an ok reply, and a rejection keeps the
      status of the reply that caused it. */
  function Request(url: Url, options: RequestOptions, csrfToken: Option<string>,
                   network: FetchRequest -> Option<Response>): (r: Settled)
    ensures var resp := network(Outgoing(url, options, csrfToken));
      && (r.Resolved? <==> resp.Some? && IsOk(resp.value) && resp.value.body.Some?)
      && (r.Resolved? ==> r.value == resp.value.body.value)
      && (r == Rejected(FetchFailed) <==> resp.None?)
      && (resp.Some? && !IsOk(resp.value) ==> r.Rejected? && (r.failure.ApiErr? || r.failure == NullErrorBody))
      && (resp.Some? && !IsOk(resp.value) ==> (r == Rejected(NullErrorBody) <==> resp.value.body == Some(JNull)))
      && (r.Rejected? && r.failure.ApiErr? ==> resp.Some? && !IsOk(resp.value) && r.failure.status == resp.value.status)
  {
    Settle(network(Outgoing(url, options, csrfToken)))
  }

  // ---------------------------------------------------------------------
  // get: URL construction and parameters

  /** A parameter value; `append` converts the others to text. */
  datatype ParamValue = Null | Undefined | Text(text: string)

  /** The pairs `get` appends, in key order. */
  function Appended(params: seq<(string, ParamValue)>): seq<(string, string)>
    decreases |params|
  {
    if |params| == 0 then []
    else
      var last := params[|params| - 1];
      Appended(params[..|params| - 1]) + (if last.1.Text? then [(last.0, last.1.text)] else [])
  }

  /** Exactly the parameters that are neither null nor undefined are appended. */
  lemma {:induction false} AppendedKeepsValues(params: seq<(string, ParamValue)>)
    ensures forall k, v :: (k, v) in Appended(params) <==> (k, Text(v)) in params
    ensures |Appended(params)| <= |params|
    decreases |params|
  {
    if |params| > 0 {
      var init := params[..|params| - 1];
      AppendedKeepsValues(init);
      assert params == init + [params[|params| - 1]];
      forall k, v ensures (k, Text(v)) in params <==> (k, Text(v)) in init || params[|params| - 1] == (k, Text(v)) {
      }
    }
  }

  /** The `forEach` over the parameter keys. */
  method AppendParams(url: Url, params: seq<(string, ParamValue)>) returns (r: Url)
    ensures r == url.(query := url.query + Appended(params))
  {
    r := url;
    var i := 0;
    while i < |params|
      invariant 0 <= i <= |params|
      invariant r == url.(query := url.query + Appended(params[..i]))
    {
      assert params[..i + 1][..i] == params[..i];
      if params[i].1.Text? {
        r := r.(query := r.query + [(params[i].0, params[i].1.text)]);
      }
      i := i + 1;
    }
    assert params[..i] == params;
  }

  predicate IsAsciiAlpha(c: char) { 'a' <= c <= 'z' || 'A' <= c <= 'Z' }

  predicate IsSchemeChar(c: char) {
    IsAsciiAlpha(c) || '0' <= c <= '9' || c == '+' || c == '-' || c == '.'
  }

  /** The rest of a scheme: scheme characters up to a colon. */
  predicate SchemeTail(s: string)
    decreases |s|
  {
    |s| > 0 && (s[0] == ':' || (IsSchemeChar(s[0]) && SchemeTail(s[1..])))
  }

  /** Whether the URL parser accepts `s` without a base: it must be absolute,
      opening with a scheme (a letter, scheme characters, then a colon). */
  predicate IsAbsoluteUrl(s: string) {
    |s| > 0 && IsAsciiAlpha(s[0]) && SchemeTail(s[1..])
  }

  /** `new URL(s)` with no base, modelled only as far as success or failure:
      the test is whether `s` opens with a scheme, not the whole URL
      standard's parse (hosts, ports and paths are not checked). */
  function ParseUrl(s: string): (r: Result<Url, Failure>)
    ensures r.Ok? <==> IsAbsoluteUrl(s)
    ensures r.Ok? ==> r.value == Url(s, [])
    ensures r.Err? ==> r.error == InvalidUrl
  {
    if IsAbsoluteUrl(s) then Ok(Url(s, [])) else Err(InvalidUrl)
  }

  /** `get(endpoint, params)` as written: the URL is parsed with no base. */
  function GetAsWritten(endpoint: string, params: seq<(string, ParamValue)>, csrfToken: Option<string>,
                        network: FetchRequest -> Option<Response>): Settled
  {
    match ParseUrl(ApiBase + endpoint)
    case Err(e) => Rejected(e)
    case Ok(url) => Request(url.(query := url.query + Appended(params)), OptionsFor("get"), csrfToken, network)
  }

  /** Every path `get` builds starts with '/', so the parse always fails and
      the promise rejects before any request is made. */
  lemma GetAlwaysRejects(endpoint: string, params: seq<(string, ParamValue)>, csrfToken: Option<string>,
                         network: FetchRequest -> Option<Response>)
    ensures GetAsWritten(endpoint, params, csrfToken, network) == Rejected(InvalidUrl)
  {
    assert (ApiBase + endpoint)[0] == '/';
  }

  /** `get` with the path resolved against the page's origin
      (`new URL(path, window.location.origin)`). */
  function Get(origin: string, endpoint: string, params: seq<(string, ParamValue)>, csrfToken: Option<string>,
               network: FetchRequest -> Option<Response>): (r: Settled)
    ensures r == Settle(network(FetchRequest(Url(origin + ApiBase + endpoint, Appended(params)), None,
                                             map["Content-Type" := "application/json"], "include")))
  {
    var url := Url(origin + ApiBase + endpoint, Appended(params));
    var headers := FinalHeaders(OptionsFor("get"), csrfToken);
    assert headers == map["Content-Type" := "application/json"];
    Request(url, OptionsFor("get"), csrfToken, network)
  }

  // ---------------------------------------------------------------------
  // authAPI.checkAuth

  datatype AuthStatus = AuthStatus(isAuthenticated: bool, user: Option<Json>)

  /** `checkAuth`: a resolved reply means authenticated with its `user`
      member; any rejection, or a `null` reply whose member access throws
      inside the `try`, means not authenticated. It never rejects. */
  function CheckAuth(reply: Settled): (r: AuthStatus)
    ensures r.isAuthenticated <==> reply.Resolved? && !reply.value.JNull?
    ensures r.isAuthenticated ==> r.user == Member(reply.value, "user")
    ensures !r.isAuthenticated ==> r.user == Some(JNull)
  {
    if reply.Resolved? && !reply.value.JNull? then AuthStatus(true, Member(reply.value, "user"))
    else AuthStatus(false, Some(JNull))
  }

  /** Because `get` always rejects, `checkAuth` as written reports every
      visitor as signed out. */
  lemma CheckAuthAsWrittenSignedOut(csrfToken: Option<string>, network: FetchRequest -> Option<Response>)
    ensures !CheckAuth(GetAsWritten("/auth/user/", [], csrfToken, network)).isAuthenticated
  {
    GetAlwaysRejects("/auth/user/", [], csrfToken, network);
  }

  /** With the URL resolved against the origin, a signed-in session's user
      reply is reported as authenticated. */
  lemma CheckAuthFixed(origin: string, csrfToken: Option<string>, network: FetchRequest -> Option<Response>, user: Json)
    requires network(FetchRequest(Url(origin + ApiBase + "/auth/user/", []), None,
                                  map["Content-Type" := "application/json"], "include"))
             == Some(Response(200, Some(JObject(map["user" := user]))))
    ensures CheckAuth(Get(origin, "/auth/user/", [], csrfToken, network)) == AuthStatus(true, Some(user))
  {
  }

  // ---------------------------------------------------------------------
  // RealtimeConnection

  const MaxReconnectAttempts: nat := 5
  const ReconnectIntervalMs: nat := 5000

  /** The socket held in `ws`: still connecting, or open. */
  datatype Socket = Connecting(url: string) | Open(url: string)

  /** A listener callback, by identity. */
  type Callback = nat

  /** `${protocol}//${host}/ws/todos/${userId}/`, secure iff the page is. */
  function SocketUrl(pageProtocol: string, host: string, userId: string): (u: string)
    ensures pageProtocol == "https:" ==> |u| > 6 && u[..6] == "wss://"
    ensures pageProtocol != "https:" ==> |u| > 5 && u[..5] == "ws://"
  {
    (if pageProtocol == "https:" then "wss:" else "ws:") + "//" + host + "/ws/todos/" + userId + "/"
  }

  class RealtimeConnection {
    var ws: Option<Socket>
    var reconnectAttempts: nat
    var listeners: map<string, seq<Callback>>

    /** The bounded reconnect counter. */
    predicate Valid()
      reads this
    {
      reconnectAttempts <= MaxReconnectAttempts
    }

    constructor ()
      ensures ws == None && reconnectAttempts == 0 && listeners == map[]
      ensures Valid()
    {
      ws := None;
      reconnectAttempts := 0;
      listeners := map[];
    }

    /** `connect`: does nothing while a socket is held; otherwise opens one. */
    method Connect(pageProtocol: string, host: string, userId: string)
      modifies this
      requires Valid()
      ensures Valid()
      ensures old(ws).Some? ==> ws == old(ws)
      ensures old(ws).None? ==> ws == Some(Connecting(SocketUrl(pageProtocol, host, userId)))
      ensures reconnectAttempts == old(reconnectAttempts) && listeners == old(listeners)
    {
      if ws.None? {
        ws := Some(Connecting(SocketUrl(pageProtocol, host, userId)));
      }
    }

    /** The `onopen` handler: a successful open resets the counter. */
    method OnOpen()
      modifies this
      ensures Valid()
      ensures reconnectAttempts == 0
      ensures ws == (if old(ws).Some? then Some(Open(old(ws).value.url)) else None)
      ensures listeners == old(listeners)
    {
      reconnectAttempts := 0;
      if ws.Some? {
        ws := Some(Open(ws.value.url));
      }
    }

    /** `attemptReconnect`: at the limit nothing is scheduled; below it the
        counter goes up by one and a `connect` is scheduled. */
    method AttemptReconnect() returns (scheduled: bool)
      modifies this
      requires Valid()
      ensures Valid()
      ensures scheduled <==> old(reconnectAttempts) < MaxReconnectAttempts
      ensures reconnectAttempts == if scheduled then old(reconnectAttempts) + 1 else old(reconnectAttempts)
      ensures ws == old(ws) && listeners == old(listeners)
    {
      if reconnectAttempts >= MaxReconnectAttempts {
        return false;
      }
      reconnectAttempts := reconnectAttempts + 1;
      scheduled := true;
    }

    /** The `onclose` handler: drop the socket, then try to reconnect. */
    method OnClose() returns (scheduled: bool)
      modifies this
      requires Valid()
      ensures Valid()
      ensures ws == None
      ensures scheduled <==> old(reconnectAttempts) < MaxReconnectAttempts
      ensures reconnectAttempts == if scheduled then old(reconnectAttempts) + 1 else old(reconnectAttempts)
      ensures listeners == old(listeners)
    {
      ws := None;
      scheduled := AttemptReconnect();
    }

    /** `disconnect`: close and drop the socket if one is held. The close
        event it causes later runs `OnClose` like any other. */
    method Disconnect()
      modifies this
      ensures ws == None
      ensures reconnectAttempts == old(reconnectAttempts) && listeners == old(listeners)
    {
      if ws.Some? {
        ws := None;
      }
    }

    /** `send`: only an open socket sends. */
    method Send() returns (sent: bool)
      ensures sent <==> ws.Some? && ws.value.Open?
    {
      sent := ws.Some? && ws.value.Open?;
    }

    /** `on`: append the callback to the event's list, creating it if needed. */
    method On(event: string, callback: Callback)
      modifies this
      ensures listeners == old(listeners)[event := (if event in old(listeners) then old(listeners)[event] else []) + [callback]]
      ensures ws == old(ws) && reconnectAttempts == old(reconnectAttempts)
    {
      if event !in listeners {
        listeners := listeners[event := []];
      }
      listeners := listeners[event := listeners[event] + [callback]];
    }

    /** `off`: remove every occurrence of the callback, keeping the others in order. */
    method Off(event: string, callback: Callback)
      modifies this
      ensures event !in old(listeners) ==> listeners == old(listeners)
      ensures event in old(listeners) ==>
                listeners == old(listeners)[event := Filter(old(listeners)[event], cb => cb != callback)]
      ensures ws == old(ws) && reconnectAttempts == old(reconnectAttempts)
    {
      if event !in listeners {
        return;
      }
      listeners := listeners[event := Filter(listeners[event], cb => cb != callback)];
    }

    /** `emit`: the callbacks called, in order; none for an unknown event. */
    method Emit(event: string) returns (called: seq<Callback>)
      ensures event !in listeners ==> called == []
      ensures event in listeners ==> called == listeners[event]
    {
      called := [];
      if event !in listeners {
        return;
      }
      var list := listeners[event];
      var i := 0;
      while i < |list|
        invariant 0 <= i <= |list|
        invariant called == list[..i]
      {
        called := called + [list[i]];
        i := i + 1;
      }
    }
  }

  /** After `off`, the callback is gone from the event's list and every
      other callback keeps its place relative to the rest. */
  lemma OffRemovesEveryOccurrence(list: seq<Callback>, callback: Callback, other: seq<Callback>)
    ensures callback !in Filter(list, cb => cb != callback)
    ensures Filter(list + other, cb => cb != callback)
         == Filter(list, cb => cb != callback) + Filter(other, cb => cb != callback)
  {
    FilterAppend(list, other, cb => cb != callback);
  }

  /** A run of closes without an open schedules at most five reconnects:
      each close either raises the counter or schedules nothing. */
  lemma {:induction false} ReconnectsAreBounded(start: nat, closes: nat)
    requires start <= MaxReconnectAttempts
    ensures ScheduledReconnects(start, closes) <= MaxReconnectAttempts - start
    decreases closes
  {
    if closes > 0 {
      if start < MaxReconnectAttempts {
        ReconnectsAreBounded(start + 1, closes - 1);
      } else {
        ReconnectsAreBounded(start, closes - 1);
      }
    }
  }

  /** How many reconnects `closes` consecutive closes schedule from a counter of `start`. */
  function ScheduledReconnects(start: nat, closes: nat): nat
    decreases closes
  {
    if closes == 0 then 0
    else if start >= MaxReconnectAttempts then ScheduledReconnects(start, closes - 1)
    else 1 + ScheduledReconnects(start + 1, closes - 1)
  }
}
