/** The admin data-access helpers of app/private/lib/api.ts: the bearer header
    read from the cookie string, the response classification and envelope
    unwrapping, the query strings, and the never-throw fallback of every
    exported call. The network is an input: a call is turned into a Request,
    and what `fetch` produced for it (an exception or a response) comes back
    as an Outcome. */
module AdminApi {
  import opened Js

  const DefaultApiUrl: string := "http://localhost:3001/api/v1"

  /** `process.env.API_URL || DefaultApiUrl` */
  function ApiUrl(env: Option<string>): string {
    if env.Some? && env.value != "" then env.value else DefaultApiUrl
  }

  /** What the helpers read from their surroundings: the API_URL variable,
      whether `document` exists, and `document.cookie`. */
  datatype Client = Client(apiUrlEnv: Option<string>, inBrowser: bool, cookie: string)

  // ---------------------------------------------------------------------
  // Bearer token from the cookie string

  const TokenKey: string := "wheelx_token="

  /** The pattern `(^| )wheelx_token=([^;]+)` matches with its key starting at
      position k: k is the start of the string or follows a space, and at
      least one character other than ';' follows the key. The leftmost match
      of the pattern is the one with the smallest such k, because a match
      that starts at p has its key at p (the `^` branch) or at p + 1. */
  predicate KeyMatchesAt(cookie: string, k: nat) {
    && k + |TokenKey| < |cookie|
    && (k == 0 || cookie[k - 1] == ' ')
    && cookie[k..k + |TokenKey|] == TokenKey
    && cookie[k + |TokenKey|] != ';'
  }

  /** The greedy `[^;]+` run: the longest prefix free of ';'. */
  function TakeUntilSemicolon(s: string): (r: string)
    ensures StartsWith(s, r)
    ensures ';' !in r
    ensures |r| == |s| || s[|r|] == ';'
  {
    if s == [] || s[0] == ';' then []
    else
      var rest := TakeUntilSemicolon(s[1..]);
      assert s == [s[0]] + s[1..];
      [s[0]] + rest
  }

  /** The leftmost key position at or after `from`. */
  function FirstKeyMatch(cookie: string, from: nat): (r: Option<nat>)
    requires from <= |cookie|
    ensures r.Some? ==> from <= r.value < |cookie| && KeyMatchesAt(cookie, r.value)
    ensures forall k :: from <= k < |cookie| && KeyMatchesAt(cookie, k) ==> r.Some? && r.value <= k
    decreases |cookie| - from
  {
    if from == |cookie| then None
    else if KeyMatchesAt(cookie, from) then Some(from)
    else FirstKeyMatch(cookie, from + 1)
  }

  /** `match ? match[2] : null` */
  function CookieToken(cookie: string): (t: Option<string>)
    ensures t.Some? ==> t.value != "" && ';' !in t.value
    ensures t.Some? <==> exists k :: 0 <= k < |cookie| && KeyMatchesAt(cookie, k)
  {
    match FirstKeyMatch(cookie, 0)
    case None => None
    case Some(k) =>
      var s := cookie[k + |TokenKey|..];
      assert s[0] != ';';
      Some(TakeUntilSemicolon(s))
  }

  /** A key placed after a prefix with no match of its own, followed by a
      value without ';' and then the end or a ';', yields that value. */
  lemma TokenAfter(prefix: string, v: string, rest: string)
    requires prefix == "" || prefix[|prefix| - 1] == ' '
    requires forall k :: 0 <= k < |prefix| ==> !KeyMatchesAt(prefix + TokenKey + v + rest, k)
    requires v != "" && ';' !in v
    requires rest == "" || rest[0] == ';'
    ensures CookieToken(prefix + TokenKey + v + rest) == Some(v)
  {
    var cookie, tail := prefix + TokenKey + v + rest, v + rest;
    var k := |prefix|;
    assert cookie == prefix + TokenKey + tail;
    PiecesOf(prefix, TokenKey, tail);
    assert tail[0] == v[0];
    FirstKeyAt(cookie, k);
    TakeUntilSemicolonOf(v, rest);
  }

  /** Where the middle and last pieces of a concatenation sit. */
  lemma PiecesOf(x: string, y: string, z: string)
    ensures (x + y + z)[|x|..|x| + |y|] == y
    ensures (x + y + z)[|x| + |y|..] == z
  {
  }

  /** The first key position decides the token. */
  lemma FirstKeyAt(cookie: string, k: nat)
    requires k < |cookie| && KeyMatchesAt(cookie, k)
    requires forall j :: 0 <= j < k ==> !KeyMatchesAt(cookie, j)
    ensures CookieToken(cookie) == Some(TakeUntilSemicolon(cookie[k + |TokenKey|..]))
  {
    var r := FirstKeyMatch(cookie, 0);
    assert r.Some? && r.value <= k;
    assert r.value == k;
  }

  lemma {:induction false} TakeUntilSemicolonOf(v: string, rest: string)
    requires ';' !in v
    requires rest == "" || rest[0] == ';'
    ensures TakeUntilSemicolon(v + rest) == v
    decreases |v|
  {
    if v != [] {
      assert v[0] in v;
      assert (v + rest)[1..] == v[1..] + rest;
      assert forall x :: x in v[1..] ==> x in v;
      TakeUntilSemicolonOf(v[1..], rest);
      assert [v[0]] + v[1..] == v;
    } else {
      assert v + rest == rest;
    }
  }

  /** No key anywhere when the cookie has no space and does not begin with the key. */
  lemma NoTokenWithoutKey(cookie: string)
    requires ' ' !in cookie
    requires !StartsWith(cookie, TokenKey)
    ensures CookieToken(cookie) == None
  {
    forall k | 0 <= k < |cookie|
      ensures !KeyMatchesAt(cookie, k)
    {
      if k > 0 {
        assert cookie[k - 1] in cookie;
      }
    }
  }

  /** No key starts inside a leading word that has no space and does not
      begin like the key, nor right after it. */
  lemma NoKeyInWord(w: string, rest: string)
    requires w != "" && w[0] != TokenKey[0] && ' ' !in w
    ensures forall k :: 0 <= k <= |w| ==> !KeyMatchesAt(w + rest, k)
  {
    var c := w + rest;
    forall k | 0 <= k <= |w|
      ensures !KeyMatchesAt(c, k)
    {
      if k == 0 {
        if |TokenKey| <= |c| {
          assert c[0..|TokenKey|][0] == w[0];
        }
      } else {
        assert c[k - 1] == w[k - 1] && w[k - 1] in w;
      }
    }
  }

  /** A token after another cookie (a first word without spaces, then a
      space), read up to the next ';' or the end. */
  lemma TokenAfterWord(w: string, v: string, rest: string)
    requires w != "" && w[0] != TokenKey[0] && ' ' !in w
    requires v != "" && ';' !in v
    requires rest == "" || rest[0] == ';'
    ensures CookieToken(w + " " + TokenKey + v + rest) == Some(v)
  {
    var c := w + " " + TokenKey + v + rest;
    assert c == w + (" " + TokenKey + v + rest);
    NoKeyInWord(w, " " + TokenKey + v + rest);
    TokenAfter(w + " ", v, rest);
  }

  /** An empty value does not match, and the scan goes on to the next key. */
  lemma EmptyTokenSkipped()
    ensures CookieToken("wheelx_token=; wheelx_token=abc") == Some("abc")
  {
    var c := "wheelx_token=; " + TokenKey + "abc" + "";
    assert c == "wheelx_token=; wheelx_token=abc";
    forall k | 0 <= k < 15
      ensures !KeyMatchesAt(c, k)
    {
      if k == 0 {
        assert c[13] == ';';
      } else {
        assert c[k - 1] != ' ';
      }
    }
    TokenAfter("wheelx_token=; ", "abc", "");
  }

  /** Neither the public site's admin cookie nor a longer name ending in the key counts. */
  lemma OtherCookiesIgnored()
    ensures CookieToken("wheelx_admin_token=active") == None
    ensures CookieToken("my_wheelx_token=zzz") == None
  {
    var a, m := "wheelx_admin_token=active", "my_wheelx_token=zzz";
    assert a[7] != TokenKey[7];
    NoTokenWithoutKey(a);
    assert m[0] != TokenKey[0];
    NoTokenWithoutKey(m);
  }

  /** getAuthHeaders: one Authorization header carrying the cookie token, or
      no header at all outside a browser, without a token, or when the token
      is the text "undefined" or "null". */
  function AuthHeaders(client: Client): (h: map<string, string>)
    ensures !client.inBrowser ==> h == map[]
    ensures h.Keys <= {"Authorization"}
    ensures "Authorization" in h <==>
      && client.inBrowser
      && CookieToken(client.cookie).Some?
      && CookieToken(client.cookie).value != "undefined"
      && CookieToken(client.cookie).value != "null"
    ensures "Authorization" in h ==>
      exists t :: CookieToken(client.cookie) == Some(t) && t != "" && h["Authorization"] == "Bearer " + t
  {
    if !client.inBrowser then map[]
    else
      match CookieToken(client.cookie)
      case None => map[]
      case Some(token) =>
        if token == "undefined" || token == "null" then map[]
        else map["Authorization" := "Bearer " + token]
  }

  /** In a browser, a real token becomes exactly one bearer header. */
  lemma AuthHeaderOfToken(client: Client, t: string)
    requires client.inBrowser && CookieToken(client.cookie) == Some(t)
    requires t != "undefined" && t != "null"
    ensures AuthHeaders(client) == map["Authorization" := "Bearer " + t]
  {
  }

  /** No header for the placeholder text "undefined". */
  lemma NoHeaderForPlaceholder(api: Option<string>)
    ensures AuthHeaders(Client(api, true, "wheelx_token=undefined")) == map[]
  {
    var c := "wheelx_token=undefined";
    assert CookieToken(c) == Some("undefined") by {
      assert c == "" + TokenKey + "undefined" + "";
      TokenAfter("", "undefined", "");
    }
  }

  // ---------------------------------------------------------------------
  // Response classification and unwrapping

  /** What `fetch` produced: an exception, or a response whose body parses
      as JSON (Some) or does not (None). */
  datatype Outcome = Threw | Resp(status: int, statusText: string, body: Option<Json>)

  /** The errors handleResponse throws: `Error('Unauthorized')`,
      `Error('API Error: ' + statusText)`, the SyntaxError of `res.json()` and
      the TypeError of reading `data` from a null body. */
  datatype ApiFailure = Unauthorized | ApiError(statusText: string) | MalformedBody | NullPayload

  /** `res.ok` */
  predicate IsOk(status: int) {
    200 <= status <= 299
  }

  /** `json.data && json.data.data ? json.data : json.data ? json.data : json` */
  function Unwrap(json: Json): Result<Json, ApiFailure> {
    if json == JNull then Failure(NullPayload)
    else
      var data := Get(json, "data");
      if Truthy(data) && Truthy(Get(data.value, "data")) then Success(data.value)
      else if Truthy(data) then Success(data.value)
      else Success(json)
  }

  function HandleResponse(status: int, statusText: string, body: Option<Json>): Result<Json, ApiFailure> {
    if status == 401 then Failure(Unauthorized)
    else if !IsOk(status) then Failure(ApiError(statusText))
    else
      match body
      case None => Failure(MalformedBody)
      case Some(json) => Unwrap(json)
  }

  /** The nested `json.data.data` test never matters: the payload is
      `json.data` when that is truthy and the whole body otherwise. */
  lemma UnwrapByTruthiness(json: Json)
    ensures Unwrap(json).Failure? <==> json == JNull
    ensures json != JNull ==>
      Unwrap(json) == Success(if Truthy(Get(json, "data")) then Get(json, "data").value else json)
  {
  }

  lemma UnauthorizedComesFirst(statusText: string, body: Option<Json>)
    ensures HandleResponse(401, statusText, body) == Failure(Unauthorized)
  {
  }

  /** The three envelope shapes the server sends: a bare array, `{data: [...]}`
      and `{data: {data: [...], meta}}`. */
  lemma Envelopes(xs: seq<Json>, meta: Json, status: int, text: string)
    requires IsOk(status)
    ensures HandleResponse(status, text, Some(JArr(xs))) == Success(JArr(xs))
    ensures HandleResponse(status, text, Some(JObj(map["data" := JArr(xs)]))) == Success(JArr(xs))
    ensures var inner := JObj(map["data" := JArr(xs), "meta" := meta]);
      HandleResponse(status, text, Some(JObj(map["data" := inner]))) == Success(inner)
  {
  }

  /** A falsy `data` field (0, "", false, null) is passed over and the whole
      body comes back, so a present-but-falsy payload is not distinguished
      from an absent one. */
  lemma FalsyDataReturnsBody(json: Json)
    requires json.JObj? && "data" in json.fields
    requires json.fields["data"] in {JNum(0), JStr(""), JBool(false), JNull}
    ensures Unwrap(json) == Success(json)
  {
  }

  // ---------------------------------------------------------------------
  // Query strings

  /** A `name=value` piece of a query string, before percent-encoding. */
  function Param(name: string, value: string): string {
    name + "=" + value
  }

  /** The pieces a list of name/value pairs writes, in order. */
  function Params(ps: seq<(string, string)>): seq<string> {
    seq(|ps|, i requires 0 <= i < |ps| => Param(ps[i].0, ps[i].1))
  }

  /** The pairs of the template `page=${page}&limit=${limit}`, with
      `&search=...` added only for a non-empty search; `enc` is
      encodeURIComponent. */
  function ListPairs(page: int, limit: int, search: string, enc: string -> string): seq<(string, string)> {
    [("page", IntToString(page)), ("limit", IntToString(limit))]
    + (if search != "" then [("search", enc(search))] else [])
  }

  /** The list template written out: its pieces joined by '&'. */
  function ListQuery(page: int, limit: int, search: string, enc: string -> string): string {
    Join(Params(ListPairs(page, limit, search, enc)), "&")
  }

  /** The query fetchGarages and fetchReports write, which has no search. */
  function PageQuery(page: int, limit: int): string {
    Join(Params([("page", IntToString(page)), ("limit", IntToString(limit))]), "&")
  }

  /** Reads a query string back as name/value pairs, before percent-decoding:
      pieces between '&', each split at its first '='. */
  function ParseQuery(q: string): seq<(string, string)> {
    var pieces := Split(q, '&');
    seq(|pieces|, i requires 0 <= i < |pieces| => NameValue(pieces[i]))
  }

  function NameValue(piece: string): (string, string) {
    var parts := Split(piece, '=');
    (parts[0], Join(parts[1..], "="))
  }

  lemma NameValueOf(name: string, value: string)
    requires '=' !in name && '=' !in value
    ensures NameValue(name + "=" + value) == (name, value)
  {
    SplitAfterPiece(name, '=', value);
    SplitWithout(value, '=');
    assert name + "=" + value == name + ['='] + value;
  }

  lemma DecimalHasNoDelimiters(n: int)
    ensures '&' !in IntToString(n) && '=' !in IntToString(n)
  {
  }

  /** Parsing what Join put together reads each piece on its own. */
  lemma ParseJoined(pieces: seq<string>)
    requires |pieces| >= 1
    requires forall i :: 0 <= i < |pieces| ==> '&' !in pieces[i]
    ensures |ParseQuery(Join(pieces, "&"))| == |pieces|
    ensures forall i :: 0 <= i < |pieces| ==> ParseQuery(Join(pieces, "&"))[i] == NameValue(pieces[i])
  {
    SplitJoin(pieces, '&');
  }

  predicate NoDelimiters(s: string) {
    '&' !in s && '=' !in s
  }

  /** Pairs whose names and values have no delimiters are read back as written. */
  lemma ParseParams(ps: seq<(string, string)>)
    requires |ps| >= 1
    requires forall i :: 0 <= i < |ps| ==> NoDelimiters(ps[i].0) && NoDelimiters(ps[i].1)
    ensures ParseQuery(Join(Params(ps), "&")) == ps
  {
    var pieces := Params(ps);
    forall i | 0 <= i < |pieces|
      ensures '&' !in pieces[i] && NameValue(pieces[i]) == ps[i]
    {
      NameValueOf(ps[i].0, ps[i].1);
    }
    ParseJoined(pieces);
  }

  /** The query carries page and limit, then search exactly when the search
      text is non-empty. encodeURIComponent escapes '&' and '=', which is all
      that is asked of `enc`. */
  lemma ListQueryPairs(page: int, limit: int, search: string, enc: string -> string)
    requires search != "" ==> NoDelimiters(enc(search))
    ensures ParseQuery(ListQuery(page, limit, search, enc)) ==
      [("page", IntToString(page)), ("limit", IntToString(limit))]
      + (if search != "" then [("search", enc(search))] else [])
  {
    DecimalHasNoDelimiters(page);
    DecimalHasNoDelimiters(limit);
    assert NoDelimiters("page") && NoDelimiters("limit") && NoDelimiters("search");
    ParseParams(ListPairs(page, limit, search, enc));
  }

  /** fetchGarages and fetchReports send page and limit only. */
  lemma PageQueryPairs(page: int, limit: int)
    ensures ParseQuery(PageQuery(page, limit)) == [("page", IntToString(page)), ("limit", IntToString(limit))]
  {
    DecimalHasNoDelimiters(page);
    DecimalHasNoDelimiters(limit);
    assert NoDelimiters("page") && NoDelimiters("limit");
    ParseParams([("page", IntToString(page)), ("limit", IntToString(limit))]);
  }

  // ---------------------------------------------------------------------
  // The exported calls

  datatype HttpMethod = HttpGet | HttpPost | HttpPatch

  /** What is handed to `fetch`; a body is the value before JSON.stringify. */
  datatype Request = Request(verb: HttpMethod, url: string, headers: map<string, string>, body: Option<Json>)

  /** One constructor per exported function of api.ts, with its arguments. */
  datatype Call =
    | FetchRides(page: int, limit: int, search: string)
    | FetchGarages(page: int, limit: int)
    | FetchUsers(page: int, limit: int, search: string)
    | FetchGroups(page: int, limit: int, search: string)
    | FetchPosts(page: int, limit: int, search: string)
    | FetchEvents(page: int, limit: int, search: string)
    | FetchReports(page: int, limit: int)
    | FetchDashboardStats
    | FetchActiveRides
    | StopActiveRide(id: string)
    | SendBroadcastNotification(title: string, message: string)
    | BanUser(id: string)
    | UnbanUser(id: string)
    | DeleteGarage(id: string)
    | UpdateGarage(id: string, data: Json)
  {
    predicate IsList() {
      FetchRides? || FetchGarages? || FetchUsers? || FetchGroups? || FetchPosts? || FetchEvents? || FetchReports?
    }

    predicate IsAction() {
      StopActiveRide? || SendBroadcastNotification? || BanUser? || UnbanUser? || DeleteGarage? || UpdateGarage?
    }
  }

  /** The path and query each function appends to API_URL. */
  function Path(call: Call, enc: string -> string): string {
    match call
    case FetchRides(p, l, s) => "/rides/all?" + ListQuery(p, l, s, enc)
    case FetchGarages(p, l) => "/garages?" + PageQuery(p, l)
    case FetchUsers(p, l, s) => "/users?" + ListQuery(p, l, s, enc)
    case FetchGroups(p, l, s) => "/groups?" + ListQuery(p, l, s, enc)
    case FetchPosts(p, l, s) => "/posts?" + ListQuery(p, l, s, enc)
    case FetchEvents(p, l, s) => "/events?" + ListQuery(p, l, s, enc)
    case FetchReports(p, l) => "/reports?" + PageQuery(p, l)
    case FetchDashboardStats => "/admin/stats"
    case FetchActiveRides => "/active-rides/all/active"
    case StopActiveRide(id) => "/active-rides/" + id + "/stop"
    case SendBroadcastNotification(_, _) => "/notifications/broadcast"
    case BanUser(id) => "/users/" + id + "/ban"
    case UnbanUser(id) => "/users/" + id + "/unban"
    case DeleteGarage(id) => "/garages/" + id + "/delete"
    case UpdateGarage(id, _) => "/garages/" + id
  }

  /** The `method` option; fetch defaults to GET. */
  function Verb(call: Call): HttpMethod {
    match call
    case StopActiveRide(_) => HttpPost
    case SendBroadcastNotification(_, _) => HttpPost
    case BanUser(_) => HttpPatch
    case UnbanUser(_) => HttpPatch
    case DeleteGarage(_) => HttpPost
    case UpdateGarage(_, _) => HttpPost
    case _ => HttpGet
  }

  /** The value JSON.stringify sends, for the two calls that have a body. */
  function Body(call: Call): Option<Json> {
    match call
    case SendBroadcastNotification(title, message) =>
      Some(JObj(map["title" := JStr(title), "message" := JStr(message)]))
    case UpdateGarage(_, data) => Some(data)
    case _ => None
  }

  /** What each exported function hands to fetch: the calls with a body
      send `{'Content-Type': 'application/json', ...getAuthHeaders()}`, the
      others `{...getAuthHeaders()}`. */
  function RequestOf(client: Client, call: Call, enc: string -> string): Request {
    var auth := AuthHeaders(client);
    var headers := if Body(call).Some? then map["Content-Type" := "application/json"] + auth else auth;
    Request(Verb(call), ApiUrl(client.apiUrlEnv) + Path(call, enc), headers, Body(call))
  }

  /** Only the read calls use GET, and only ban and unban use PATCH. */
  lemma VerbKinds(call: Call)
    ensures Verb(call) == HttpGet <==> call.IsList() || call.FetchDashboardStats? || call.FetchActiveRides?
    ensures Verb(call) == HttpPatch <==> call.BanUser? || call.UnbanUser?
  {
  }

  /** Only the broadcast and the garage update carry a JSON body. */
  lemma BodyKinds(call: Call)
    ensures Body(call).Some? <==> call.SendBroadcastNotification? || call.UpdateGarage?
  {
  }

  /** Every request goes to the configured base URL and carries the bearer
      header whenever there is one; only the two calls with a JSON body add
      a Content-Type, and only the read calls use GET. */
  lemma RequestShape(client: Client, call: Call, enc: string -> string)
    ensures StartsWith(RequestOf(client, call, enc).url, ApiUrl(client.apiUrlEnv))
    ensures RequestOf(client, call, enc).verb == HttpGet <==>
      call.IsList() || call.FetchDashboardStats? || call.FetchActiveRides?
    ensures RequestOf(client, call, enc).verb == HttpPatch <==> call.BanUser? || call.UnbanUser?
    ensures RequestOf(client, call, enc).body.Some? <==> call.SendBroadcastNotification? || call.UpdateGarage?
    ensures var r := RequestOf(client, call, enc);
      && (r.body.None? ==> r.headers == AuthHeaders(client))
      && (r.body.Some? ==> r.headers.Keys == AuthHeaders(client).Keys + {"Content-Type"}
                           && r.headers["Content-Type"] == "application/json")
      && (forall k :: k in AuthHeaders(client) ==> k in r.headers && r.headers[k] == AuthHeaders(client)[k])
  {
    var base, auth := ApiUrl(client.apiUrlEnv), AuthHeaders(client);
    var r := RequestOf(client, call, enc);
    assert r.url[..|base|] == base;
    VerbKinds(call);
    BodyKinds(call);
    assert "Content-Type" !in auth by {
      assert "Content-Type"[0] != "Authorization"[0];
    }
  }

  /** `{ data: [], meta: { total: 0 } }` */
  const ListFallback: Json := JObj(map["data" := JArr([]), "meta" := JObj(map["total" := JNum(0)])])

  /** try { return await handleResponse(res) } catch { return fallback }:
      every failure, a 401 included, gives the fallback. */
  function ReadResult(outcome: Outcome, fallback: Json): (r: Json)
    ensures outcome.Threw? ==> r == fallback
    ensures outcome.Resp? && !IsOk(outcome.status) ==> r == fallback
    ensures outcome.Resp? && IsOk(outcome.status) && outcome.body in {None, Some(JNull)} ==> r == fallback
    ensures outcome.Resp? && IsOk(outcome.status) && outcome.body.Some? && outcome.body.value != JNull ==>
      var json := outcome.body.value;
      r == if Truthy(Get(json, "data")) then Get(json, "data").value else json
  {
    match outcome
    case Threw => fallback
    case Resp(status, text, body) =>
      match HandleResponse(status, text, body)
      case Success(v) => v
      case Failure(_) => fallback
  }

  /** `return res.ok`, or false when fetch throws. */
  function ActionResult(outcome: Outcome): bool {
    outcome.Resp? && IsOk(outcome.status)
  }

  /** The value the promise of each exported function resolves with. */
  function Resolve(call: Call, outcome: Outcome): Json {
    if call.IsList() then ReadResult(outcome, ListFallback)
    else if call.FetchDashboardStats? then ReadResult(outcome, JNull)
    else if call.FetchActiveRides? then ReadResult(outcome, JArr([]))
    else JBool(ActionResult(outcome))
  }

  /** No exported function throws: the read calls fall back to a fixed value
      on every failure, and the actions report false. */
  lemma FailuresFallBack(call: Call, outcome: Outcome)
    requires outcome.Threw? || (outcome.Resp? && HandleResponse(outcome.status, outcome.statusText, outcome.body).Failure?)
    ensures call.IsList() ==> Resolve(call, outcome) == ListFallback
    ensures call.FetchDashboardStats? ==> Resolve(call, outcome) == JNull
    ensures call.FetchActiveRides? ==> Resolve(call, outcome) == JArr([])
    ensures call.IsAction() && outcome.Resp? && outcome.status == 401 ==> Resolve(call, outcome) == JBool(false)
    ensures call.IsAction() && outcome.Threw? ==> Resolve(call, outcome) == JBool(false)
  {
  }

  /** The actions report exactly `res.ok`: they never look at the body, so a
      401 is just false. */
  lemma ActionsReportOk(call: Call, outcome: Outcome)
    requires call.IsAction()
    ensures Resolve(call, outcome) == JBool(outcome.Resp? && 200 <= outcome.status <= 299)
  {
  }

  /** A list call never resolves with null, so the list pages' `res.data`
      cannot throw on what these functions return. */
  lemma ListResultNotNull(call: Call, outcome: Outcome)
    requires call.IsList()
    ensures Resolve(call, outcome) != JNull
  {
    if outcome.Resp? {
      var h := HandleResponse(outcome.status, outcome.statusText, outcome.body);
      if h.Success? {
        assert outcome.body.Some? && outcome.body.value != JNull;
        UnwrapByTruthiness(outcome.body.value);
      }
    }
  }
}
