/**
 * The WebDAV client: configuration normalisation, Basic authentication
 * (section 2 of RFC 7617), request construction, status handling, error
 * rewording, the PROPFIND multistatus listing (sections 9.1 and 13 of
 * RFC 4918) and the connection test. The network is a parameter: a total
 * function from the request the client sends to what `fetch` did with it.
 */
module WebDav {
  import opened Wrappers
  import opened Strings
  import opened Json
  import Base64

  /** The configuration object handed to the constructor; an absent or empty field is "", 0 or None. */
  datatype RawConfig = RawConfig(url: string, username: string, password: string, timeout: int)

  /** What `options.body` holds: a string as given, or the JSON text `JSON.stringify` makes of a value. */
  datatype Payload = Raw(text: string) | Serialized(value: Json)

  datatype RequestOptions = RequestOptions(verb: string, headers: map<string, string>, body: Option<Payload>)

  /** The request `fetch` receives: the full URL and the options. */
  datatype Request = Request(url: string, options: RequestOptions)

  /** A response as far as the client reads it; `json` is what `response.json()` parses, if it parses. */
  datatype Response = Response(status: nat, statusText: string, text: string, contentType: Option<string>, json: Option<Json>)

  /** What `fetch` did: the AbortController fired, it threw, or a response arrived. */
  datatype Transport = Aborted | Thrown(error: JsError) | Responded(response: Response)

  /** What `sendRequest` resolves to. */
  datatype Reply = NoContent | JsonReply(value: Json) | TextReply(text: string)

  /** One `d:response` element of a multistatus body: the text of its `d:href` ("" when missing) and whether it holds a `d:collection`. */
  datatype DavResponse = DavResponse(href: string, hasCollection: bool)

  /** One entry of a directory listing. There is no size. */
  datatype ListEntry = ListEntry(name: string, path: string, isDirectory: bool)

  datatype ConnectionResult = ConnectionResult(success: bool, message: string)

  const DefaultTimeout: int := 10000

  /** The prefix `getFile` puts before the message of any failure. */
  const GetFilePrefix: string := "获取文件失败: "

  const TimeoutMessage: string := "WebDAV请求超时"
  const NetworkMessage: string := "网络连接失败，请检查服务器地址和网络连接"
  const CorsMessage: string := "CORS跨域请求被拒绝，请检查服务器配置"
  const FailurePrefix: string := "WebDAV请求失败: "

  const AuthFailedText: string := "认证失败：用户名或密码错误"
  const ForbiddenText: string := "权限不足：无法访问WebDAV目录"
  const NotFoundText: string := "服务器地址错误或WebDAV目录不存在"
  const CorsText: string := "跨域请求被拒绝，请检查服务器CORS配置"
  const NetworkText: string := "网络连接失败，请检查服务器地址和网络连接"
  const TimeoutText: string := "连接超时：服务器响应缓慢或网络不稳定"
  const ServerErrorText: string := "服务器内部错误：WebDAV服务可能未正常运行"
  const UnavailableText: string := "服务器暂时不可用：请检查服务器状态"
  const AbortText: string := "连接超时：服务器响应时间过长"
  const TypeErrorText: string := "网络错误：无法连接到服务器，请检查网络设置和服务器地址"
  const OtherPrefix: string := "连接失败："
  const ConnectedText: string := "连接成功"

  /** `new Error(message)` */
  function Error(message: string): JsError {
    JsError("Error", message)
  }

  /** `response.ok` */
  predicate IsOk(status: nat) {
    200 <= status <= 299
  }

  /** The message of the error a non-2xx response raises: it names the status, then the status text, then the body if any. */
  function FailureMessage(r: Response): (m: string)
    ensures StartsWith(m, FailurePrefix)
    ensures Contains(m, NatToString(r.status))
    ensures Contains(m, r.statusText)
  {
    var tail := if r.text != "" then " - " + r.text else "";
    var m := FailurePrefix + NatToString(r.status) + " " + r.statusText + tail;
    StartsWithConcat(FailurePrefix, NatToString(r.status) + " " + r.statusText + tail);
    assert m == FailurePrefix + (NatToString(r.status) + " " + r.statusText + tail);
    ContainsInMiddle(FailurePrefix, NatToString(r.status), " " + r.statusText + tail);
    assert m == FailurePrefix + NatToString(r.status) + (" " + r.statusText + tail);
    ContainsInMiddle(FailurePrefix + NatToString(r.status) + " ", r.statusText, tail);
    m
  }

  /**
   * The status check of `sendRequest`: a non-2xx status becomes an error
   * naming the status (and the response text, when there is one), 204 gives
   * no value, a JSON content type gives the parsed body, anything else the text.
   */
  function HandleResponse(r: Response): (res: Result<Reply, JsError>)
    ensures !IsOk(r.status) ==> res == Err(Error(FailureMessage(r)))
    ensures IsOk(r.status) && r.status == 204 ==> res == Ok(NoContent)
    ensures IsOk(r.status) && r.status != 204 && (r.contentType.None? || !Contains(r.contentType.value, "application/json")) ==>
      res == Ok(TextReply(r.text))
    ensures IsOk(r.status) && r.status != 204 && r.contentType.Some? && Contains(r.contentType.value, "application/json") ==>
      res == if r.json.Some? then Ok(JsonReply(r.json.value)) else Err(ParseError)
  {
    if !IsOk(r.status) then Err(Error(FailureMessage(r)))
    else if r.status == 204 then Ok(NoContent)
    else if r.contentType.Some? && Contains(r.contentType.value, "application/json") then
      match r.json
      case Some(j) => Ok(JsonReply(j))
      case None => Err(ParseError)
    else Ok(TextReply(r.text))
  }

  /** The `catch` of `sendRequest`: timeouts, fetch failures and CORS failures are reworded, the rest rethrown. */
  function Reword(e: JsError): (r: JsError)
    ensures e.name == "AbortError" ==> r == Error(TimeoutMessage)
    ensures e.name != "AbortError" && e.name == TypeErrorName && Contains(e.message, "fetch") ==> r == Error(NetworkMessage)
    ensures e.name != "AbortError" && !(e.name == TypeErrorName && Contains(e.message, "fetch")) && Contains(e.message, "CORS") ==>
      r == Error(CorsMessage)
    ensures e.name != "AbortError" && !(e.name == TypeErrorName && Contains(e.message, "fetch")) && !Contains(e.message, "CORS") ==> r == e
  {
    if e.name == "AbortError" then Error(TimeoutMessage)
    else if e.name == TypeErrorName && Contains(e.message, "fetch") then Error(NetworkMessage)
    else if Contains(e.message, "CORS") then Error(CorsMessage)
    else e
  }

  /** `new Error(prefix + error.message)`, the wrapping of getFile, putFile and the other verbs. */
  function Wrap<T>(prefix: string, r: Result<T, JsError>): (w: Result<T, JsError>)
    ensures w.Ok? <==> r.Ok?
    ensures r.Ok? ==> w == r
    ensures r.Err? ==> w.error == Error(prefix + r.error.message)
  {
    match r
    case Ok(v) => Ok(v)
    case Err(e) => Err(Error(prefix + e.message))
  }

  /**
   * The connection test's wording of a failure: the first matching test in
   * the source's order (401, 403, 404, CORS, fetch, timeout, 500, 502/503/504,
   * then the error's name), else the message itself after a prefix.
   */
  function ClassifyFailure(e: JsError): string {
    var m := e.message;
    if Contains(m, "401") then AuthFailedText
    else if Contains(m, "403") then ForbiddenText
    else if Contains(m, "404") then NotFoundText
    else if Contains(m, "CORS") then CorsText
    else if Contains(m, "fetch") then NetworkText
    else if Contains(m, "timeout") then TimeoutText
    else if Contains(m, "500") then ServerErrorText
    else if Contains(m, "502") || Contains(m, "503") || Contains(m, "504") then UnavailableText
    else if e.name == "AbortError" then AbortText
    else if e.name == TypeErrorName then TypeErrorText
    else OtherPrefix + m
  }

  /** The base URL the constructor keeps: the configured one with a '/' added unless it already ends with one. */
  function NormalizedUrl(u: string): (r: string)
    ensures EndsWith(r, "/")
    ensures EndsWith(u, "/") ==> r == u
    ensures !EndsWith(u, "/") ==> r == u + "/"
    ensures StartsWith(r, u) && |r| <= |u| + 1
  {
    if EndsWith(u, "/") then
      assert u[..|u|] == u;
      u
    else
      assert (u + "/")[..|u|] == u;
      u + "/"
  }

  /** Normalising twice changes nothing. */
  lemma NormalizedUrlIdempotent(u: string)
    ensures NormalizedUrl(NormalizedUrl(u)) == NormalizedUrl(u)
  {
  }

  /** The WebDAV client for one server configuration. */
  class WebDAVClient {
    const url: string
    const username: string
    const password: string
    const timeout: int

    /** Empty credentials stay empty, a zero timeout becomes 10000 ms, and the URL gets a trailing '/'. */
    constructor (config: RawConfig)
      ensures url == NormalizedUrl(config.url)
      ensures username == config.username && password == config.password
      ensures timeout == if config.timeout != 0 then config.timeout else DefaultTimeout
    {
      var u := config.url;
      if !EndsWith(u, "/") {
        u := u + "/";
      }
      url := u;
      username := config.username;
      password := config.password;
      timeout := if config.timeout != 0 then config.timeout else DefaultTimeout;
    }

    /** `getAuthHeaders`: Basic credentials when both the user name and the password are non-empty. */
    function AuthHeaders(): (r: Result<map<string, string>, JsError>)
      ensures username != "" && password != "" ==>
        r == match Base64.Btoa(username + ":" + password)
             case Ok(token) => Ok(map["Authorization" := "Basic " + token])
             case Err(e) => Err(e)
      ensures username == "" || password == "" ==> r == Ok(map[])
    {
      if username != "" && password != "" then
        match Base64.Btoa(username + ":" + password)
        case Ok(token) => Ok(map["Authorization" := "Basic " + token])
        case Err(e) => Err(e)
      else Ok(map[])
    }

    /** The credentials never name a content type. */
    lemma AuthHasNoContentType()
      ensures AuthHeaders().Ok? ==> "Content-Type" !in AuthHeaders().value
    {
      var r := AuthHeaders();
      if r.Ok? && username != "" && password != "" {
        var token := Base64.Btoa(username + ":" + password).value;
        assert r.value == map["Authorization" := "Basic " + token];
      }
    }

    /** `buildRequestOptions(method, body, contentType)`, the method being `verb`; an empty `contentType` stands for none. */
    function BuildRequestOptions(verb: string, body: Json, contentType: string): (r: Result<RequestOptions, JsError>)
      ensures r.Ok? <==> AuthHeaders().Ok?
      ensures r.Ok? ==> r.value.verb == verb
      ensures r.Ok? ==> ("Content-Type" in r.value.headers <==> contentType != "")
      ensures r.Ok? && contentType != "" ==> r.value.headers["Content-Type"] == contentType
      ensures r.Ok? ==> forall h :: h in AuthHeaders().value ==> h in r.value.headers && r.value.headers[h] == AuthHeaders().value[h]
      ensures r.Ok? ==> (r.value.body.Some? <==> Truthy(body))
      ensures r.Ok? && Truthy(body) && body.Str? ==> r.value.body == Some(Raw(body.s))
      ensures r.Ok? && Truthy(body) && !body.Str? ==> r.value.body == Some(Serialized(body))
    {
      match AuthHeaders()
      case Err(e) => Err(e)
      case Ok(auth) =>
        var headers := if contentType != "" then auth["Content-Type" := contentType] else auth;
        AuthHasNoContentType();
        WithContentType(auth, contentType, headers);
        var payload := if !Truthy(body) then None else if body.Str? then Some(Raw(body.s)) else Some(Serialized(body));
        Ok(RequestOptions(verb, headers, payload))
    }

    /** Adding a content type to headers that have none keeps the others and adds exactly it. */
    static lemma WithContentType(auth: map<string, string>, contentType: string, headers: map<string, string>)
      requires "Content-Type" !in auth
      requires headers == if contentType != "" then auth["Content-Type" := contentType] else auth
      ensures "Content-Type" in headers <==> contentType != ""
      ensures contentType != "" ==> headers["Content-Type"] == contentType
      ensures forall h :: h in auth ==> h in headers && headers[h] == auth[h]
    {
    }

    /** The URL `sendRequest` fetches: the base URL followed by the path. */
    function RequestUrl(path: string): (u: string)
      ensures StartsWith(u, url) && u[|url|..] == path
    {
      StartsWithConcat(url, path);
      url + path
    }

    /** `sendRequest(path, options)` against the network `net`. */
    function SendRequest(path: string, options: RequestOptions, net: Request -> Transport): (r: Result<Reply, JsError>)
      ensures net(Request(RequestUrl(path), options)).Aborted? ==> r == Err(Error(TimeoutMessage))
      ensures net(Request(RequestUrl(path), options)).Thrown? ==> r == Err(Reword(net(Request(RequestUrl(path), options)).error))
      ensures net(Request(RequestUrl(path), options)).Responded? ==>
        var resp := net(Request(RequestUrl(path), options)).response;
        r == match HandleResponse(resp) case Ok(v) => Ok(v) case Err(e) => Err(Reword(e))
    {
      match net(Request(RequestUrl(path), options))
      case Aborted => Err(Reword(JsError("AbortError", "The operation was aborted.")))
      case Thrown(e) => Err(Reword(e))
      case Responded(resp) =>
        match HandleResponse(resp)
        case Ok(v) => Ok(v)
        case Err(e) => Err(Reword(e))
    }

    /** Builds the options for `verb` and sends them, as each verb does. */
    function Send(verb: string, path: string, body: Json, contentType: string, extra: map<string, string>,
                  net: Request -> Transport): Result<Reply, JsError>
    {
      match BuildRequestOptions(verb, body, contentType)
      case Err(e) => Err(e)
      case Ok(o) => SendRequest(path, o.(headers := o.headers + extra), net)
    }

    /** `testConnection`: a PROPFIND of depth 0 on the base URL; failures are worded by `ClassifyFailure`. */
    function TestConnection(net: Request -> Transport): (r: ConnectionResult)
      ensures r.success <==> Send("PROPFIND", "", Null, "application/xml", map["Depth" := "0"], net).Ok?
      ensures r.success ==> r.message == ConnectedText
      ensures !r.success ==> r.message == ClassifyFailure(Send("PROPFIND", "", Null, "application/xml", map["Depth" := "0"], net).error)
    {
      match Send("PROPFIND", "", Null, "application/xml", map["Depth" := "0"], net)
      case Ok(_) => ConnectionResult(true, ConnectedText)
      case Err(e) => ConnectionResult(false, ClassifyFailure(e))
    }

    function GetFile(path: string, net: Request -> Transport): Result<Reply, JsError> {
      Wrap(GetFilePrefix, Send("GET", path, Null, "", map[], net))
    }

    function PutFile(path: string, content: Json, contentType: string, net: Request -> Transport): Result<Reply, JsError> {
      Wrap("上传文件失败: ", Send("PUT", path, content, contentType, map[], net))
    }

    function DeleteFile(path: string, net: Request -> Transport): Result<Reply, JsError> {
      Wrap("删除文件失败: ", Send("DELETE", path, Null, "", map[], net))
    }

    function CreateDirectory(path: string, net: Request -> Transport): Result<Reply, JsError> {
      Wrap("创建目录失败: ", Send("MKCOL", path, Null, "", map[], net))
    }

    /** `exists(path)`: a HEAD request that succeeds; every failure reads as absent. */
    function Exists(path: string, net: Request -> Transport): (b: bool)
      ensures b <==> Send("HEAD", path, Null, "", map[], net).Ok?
    {
      Send("HEAD", path, Null, "", map[], net).Ok?
    }

    /** The extra headers of COPY and MOVE: the absolute destination and permission to overwrite. */
    function DestinationHeaders(destination: string): (h: map<string, string>)
      ensures h.Keys == {"Destination", "Overwrite"}
      ensures h["Destination"] == RequestUrl(destination) && h["Overwrite"] == "T"
    {
      map["Destination" := url + destination, "Overwrite" := "T"]
    }

    function CopyFile(source: string, destination: string, net: Request -> Transport): Result<Reply, JsError> {
      Wrap("复制文件失败: ", Send("COPY", source, Null, "", DestinationHeaders(destination), net))
    }

    function MoveFile(source: string, destination: string, net: Request -> Transport): Result<Reply, JsError> {
      Wrap("移动文件失败: ", Send("MOVE", source, Null, "", DestinationHeaders(destination), net))
    }

    /**
     * `listDirectory(path)`: a PROPFIND of depth 1 whose reply `extract`
     * (standing for DOMParser and `getElementsByTagName`) turns into the
     * `d:response` elements, which `ParseDirectoryListing` reads.
     */
    method ListDirectory(path: string, net: Request -> Transport, extract: Reply -> seq<DavResponse>)
      returns (r: Result<seq<ListEntry>, JsError>)
      ensures r.Ok? <==> Send("PROPFIND", path, Null, "", map["Depth" := "1"], net).Ok?
      ensures r.Ok? ==> r.value == Listing(extract(Send("PROPFIND", path, Null, "", map["Depth" := "1"], net).value))
      ensures r.Err? ==> r.error == Error("列出目录失败: " + Send("PROPFIND", path, Null, "", map["Depth" := "1"], net).error.message)
    {
      match Send("PROPFIND", path, Null, "", map["Depth" := "1"], net)
      case Err(e) =>
        r := Err(Error("列出目录失败: " + e.message));
      case Ok(reply) =>
        var items := ParseDirectoryListing(extract(reply));
        r := Ok(items);
    }
  }

  /** A server that answers 401 is reported as rejecting the credentials, whatever else its message holds. */
  lemma UnauthorizedReportsCredentials(c: WebDAVClient, resp: Response, net: Request -> Transport)
    requires c.AuthHeaders().Ok?
    requires forall q :: net(q) == Responded(resp)
    requires resp.status == 401 && !Contains(FailureMessage(resp), "CORS")
    ensures c.TestConnection(net) == ConnectionResult(false, AuthFailedText)
  {
    var o := c.BuildRequestOptions("PROPFIND", Null, "application/xml").value;
    var q := Request(c.RequestUrl(""), o.(headers := o.headers + map["Depth" := "0"]));
    assert net(q) == Responded(resp);
    var e := Error(FailureMessage(resp));
    assert HandleResponse(resp) == Err(e);
    assert Reword(e) == e;
    assert c.Send("PROPFIND", "", Null, "application/xml", map["Depth" := "0"], net) == Err(e);
    StatusDigits401();
    assert Contains(e.message, "401");
    assert ClassifyFailure(e) == AuthFailedText;
  }

  lemma StatusDigits401()
    ensures NatToString(401) == "401"
  {
  }

  /** A message none of the connection test's patterns occur in, on an error of no special name, is reported after the generic prefix. */
  lemma UnmatchedIsGeneric(e: JsError)
    requires forall p :: p in ["401", "403", "404", "CORS", "fetch", "timeout", "500", "502", "503", "504"] ==> !Contains(e.message, p)
    requires e.name != "AbortError" && e.name != TypeErrorName
    ensures ClassifyFailure(e) == OtherPrefix + e.message
  {
  }

  lemma TimeoutWordedGenerically()
    ensures ClassifyFailure(Error(TimeoutMessage)) == OtherPrefix + TimeoutMessage
  {
    var m := TimeoutMessage;
    forall p | p in ["401", "403", "404", "CORS", "fetch", "timeout", "500", "502", "503", "504"]
      ensures !Contains(m, p)
    {
      AbsentFirstChar(m, p);
    }
    UnmatchedIsGeneric(Error(m));
  }

  /**
   * The client's own timeout reaches the connection test already reworded,
   * so it is reported as a generic failure and not by the test's timeout text.
   */
  lemma ClientTimeoutReportedAsGeneric(c: WebDAVClient, net: Request -> Transport)
    requires c.AuthHeaders().Ok?
    requires forall q :: net(q) == Aborted
    ensures c.TestConnection(net) == ConnectionResult(false, OtherPrefix + TimeoutMessage)
    ensures c.TestConnection(net).message != TimeoutText && c.TestConnection(net).message != AbortText
  {
    var o := c.BuildRequestOptions("PROPFIND", Null, "application/xml").value;
    var q := Request(c.RequestUrl(""), o.(headers := o.headers + map["Depth" := "0"]));
    assert net(q) == Aborted;
    var e := Error(TimeoutMessage);
    assert c.Send("PROPFIND", "", Null, "application/xml", map["Depth" := "0"], net) == Err(e);
    TimeoutWordedGenerically();
    GenericDiffersFromTimeouts();
  }

  /** The generic wording of the client's timeout differs from both of the test's timeout texts at the third character. */
  lemma GenericDiffersFromTimeouts()
    ensures OtherPrefix + TimeoutMessage != TimeoutText && OtherPrefix + TimeoutMessage != AbortText
  {
    assert (OtherPrefix + TimeoutMessage)[2] != TimeoutText[2];
    assert (OtherPrefix + TimeoutMessage)[2] != AbortText[2];
  }

  /** The path with its trailing '/' characters removed. */
  function StripTrailingSlashes(s: string): (r: string)
    ensures |r| <= |s| && r == s[..|r|]
    ensures r == "" || r[|r| - 1] != '/'
    ensures forall i :: |r| <= i < |s| ==> s[i] == '/'
  {
    if s != "" && s[|s| - 1] == '/' then StripTrailingSlashes(s[..|s| - 1]) else s
  }

  /** The characters after the last '/'. */
  function AfterLastSlash(s: string): (r: string)
    ensures |r| <= |s| && r == s[|s| - |r|..]
    ensures '/' !in r
    ensures |r| < |s| ==> s[|s| - |r| - 1] == '/'
  {
    if s == "" || s[|s| - 1] == '/' then "" else AfterLastSlash(s[..|s| - 1]) + [s[|s| - 1]]
  }

  /** `href.split('/').filter(Boolean).pop()`: the last non-empty segment, if there is one. */
  function LastSegment(href: string): Option<string> {
    var t := StripTrailingSlashes(href);
    if t == "" then None else Some(AfterLastSlash(t))
  }

  predicate AllSlashes(s: string) {
    forall i :: 0 <= i < |s| ==> s[i] == '/'
  }

  /**
   * The last segment is what stands between the last '/' before it (or the
   * start) and a run of trailing '/'; there is none exactly when the href is
   * made of '/' alone.
   */
  lemma LastSegmentShape(href: string)
    ensures LastSegment(href).None? <==> AllSlashes(href)
    ensures LastSegment(href).Some? ==>
      var name := LastSegment(href).value;
      name != "" && '/' !in name &&
      exists prefix, tail :: href == prefix + name + tail && AllSlashes(tail) &&
                             (prefix == "" || prefix[|prefix| - 1] == '/')
  {
    LastSegmentNone(href);
    var t := StripTrailingSlashes(href);
    if t != "" {
      SegmentSplit(href);
      var name := AfterLastSlash(t);
      assert LastSegment(href) == Some(name);
      SplitWitness(href, t[..|t| - |name|], name, href[|t|..]);
    }
  }

  /** An href has no segment exactly when it is made of '/' alone. */
  lemma LastSegmentNone(href: string)
    ensures LastSegment(href).None? <==> AllSlashes(href)
  {
    var t := StripTrailingSlashes(href);
    if t != "" {
      assert href[|t| - 1] == t[|t| - 1];
    } else {
      assert AllSlashes(href) by {
        forall i | 0 <= i < |href| ensures href[i] == '/' { }
      }
    }
  }

  lemma SplitWitness(href: string, prefix: string, name: string, tail: string)
    requires href == prefix + name + tail && AllSlashes(tail) && (prefix == "" || prefix[|prefix| - 1] == '/')
    ensures exists p, q :: href == p + name + q && AllSlashes(q) && (p == "" || p[|p| - 1] == '/')
  {
  }

  /** Where the last segment sits: after the last '/' of the href with its trailing '/' removed. */
  lemma SegmentSplit(href: string)
    requires StripTrailingSlashes(href) != ""
    ensures var t := StripTrailingSlashes(href);
      var name := AfterLastSlash(t);
      name != "" && href == t[..|t| - |name|] + name + href[|t|..] && AllSlashes(href[|t|..]) &&
      (t[..|t| - |name|] == "" || t[..|t| - |name|][|t| - |name| - 1] == '/')
  {
    var t := StripTrailingSlashes(href);
    var name := AfterLastSlash(t);
    assert name != "";
    SplitShape(href, t, name);
  }

  /** A string cut into a stem and a run of '/', the stem cut again after its last '/'. */
  lemma SplitShape(href: string, t: string, name: string)
    requires |t| <= |href| && t == href[..|t|] && forall i :: |t| <= i < |href| ==> href[i] == '/'
    requires |name| <= |t| && name == t[|t| - |name|..] && (|name| < |t| ==> t[|t| - |name| - 1] == '/')
    ensures href == t[..|t| - |name|] + name + href[|t|..] && AllSlashes(href[|t|..])
    ensures t[..|t| - |name|] == "" || t[..|t| - |name|][|t| - |name| - 1] == '/'
  {
    SplitAt(t, |t| - |name|);
    SplitAt(href, |t|);
  }

  /** For an href that ends in `/name` (or `/name/`), the name is recovered. */
  lemma LastSegmentOfChild(base: string, name: string, trailing: bool)
    requires base == "" || base[|base| - 1] == '/'
    requires name != "" && '/' !in name
    ensures LastSegment(base + name + (if trailing then "/" else "")) == Some(name)
  {
    var h := base + name + (if trailing then "/" else "");
    var t := base + name;
    assert StripTrailingSlashes(h) == t by {
      if trailing {
        assert h[..|h| - 1] == t;
      }
      assert t[|t| - 1] == name[|name| - 1];
    }
    AfterLastSlashOf(base, name);
  }

  lemma {:induction false} AfterLastSlashOf(base: string, name: string)
    requires base == "" || base[|base| - 1] == '/'
    requires '/' !in name
    ensures AfterLastSlash(base + name) == name
    decreases |name|
  {
    if name == "" {
      assert base + name == base;
    } else {
      var s := base + name;
      var init := name[..|name| - 1];
      var last := name[|name| - 1];
      DropLast(base, name);
      AfterLastSlashOf(base, init);
      assert AfterLastSlash(s) == AfterLastSlash(base + init) + [last];
      assert init + [last] == name;
    }
  }

  /** Dropping the last character of `base + name`, for a non-empty `name` without '/'. */
  lemma DropLast(base: string, name: string)
    requires name != "" && '/' !in name
    ensures var s := base + name;
      s != "" && s[|s| - 1] == name[|name| - 1] && name[|name| - 1] != '/' &&
      s[..|s| - 1] == base + name[..|name| - 1] && '/' !in name[..|name| - 1] &&
      name[..|name| - 1] + [name[|name| - 1]] == name
  {
    var init := name[..|name| - 1];
    assert name[|name| - 1] in name;
    assert '/' !in init by {
      forall i | 0 <= i < |init| ensures init[i] != '/' { assert init[i] == name[i]; }
    }
  }

  /** The entry one `d:response` contributes: none for "" and "../" and for an href with no segment. */
  function EntryFor(r: DavResponse): (e: seq<ListEntry>)
    ensures |e| <= 1
    ensures e != [] ==> e[0].path == r.href && e[0].isDirectory == r.hasCollection
    ensures e != [] <==> r.href != "" && r.href != "../" && LastSegment(r.href).Some?
  {
    if r.href == "" || r.href == "../" then []
    else match LastSegment(r.href)
      case None => []
      case Some(name) => [ListEntry(name, r.href, r.hasCollection)]
  }

  /** The listing of a multistatus body, element by element. */
  function Listing(rs: seq<DavResponse>): seq<ListEntry> {
    if rs == [] then [] else Listing(rs[..|rs| - 1]) + EntryFor(rs[|rs| - 1])
  }

  /** The listing of two consecutive runs of responses is the two listings one after the other. */
  lemma {:induction false} ListingAppend(a: seq<DavResponse>, b: seq<DavResponse>)
    ensures Listing(a + b) == Listing(a) + Listing(b)
    decreases |b|
  {
    if b == [] {
      assert a + b == a;
    } else {
      var b' := b[..|b| - 1];
      assert (a + b)[..|a + b| - 1] == a + b';
      assert (a + b)[|a + b| - 1] == b[|b| - 1];
      ListingAppend(a, b');
    }
  }

  /** Every listed entry comes from one response, and a response yields an entry exactly when `EntryFor` keeps it. */
  lemma {:induction false} ListingMembers(rs: seq<DavResponse>, e: ListEntry)
    ensures e in Listing(rs) <==> exists r :: r in rs && EntryFor(r) == [e]
    decreases |rs|
  {
    if rs != [] {
      var init := rs[..|rs| - 1];
      var r0 := rs[|rs| - 1];
      assert rs == init + [r0];
      assert Listing(rs) == Listing(init) + EntryFor(r0);
      ListingMembers(init, e);
      if e in Listing(rs) && e !in Listing(init) {
        assert EntryFor(r0) == [e];
      }
      if exists r :: r in rs && EntryFor(r) == [e] {
        var r :| r in rs && EntryFor(r) == [e];
        if r != r0 {
          assert r in init;
        }
      }
    }
  }

  lemma EntryForNone(r: DavResponse)
    requires r.href == "" || r.href == "../" || LastSegment(r.href).None?
    ensures EntryFor(r) == []
  {
  }

  lemma EntryForSome(r: DavResponse, name: string)
    requires r.href != "" && r.href != "../" && LastSegment(r.href) == Some(name)
    ensures EntryFor(r) == [ListEntry(name, r.href, r.hasCollection)]
  {
  }

  lemma ListingStep(rs: seq<DavResponse>, i: nat)
    requires i < |rs|
    ensures Listing(rs[..i + 1]) == Listing(rs[..i]) + EntryFor(rs[i])
  {
    assert rs[..i + 1][..i] == rs[..i];
  }

  /** `parseDirectoryListing`: the loop over the `d:response` elements, pushing one entry per kept element. */
  method ParseDirectoryListing(rs: seq<DavResponse>) returns (items: seq<ListEntry>)
    ensures items == Listing(rs)
  {
    items := [];
    var i := 0;
    while i < |rs|
      invariant 0 <= i <= |rs|
      invariant items == Listing(rs[..i])
    {
      var href := rs[i].href;
      var isCollection := rs[i].hasCollection;
      ListingStep(rs, i);
      if href == "" || href == "../" {
        EntryForNone(rs[i]);
        i := i + 1;
        continue;
      }
      var fileName := LastSegment(href);
      if fileName.Some? {
        EntryForSome(rs[i], fileName.value);
        items := items + [ListEntry(fileName.value, href, isCollection)];
      } else {
        EntryForNone(rs[i]);
      }
      i := i + 1;
    }
    assert rs[..|rs|] == rs;
  }
}
