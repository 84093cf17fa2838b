/**
 * The captured record of one request/response exchange (api.go): the API
 * value, its identity predicate, the suppression sets, the three parsing
 * loops that fill its maps, the content-type dispatch of the request
 * body, the request path, and the wrapping of the response body.
 *
 * `*API` receivers become the class `ApiRef`, whose one field holds the
 * current API value; each mutating Go method is a method of that class
 * whose new value is tied to a step function of the old value.
 */
module Capture {
  import opened Wrappers
  import opened Errors
  import opened GoStrings
  import opened Pairs
  import opened Headers

  /** The API struct: what was seen of one request and its response. */
  datatype Api = Api(
    requestMethod: string,
    requestPath: string,
    requestHeaders: map<string, string>,
    requestSuppressedHeaders: map<string, bool>,
    requestUrlParams: map<string, string>,
    requestPostForms: map<string, string>,
    requestBody: string,
    responseHeaders: map<string, string>,
    responseSuppressedHeaders: map<string, bool>,
    responseStatusCode: int,
    responseBody: string)

  /** NewAPI: empty maps, empty strings and status 0. */
  function NewApi(): (a: Api)
    ensures a.requestHeaders == map[] && a.requestUrlParams == map[] && a.requestPostForms == map[]
    ensures a.responseHeaders == map[]
    ensures a.requestSuppressedHeaders == map[] && a.responseSuppressedHeaders == map[]
    ensures a.requestMethod == "" && a.requestPath == "" && a.requestBody == "" && a.responseBody == ""
    ensures a.responseStatusCode == 0
  {
    Api("", "", map[], map[], map[], map[], "", map[], map[], 0, "")
  }

  /** `equal`: two records describe the same endpoint and outcome. */
  predicate Equal(a: Api, b: Api) {
    a.requestMethod == b.requestMethod && a.requestPath == b.requestPath
    && a.responseStatusCode == b.responseStatusCode
  }

  /** The identity `equal` compares. */
  function Identity(a: Api): (string, string, int) {
    (a.requestMethod, a.requestPath, a.responseStatusCode)
  }

  /** `equal` holds exactly when the identities agree: headers, parameters and bodies play no part. */
  lemma EqualIsSameIdentity(a: Api, b: Api)
    ensures Equal(a, b) <==> Identity(a) == Identity(b)
  {
  }

  /** `equal` is an equivalence relation. */
  lemma EqualIsEquivalence(a: Api, b: Api, c: Api)
    ensures Equal(a, a)
    ensures Equal(a, b) ==> Equal(b, a)
    ensures Equal(a, b) && Equal(b, c) ==> Equal(a, c)
  {
  }

  /** The suppression set built from a list of header names: each maps to true. */
  function Suppression(headers: seq<string>): (r: map<string, bool>)
    ensures forall h :: h in r <==> h in headers
    ensures forall h :: h in r ==> r[h]
  {
    map h | h in headers :: true
  }

  /** A header is suppressed exactly when it was named. */
  lemma SuppressionExcludes(headers: seq<string>, key: string)
    ensures key in Suppression(headers) <==> key in headers
    ensures Excluded(Suppression(headers), key) <==> key in headers
  {
  }

  /** The content types the body dispatch tests for, in the order it tests them. */
  const FormType := "application/x-www-form-urlencoded"
  const JsonType := "application/json"
  const MultipartType := "multipart/form-data"

  datatype BodyKind = Form | Json | Multipart | Unrecognised

  /**
   * The dispatch on a Content-Type value: strings.Contains on the trimmed
   * value, form before JSON before multipart. Since none of the three
   * patterns starts or ends with white space, trimming changes nothing and
   * the kind is decided by the raw header value.
   */
  function KindOf(contentType: string): (k: BodyKind)
    ensures k == Form <==> Contains(contentType, FormType)
    ensures k == Json <==> !Contains(contentType, FormType) && Contains(contentType, JsonType)
    ensures k == Multipart <==>
      !Contains(contentType, FormType) && !Contains(contentType, JsonType) && Contains(contentType, MultipartType)
  {
    TrimKeepsContains(contentType, FormType, IsSpace);
    TrimKeepsContains(contentType, JsonType, IsSpace);
    TrimKeepsContains(contentType, MultipartType, IsSpace);
    var ct := TrimSpace(contentType);
    if Contains(ct, FormType) then Form
    else if Contains(ct, JsonType) then Json
    else if Contains(ct, MultipartType) then Multipart
    else Unrecognised
  }

  /** A record after a step, and the error the step returned. */
  datatype Outcome = Outcome(api: Api, err: Option<Error>)

  /** The pretty-printer and url.Parse + Query().Encode() are outside the model: they come in as functions. */
  type Transform = string -> Result<string, Error>

  /** ReadRequestURLParams: parse the encoded query into the parameter map, or return the parse error. */
  function UrlParamsStep(a: Api, uri: string, encodeQuery: Transform): (o: Outcome)
    ensures o.err.Some? <==> encodeQuery(uri).Failure?
    ensures o.err.Some? ==> o == Outcome(a, Some(encodeQuery(uri).error))
    ensures o.api.(requestUrlParams := a.requestUrlParams) == a
    ensures a.requestUrlParams.Keys <= o.api.requestUrlParams.Keys
    ensures o.err.None? ==> o.api.requestUrlParams == Absorb(a.requestUrlParams, Split(encodeQuery(uri).value, '&'), '=')
  {
    match encodeQuery(uri)
    case Failure(e) => Outcome(a, Some(e))
    case Success(query) =>
      AbsorbKeepsKeys(a.requestUrlParams, Split(query, '&'), '=');
      Outcome(a.(requestUrlParams := Absorb(a.requestUrlParams, Split(query, '&'), '=')), None)
  }

  /**
   * The half of ReadRequestBody after the body has been read: `body` is
   * the text copied into the buffer, or the error reading it raised.
   */
  function RequestBodyStep(a: Api, body: Result<string, Error>, prettyPrint: Transform): (o: Outcome)
    ensures o.api.(requestPostForms := a.requestPostForms, requestBody := a.requestBody) == a
    ensures body.Failure? ==> o == Outcome(a, Some(body.error))
    ensures body.Success? && "Content-Type" !in a.requestHeaders ==> o == Outcome(a, None)
    ensures body.Success? && "Content-Type" in a.requestHeaders ==>
      match KindOf(a.requestHeaders["Content-Type"])
      case Form =>
        o == Outcome(a.(requestPostForms := Absorb(a.requestPostForms, Split(body.value, '&'), '=')), None)
      case Json =>
        (prettyPrint(body.value).Failure? ==> o == Outcome(a, Some(prettyPrint(body.value).error)))
        && (prettyPrint(body.value).Success? ==> o == Outcome(a.(requestBody := prettyPrint(body.value).value), None))
      case _ => o == Outcome(a, None)
  {
    match body
    case Failure(e) => Outcome(a, Some(e))
    case Success(b) =>
      if "Content-Type" !in a.requestHeaders then Outcome(a, None)
      else match KindOf(a.requestHeaders["Content-Type"])
        case Form => Outcome(a.(requestPostForms := Absorb(a.requestPostForms, Split(b, '&'), '=')), None)
        case Json =>
          (match prettyPrint(b)
           case Failure(e) => Outcome(a, Some(e))
           case Success(out) => Outcome(a.(requestBody := out), None))
        case Multipart => Outcome(a, None)
        case Unrecognised => Outcome(a, None)
  }

  /**
   * WrapResponseBody: a JSON response body is stored pretty-printed, or
   * the printer's error is returned and nothing changes; any other body
   * is stored verbatim.
   */
  function ResponseBodyStep(a: Api, body: string, prettyPrint: Transform): (o: Outcome)
    ensures o.api.(responseBody := a.responseBody) == a
    ensures var json := "Content-Type" in a.responseHeaders && Contains(a.responseHeaders["Content-Type"], JsonType);
      (!json ==> o == Outcome(a.(responseBody := body), None))
      && (json && prettyPrint(body).Failure? ==> o == Outcome(a, Some(prettyPrint(body).error)))
      && (json && prettyPrint(body).Success? ==> o == Outcome(a.(responseBody := prettyPrint(body).value), None))
  {
    var ct := if "Content-Type" in a.responseHeaders then a.responseHeaders["Content-Type"] else "";
    TrimKeepsContains(ct, JsonType, IsSpace);
    if "Content-Type" in a.responseHeaders && Contains(TrimSpace(a.responseHeaders["Content-Type"]), JsonType) then
      match prettyPrint(body)
      case Failure(e) => Outcome(a, Some(e))
      case Success(out) => Outcome(a.(responseBody := out), None)
    else
      Outcome(a.(responseBody := body), None)
  }

  /** What ReadRequest reads of an http.Request. */
  datatype Request = Request(
    verb: string,            // req.Method
    requestUri: string,       // req.RequestURI, empty on a client request
    urlRequestUri: string,    // req.URL.RequestURI()
    header: Header,
    body: Result<string, Error>)

  /** getRequestURI: the request line's URI, or the URL's when that is empty. */
  function RequestUri(req: Request): (r: string)
    ensures req.requestUri != "" ==> r == req.requestUri
    ensures req.requestUri == "" ==> r == req.urlRequestUri
  {
    if req.requestUri == "" then req.urlRequestUri else req.requestUri
  }

  /** The request path: the URI up to its first '?'. */
  function PathOf(uri: string): (r: string)
    ensures r <= uri && '?' !in r
    ensures |r| < |uri| ==> uri[|r|] == '?'
  {
    Split(uri, '?')[0]
  }

  /**
   * ReadRequest: method and path, then headers, URL parameters and body in
   * that order. With `throwErr` the first error stops it and is returned;
   * without, errors are only logged and the result is always nil.
   */
  function ReadRequestStep(a: Api, req: Request, throwErr: bool, encodeQuery: Transform, prettyPrint: Transform): (o: Outcome)
    ensures !throwErr ==> o.err == None
    ensures o.api.requestMethod == req.verb && o.api.requestPath == PathOf(RequestUri(req))
    ensures o.api.requestSuppressedHeaders == a.requestSuppressedHeaders
    ensures o.api.requestHeaders == ParseHeaders(a.requestHeaders, req.header, a.requestSuppressedHeaders)
    ensures o.api.(requestMethod := a.requestMethod, requestPath := a.requestPath, requestHeaders := a.requestHeaders,
                   requestUrlParams := a.requestUrlParams, requestPostForms := a.requestPostForms,
                   requestBody := a.requestBody) == a
    ensures throwErr && encodeQuery(RequestUri(req)).Failure? ==>
      o.err == Some(encodeQuery(RequestUri(req)).error)
      && o.api.requestPostForms == a.requestPostForms && o.api.requestBody == a.requestBody
  {
    var uri := RequestUri(req);
    var a1 := a.(requestMethod := req.verb, requestPath := PathOf(uri));
    var a2 := a1.(requestHeaders := ParseHeaders(a1.requestHeaders, req.header, a1.requestSuppressedHeaders));
    var o3 := UrlParamsStep(a2, uri, encodeQuery);
    if throwErr && o3.err.Some? then o3
    else
      var o4 := RequestBodyStep(o3.api, req.body, prettyPrint);
      if throwErr then o4 else Outcome(o4.api, None)
  }

  /** The `API` a `*API` receiver points to. */
  class ApiRef {
    var val: Api

    /** A pointer to a fresh NewAPI() value. */
    constructor()
      ensures val == NewApi()
    {
      val := NewApi();
    }

    /** SuppressedRequestHeaders: the request suppression set becomes exactly the names given. */
    method SuppressedRequestHeaders(headers: seq<string>)
      modifies this
      ensures val == old(val).(requestSuppressedHeaders := Suppression(headers))
    {
      var m: map<string, bool> := map[];
      for i := 0 to |headers|
        invariant m == Suppression(headers[..i])
      {
        assert headers[..i + 1] == headers[..i] + [headers[i]];
        m := m[headers[i] := true];
      }
      assert headers[..|headers|] == headers;
      val := val.(requestSuppressedHeaders := m);
    }

    /** SuppressedResponseHeaders: the response suppression set becomes exactly the names given. */
    method SuppressedResponseHeaders(headers: seq<string>)
      modifies this
      ensures val == old(val).(responseSuppressedHeaders := Suppression(headers))
    {
      var m: map<string, bool> := map[];
      for i := 0 to |headers|
        invariant m == Suppression(headers[..i])
      {
        assert headers[..i + 1] == headers[..i] + [headers[i]];
        m := m[headers[i] := true];
      }
      assert headers[..|headers|] == headers;
      val := val.(responseSuppressedHeaders := m);
    }

    /** ReadRequestHeader: the written header lines, minus suppressed keys, parsed into the request map. */
    method ReadRequestHeader(h: Header)
      modifies this
      ensures val == old(val).(requestHeaders := ParseHeaders(old(val).requestHeaders, h, old(val).requestSuppressedHeaders))
    {
      var m := ParsePairs(WriteSubset(h, val.requestSuppressedHeaders), '\n', ':', val.requestHeaders);
      val := val.(requestHeaders := m);
    }

    /** ReadResponseHeader: the same, into the response map with the response suppression set. */
    method ReadResponseHeader(h: Header)
      modifies this
      ensures val == old(val).(responseHeaders := ParseHeaders(old(val).responseHeaders, h, old(val).responseSuppressedHeaders))
    {
      var m := ParsePairs(WriteSubset(h, val.responseSuppressedHeaders), '\n', ':', val.responseHeaders);
      val := val.(responseHeaders := m);
    }

    /** ReadRequestURLParams. */
    method ReadRequestUrlParams(uri: string, encodeQuery: Transform) returns (err: Option<Error>)
      modifies this
      ensures Outcome(val, err) == UrlParamsStep(old(val), uri, encodeQuery)
    {
      match encodeQuery(uri)
      case Failure(e) =>
        return Some(e);
      case Success(query) =>
        var m := ParsePairs(query, '&', '=', val.requestUrlParams);
        val := val.(requestUrlParams := m);
        return None;
    }

    /** ReadRequestBody, from the text the body was copied into. */
    method ReadRequestBody(body: Result<string, Error>, prettyPrint: Transform) returns (err: Option<Error>)
      modifies this
      ensures Outcome(val, err) == RequestBodyStep(old(val), body, prettyPrint)
    {
      if body.Failure? {
        return Some(body.error);
      }
      var b := body.value;
      if "Content-Type" !in val.requestHeaders {
        return None;
      }
      match KindOf(val.requestHeaders["Content-Type"]) {
        case Form =>
          var m := ParsePairs(b, '&', '=', val.requestPostForms);
          val := val.(requestPostForms := m);
        case Json =>
          var out := prettyPrint(b);
          if out.Failure? {
            return Some(out.error);
          }
          val := val.(requestBody := out.value);
        case Multipart =>
          // multipart/form-data bodies are not recorded
        case Unrecognised =>
      }
      return None;
    }

    /** ReadRequest. */
    method ReadRequest(req: Request, throwErr: bool, encodeQuery: Transform, prettyPrint: Transform) returns (err: Option<Error>)
      modifies this
      ensures Outcome(val, err) == ReadRequestStep(old(val), req, throwErr, encodeQuery, prettyPrint)
    {
      val := val.(requestMethod := req.verb, requestPath := PathOf(RequestUri(req)));
      ReadRequestHeader(req.header);
      var e := ReadRequestUrlParams(RequestUri(req), encodeQuery);
      if e.Some? && throwErr {
        return e;
      }
      e := ReadRequestBody(req.body, prettyPrint);
      if e.Some? && throwErr {
        return e;
      }
      return None;
    }

    /** WrapResponseBody. */
    method WrapResponseBody(body: string, prettyPrint: Transform) returns (err: Option<Error>)
      modifies this
      ensures Outcome(val, err) == ResponseBodyStep(old(val), body, prettyPrint)
    {
      if "Content-Type" in val.responseHeaders && Contains(TrimSpace(val.responseHeaders["Content-Type"]), JsonType) {
        var out := prettyPrint(body);
        if out.Failure? {
          return Some(out.error);
        }
        val := val.(responseBody := out.value);
        return None;
      }
      val := val.(responseBody := body);
      return None;
    }
  }

  /** An encoded query holding one pair gives exactly that one parameter. */
  lemma QueryOfOnePair(key: string, value: string)
    requires key != "" && '=' !in key && '=' !in value && '&' !in key && '&' !in value
    ensures Absorb(map[], Split(key + ['='] + value, '&'), '=') == map[key := value]
  {
    var query := key + ['='] + value;
    assert '&' !in query;
    SplitWhole(query, '&');
    PairOfJoined(key, '=', value);
    var pieces := [query];
    assert pieces[..0] == [];
    assert Absorb(map[], pieces, '=') == Store(map[], query, '=');
  }

  /** The URL parameters of `/hello?key=world`, whose encoded query is "key=world". */
  lemma UrlParamsExample(a: Api, encodeQuery: Transform)
    requires a.requestUrlParams == map[]
    requires encodeQuery("http://localhost:8080/hello?key=world") == Success("key=world")
    ensures UrlParamsStep(a, "http://localhost:8080/hello?key=world", encodeQuery).api.requestUrlParams == map["key" := "world"]
  {
    assert "key=world" == "key" + ['='] + "world";
    QueryOfOnePair("key", "world");
  }

  /** "gotokatsuya" is written as is and stored with the space before it and the CR after it. */
  lemma StoredExample()
    ensures StoredValue("gotokatsuya") == " gotokatsuya\r"
  {
    var v := "gotokatsuya";
    assert forall k :: 0 <= k < |v| ==> v[k] != ':' && !IsAsciiSpace(v[k]);
    CleanValueOfPlain(v);
    StoredValueWithoutColon(v);
    assert " " + v + "\r" == " gotokatsuya\r";
  }

  /** strings.TrimSpace recovers the value from what is stored. */
  lemma TrimmedExample()
    ensures TrimSpace(" gotokatsuya\r") == "gotokatsuya"
  {
    var v := "gotokatsuya";
    assert " " + v + "\r" == " gotokatsuya\r";
    TrimAround(" ", v, "\r", IsSpace);
  }

  /** A header set with X-Name only: the stored value keeps its leading space and trailing CR. */
  lemma HeaderExample(a: Api)
    requires a.requestHeaders == map[] && a.requestSuppressedHeaders == map[]
    ensures var stored := ParseHeaders(a.requestHeaders, [Field("X-Name", ["gotokatsuya"])], a.requestSuppressedHeaders);
      "X-Name" in stored && stored["X-Name"] == " gotokatsuya\r" && TrimSpace(stored["X-Name"]) == "gotokatsuya"
  {
    var h := [Field("X-Name", ["gotokatsuya"])];
    assert ValidFieldName("X-Name");
    HeaderLastValueWins(a.requestHeaders, h, a.requestSuppressedHeaders, 0);
    StoredExample();
    TrimmedExample();
  }
}
