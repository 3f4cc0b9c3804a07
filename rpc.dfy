/**
 * The per-request session of rpc.js: the report to the master, parsing a GET
 * query or a POST body into a flat map, the lookup of `method` in the call
 * table, the one call `getURLContents`, and the mapping from the session's
 * outcome to the HTTP status and body that are written.
 *
 * The decoders `url.parse(..., true).query` and `querystring.parse` are given
 * as their results (None when the result is not an object); the outbound
 * fetch is given as its chunks or its error message.
 */
module RpcServer {
  import opened Wrappers
  import opened Messages
  import Json
  import ErrorObjects

  /** A parsed query string or POST body: parameter name to value. */
  type Fields = map<string, string>

  /** The two shapes `this.response` takes. */
  datatype Payload =
      /** `{contents: data.join('')}` after a completed fetch. */
    | Fetched(contents: string)
      /** `{contents: '', error: e.message}` after a failed fetch. */
    | FetchFailed(message: string)

  /** JSON.stringify of a payload, keys in the order the source writes them. */
  function PayloadJson(p: Payload): (s: string)
    ensures |s| > 0 && s[0] == '{' && s[|s| - 1] == '}'
  {
    match p
    case Fetched(c) => "{\"contents\":" + Json.Quote(c) + "}"
    case FetchFailed(m) => "{\"contents\":" + Json.Quote("") + ",\"error\":" + Json.Quote(m) + "}"
  }

  /** Reads a payload back from its JSON text. */
  function ParsePayload(s: string): Option<Payload> {
    match Json.StripPrefix("{\"contents\":\"", s)
    case None => None
    case Some(t) =>
      match Json.ReadString(t)
      case None => None
      case Some((c, u)) =>
        if u == "}" then Some(Fetched(c))
        else if c != "" then None
        else
          match ParseErrorTail(u)
          case None => None
          case Some(m) => Some(FetchFailed(m))
  }

  /** Reads the `,"error":"..."}` that ends a failed-fetch payload. */
  function ParseErrorTail(u: string): Option<string> {
    match Json.StripPrefix(",\"error\":\"", u)
    case None => None
    case Some(v) =>
      match Json.ReadString(v)
      case None => None
      case Some((m, w)) => if w == "}" then Some(m) else None
  }

  /** Every payload body the service writes decodes to the payload it was written from. */
  lemma ParsePayloadOfPayloadJson(p: Payload)
    ensures ParsePayload(PayloadJson(p)) == Some(p)
  {
    var pre := "{\"contents\":\"";
    match p
    case Fetched(c) =>
      var after := Json.Escape(c) + "\"" + "}";
      assert PayloadJson(p) == pre + after;
      Json.StripPrefixOf(pre, after);
      Json.ReadStringOfEscape(c, "}");
    case FetchFailed(m) =>
      var tail := ",\"error\":" + Json.Quote(m) + "}";
      var t := "\"" + tail;
      assert PayloadJson(p) == pre + t by {
        assert Json.Quote("") == "\"\"";
      }
      Json.StripPrefixOf(pre, t);
      assert Json.ReadString(t) == Some(("", tail));
      assert tail != "}" by {
        assert tail[0] == ',';
      }
      ParseErrorTailOf(m);
  }

  lemma ParseErrorTailOf(m: string)
    ensures ParseErrorTail(",\"error\":" + Json.Quote(m) + "}") == Some(m)
  {
    var mid := ",\"error\":\"";
    var after := Json.Escape(m) + "\"" + "}";
    assert ",\"error\":" + Json.Quote(m) + "}" == mid + after;
    Json.StripPrefixOf(mid, after);
    Json.ReadStringOfEscape(m, "}");
  }

  /** The two entries of `RPC.errorObjects`. */
  const InvalidRequest: ErrorObjects.ErrorObject :=
    ErrorObjects.New(1, "An invalid request was received.  Please check the post body or query string.")
  const MethodNotFound: ErrorObjects.ErrorObject :=
    ErrorObjects.New(2, "The method was not found or no method was provided.")

  /** Each entry's fixed JSON text decodes to its own code and message. */
  lemma ErrorObjectsTable()
    ensures ErrorObjects.ParseErrorJson(InvalidRequest.str) ==
            Some((1, "An invalid request was received.  Please check the post body or query string."))
    ensures ErrorObjects.ParseErrorJson(MethodNotFound.str) ==
            Some((2, "The method was not found or no method was provided."))
  {
    ErrorObjects.NewStringDecodes(1, "An invalid request was received.  Please check the post body or query string.");
    ErrorObjects.NewStringDecodes(2, "The method was not found or no method was provided.");
  }

  /** How a settled session ended: `resolve()`, or `reject(error)` with or without an error record. */
  datatype Outcome = Resolved | Rejected(error: Option<ErrorObjects.ErrorObject>)

  datatype HttpResponse = HttpResponse(status: int, body: string)

  /**
   * The `done` and `fail` callbacks registered in `init`: what is written
   * once the session settles with outcome `o` while `this.response` is `response`.
   */
  function Respond(o: Outcome, response: Option<Payload>): (h: HttpResponse)
    ensures h.status == 200 <==> o.Resolved?
    ensures h.status == 501 <==> o.Rejected? && o.error.Some?
    ensures h.status == 202 <==> o == Rejected(None) && response.Some?
    ensures h.status == 500 <==> o == Rejected(None) && response.None?
    ensures h.status == 501 ==> h.body == o.error.value.str
    ensures (h.status == 200 && response.None?) || h.status == 500 ==> h.body == ""
  {
    if o.Resolved? then
      HttpResponse(200, if response.Some? then Stringified(response.value) else "")
    else if o.error.Some? then
      HttpResponse(501, o.error.value.str)
    else if response.Some? then
      HttpResponse(202, Stringified(response.value))
    else
      HttpResponse(500, "")
  }

  /**
   * What the client can read back from a written response: a 200 or 202 body
   * decodes to the session's response, and a 501 body to the error record's
   * code and message.
   */
  lemma RespondBody(o: Outcome, response: Option<Payload>)
    requires o.Rejected? && o.error.Some? ==> o.error.value == ErrorObjects.New(o.error.value.errorCode, o.error.value.errorMessage)
    ensures var h := Respond(o, response);
            && ((h.status == 200 && response.Some?) || h.status == 202 ==> ParsePayload(h.body) == response)
            && (h.status == 501 ==>
                  ErrorObjects.ParseErrorJson(h.body) == Some((o.error.value.errorCode, o.error.value.errorMessage)))
  {
    if o.Rejected? && o.error.Some? {
      ErrorObjects.NewStringDecodes(o.error.value.errorCode, o.error.value.errorMessage);
    }
  }

  /** JSON.stringify(this.response) for a set response, with its round trip. */
  function Stringified(p: Payload): (s: string)
    ensures ParsePayload(s) == Some(p)
  {
    ParsePayloadOfPayloadJson(p);
    PayloadJson(p)
  }

  /** `data.join('')` and `postBody.join('')`: the chunks concatenated in arrival order. */
  function Join(chunks: seq<string>): (s: string)
    ensures chunks != [] ==> chunks[0] <= s
    ensures forall i :: 0 <= i < |chunks| ==> |chunks[i]| <= |s|
  {
    if chunks == [] then "" else chunks[0] + Join(chunks[1..])
  }

  /** Pushing one more chunk appends it to the joined text. */
  lemma {:induction false} JoinAppend(chunks: seq<string>, c: string)
    ensures Join(chunks + [c]) == Join(chunks) + c
  {
    if chunks == [] {
      assert [] + [c] == [c];
      assert Join([c]) == c + Join([]);
    } else {
      assert (chunks + [c])[1..] == chunks[1..] + [c];
      JoinAppend(chunks[1..], c);
    }
  }

  /** `parsed.method`: absent when the map has no `method` entry. */
  function MethodOf(parsed: Option<Fields>): (m: Option<string>)
    ensures m.Some? <==> parsed.Some? && "method" in parsed.value
    ensures m.Some? ==> m.value == parsed.value["method"]
  {
    if parsed.Some? && "method" in parsed.value then Some(parsed.value["method"]) else None
  }

  /** The one call the table `calls` defines as its own entry. */
  const GetUrlContents: string := "getURLContents"

  /** The corrected test of `run`: only the table's own entry names a call. */
  predicate Lookup(currentMethod: Option<string>) {
    currentMethod == Some(GetUrlContents)
  }

  /**
   * Names that `calls[name]` also finds, inherited from Object.prototype,
   * whose call with a plain-object parsed map returns normally without
   * settling the session.
   */
  const InheritedNames: set<string> :=
    {"constructor", "hasOwnProperty", "isPrototypeOf", "propertyIsEnumerable",
     "toLocaleString", "toString", "valueOf", "__lookupGetter__", "__lookupSetter__"}

  /**
   * Inherited names whose lookup is truthy but whose call throws: `__proto__`
   * finds Object.prototype, which has no `apply`, and the two definers
   * demand a function as their second argument.
   */
  const ThrowingNames: set<string> := {"__proto__", "__defineGetter__", "__defineSetter__"}

  /** Every name of Object.prototype that the table test lets through. */
  const PrototypeNames: set<string> := InheritedNames + ThrowingNames

  /** What `this.calls[this.currentMethod]` finds, as written. */
  datatype Found = NoEntry | OwnCall | InheritedMember | ThrowingMember

  function LookupAsWritten(currentMethod: Option<string>): (f: Found)
    ensures f == OwnCall <==> Lookup(currentMethod)
    ensures f == NoEntry <==> currentMethod.None? || (currentMethod.value != GetUrlContents && currentMethod.value !in PrototypeNames)
    ensures f == InheritedMember <==> currentMethod.Some? && currentMethod.value in InheritedNames
    ensures f == ThrowingMember <==> currentMethod.Some? && currentMethod.value in ThrowingNames
  {
    match currentMethod
    case None => NoEntry
    case Some(m) =>
      if m == GetUrlContents then OwnCall
      else if m in InheritedNames then InheritedMember
      else if m in ThrowingNames then ThrowingMember
      else NoEntry
  }

  /** Where a parsed request goes next. */
  datatype Step =
      /** Rejected at once with this error record. */
    | Reject(error: ErrorObjects.ErrorObject)
      /** Nothing more happens: no outcome and no response. */
    | Stall
      /** The call throws: no outcome, no response, and the worker process ends. */
    | Throw
      /** `getURLContents` issues the outbound GET to this url. */
    | Fetch(url: string)

  /** `getURLContents(options)`: returns at once when `options.url` is missing or empty. */
  function FetchStep(options: Fields): (s: Step)
    ensures s.Stall? <==> "url" !in options || options["url"] == ""
    ensures s.Fetch? ==> "url" in options && s.url == options["url"] && s.url != ""
    ensures !s.Reject?
  {
    if "url" !in options || options["url"] == "" then Stall else Fetch(options["url"])
  }

  /**
   * One parse, then one dispatch: a result that is not an object is rejected
   * with INVALID_REQUEST; otherwise `run` rejects with METHOD_NOT_FOUND unless
   * `method` names the table's call, which then receives the whole map.
   */
  function Dispatch(parsed: Option<Fields>): (s: Step)
    ensures s == Reject(InvalidRequest) <==> parsed.None?
    ensures s == Reject(MethodNotFound) <==> parsed.Some? && !Lookup(MethodOf(parsed))
    ensures s.Reject? ==> s.error == InvalidRequest || s.error == MethodNotFound
    ensures !s.Reject? ==> parsed.Some? && Lookup(MethodOf(parsed)) && s == FetchStep(parsed.value)
  {
    match parsed
    case None => Reject(InvalidRequest)
    case Some(f) => if !Lookup(MethodOf(parsed)) then Reject(MethodNotFound) else FetchStep(f)
  }

  /**
   * `run` as written, where an inherited member passes the table test: the
   * session stalls, or the call throws.
   */
  function DispatchAsWritten(parsed: Option<Fields>): (s: Step)
    ensures MethodOf(parsed) == None || MethodOf(parsed).value !in PrototypeNames ==> s == Dispatch(parsed)
    ensures MethodOf(parsed).Some? && MethodOf(parsed).value in InheritedNames ==> s == Stall
    ensures MethodOf(parsed).Some? && MethodOf(parsed).value in ThrowingNames ==> s == Throw
  {
    match parsed
    case None => Reject(InvalidRequest)
    case Some(f) =>
      match LookupAsWritten(MethodOf(parsed))
      case NoEntry => Reject(MethodNotFound)
      case OwnCall => FetchStep(f)
      case InheritedMember => Stall
      case ThrowingMember => Throw
  }

  /** `?method=toString` is answered with METHOD_NOT_FOUND as intended but never answered as written. */
  lemma InheritedNameStalls()
    ensures DispatchAsWritten(Some(map["method" := "toString"])) == Stall
    ensures Dispatch(Some(map["method" := "toString"])) == Reject(MethodNotFound)
  {
    assert MethodOf(Some(map["method" := "toString"])) == Some("toString");
  }

  /** `?method=__proto__` is answered with METHOD_NOT_FOUND as intended but throws as written. */
  lemma PrototypeNameThrows()
    ensures DispatchAsWritten(Some(map["method" := "__proto__"])) == Throw
    ensures Dispatch(Some(map["method" := "__proto__"])) == Reject(MethodNotFound)
  {
    assert MethodOf(Some(map["method" := "__proto__"])) == Some("__proto__");
  }

  /** What the outbound fetch did: the chunks until `end`, or its `error` message. */
  datatype FetchResult = Completed(chunks: seq<string>) | Failed(message: string)

  /**
   * The whole exchange for a parsed request, as written: the response
   * written, if any. Nothing is written exactly when the session stalls or
   * the call throws; otherwise the status is 200, 202 or 501, never 500.
   */
  function Exchange(parsed: Option<Fields>, fetch: FetchResult): (r: Option<HttpResponse>)
    ensures r.None? <==> DispatchAsWritten(parsed).Stall? || DispatchAsWritten(parsed).Throw?
    ensures r.Some? ==> r.value.status in {200, 202, 501}
  {
    match DispatchAsWritten(parsed)
    case Reject(e) => Some(Respond(Rejected(Some(e)), None))
    case Stall => None
    case Throw => None
    case Fetch(_) =>
      match fetch
      case Completed(chunks) => Some(Respond(Resolved, Some(Fetched(Join(chunks)))))
      case Failed(m) => Some(Respond(Rejected(None), Some(FetchFailed(m))))
  }

  /** A request for a reachable url is answered 200 with exactly the fetched body. */
  lemma ExchangeFetched(f: Fields, chunks: seq<string>)
    requires "method" in f && f["method"] == GetUrlContents && "url" in f && f["url"] != ""
    ensures var r := Exchange(Some(f), Completed(chunks));
            r.Some? && r.value.status == 200 && ParsePayload(r.value.body) == Some(Fetched(Join(chunks)))
  {
    RespondBody(Resolved, Some(Fetched(Join(chunks))));
  }

  /** A failed fetch is answered 202 with empty contents and the error message. */
  lemma ExchangeFetchFailed(f: Fields, message: string)
    requires "method" in f && f["method"] == GetUrlContents && "url" in f && f["url"] != ""
    ensures var r := Exchange(Some(f), Failed(message));
            r.Some? && r.value.status == 202 && ParsePayload(r.value.body) == Some(FetchFailed(message))
  {
    RespondBody(Rejected(None), Some(FetchFailed(message)));
  }

  /**
   * A missing method, or one that is neither `getURLContents` nor a name of
   * Object.prototype, is answered 501 with error code 2, whatever the fetch would do.
   */
  lemma ExchangeUnknownMethod(f: Fields, fetch: FetchResult)
    requires !("method" in f && (f["method"] == GetUrlContents || f["method"] in PrototypeNames))
    ensures var r := Exchange(Some(f), fetch);
            r.Some? && r.value.status == 501 &&
            r.value.body == MethodNotFound.str && MethodNotFound.errorCode == 2
  {
  }

  /** As written, a name of Object.prototype is never answered, whatever the fetch would do. */
  lemma ExchangeInheritedName(f: Fields, fetch: FetchResult)
    requires "method" in f && f["method"] in PrototypeNames
    ensures Exchange(Some(f), fetch) == None
  {
  }

  /** A parse result that is not an object is answered 501 with error code 1. */
  lemma ExchangeInvalid(fetch: FetchResult)
    ensures var r := Exchange(None, fetch);
            r.Some? && r.value.status == 501 &&
            r.value.body == InvalidRequest.str && InvalidRequest.errorCode == 1
  {
  }

  /**
   * One RPC session, `new RPC(request, response)`. The deferred that `resolve`,
   * `reject`, `done` and `fail` belong to is modelled as settle-once: the
   * first outcome runs the matching callback, later ones are ignored.
   */
  class Rpc {
    const isPost: bool
    /** The `request` report sent to the master in `init`. */
    var sent: Message
    /** POST body chunks received so far, and whether `end` has fired. */
    var postBody: seq<string>
    var ended: bool
    /** `currentMethod` and `currentRequest`; the prototype defaults are `''` and `{}`. */
    var currentMethod: Option<string>
    var currentRequest: Option<Fields>
    /** The url of the outbound GET, once `getURLContents` has issued it. */
    var fetching: Option<string>
    var data: seq<string>
    var response: Option<Payload>
    var error: Option<ErrorObjects.ErrorObject>
    var outcome: Option<Outcome>
    /** The status and body written to the client, if any. */
    var written: Option<HttpResponse>
    /** Whether the call found in the table threw, which ends the worker process. */
    var threw: bool

    /**
     * Settled exactly when a response has been written; a stored error record is
     * the one the session was rejected with; no written status is ever 500.
     */
    ghost predicate Valid()
      reads this
    {
      && (written.Some? <==> outcome.Some?)
      && (error.Some? ==> outcome == Some(Rejected(error)))
      && (written.Some? ==> written.value.status in {200, 202, 501})
      && (fetching.Some? ==> currentRequest.Some? && Lookup(currentMethod))
      && (threw ==> outcome.None? && fetching.None?)
    }

    /** `init` followed by the GET branch of `parse`, for a query decoded to `query`. */
    constructor Get(c: Connection, query: Option<Fields>)
      ensures Valid() && !isPost
      ensures sent == Request(Some(ChargedAddressAsWritten(c)))
      ensures currentMethod == MethodOf(query) && currentRequest == query
      ensures response == None && data == []
      ensures match DispatchAsWritten(query)
              case Reject(e) => outcome == Some(Rejected(Some(e))) && error == Some(e) &&
                                written == Some(Respond(Rejected(Some(e)), None)) && fetching == None
              case Stall => outcome == None && written == None && fetching == None
              case Throw => outcome == None && written == None && fetching == None
              case Fetch(u) => outcome == None && written == None && fetching == Some(u)
      ensures threw <==> DispatchAsWritten(query).Throw?
    {
      isPost := false;
      sent := Request(Some(ChargedAddressAsWritten(c)));
      postBody, ended := [], false;
      currentMethod, currentRequest := Some(""), Some(map[]);
      fetching, data, response, error, outcome, written := None, [], None, None, None, None;
      threw := false;
      new;
      currentMethod := MethodOf(query);
      currentRequest := query;
      if query.None? {
        Settle(Rejected(Some(InvalidRequest)));
        return;
      }
      Run();
    }

    /** `init` for a POST: report, then wait for the body. */
    constructor Post(c: Connection)
      ensures Valid() && isPost
      ensures sent == Request(Some(ChargedAddressAsWritten(c)))
      ensures postBody == [] && !ended
      ensures currentMethod == Some("") && currentRequest == Some(map[])
      ensures fetching == None && data == [] && response == None
      ensures error == None && outcome == None && written == None && !threw
    {
      isPost := true;
      sent := Request(Some(ChargedAddressAsWritten(c)));
      postBody, ended := [], false;
      currentMethod, currentRequest := Some(""), Some(map[]);
      fetching, data, response, error, outcome, written := None, [], None, None, None, None;
      threw := false;
    }

    /** The request's `data` event: keep the chunk. */
    method OnData(chunk: string)
      requires isPost && !ended
      modifies this`postBody
      ensures postBody == old(postBody) + [chunk]
      ensures Join(postBody) == Join(old(postBody)) + chunk
    {
      JoinAppend(postBody, chunk);
      postBody := postBody + [chunk];
    }

    /**
     * The request's `end` event: decode the joined body once with `decode`
     * (querystring.parse; None when the result is not an object) and dispatch.
     */
    method OnEnd(decode: string -> Option<Fields>)
      requires Valid() && isPost && !ended && outcome.None? && fetching.None? && !threw
      modifies this
      ensures Valid() && ended
      ensures var parsed := decode(old(Join(postBody)));
              && (parsed.Some? ==> currentMethod == MethodOf(parsed) && currentRequest == parsed)
              && (parsed.None? ==> currentMethod == old(currentMethod) && currentRequest == old(currentRequest))
              && match DispatchAsWritten(parsed)
                 case Reject(e) => outcome == Some(Rejected(Some(e))) && error == Some(e) &&
                                   written == Some(Respond(Rejected(Some(e)), old(response))) && fetching == None
                 case Stall => outcome == None && written == None && fetching == None
                 case Throw => outcome == None && written == None && fetching == None
                 case Fetch(u) => outcome == None && written == None && fetching == Some(u)
      ensures threw <==> DispatchAsWritten(decode(old(Join(postBody)))).Throw?
      ensures response == old(response)
      ensures unchanged(this`sent, this`postBody, this`data)
    {
      ended := true;
      var parsed := decode(Join(postBody));
      if parsed.None? {
        Settle(Rejected(Some(InvalidRequest)));
        return;
      }
      currentMethod := MethodOf(parsed);
      currentRequest := parsed;
      Run();
    }

    /**
     * `run`: look `currentMethod` up in the call table and call what it finds
     * with the whole map; an inherited member is found too, as written.
     */
    method Run()
      requires Valid() && currentRequest.Some? && currentMethod == MethodOf(currentRequest)
      requires outcome.None? && fetching.None? && !threw
      modifies this
      ensures Valid()
      ensures match DispatchAsWritten(currentRequest)
              case Reject(e) => outcome == Some(Rejected(Some(e))) && error == Some(e) &&
                                written == Some(Respond(Rejected(Some(e)), response)) && fetching == None
              case Stall => outcome == None && written == None && fetching == None
              case Throw => outcome == None && written == None && fetching == None
              case Fetch(u) => outcome == None && written == None && fetching == Some(u)
      ensures threw <==> DispatchAsWritten(currentRequest).Throw?
      ensures unchanged(this`sent, this`postBody, this`ended, this`currentMethod, this`currentRequest)
      ensures unchanged(this`response, this`data)
    {
      match LookupAsWritten(currentMethod)
      case NoEntry =>
        Settle(Rejected(Some(MethodNotFound)));
      case OwnCall =>
        GetUrlContentsCall(currentRequest.value);
      case InheritedMember =>
        // The inherited function runs with the map and returns without settling.
      case ThrowingMember =>
        threw := true;
    }

    /** `calls.getURLContents(options)`: issue the GET unless `options.url` is missing or empty. */
    method GetUrlContentsCall(options: Fields)
      requires currentRequest.Some? && Lookup(currentMethod)
      modifies this`fetching
      ensures fetching == match FetchStep(options) case Fetch(u) => Some(u) case _ => old(fetching)
    {
      if "url" !in options || options["url"] == "" {
        return;
      }
      fetching := Some(options["url"]);
    }

    /** The fetched response's `data` event. */
    method OnFetchData(chunk: string)
      requires fetching.Some?
      modifies this`data
      ensures data == old(data) + [chunk]
      ensures Join(data) == Join(old(data)) + chunk
    {
      JoinAppend(data, chunk);
      data := data + [chunk];
    }

    /** The fetched response's `end` event: store the contents, clear the chunks, resolve. */
    method OnFetchEnd()
      requires Valid() && fetching.Some?
      modifies this
      ensures Valid()
      ensures response == Some(Fetched(Join(old(data)))) && data == []
      ensures old(outcome).None? ==> outcome == Some(Resolved) &&
                                     written == Some(Respond(Resolved, response)) &&
                                     ParsePayload(written.value.body) == response
      ensures old(outcome).Some? ==> outcome == old(outcome) && written == old(written) && error == old(error)
      ensures unchanged(this`sent, this`postBody, this`ended, this`currentMethod, this`currentRequest, this`fetching)
      ensures unchanged(this`threw)
    {
      response := Some(Fetched(Join(data)));
      data := [];
      Settle(Resolved);
      RespondBody(Resolved, response);
    }

    /** The outbound request's `error` event: store the error payload, reject without a record. */
    method OnFetchError(message: string)
      requires Valid() && fetching.Some?
      modifies this
      ensures Valid()
      ensures response == Some(FetchFailed(message))
      ensures old(outcome).None? ==> outcome == Some(Rejected(None)) &&
                                     written == Some(Respond(Rejected(None), response)) &&
                                     written.value.status == 202 &&
                                     ParsePayload(written.value.body) == response
      ensures old(outcome).Some? ==> outcome == old(outcome) && written == old(written) && error == old(error)
      ensures unchanged(this`sent, this`postBody, this`ended, this`currentMethod, this`currentRequest, this`fetching)
      ensures unchanged(this`threw)
      ensures unchanged(this`data)
    {
      response := Some(FetchFailed(message));
      Settle(Rejected(None));
      RespondBody(Rejected(None), response);
    }

    /**
     * Settling the deferred: the first outcome runs its callback, which writes
     * the response and, for a rejection with a record, stores it in `error`.
     * The session only rejects without a record once a response is set, and
     * a worker whose call threw settles nothing more.
     */
    method Settle(o: Outcome)
      requires Valid() && !threw
      requires o == Rejected(None) ==> response.Some?
      modifies this`outcome, this`written, this`error
      ensures Valid()
      ensures old(outcome).None? ==> outcome == Some(o) && written == Some(Respond(o, response)) &&
                                     error == (if o.Rejected? && o.error.Some? then o.error else old(error))
      ensures old(outcome).Some? ==> unchanged(this`outcome, this`written, this`error)
    {
      if outcome.Some? {
        return;
      }
      outcome := Some(o);
      if o.Rejected? && o.error.Some? {
        error := o.error;
      }
      written := Some(Respond(o, response));
    }
  }
}
