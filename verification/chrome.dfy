/**
 * The rendering proxy of chrome/chrome.go. A response whose Content-Type
 * matches the allow-list is captured instead of streamed; a headless browser
 * then loads the page, every request the browser makes is answered either
 * from the captured response (the navigation itself) or by re-entering the
 * server, and finally the captured body is replaced by the browser's markup.
 *
 * The browser session and the server re-entry are not executed here: each
 * DevTools call becomes a given outcome, and the server becomes a function
 * from a request to the trace of calls it makes on its response writer.
 */
module Chrome {
  import opened Wrappers
  import opened Http
  import Base64

  // ---------------------------------------------------------------------------
  // Configuration and the capture rule
  // ---------------------------------------------------------------------------

  /** The allow-list used when none is configured. */
  const DefaultMimeTypes: seq<string> := ["text/html"]

  /** The MIMETypes field after Provision: a nil list becomes the default, any other list stays. */
  function WithDefaultMimeTypes(configured: Option<seq<string>>): Option<seq<string>>
  {
    if configured.None? then Some(DefaultMimeTypes) else configured
  }

  /** sub occurs in s starting at offset i. */
  predicate OccursAt(s: string, sub: string, i: int)
  {
    0 <= i && i + |sub| <= |s| && s[i..i + |sub|] == sub
  }

  /** strings.Contains: sub occurs in s at some offset. */
  predicate Contains(s: string, sub: string)
  {
    exists i | 0 <= i <= |s| - |sub| :: OccursAt(s, sub, i)
  }

  /** The buffering decision: some entry of the list occurs in the Content-Type value. */
  predicate Captures(mimeTypes: seq<string>, contentType: string)
  {
    exists i | 0 <= i < |mimeTypes| :: Contains(contentType, mimeTypes[i])
  }

  /** Provision sets the list only when it is nil, so a second Provision changes nothing. */
  lemma ProvisionIdempotent(configured: Option<seq<string>>)
    ensures WithDefaultMimeTypes(configured).Some?
    ensures configured.Some? ==> WithDefaultMimeTypes(configured) == configured
    ensures WithDefaultMimeTypes(WithDefaultMimeTypes(configured)) == WithDefaultMimeTypes(configured)
  {
  }

  /** With the default list, exactly the HTML responses are captured; a JSON response is not. */
  lemma DefaultCapturesHtml(contentType: string)
    ensures Captures(DefaultMimeTypes, contentType) <==> Contains(contentType, "text/html")
    ensures Captures(DefaultMimeTypes, "text/html; charset=utf-8")
    ensures !Captures(DefaultMimeTypes, "application/json")
  {
    var json := "application/json";
    forall i | 0 <= i <= |json| - 9
      ensures !OccursAt(json, "text/html", i)
    {
      var part := json[i..i + 9];
      assert part[0] != 't' || part[1] != 'e';
    }
    assert OccursAt("text/html; charset=utf-8", "text/html", 0);
    assert DefaultMimeTypes[0] == "text/html";
  }

  /** An empty entry occurs in every value, so it captures everything, a missing Content-Type included. */
  lemma {:induction false} EmptyEntryCapturesAll(mimeTypes: seq<string>, contentType: string)
    requires "" in mimeTypes
    ensures Captures(mimeTypes, contentType)
  {
    var i :| 0 <= i < |mimeTypes| && mimeTypes[i] == "";
    assert OccursAt(contentType, mimeTypes[i], 0);
  }

  // ---------------------------------------------------------------------------
  // The navigation URL and the classification of paused requests
  // ---------------------------------------------------------------------------

  /** The URL the browser is sent to; the scheme is always http. */
  function NavigateUrl(host: string, requestUri: string): string
  {
    "http://" + host + requestUri
  }

  /** network.ResourceType, reduced to what the relay distinguishes. */
  datatype ResourceType = Document | NotDocument(kind: string)

  /**
   * A fetch.RequestPausedReply: the request the browser is holding back.
   * headers is the result of decoding the request's header JSON into a
   * string-to-string map; None when json.Unmarshal fails.
   */
  datatype Paused = Paused(
    requestId: string,
    resourceType: ResourceType,
    httpMethod: string,
    url: string,
    headers: Option<map<string, string>>)

  datatype Route = Primary | SubResource

  /** A paused request is the navigation itself only if it loads a document at exactly the navigation URL. */
  function Classify(p: Paused, navigateUrl: string): Route
  {
    if p.resourceType == Document && p.url == navigateUrl then Primary else SubResource
  }

  /** The browser's own load of the page is recognised as the navigation. */
  lemma NavigationIsPrimary(p: Paused, host: string, requestUri: string)
    requires p.resourceType == Document && p.url == NavigateUrl(host, requestUri)
    ensures Classify(p, NavigateUrl(host, requestUri)) == Primary
  {
  }

  /** Anything else goes to a sub-request: another resource type, or any other URL. */
  lemma OthersAreSubResources(p: Paused, navigateUrl: string)
    requires p.resourceType != Document || p.url != navigateUrl
    ensures Classify(p, navigateUrl) == SubResource
  {
  }

  /** Because the scheme is fixed, a document load over https never matches the navigation URL. */
  lemma HttpsDocumentIsSubResource(p: Paused, host: string, requestUri: string)
    requires |p.url| >= 8 && p.url[..8] == "https://"
    ensures Classify(p, NavigateUrl(host, requestUri)) == SubResource
  {
    var u := NavigateUrl(host, requestUri);
    assert u[4] == ':';
    assert p.url[4] == p.url[..8][4] == 's';
  }

  // ---------------------------------------------------------------------------
  // Building the sub-request
  // ---------------------------------------------------------------------------

  /** The header of the sub-request: each decoded key holds exactly its one value. */
  function CopiedHeader(decoded: map<string, string>): Header
  {
    map key | key in decoded :: [decoded[key]]
  }

  /** The loop of Header.Set calls over the decoded header map (in any order). */
  method CopyHeaders(decoded: map<string, string>) returns (h: Header)
    ensures h.Keys == decoded.Keys
    ensures forall key | key in decoded :: h[key] == [decoded[key]]
    ensures h == CopiedHeader(decoded)
  {
    h := map[];
    var pending := decoded.Keys;
    while pending != {}
      invariant pending <= decoded.Keys
      invariant h.Keys == decoded.Keys - pending
      invariant forall key | key in h :: h[key] == [decoded[key]]
      decreases |pending|
    {
      var key :| key in pending;
      h := Set(h, key, decoded[key]);
      pending := pending - {key};
    }
  }

  // ---------------------------------------------------------------------------
  // The two kinds of response the relay fulfils with
  // ---------------------------------------------------------------------------

  /**
   * The `response` interface: status, header map and body of either the
   * captured response (the recorder) or a response produced by re-entering
   * the server (a subResponseWriter).
   */
  datatype Response =
    | Recorded(status: int, header: Header, body: seq<byte>)
    | Synthesized(status: int, header: Header, body: seq<byte>)

  /** What a fresh subResponseWriter holds once the server has made the calls ops on it. */
  function Played(ops: seq<WriterOp>): Response
  {
    Synthesized(StatusAfter(0, ops), HeaderAfter(map[], ops), Written(ops))
  }

  /** The in-memory writer the server writes a sub-response into. */
  class SubResponseWriter {
    var statusCode: int
    var header: Header
    var buf: seq<byte>

    constructor ()
      ensures statusCode == 0 && header == map[] && buf == []
    {
      statusCode := 0;
      header := map[];
      buf := [];
    }

    function Status(): int
      reads this
    {
      statusCode
    }

    function Buffer(): seq<byte>
      reads this
    {
      buf
    }

    /** Write: the data is appended to the buffer and its length reported. */
    method Write(data: seq<byte>) returns (n: int, err: Option<Error>)
      modifies this
      ensures buf == old(buf) + data && n == |data| && err == None
      ensures statusCode == old(statusCode) && header == old(header)
    {
      buf := buf + data;
      n, err := |data|, None;
    }

    /** WriteHeader: the status is overwritten, so the last call wins. */
    method WriteHeader(code: int)
      modifies this
      ensures statusCode == code && header == old(header) && buf == old(buf)
    {
      statusCode := code;
    }

    /**
     * One call the server makes: WriteHeader, Write, or a change to the map
     * Header() returns, which is this writer's own header map every time.
     */
    method Perform(op: WriterOp)
      modifies this
      ensures statusCode == if op.WriteHeaderCall? then op.code else old(statusCode)
      ensures header == ApplyToHeader(old(header), op)
      ensures buf == old(buf) + (if op.WriteCall? then op.data else [])
    {
      match op
      case WriteHeaderCall(code) => WriteHeader(code);
      case WriteCall(data) => var _, _ := Write(data);
      case _ => header := ApplyToHeader(header, op);
    }

    /** The server's calls, in order. */
    method Replay(ops: seq<WriterOp>)
      modifies this
      ensures statusCode == StatusAfter(old(statusCode), ops)
      ensures header == HeaderAfter(old(header), ops)
      ensures buf == old(buf) + Written(ops)
    {
      for i := 0 to |ops|
        invariant statusCode == StatusAfter(old(statusCode), ops[..i])
        invariant header == HeaderAfter(old(header), ops[..i])
        invariant buf == old(buf) + Written(ops[..i])
      {
        assert ops[..i + 1][..i] == ops[..i];
        Perform(ops[i]);
      }
      assert ops[..|ops|] == ops;
    }
  }

  /** A sub-response reports the last status the server set, or 0 when it set none. */
  lemma SubResponseStatus(ops: seq<WriterOp>)
    ensures (forall j | 0 <= j < |ops| :: !ops[j].WriteHeaderCall?) ==> Played(ops).status == 0
    ensures forall i | 0 <= i < |ops| && ops[i].WriteHeaderCall? &&
                       (forall j | i < j < |ops| :: !ops[j].WriteHeaderCall?) ::
              Played(ops).status == ops[i].code
  {
    if forall j | 0 <= j < |ops| :: !ops[j].WriteHeaderCall? {
      StatusWithoutWriteHeader(0, ops);
    }
    forall i | 0 <= i < |ops| && ops[i].WriteHeaderCall? &&
               (forall j | i < j < |ops| :: !ops[j].WriteHeaderCall?)
      ensures Played(ops).status == ops[i].code
    {
      StatusIsLastWriteHeader(0, ops, i);
    }
  }

  // ---------------------------------------------------------------------------
  // Flattening the header multimap into fulfillment entries
  // ---------------------------------------------------------------------------

  /** fetch.HeaderEntry */
  datatype HeaderEntry = HeaderEntry(name: string, value: string)

  /** The values of the entries named name, in entry order. */
  function ValuesOf(entries: seq<HeaderEntry>, name: string): seq<string>
    decreases |entries|
  {
    if entries == [] then []
    else
      var last := entries[|entries| - 1];
      ValuesOf(entries[..|entries| - 1], name) + (if last.name == name then [last.value] else [])
  }

  ghost function PickName(names: set<string>): string
    requires names != {}
  {
    var name :| name in names; name
  }

  /** The number of values in a header map, over all names. */
  ghost function TotalValues(h: Header): nat
    decreases |h|
  {
    if h == map[] then 0
    else
      var name := PickName(h.Keys);
      |h[name]| + TotalValues(h - {name})
  }

  function Restrict(h: Header, names: set<string>): Header
  {
    map name | name in names && name in h :: h[name]
  }

  /**
   * entries lists every (name, value) pair of h once: each name's values
   * appear in their order, and there are as many entries as values.
   */
  ghost predicate Flattens(entries: seq<HeaderEntry>, h: Header)
  {
    && (forall name :: ValuesOf(entries, name) == ValuesIn(h, name))
    && |entries| == TotalValues(h)
  }

  lemma ValuesOfAppend(entries: seq<HeaderEntry>, e: HeaderEntry)
    ensures forall name :: ValuesOf(entries + [e], name) ==
                           ValuesOf(entries, name) + (if e.name == name then [e.value] else [])
  {
    assert (entries + [e])[..|entries|] == entries;
  }

  /** The count does not depend on which name is taken out first. */
  lemma {:induction false} TotalValuesRemove(h: Header, name: string)
    requires name in h
    ensures TotalValues(h) == |h[name]| + TotalValues(h - {name})
    decreases |h|
  {
    var first := PickName(h.Keys);
    if first != name {
      TotalValuesRemove(h - {first}, name);
      TotalValuesRemove(h - {name}, first);
      assert h - {first} - {name} == h - {name} - {first};
    }
  }

  lemma TotalValuesRestrict(h: Header, names: set<string>, name: string)
    requires name in names && name in h
    ensures TotalValues(Restrict(h, names)) == |h[name]| + TotalValues(Restrict(h, names - {name}))
  {
    TotalValuesRemove(Restrict(h, names), name);
    assert Restrict(h, names) - {name} == Restrict(h, names - {name});
  }

  /** One entry per value, all under the same name, in value order. */
  function EntriesFor(name: string, values: seq<string>): (e: seq<HeaderEntry>)
    ensures |e| == |values|
    ensures forall j | 0 <= j < |values| :: e[j] == HeaderEntry(name, values[j])
  {
    seq(|values|, j requires 0 <= j < |values| => HeaderEntry(name, values[j]))
  }

  /** Appending the entries of one name adds that name's values and nothing to any other name. */
  lemma {:induction false} ValuesOfEntriesFor(entries: seq<HeaderEntry>, name: string, values: seq<string>)
    ensures forall other :: ValuesOf(entries + EntriesFor(name, values), other) ==
                            ValuesOf(entries, other) + (if other == name then values else [])
    decreases |values|
  {
    if values == [] {
      assert entries + EntriesFor(name, values) == entries;
    } else {
      var init := values[..|values| - 1];
      var last := values[|values| - 1];
      ValuesOfEntriesFor(entries, name, init);
      ValuesOfAppend(entries + EntriesFor(name, init), HeaderEntry(name, last));
      assert entries + EntriesFor(name, values) == entries + EntriesFor(name, init) + [HeaderEntry(name, last)];
      assert init + [last] == values;
    }
  }

  /** The inner loop: the values of one name appended as entries. */
  method AppendEntries(entries: seq<HeaderEntry>, name: string, values: seq<string>)
    returns (out: seq<HeaderEntry>)
    ensures out == entries + EntriesFor(name, values)
  {
    out := entries;
    for j := 0 to |values|
      invariant out == entries + EntriesFor(name, values[..j])
    {
      out := out + [HeaderEntry(name, values[j])];
      assert EntriesFor(name, values[..j + 1]) == EntriesFor(name, values[..j]) + [HeaderEntry(name, values[j])];
    }
    assert values[..|values|] == values;
  }

  /** The loop's progress: the names outside pending have all their values listed, in order. */
  ghost predicate FlattenedExcept(entries: seq<HeaderEntry>, h: Header, pending: set<string>)
  {
    && pending <= h.Keys
    && (forall name :: ValuesOf(entries, name) == if name in h && name !in pending then h[name] else [])
    && |entries| + TotalValues(Restrict(h, pending)) == TotalValues(h)
  }

  lemma FlattenStart(h: Header)
    ensures FlattenedExcept([], h, h.Keys)
  {
    assert Restrict(h, h.Keys) == h;
  }

  lemma FlattenStepValues(entries: seq<HeaderEntry>, h: Header, pending: set<string>, name: string)
    requires forall other :: ValuesOf(entries, other) == if other in h && other !in pending then h[other] else []
    requires name in pending && name in h
    ensures forall other :: ValuesOf(entries + EntriesFor(name, h[name]), other) ==
                            if other in h && other !in pending - {name} then h[other] else []
  {
    ValuesOfEntriesFor(entries, name, h[name]);
  }

  lemma FlattenStep(entries: seq<HeaderEntry>, h: Header, pending: set<string>, name: string)
    requires FlattenedExcept(entries, h, pending) && name in pending
    ensures FlattenedExcept(entries + EntriesFor(name, h[name]), h, pending - {name})
  {
    FlattenStepValues(entries, h, pending, name);
    TotalValuesRestrict(h, pending, name);
  }

  lemma FlattenDone(entries: seq<HeaderEntry>, h: Header)
    requires FlattenedExcept(entries, h, {})
    ensures Flattens(entries, h)
  {
    assert Restrict(h, {}) == map[];
  }

  /** The loop over the header map and each name's values that builds the entry list. */
  method FlattenHeaders(h: Header) returns (entries: seq<HeaderEntry>)
    ensures Flattens(entries, h)
  {
    entries := [];
    var pending := h.Keys;
    FlattenStart(h);
    while pending != {}
      invariant FlattenedExcept(entries, h, pending)
      decreases |pending|
    {
      var name :| name in pending;
      FlattenStep(entries, h, pending, name);
      entries := AppendEntries(entries, name, h[name]);
      pending := pending - {name};
    }
    FlattenDone(entries, h);
  }

  /** Reading the entries back into a header map, as the receiving side does with Header.Add. */
  function Regroup(entries: seq<HeaderEntry>): Header
    decreases |entries|
  {
    if entries == [] then map[]
    else
      var last := entries[|entries| - 1];
      Add(Regroup(entries[..|entries| - 1]), last.name, last.value)
  }

  lemma {:induction false} RegroupValues(entries: seq<HeaderEntry>)
    ensures forall name :: ValuesIn(Regroup(entries), name) == ValuesOf(entries, name)
    ensures forall name | name in Regroup(entries) :: Regroup(entries)[name] != []
    decreases |entries|
  {
    if entries != [] {
      RegroupValues(entries[..|entries| - 1]);
    }
  }

  /** Every entry is named after a header of the map it came from. */
  lemma {:induction false} EntryNamesAreHeaderNames(entries: seq<HeaderEntry>, h: Header)
    requires Flattens(entries, h)
    ensures forall i | 0 <= i < |entries| :: entries[i].name in h && entries[i].value in h[entries[i].name]
  {
    RegroupValues(entries);
    forall i | 0 <= i < |entries|
      ensures entries[i].name in h && entries[i].value in h[entries[i].name]
    {
      EntryIsRegrouped(entries, i);
      assert ValuesIn(h, entries[i].name) == ValuesOf(entries, entries[i].name);
    }
  }

  lemma {:induction false} EntryIsRegrouped(entries: seq<HeaderEntry>, i: int)
    requires 0 <= i < |entries|
    ensures entries[i].value in ValuesOf(entries, entries[i].name)
    decreases |entries|
  {
    if i < |entries| - 1 {
      EntryIsRegrouped(entries[..|entries| - 1], i);
    }
  }

  /** Regrouping the flattened entries gives back the header map, less any name that held no value. */
  lemma FlattenRoundTrip(entries: seq<HeaderEntry>, h: Header)
    requires Flattens(entries, h)
    ensures Regroup(entries) == map name | name in h && h[name] != [] :: h[name]
  {
    RegroupValues(entries);
    var back := Regroup(entries);
    var expected := map name | name in h && h[name] != [] :: h[name];
    forall name
      ensures name in back <==> name in expected
      ensures name in back ==> back[name] == expected[name]
    {
      assert ValuesIn(back, name) == ValuesIn(h, name);
    }
  }

  // ---------------------------------------------------------------------------
  // One exchange of the relay loop
  // ---------------------------------------------------------------------------

  /** fetch.FulfillRequestArgs: the answer sent back for one paused request. */
  datatype Fulfillment = Fulfillment(
    requestId: string,
    responseCode: int,
    responseHeaders: seq<HeaderEntry>,
    body: string)

  /** The panics of the relay loop. */
  datatype Fault =
    | RequestRejected     // http.NewRequestWithContext refused the paused method or URL
    | MalformedHeaders    // the paused request's header JSON did not decode
    | FulfillFailed(err: Error)

  /**
   * The response a paused request is answered with: the captured one for the
   * navigation, otherwise what the server writes for a request carrying the
   * pause's method, URL and headers. accepts stands for the validation inside
   * http.NewRequestWithContext, server for the server's ServeHTTP.
   */
  function Resolve(
    p: Paused, navigateUrl: string, captured: Response,
    accepts: (string, string) -> bool, server: Request -> seq<WriterOp>): Result<Response, Fault>
  {
    if Classify(p, navigateUrl) == Primary then Ok(captured)
    else if !accepts(p.httpMethod, p.url) then Err(RequestRejected)
    else if p.headers.None? then Err(MalformedHeaders)
    else Ok(Played(server(Request(p.httpMethod, p.url, CopiedHeader(p.headers.value)))))
  }

  /** The fulfillment carries the request id, the status, every header value and the base64 body. */
  ghost predicate FulfillsWith(f: Fulfillment, requestId: string, res: Response)
  {
    && f.requestId == requestId
    && f.responseCode == res.status
    && Flattens(f.responseHeaders, res.header)
    && f.body == Base64.Encode(res.body)
  }

  /** The navigation is answered from the capture, unchanged, without re-entering the server. */
  lemma NavigationReusesCapture(
    p: Paused, host: string, requestUri: string, captured: Response,
    accepts: (string, string) -> bool, server: Request -> seq<WriterOp>)
    requires p.resourceType == Document && p.url == NavigateUrl(host, requestUri)
    ensures Resolve(p, NavigateUrl(host, requestUri), captured, accepts, server) == Ok(captured)
  {
  }

  /** A sub-resource is served from a request with the pause's method and URL, one value per decoded header. */
  lemma SubRequestCarriesPause(
    p: Paused, navigateUrl: string, captured: Response,
    accepts: (string, string) -> bool, server: Request -> seq<WriterOp>)
    requires Classify(p, navigateUrl) == SubResource && accepts(p.httpMethod, p.url) && p.headers.Some?
    ensures exists r: Request ::
              && r.httpMethod == p.httpMethod && r.url == p.url
              && r.header.Keys == p.headers.value.Keys
              && (forall key | key in r.header :: r.header[key] == [p.headers.value[key]])
              && Resolve(p, navigateUrl, captured, accepts, server) == Ok(Played(server(r)))
  {
    var r := Request(p.httpMethod, p.url, CopiedHeader(p.headers.value));
    assert r.header.Keys == p.headers.value.Keys;
  }

  /** The body decodes back to exactly the bytes of the response. */
  lemma FulfillmentBodyRoundTrip(f: Fulfillment, requestId: string, res: Response)
    requires FulfillsWith(f, requestId, res)
    ensures Base64.Decode(f.body) == Some(res.body)
  {
    Base64.DecodeEncode(res.body);
  }

  /** One pass of the relay loop's body, for one paused request. */
  method Exchange(
    p: Paused, navigateUrl: string, captured: Response,
    accepts: (string, string) -> bool, server: Request -> seq<WriterOp>)
    returns (r: Result<Fulfillment, Fault>)
    ensures r.Err? <==> Resolve(p, navigateUrl, captured, accepts, server).Err?
    ensures r.Err? ==> r.error == Resolve(p, navigateUrl, captured, accepts, server).error
    ensures r.Ok? ==> FulfillsWith(r.value, p.requestId, Resolve(p, navigateUrl, captured, accepts, server).value)
  {
    var res: Response;
    if Classify(p, navigateUrl) == Primary {
      res := captured;
    } else {
      if !accepts(p.httpMethod, p.url) {
        return Err(RequestRejected);
      }
      if p.headers.None? {
        return Err(MalformedHeaders);
      }
      var header := CopyHeaders(p.headers.value);
      var subRequest := Request(p.httpMethod, p.url, header);
      var subResponse := new SubResponseWriter();
      var ops := server(subRequest);
      subResponse.Replay(ops);
      assert subResponse.buf == Written(ops);
      res := Synthesized(subResponse.Status(), subResponse.header, subResponse.Buffer());
    }
    var entries := FlattenHeaders(res.header);
    r := Ok(Fulfillment(p.requestId, res.status, entries, Base64.Encode(res.body)));
  }

  /** A paused request as the relay receives it, with the outcome of the FulfillRequest call for it. */
  datatype Delivery = Delivery(pause: Paused, fulfillError: Option<Error>)

  /** Why the relay stops at this delivery, if it does. */
  function FaultOf(
    d: Delivery, navigateUrl: string, captured: Response,
    accepts: (string, string) -> bool, server: Request -> seq<WriterOp>): Option<Fault>
  {
    var res := Resolve(d.pause, navigateUrl, captured, accepts, server);
    if res.Err? then Some(res.error)
    else if d.fulfillError.Some? then Some(FulfillFailed(d.fulfillError.value))
    else None
  }

  /**
   * What the relay leaves: the pauses were fulfilled in arrival order, each
   * from its resolved response, and the relay stopped either at the end of
   * the stream or at the first fault.
   */
  ghost predicate Relayed(
    stream: seq<Delivery>, navigateUrl: string, captured: Response,
    accepts: (string, string) -> bool, server: Request -> seq<WriterOp>,
    sent: seq<Fulfillment>, fault: Option<Fault>)
  {
    && |sent| <= |stream|
    && (forall i | 0 <= i < |sent| ::
          && FaultOf(stream[i], navigateUrl, captured, accepts, server).None?
          && FulfillsWith(sent[i], stream[i].pause.requestId,
                          Resolve(stream[i].pause, navigateUrl, captured, accepts, server).value))
    && (fault.None? <==> |sent| == |stream|)
    && (fault.Some? ==> fault == FaultOf(stream[|sent|], navigateUrl, captured, accepts, server))
  }

  /**
   * The relay loop over the paused requests it receives, one at a time in
   * arrival order, until the stream ends (cancellation or a failed Recv) or
   * an exchange panics.
   */
  method Relay(
    stream: seq<Delivery>, navigateUrl: string, captured: Response,
    accepts: (string, string) -> bool, server: Request -> seq<WriterOp>)
    returns (sent: seq<Fulfillment>, fault: Option<Fault>)
    ensures Relayed(stream, navigateUrl, captured, accepts, server, sent, fault)
  {
    sent := [];
    var i := 0;
    while i < |stream|
      invariant 0 <= i <= |stream| && |sent| == i
      invariant forall j | 0 <= j < i ::
                  && FaultOf(stream[j], navigateUrl, captured, accepts, server).None?
                  && FulfillsWith(sent[j], stream[j].pause.requestId,
                                  Resolve(stream[j].pause, navigateUrl, captured, accepts, server).value)
    {
      var r := Exchange(stream[i].pause, navigateUrl, captured, accepts, server);
      if r.Err? {
        return sent, Some(r.error);
      }
      if stream[i].fulfillError.Some? {
        return sent, Some(FulfillFailed(stream[i].fulfillError.value));
      }
      sent := sent + [r.value];
      i := i + 1;
    }
    fault := None;
  }

  /**
   * The relay the handler runs: every fulfilled load of the page itself is
   * answered with the origin's status, every value of its headers and its
   * body, which the browser decodes back to the origin's bytes.
   */
  lemma NavigationServedFromOrigin(
    stream: seq<Delivery>, host: string, requestUri: string, origin: OriginRun,
    accepts: (string, string) -> bool, server: Request -> seq<WriterOp>,
    sent: seq<Fulfillment>, fault: Option<Fault>)
    requires Relayed(stream, NavigateUrl(host, requestUri), Recorded(origin.status, origin.header, origin.body),
                     accepts, server, sent, fault)
    ensures forall i | 0 <= i < |sent| && stream[i].pause.resourceType == Document &&
                       stream[i].pause.url == NavigateUrl(host, requestUri) ::
              && sent[i].requestId == stream[i].pause.requestId
              && sent[i].responseCode == origin.status
              && Flattens(sent[i].responseHeaders, origin.header)
              && Base64.Decode(sent[i].body) == Some(origin.body)
  {
    Base64.DecodeEncode(origin.body);
  }

  // ---------------------------------------------------------------------------
  // The final rewrite of the captured response
  // ---------------------------------------------------------------------------

  /** The bytes of a 7-bit ASCII string. */
  function Ascii(s: string): (b: seq<byte>)
    requires forall i | 0 <= i < |s| :: s[i] < 128 as char
    ensures |b| == |s| && forall i | 0 <= i < |s| :: b[i] as int == s[i] as int
  {
    seq(|s|, i requires 0 <= i < |s| => s[i] as int as byte)
  }

  /** The prefix the rendered markup is written after. */
  const Doctype: seq<byte> := Ascii("<!doctype html>\n")

  /** The headers that no longer describe the rewritten body. */
  const StaleHeaders: set<string> := {"Content-Length", "Accept-Ranges", "Etag", "Last-Modified"}

  /**
   * The captured response after the rewrite: same status, the four stale
   * headers gone and every other header as it was, body replaced by the
   * doctype line followed by the markup.
   */
  function Rewritten(r: Response, outerHtml: seq<byte>): (w: Response)
    ensures w.status == r.status
    ensures forall name :: name in w.header <==> name in r.header && name !in StaleHeaders
    ensures forall name | name in w.header :: w.header[name] == r.header[name]
    ensures |w.body| == |Doctype| + |outerHtml|
    ensures w.body[..|Doctype|] == Doctype && w.body[|Doctype|..] == outerHtml
  {
    r.(header := r.header - StaleHeaders, body := Doctype + outerHtml)
  }

  /** The recorder that captured the origin's response: its status, header map and buffer. */
  class CapturedResponse {
    var status: int
    var header: Header
    var buf: seq<byte>

    constructor (status: int, header: Header, body: seq<byte>)
      ensures this.status == status && this.header == header && buf == body
    {
      this.status := status;
      this.header := header;
      buf := body;
    }

    function Snapshot(): Response
      reads this
    {
      Recorded(status, header, buf)
    }

    /** The four Header().Del calls, then Reset and two WriteString calls on the buffer. */
    method Rewrite(outerHtml: seq<byte>)
      modifies this
      ensures Snapshot() == Rewritten(old(Snapshot()), outerHtml)
    {
      header := Del(header, "Content-Length");
      header := Del(header, "Accept-Ranges");
      header := Del(header, "Etag");
      header := Del(header, "Last-Modified");
      buf := [];
      buf := buf + Doctype;
      buf := buf + outerHtml;
      assert header == old(header) - StaleHeaders;
    }
  }

  // ---------------------------------------------------------------------------
  // ServeHTTP as a sequence of steps
  // ---------------------------------------------------------------------------

  /** The DevTools calls made before navigation, in order. */
  datatype SetupStage =
    | Version | DialBrowser | NewSessionManager | CreateBrowserContext | CreateTarget
    | DialTarget | PageEnable | LoadEventFired | FetchEnable | RequestPaused

  const SetupOrder: seq<SetupStage> :=
    [Version, DialBrowser, NewSessionManager, CreateBrowserContext, CreateTarget,
     DialTarget, PageEnable, LoadEventFired, FetchEnable, RequestPaused]

  /** A call made to the browser. */
  datatype Call = Setup(stage: SetupStage) | Navigate(url: string) | Evaluate | CloseTarget | DisposeBrowserContext

  function StageIndex(stage: SetupStage): (k: nat)
    ensures k < |SetupOrder| && SetupOrder[k] == stage
  {
    match stage
    case Version => 0
    case DialBrowser => 1
    case NewSessionManager => 2
    case CreateBrowserContext => 3
    case CreateTarget => 4
    case DialTarget => 5
    case PageEnable => 6
    case LoadEventFired => 7
    case FetchEnable => 8
    case RequestPaused => 9
  }

  /** The first n setup calls. */
  function SetupCalls(n: nat): seq<Call>
    requires n <= |SetupOrder|
  {
    seq(n, i requires 0 <= i < n => Setup(SetupOrder[i]))
  }

  /** The first setup call that fails, and its error. */
  datatype SetupFailure = SetupFailure(stage: SetupStage, err: Error)

  /** What Page.Navigate reports. */
  datatype Navigation = NavigateFailed(err: Error) | NavigateErrorText(text: string) | Navigated

  /** What Runtime.Evaluate of document.documentElement.outerHTML reports, and its decoding. */
  datatype Evaluation =
    | EvaluateFailed(err: Error)
    | EvaluateException(details: string)
    | ValueUndecodable(err: Error)
    | Evaluated(outerHtml: seq<byte>)

  /** What Target.CloseTarget reports. */
  datatype TargetClose = CloseFailed(err: Error) | CloseReplied(success: bool)

  /** The outcome of every browser call of one rendering, and of the final WriteResponse. */
  datatype BrowserSteps = BrowserSteps(
    setupFailure: Option<SetupFailure>,
    targetId: string,
    navigation: Navigation,
    evaluation: Evaluation,
    close: TargetClose,
    dispose: Option<Error>,
    write: Option<Error>)

  /** What next.ServeHTTP did with the recorder: its error, and the response it declared. */
  datatype OriginRun = OriginRun(err: Option<Error>, status: int, header: Header, body: seq<byte>)

  /** What ServeHTTP returns, which browser calls it made, and the rewritten response if it got that far. */
  datatype Served = Served(err: Option<Error>, calls: seq<Call>, rewritten: Option<Response>)

  /** Every browser call succeeded, so the rewrite is reached. */
  predicate RenderSucceeds(steps: BrowserSteps)
  {
    && steps.setupFailure.None?
    && steps.navigation.Navigated?
    && steps.evaluation.Evaluated?
    && steps.close == CloseReplied(true)
    && steps.dispose.None?
  }

  /**
   * The steps after the response was captured, with the browser sent to
   * navigateUrl: the first failure ends the operation with its error.
   */
  function Render(steps: BrowserSteps, navigateUrl: string, captured: Response): Served
  {
    var setup := SetupCalls(|SetupOrder|);
    if steps.setupFailure.Some? then
      var failure := steps.setupFailure.value;
      Served(Some(failure.err), SetupCalls(StageIndex(failure.stage) + 1), None)
    else
      match steps.navigation
      case NavigateFailed(e) => Served(Some(e), setup + [Navigate(navigateUrl)], None)
      case NavigateErrorText(text) => Served(Some(Plain(text)), setup + [Navigate(navigateUrl)], None)
      case Navigated =>
        var evaluated := setup + [Navigate(navigateUrl), Evaluate];
        match steps.evaluation
        case EvaluateFailed(e) => Served(Some(e), evaluated, None)
        case EvaluateException(details) => Served(Some(ScriptException(details)), evaluated, None)
        case ValueUndecodable(e) => Served(Some(e), evaluated, None)
        case Evaluated(html) =>
          var closed := evaluated + [CloseTarget];
          match steps.close
          case CloseFailed(e) => Served(Some(e), closed, None)
          case CloseReplied(success) =>
            if !success then Served(Some(Plain("close target failed: " + steps.targetId)), closed, None)
            else if steps.dispose.Some? then Served(steps.dispose, closed + [DisposeBrowserContext], None)
            else Served(steps.write, closed + [DisposeBrowserContext], Some(Rewritten(captured, html)))
  }

  /** The rewrite happens exactly when every browser call succeeded; otherwise an error is returned. */
  lemma RewriteOnlyAfterSuccess(steps: BrowserSteps, navigateUrl: string, captured: Response)
    ensures Render(steps, navigateUrl, captured).rewritten.Some? <==> RenderSucceeds(steps)
    ensures RenderSucceeds(steps) ==>
              && Render(steps, navigateUrl, captured).rewritten == Some(Rewritten(captured, steps.evaluation.outerHtml))
              && Render(steps, navigateUrl, captured).err == steps.write
    ensures !RenderSucceeds(steps) ==> Render(steps, navigateUrl, captured).err.Some?
  {
  }

  /** A navigation that reports error text fails the operation with that text, and nothing is rewritten. */
  lemma NavigationErrorTextFails(steps: BrowserSteps, navigateUrl: string, captured: Response)
    requires steps.setupFailure.None? && steps.navigation.NavigateErrorText?
    ensures Render(steps, navigateUrl, captured).err == Some(Plain(steps.navigation.text))
    ensures Render(steps, navigateUrl, captured).rewritten.None?
  {
  }

  /**
   * The browser is sent to navigateUrl, and to nothing else: once, right
   * after the complete setup, and never when a setup call failed.
   */
  lemma NavigationFollowsSetup(steps: BrowserSteps, navigateUrl: string, captured: Response)
    ensures var calls := Render(steps, navigateUrl, captured).calls;
            && (Navigate(navigateUrl) in calls <==> steps.setupFailure.None?)
            && (forall i | 0 <= i < |calls| && calls[i].Navigate? :: i == |SetupOrder| && calls[i].url == navigateUrl)
            && (steps.setupFailure.None? ==>
                  && |calls| > |SetupOrder|
                  && calls[..|SetupOrder|] == SetupCalls(|SetupOrder|)
                  && calls[|SetupOrder|] == Navigate(navigateUrl))
  {
    var calls := Render(steps, navigateUrl, captured).calls;
    if steps.setupFailure.Some? {
      assert forall i | 0 <= i < |calls| :: calls[i].Setup?;
    } else {
      var setup := SetupCalls(|SetupOrder|);
      assert calls[..|setup|] == setup;
      assert calls[|setup|] == Navigate(navigateUrl);
      assert forall i | 0 <= i < |setup| :: setup[i].Setup?;
    }
  }

  /**
   * The target is closed and the browser context disposed only on the path
   * that rendered; when navigation or evaluation fails after the target was
   * created, neither is closed.
   */
  lemma {:induction false} TeardownOnlyAfterRender(steps: BrowserSteps, navigateUrl: string, captured: Response)
    ensures CloseTarget in Render(steps, navigateUrl, captured).calls ==>
              steps.navigation.Navigated? && steps.evaluation.Evaluated?
    ensures DisposeBrowserContext in Render(steps, navigateUrl, captured).calls ==> steps.close == CloseReplied(true)
    ensures steps.setupFailure.None? && !(steps.navigation.Navigated? && steps.evaluation.Evaluated?) ==>
              && Setup(CreateTarget) in Render(steps, navigateUrl, captured).calls
              && Setup(CreateBrowserContext) in Render(steps, navigateUrl, captured).calls
              && CloseTarget !in Render(steps, navigateUrl, captured).calls
              && DisposeBrowserContext !in Render(steps, navigateUrl, captured).calls
  {
    var calls := Render(steps, navigateUrl, captured).calls;
    var setup := SetupCalls(|SetupOrder|);
    assert setup[4] == Setup(CreateTarget) && setup[3] == Setup(CreateBrowserContext);
    if steps.setupFailure.Some? {
      assert forall i | 0 <= i < |calls| :: calls[i].Setup?;
    } else if !steps.navigation.Navigated? {
      assert calls == setup + [Navigate(navigateUrl)];
      assert calls[4] == Setup(CreateTarget) && calls[3] == Setup(CreateBrowserContext);
    } else if !steps.evaluation.Evaluated? {
      assert calls == setup + [Navigate(navigateUrl), Evaluate];
      assert calls[4] == Setup(CreateTarget) && calls[3] == Setup(CreateBrowserContext);
    } else if steps.close != CloseReplied(true) {
      assert calls == setup + [Navigate(navigateUrl), Evaluate, CloseTarget];
    }
  }

  /**
   * A failed setup step closes nothing. The calls before the failing one
   * succeeded: the browser context is left open when the failure comes after
   * CreateBrowserContext, and the target too when it comes after CreateTarget.
   */
  lemma SetupFailureLeavesOpen(steps: BrowserSteps, navigateUrl: string, captured: Response)
    requires steps.setupFailure.Some?
    ensures var calls := Render(steps, navigateUrl, captured).calls;
            && |calls| > 0
            && CloseTarget !in calls && DisposeBrowserContext !in calls
            && (Setup(CreateBrowserContext) in calls[..|calls| - 1] <==>
                StageIndex(steps.setupFailure.value.stage) > StageIndex(CreateBrowserContext))
            && (Setup(CreateTarget) in calls[..|calls| - 1] <==>
                StageIndex(steps.setupFailure.value.stage) > StageIndex(CreateTarget))
  {
    var n := StageIndex(steps.setupFailure.value.stage);
    var calls := Render(steps, navigateUrl, captured).calls;
    assert calls == SetupCalls(n + 1);
    var done := calls[..n];
    assert forall i | 0 <= i < |done| :: done[i] == Setup(SetupOrder[i]);
    assert forall i | 0 <= i < |SetupOrder| :: (SetupOrder[i] == CreateTarget <==> i == 4);
    assert forall i | 0 <= i < |SetupOrder| :: (SetupOrder[i] == CreateBrowserContext <==> i == 3);
    if n > 4 {
      assert done[4] == Setup(CreateTarget);
    }
    if n > 3 {
      assert done[3] == Setup(CreateBrowserContext);
    }
    assert forall i | 0 <= i < |calls| :: calls[i].Setup?;
  }

  /** The chrome handler. */
  class Chrome {
    /** The Chrome DevTools Protocol URL. */
    var url: string
    /** The MIME types to render; None is Go's nil slice, meaning nothing was configured. */
    var mimeTypes: Option<seq<string>>

    constructor (url: string, mimeTypes: Option<seq<string>>)
      ensures this.url == url && this.mimeTypes == mimeTypes
    {
      this.url := url;
      this.mimeTypes := mimeTypes;
    }

    /** The list the capture rule ranges over; ranging over a nil slice visits nothing. */
    function MimeList(): seq<string>
      reads this
    {
      if mimeTypes.Some? then mimeTypes.value else []
    }

    /** Provision: a nil list is replaced by the default one; a configured list, even empty, is kept. */
    method Provision()
      modifies this
      ensures mimeTypes == WithDefaultMimeTypes(old(mimeTypes))
      ensures url == old(url)
    {
      if mimeTypes.None? {
        mimeTypes := Some(DefaultMimeTypes);
      }
    }

    /** UnmarshalCaddyfile: every token the dispenser yields is stored in turn, so the last one stays. */
    method UnmarshalCaddyfile(tokens: seq<string>)
      modifies this
      ensures tokens != [] ==> url == tokens[|tokens| - 1]
      ensures tokens == [] ==> url == old(url)
      ensures mimeTypes == old(mimeTypes)
    {
      for i := 0 to |tokens|
        invariant i > 0 ==> url == tokens[i - 1]
        invariant i == 0 ==> url == old(url)
        invariant mimeTypes == old(mimeTypes)
      {
        url := tokens[i];
      }
    }

    /** The function handed to the response recorder: scan the list for an entry inside the Content-Type. */
    method ShouldBuffer(status: int, header: Header) returns (b: bool)
      ensures b <==> Captures(MimeList(), Get(header, "Content-Type"))
    {
      var contentType := Get(header, "Content-Type");
      var list := MimeList();
      for i := 0 to |list|
        invariant forall j | 0 <= j < i :: !Contains(contentType, list[j])
      {
        if Contains(contentType, list[i]) {
          return true;
        }
      }
      return false;
    }

    /**
     * ServeHTTP for a request to host and requestUri: an error from the
     * origin is returned as it is; a response that was not buffered passed
     * through and nothing else happens; a buffered one goes through the
     * browser steps with the browser sent to the request's own URL over
     * http, and, if they all succeed, is rewritten and written out. Once the
     * setup is complete, the relay answers the paused requests of stream,
     * comparing each with that same URL and answering the page itself from
     * the buffered response.
     */
    method ServeHTTP(
      host: string, requestUri: string, origin: OriginRun, steps: BrowserSteps,
      stream: seq<Delivery>, accepts: (string, string) -> bool, server: Request -> seq<WriterOp>)
      returns (s: Served, sent: seq<Fulfillment>, fault: Option<Fault>)
      ensures origin.err.Some? ==> s == Served(origin.err, [], None)
      ensures origin.err.None? && !Captures(MimeList(), Get(origin.header, "Content-Type")) ==>
                s == Served(None, [], None)
      ensures origin.err.None? && Captures(MimeList(), Get(origin.header, "Content-Type")) ==>
                s == Render(steps, NavigateUrl(host, requestUri), Recorded(origin.status, origin.header, origin.body))
      ensures s.rewritten.Some? <==>
                origin.err.None? && Captures(MimeList(), Get(origin.header, "Content-Type")) &&
                RenderSucceeds(steps)
      ensures Navigate(NavigateUrl(host, requestUri)) in s.calls <==>
                origin.err.None? && Captures(MimeList(), Get(origin.header, "Content-Type")) &&
                steps.setupFailure.None?
      ensures origin.err.None? && Captures(MimeList(), Get(origin.header, "Content-Type")) &&
              steps.setupFailure.None? ==>
                Relayed(stream, NavigateUrl(host, requestUri), Recorded(origin.status, origin.header, origin.body),
                        accepts, server, sent, fault)
      ensures !(origin.err.None? && Captures(MimeList(), Get(origin.header, "Content-Type")) &&
                steps.setupFailure.None?) ==>
                sent == [] && fault == None
    {
      sent, fault := [], None;
      if origin.err.Some? {
        return Served(origin.err, [], None), sent, fault;
      }
      var buffered := ShouldBuffer(origin.status, origin.header);
      if !buffered {
        return Served(None, [], None), sent, fault;
      }
      var recorder := new CapturedResponse(origin.status, origin.header, origin.body);
      if steps.setupFailure.Some? {
        var failure := steps.setupFailure.value;
        s := Served(Some(failure.err), SetupCalls(StageIndex(failure.stage) + 1), None);
        NavigationFollowsSetup(steps, NavigateUrl(host, requestUri), recorder.Snapshot());
        return;
      }
      var navigateUrl := NavigateUrl(host, requestUri);
      sent, fault := Relay(stream, navigateUrl, recorder.Snapshot(), accepts, server);
      NavigationFollowsSetup(steps, navigateUrl, recorder.Snapshot());
      var calls := SetupCalls(|SetupOrder|) + [Navigate(navigateUrl)];
      match steps.navigation {
        case NavigateFailed(e) => return Served(Some(e), calls, None), sent, fault;
        case NavigateErrorText(text) => return Served(Some(Plain(text)), calls, None), sent, fault;
        case Navigated =>
      }
      calls := calls + [Evaluate];
      var outerHtml: seq<byte>;
      match steps.evaluation {
        case EvaluateFailed(e) => return Served(Some(e), calls, None), sent, fault;
        case EvaluateException(details) => return Served(Some(ScriptException(details)), calls, None), sent, fault;
        case ValueUndecodable(e) => return Served(Some(e), calls, None), sent, fault;
        case Evaluated(html) => outerHtml := html;
      }
      calls := calls + [CloseTarget];
      match steps.close {
        case CloseFailed(e) => return Served(Some(e), calls, None), sent, fault;
        case CloseReplied(success) =>
          if !success {
            return Served(Some(Plain("close target failed: " + steps.targetId)), calls, None), sent, fault;
          }
      }
      calls := calls + [DisposeBrowserContext];
      if steps.dispose.Some? {
        return Served(steps.dispose, calls, None), sent, fault;
      }
      recorder.Rewrite(outerHtml);
      s := Served(steps.write, calls, Some(recorder.Snapshot()));
      RewriteOnlyAfterSuccess(steps, navigateUrl, Recorded(origin.status, origin.header, origin.body));
    }
  }
}
