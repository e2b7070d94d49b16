/**
 * The delegation handler of auth_request/auth_request.go: before a request
 * reaches the next handler, a GET sub-request to a configured URI is run
 * through the server, and the status it gets decides whether the request
 * may go on (2xx), is refused with 401 or 403, or fails.
 *
 * URI parsing and resolution, request construction, the server and the
 * next handler are not part of this model; each is a function parameter.
 */
module AuthRequest {
  import opened Wrappers
  import opened Http
  import Decimal

  // ---------------------------------------------------------------------------
  // The sub-request
  // ---------------------------------------------------------------------------

  /** The request headers the sub-request does not carry over. */
  const DroppedHeaders: set<string> := {"Content-Type", "Content-Length"}

  /** The sub-request's header: every other header of the original request, with all its values. */
  predicate CarriesOver(original: Header, sub: Header)
  {
    && sub.Keys == original.Keys - DroppedHeaders
    && (forall name | name in sub :: sub[name] == original[name])
  }

  /** The writer the sub-request is served into: it keeps the status and header map and drops the body. */
  class SubResponseWriter {
    var statusCode: int
    var header: Header

    constructor ()
      ensures statusCode == 0 && header == map[]
    {
      statusCode := 0;
      header := map[];
    }

    /** Write: the data is counted and discarded. */
    method Write(data: seq<byte>) returns (n: int, err: Option<Error>)
      ensures n == |data| && err == None
    {
      n, err := |data|, None;
    }

    /** WriteHeader: the status is overwritten, so the last call wins. */
    method WriteHeader(code: int)
      modifies this
      ensures statusCode == code && header == old(header)
    {
      statusCode := code;
    }

    /** One call the server makes on the writer. */
    method Perform(op: WriterOp)
      modifies this
      ensures statusCode == if op.WriteHeaderCall? then op.code else old(statusCode)
      ensures header == ApplyToHeader(old(header), op)
    {
      match op
      case WriteHeaderCall(code) => WriteHeader(code);
      case WriteCall(data) => var _, _ := Write(data);
      case _ => header := ApplyToHeader(header, op);
    }

    /** The server's calls, in order. */
    method Replay(ops: seq<WriterOp>)
      modifies this
      ensures statusCode == StatusAfter(old(statusCode), ops)
      ensures header == HeaderAfter(old(header), ops)
    {
      for i := 0 to |ops|
        invariant statusCode == StatusAfter(old(statusCode), ops[..i])
        invariant header == HeaderAfter(old(header), ops[..i])
      {
        assert ops[..i + 1][..i] == ops[..i];
        Perform(ops[i]);
      }
      assert ops[..|ops|] == ops;
    }
  }

  // ---------------------------------------------------------------------------
  // From the sub-response status to the outcome
  // ---------------------------------------------------------------------------

  datatype Verdict = Unauthorized | Forbidden | Unexpected(code: int) | Allow

  /** The if/else chain on the sub-response status. */
  function Judge(status: int): (v: Verdict)
    ensures v == Allow <==> 200 <= status < 300
    ensures v == Unauthorized <==> status == 401
    ensures v == Forbidden <==> status == 403
    ensures v.Unexpected? <==> (status < 200 || status >= 300) && status != 401 && status != 403
    ensures v.Unexpected? ==> v.code == status
  {
    if status == 401 then Unauthorized
    else if status == 403 then Forbidden
    else if status < 200 || status >= 300 then Unexpected(status)
    else Allow
  }

  /** The text of the error for a status that is neither 2xx, 401 nor 403. */
  function UnexpectedMessage(code: int): string
  {
    "sub-request returned unexpected error code [" + Decimal.Text(code) + "]"
  }

  const UnexpectedPrefix: string := "sub-request returned unexpected error code ["

  /** The error returned for a verdict; none when the request may go on. */
  function VerdictError(v: Verdict): (e: Option<Error>)
    ensures e.None? <==> v == Allow
    ensures v == Unauthorized ==> e == Some(HandlerError(401, "unauthorized"))
    ensures v == Forbidden ==> e == Some(HandlerError(403, "forbidden"))
    ensures v.Unexpected? ==> e.Some? && e.value.Plain?
  {
    match v
    case Unauthorized => Some(HandlerError(401, "unauthorized"))
    case Forbidden => Some(HandlerError(403, "forbidden"))
    case Unexpected(code) => Some(Plain(UnexpectedMessage(code)))
    case Allow => None
  }

  /** The message names the status: the text between the brackets reads back as that status. */
  lemma UnexpectedMessageNamesCode(code: int)
    ensures var m := UnexpectedMessage(code);
            && |m| > |UnexpectedPrefix| + 1
            && m[..|UnexpectedPrefix|] == UnexpectedPrefix
            && m[|m| - 1] == ']'
            && Decimal.Parse(m[|UnexpectedPrefix|..|m| - 1]) == Some(code)
  {
    var m := UnexpectedMessage(code);
    assert m[|UnexpectedPrefix|..|m| - 1] == Decimal.Text(code);
    Decimal.ParseText(code);
  }

  /**
   * The writer starts at 0 and nothing sets it unless the server calls
   * WriteHeader: a sub-request answered with a body alone, or with nothing,
   * is refused as unexpected code 0.
   */
  lemma {:induction false} NoWriteHeaderIsUnexpected(ops: seq<WriterOp>)
    requires forall j | 0 <= j < |ops| :: !ops[j].WriteHeaderCall?
    ensures Judge(StatusAfter(0, ops)) == Unexpected(0)
    ensures VerdictError(Judge(StatusAfter(0, ops))) == Some(Plain(UnexpectedMessage(0)))
  {
    StatusWithoutWriteHeader(0, ops);
  }

  /** Caddy's answer to a handler error: its own status for an HTTP error, 500 for any other error. */
  function ClientStatus(err: Option<Error>, nextStatus: int): int
  {
    match err
    case None => nextStatus
    case Some(HandlerError(status, _)) => status
    case Some(_) => 500
  }

  /**
   * The test table: an auth endpoint that responds with 200, 401, 403, 400
   * or 500, in front of a handler that responds 200, gives the client 200,
   * 401, 403, 500 and 500.
   */
  lemma TestTable(code: int)
    requires code in {200, 401, 403, 400, 500}
    ensures ClientStatus(VerdictError(Judge(StatusAfter(0, [WriteHeaderCall(code)]))), 200) ==
            if code == 200 || code == 401 || code == 403 then code else 500
  {
  }

  // ---------------------------------------------------------------------------
  // The Caddyfile block
  // ---------------------------------------------------------------------------

  /** The configured URI after reading tokens, and the error that stopped the reading, if any. */
  datatype Parsed = Parsed(uri: string, err: Option<Error>)

  /** The closing brace of a block, which the dispenser yields as a token like any other. */
  const CloseBrace: string := "}"

  /**
   * The block loop over the tokens after the opening brace, the closing
   * brace included. A `}` where a key is due ends the block; any other key
   * but `uri` is an argument error; `uri` takes the next token as its value,
   * whatever it is, so a bare `uri` just before the closing brace takes the
   * brace itself; only a `uri` that is the very last token is an argument
   * error.
   */
  function ParseEntries(tokens: seq<string>, uri: string): Parsed
    decreases |tokens|
  {
    if tokens == [] then Parsed(uri, None)
    else if tokens[0] == CloseBrace then Parsed(uri, None)
    else if tokens[0] != "uri" then Parsed(uri, Some(ArgumentError(tokens[0])))
    else if |tokens| == 1 then Parsed(uri, Some(ArgumentError("uri")))
    else ParseEntries(tokens[2..], tokens[1])
  }

  /** The blocks in order, each given by the tokens between its braces; the first error ends the reading. */
  function ParseBlocks(blocks: seq<seq<string>>, uri: string): Parsed
    decreases |blocks|
  {
    if blocks == [] then Parsed(uri, None)
    else
      var p := ParseEntries(blocks[0] + [CloseBrace], uri);
      if p.err.Some? then p else ParseBlocks(blocks[1..], p.uri)
  }

  /** The tokens between the braces of a block, which never include a bare closing brace. */
  predicate IsBody(body: seq<string>)
  {
    CloseBrace !in body
  }

  /** Every key position of a block body holds `uri`. */
  predicate UriKeys(body: seq<string>)
  {
    forall i | 0 <= i < |body| && i % 2 == 0 :: body[i] == "uri"
  }

  /**
   * The URI a well-formed body leaves: unchanged for an empty body, the last
   * value when every `uri` has one, and the closing brace when the last `uri`
   * has none.
   */
  function BodyUri(body: seq<string>, uri: string): string
  {
    if body == [] then uri
    else if |body| % 2 == 0 then body[|body| - 1]
    else CloseBrace
  }

  /** The URI left by the last non-empty block, or the starting one when every block is empty. */
  function LastUri(blocks: seq<seq<string>>, uri: string): string
    decreases |blocks|
  {
    if blocks == [] then uri
    else if blocks[|blocks| - 1] != [] then BodyUri(blocks[|blocks| - 1], uri)
    else LastUri(blocks[..|blocks| - 1], uri)
  }

  /**
   * A block is accepted exactly when every key in it is `uri`, and then it
   * leaves BodyUri: the last value wins, and a bare final `uri` stores `}`.
   */
  lemma {:induction false} BlockAccepts(body: seq<string>, uri: string)
    requires IsBody(body)
    ensures ParseEntries(body + [CloseBrace], uri).err.None? <==> UriKeys(body)
    ensures UriKeys(body) ==> ParseEntries(body + [CloseBrace], uri).uri == BodyUri(body, uri)
    decreases |body|
  {
    var tokens := body + [CloseBrace];
    if |body| >= 2 && body[0] == "uri" {
      var rest := body[2..];
      assert tokens[2..] == rest + [CloseBrace];
      assert body[1] in body;
      BlockAccepts(rest, body[1]);
      assert UriKeys(body) <==> UriKeys(rest) by {
        if UriKeys(rest) {
          forall i | 0 <= i < |body| && i % 2 == 0
            ensures body[i] == "uri"
          {
            if i >= 2 {
              assert body[i] == rest[i - 2];
            }
          }
        }
        if UriKeys(body) {
          forall i | 0 <= i < |rest| && i % 2 == 0
            ensures rest[i] == "uri"
          {
            assert rest[i] == body[i + 2];
          }
        }
      }
      if rest != [] {
        assert rest[|rest| - 1] == body[|body| - 1];
      }
    } else if body != [] {
      assert body[0] in body;
      assert tokens[0] == body[0];
      if body[0] == "uri" {
        assert tokens[1] == CloseBrace;
        assert tokens[2..] == [];
      }
    }
  }

  /** A bare `uri` just before the closing brace is accepted, and the brace becomes the URI. */
  lemma BareUriTakesBrace(body: seq<string>, uri: string)
    requires IsBody(body) && UriKeys(body) && |body| % 2 == 1
    ensures ParseEntries(body + [CloseBrace], uri) == Parsed(CloseBrace, None)
  {
    BlockAccepts(body, uri);
  }

  /** An unknown key is refused by name, wherever it stands among well-formed entries. */
  lemma {:induction false} UnknownKeyRejected(body: seq<string>, uri: string, k: int)
    requires IsBody(body)
    requires 0 <= k < |body| && k % 2 == 0 && body[k] != "uri"
    requires forall i | 0 <= i < k && i % 2 == 0 :: body[i] == "uri"
    ensures ParseEntries(body + [CloseBrace], uri).err == Some(ArgumentError(body[k]))
    decreases |body|
  {
    var tokens := body + [CloseBrace];
    assert body[k] in body;
    if k > 0 {
      var rest := body[2..];
      assert tokens[2..] == rest + [CloseBrace];
      forall i | 0 <= i < k - 2 && i % 2 == 0
        ensures rest[i] == "uri"
      {
        assert rest[i] == body[i + 2];
      }
      UnknownKeyRejected(rest, body[1], k - 2);
    } else {
      assert tokens[0] == body[0];
    }
  }

  lemma {:induction false} LastUriShift(blocks: seq<seq<string>>, uri: string)
    requires blocks != []
    ensures LastUri(blocks[1..], BodyUri(blocks[0], uri)) == LastUri(blocks, uri)
    decreases |blocks|
  {
    if |blocks| > 1 && blocks[|blocks| - 1] == [] {
      var init := blocks[..|blocks| - 1];
      assert blocks[1..][..|blocks[1..]| - 1] == init[1..];
      LastUriShift(init, uri);
    } else if |blocks| == 1 {
      assert blocks[1..] == [];
    }
  }

  /**
   * The whole configuration is accepted exactly when every block is, and
   * then the URI is the one the last non-empty block leaves; an empty block
   * at the end changes nothing.
   */
  lemma {:induction false} ParseBlocksAccepts(blocks: seq<seq<string>>, uri: string)
    requires forall b | b in blocks :: IsBody(b)
    ensures ParseBlocks(blocks, uri).err.None? <==> forall b | b in blocks :: UriKeys(b)
    ensures (forall b | b in blocks :: UriKeys(b)) ==> ParseBlocks(blocks, uri).uri == LastUri(blocks, uri)
    ensures (forall b | b in blocks :: UriKeys(b)) && blocks != [] && blocks[|blocks| - 1] == [] ==>
              ParseBlocks(blocks, uri).uri == ParseBlocks(blocks[..|blocks| - 1], uri).uri
    decreases |blocks|
  {
    if blocks != [] {
      BlockAccepts(blocks[0], uri);
      var p := ParseEntries(blocks[0] + [CloseBrace], uri);
      assert forall b | b in blocks :: b == blocks[0] || b in blocks[1..];
      assert forall b | b in blocks[1..] :: b in blocks;
      ParseBlocksAccepts(blocks[1..], p.uri);
      if forall b | b in blocks :: UriKeys(b) {
        LastUriShift(blocks, uri);
        var init := blocks[..|blocks| - 1];
        assert forall b | b in init :: b in blocks;
        ParseBlocksAccepts(init, uri);
      }
    }
  }

  // ---------------------------------------------------------------------------
  // The handler
  // ---------------------------------------------------------------------------

  /** What ServeHTTP returns, the sub-request it built, and whether it handed the request on. */
  datatype Decision = Decision(err: Option<Error>, subRequest: Option<Request>, passedOn: bool)

  class AuthRequest {
    /** The configured URI. */
    var uri: string
    /** The parsed URI, set by Provision; None until then or when parsing failed. */
    var parsedUri: Option<string>

    constructor (uri: string)
      ensures this.uri == uri && parsedUri == None
    {
      this.uri := uri;
      parsedUri := None;
    }

    /** Provision: parse the configured URI; parseError stands for url.Parse's error. */
    method Provision(parseError: string -> Option<Error>) returns (err: Option<Error>)
      modifies this
      ensures err == parseError(uri) && uri == old(uri)
      ensures parsedUri == if err.None? then Some(uri) else None
    {
      err := parseError(uri);
      parsedUri := if err.None? then Some(uri) else None;
    }

    /**
     * UnmarshalCaddyfile: the blocks of every directive occurrence, each
     * given as the tokens between its braces; the dispenser then yields
     * those tokens followed by the closing brace.
     */
    method UnmarshalCaddyfile(blocks: seq<seq<string>>) returns (err: Option<Error>)
      modifies this
      ensures Parsed(uri, err) == ParseBlocks(blocks, old(uri))
      ensures parsedUri == old(parsedUri)
    {
      for k := 0 to |blocks|
        invariant ParseBlocks(blocks, old(uri)) == ParseBlocks(blocks[k..], uri)
        invariant parsedUri == old(parsedUri)
      {
        var tokens := blocks[k] + [CloseBrace];
        var start := uri;
        var i := 0;
        while i < |tokens| && tokens[i] != CloseBrace
          invariant 0 <= i <= |tokens|
          invariant ParseEntries(tokens, start) == ParseEntries(tokens[i..], uri)
          invariant parsedUri == old(parsedUri)
        {
          if tokens[i] != "uri" {
            return Some(ArgumentError(tokens[i]));
          }
          if i + 1 == |tokens| {
            return Some(ArgumentError("uri"));
          }
          uri := tokens[i + 1];
          assert tokens[i..][2..] == tokens[i + 2..];
          i := i + 2;
        }
        assert blocks[k..][1..] == blocks[k + 1..];
      }
      err := None;
    }

    /**
     * ServeHTTP: resolve the configured URI against the request URL, build a
     * GET sub-request with the headers carried over, serve it, and decide.
     * resolve stands for ResolveReference and String, newRequestError for
     * the validation in http.NewRequestWithContext, server for the server's
     * ServeHTTP and next for the next handler.
     */
    method ServeHTTP(
      r: Request,
      resolve: (string, string) -> string,
      newRequestError: string -> Option<Error>,
      server: Request -> seq<WriterOp>,
      next: Request -> Option<Error>)
      returns (d: Decision)
      requires parsedUri.Some?
      ensures d.subRequest.None? <==> newRequestError(resolve(r.url, parsedUri.value)).Some?
      ensures d.subRequest.None? ==> d.err == newRequestError(resolve(r.url, parsedUri.value)) && !d.passedOn
      ensures d.subRequest.Some? ==>
                && d.subRequest.value.httpMethod == "GET"
                && d.subRequest.value.url == resolve(r.url, parsedUri.value)
                && CarriesOver(r.header, d.subRequest.value.header)
      ensures d.subRequest.Some? ==>
                var verdict := Judge(StatusAfter(0, server(d.subRequest.value)));
                && (d.passedOn <==> verdict == Allow)
                && d.err == (if verdict == Allow then next(r) else VerdictError(verdict))
    {
      var subUri := resolve(r.url, parsedUri.value);
      var err := newRequestError(subUri);
      if err.Some? {
        return Decision(err, None, false);
      }
      var header := r.header;
      header := Del(header, "Content-Type");
      header := Del(header, "Content-Length");
      var subRequest := Request("GET", subUri, header);
      var subResponse := new SubResponseWriter();
      subResponse.Replay(server(subRequest));
      var status := subResponse.statusCode;
      if status == 401 {
        return Decision(Some(HandlerError(401, "unauthorized")), Some(subRequest), false);
      } else if status == 403 {
        return Decision(Some(HandlerError(403, "forbidden")), Some(subRequest), false);
      } else if status < 200 || status >= 300 {
        return Decision(Some(Plain(UnexpectedMessage(status))), Some(subRequest), false);
      }
      d := Decision(next(r), Some(subRequest), true);
    }
  }
}
