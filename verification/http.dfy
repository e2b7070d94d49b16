/**
 * The parts of net/http and caddyhttp that both handlers rely on: the header
 * multimap, errors, requests, and what an origin handler does to the
 * http.ResponseWriter it is given, written down as a trace of calls.
 *
 * Header names are taken to be in canonical form already: net/http's
 * CanonicalMIMEHeaderKey is not part of this model.
 */
module Http {

  /** An octet of a body. */
  newtype byte = x: int | 0 <= x < 256

  /** http.Header: each name maps to its values, in the order they were added. */
  type Header = map<string, seq<string>>

  /** Header.Get: the first value stored under name, or "" when there is none. */
  function Get(h: Header, name: string): string
  {
    if name in h && |h[name]| > 0 then h[name][0] else ""
  }

  /** Header.Set: name now holds exactly one value. */
  function Set(h: Header, name: string, value: string): Header
  {
    h[name := [value]]
  }

  /** Header.Add: value is appended after the ones name already holds. */
  function Add(h: Header, name: string, value: string): Header
  {
    h[name := (if name in h then h[name] else []) + [value]]
  }

  /** Header.Del: name and all its values are gone. */
  function Del(h: Header, name: string): Header
  {
    h - {name}
  }

  /** The values under name, empty when name is absent. */
  function ValuesIn(h: Header, name: string): seq<string>
  {
    if name in h then h[name] else []
  }

  /** The error values the two handlers return or receive. */
  datatype Error =
    | Plain(message: string)                     // errors.New, fmt.Errorf
    | HandlerError(status: int, message: string) // caddyhttp.Error(status, err)
    | ScriptException(details: string)           // a script-side exception reported by the browser
    | ArgumentError(after: string)               // caddyfile.Dispenser.ArgErr at the token `after`

  /** The parts of an http.Request the handlers build or forward. */
  datatype Request = Request(httpMethod: string, url: string, header: Header)

  /**
   * One call an origin handler makes on the http.ResponseWriter it is handed:
   * WriteHeader, Write, or a change to the map that Header() returns.
   */
  datatype WriterOp =
    | WriteHeaderCall(code: int)
    | WriteCall(data: seq<byte>)
    | HeaderSet(name: string, value: string)
    | HeaderAdd(name: string, value: string)
    | HeaderDel(name: string)

  /** The status recorded by a writer that starts at status and then sees ops. */
  function StatusAfter(status: int, ops: seq<WriterOp>): int
    decreases |ops|
  {
    if ops == [] then status
    else
      var last := ops[|ops| - 1];
      if last.WriteHeaderCall? then last.code else StatusAfter(status, ops[..|ops| - 1])
  }

  /** The effect of one call on the writer's header map. */
  function ApplyToHeader(h: Header, op: WriterOp): Header
  {
    match op
    case HeaderSet(name, value) => Set(h, name, value)
    case HeaderAdd(name, value) => Add(h, name, value)
    case HeaderDel(name) => Del(h, name)
    case _ => h
  }

  /** The header map of a writer that starts with h and then sees ops. */
  function HeaderAfter(h: Header, ops: seq<WriterOp>): Header
    decreases |ops|
  {
    if ops == [] then h else ApplyToHeader(HeaderAfter(h, ops[..|ops| - 1]), ops[|ops| - 1])
  }

  /** Every byte handed to Write, in call order. */
  function Written(ops: seq<WriterOp>): seq<byte>
    decreases |ops|
  {
    if ops == [] then []
    else
      var last := ops[|ops| - 1];
      Written(ops[..|ops| - 1]) + (if last.WriteCall? then last.data else [])
  }

  /** The recorded status is the argument of the last WriteHeader call. */
  lemma {:induction false} StatusIsLastWriteHeader(status: int, ops: seq<WriterOp>, i: int)
    requires 0 <= i < |ops| && ops[i].WriteHeaderCall?
    requires forall j | i < j < |ops| :: !ops[j].WriteHeaderCall?
    ensures StatusAfter(status, ops) == ops[i].code
    decreases |ops|
  {
    if i < |ops| - 1 {
      StatusIsLastWriteHeader(status, ops[..|ops| - 1], i);
    }
  }

  /** Without a WriteHeader call the status stays what it was. */
  lemma {:induction false} StatusWithoutWriteHeader(status: int, ops: seq<WriterOp>)
    requires forall j | 0 <= j < |ops| :: !ops[j].WriteHeaderCall?
    ensures StatusAfter(status, ops) == status
    decreases |ops|
  {
    if ops != [] {
      StatusWithoutWriteHeader(status, ops[..|ops| - 1]);
    }
  }

  /** Writes append: the bytes of two traces run one after the other are concatenated. */
  lemma {:induction false} WrittenConcat(a: seq<WriterOp>, b: seq<WriterOp>)
    ensures Written(a + b) == Written(a) + Written(b)
    decreases |b|
  {
    if b != [] {
      var b' := b[..|b| - 1];
      assert (a + b)[..|a + b| - 1] == a + b';
      WrittenConcat(a, b');
    } else {
      assert a + b == a;
    }
  }
}
