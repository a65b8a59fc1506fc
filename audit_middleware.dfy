/** `auditLog`: the tool call wrapped in a tracing span that carries the
    audit attributes, the outcome and exactly one `end`; and `hashParams`. */
module AuditMiddleware {
  import opened Wrappers
  import opened Text
  import Utf8
  import Base64

  /** The `TypeError` that `Buffer.from` throws when `JSON.stringify` gave
      `undefined`, known by Node's error code. */
  const BufferTypeError: string := "ERR_INVALID_ARG_TYPE"

  /** `hashParams(params)`, given `JSON.stringify(params)` (`None` for
      `undefined`): the first 16 characters of the base 64 encoding of its
      UTF-8 bytes. */
  function HashParams(json: Option<string>): (r: Result<string>)
    ensures r.Err? <==> json.None?
    ensures r.Ok? ==> |r.value| <= 16
    ensures r.Ok? ==> StartsWith(Base64.Encode(Utf8.Encode(json.value)), r.value)
  {
    match json
    case None => Err(BufferTypeError)
    case Some(s) => Ok(SliceTo(Base64.Encode(Utf8.Encode(s)), 16))
  }

  /** The hash is the encoding of the first 12 bytes only: parameters that
      agree on those get the same hash. */
  lemma HashSeesTwelveBytes(s: string)
    requires |Utf8.Encode(s)| >= 12
    ensures HashParams(Some(s)) == Ok(Base64.Encode(Utf8.Encode(s)[..12]))
  {
    EncodingHead(Utf8.Encode(s));
  }

  /** The first 16 symbols of an encoding are those of its first 12 bytes. */
  lemma EncodingHead(bs: seq<Utf8.byte>)
    requires |bs| >= 12
    ensures SliceTo(Base64.Encode(bs), 16) == Base64.Encode(bs[..12])
  {
    var head, tail := bs[..12], bs[12..];
    assert |head| == 12;
    assert |head| % 3 == 0;
    assert head + tail == bs;
    Base64.EncodeAppend(head, tail);
    var e, f := Base64.Encode(head), Base64.Encode(tail);
    assert |e| == 16;
    assert (e + f)[..16] == e;
  }

  lemma HashCollision(s: string, t: string)
    requires |Utf8.Encode(s)| >= 12 && |Utf8.Encode(t)| >= 12
    requires Utf8.Encode(s)[..12] == Utf8.Encode(t)[..12]
    ensures HashParams(Some(s)) == HashParams(Some(t))
  {
    HashSeesTwelveBytes(s);
    HashSeesTwelveBytes(t);
  }

  /** Parameters of at most 12 bytes can be read back from their hash. */
  lemma ShortParamsRecoverable(s: string)
    requires |Utf8.Encode(s)| <= 12
    ensures HashParams(Some(s)).Ok?
    ensures Base64.Decode(HashParams(Some(s)).value) == Some(Utf8.Encode(s))
    ensures Utf8.Decode(Utf8.Encode(s)) == Some(s)
  {
    var bs := Utf8.Encode(s);
    ShortEncodingKept(bs);
    Base64.DecodeEncode(bs);
    Utf8.DecodeEncode(s);
  }

  /** At most 12 bytes encode to at most 16 symbols, all of them kept. */
  lemma ShortEncodingKept(bs: seq<Utf8.byte>)
    requires |bs| <= 12
    ensures SliceTo(Base64.Encode(bs), 16) == Base64.Encode(bs)
  {
    assert (|bs| + 2) / 3 <= 4;
  }

  datatype StatusCode = UNSET | OK | ERROR

  /** What happens to the span, in order; `RunTool` marks the call of
      `executeFn`, which is not a span operation. */
  datatype SpanStep =
    | SetAttributes(attributes: seq<(string, string)>)
    | RunTool
    | SetStatus(code: StatusCode)
    | RecordException(message: string)
    | End

  class Span {
    const name: string
    var steps: seq<SpanStep>

    constructor (name: string)
      ensures this.name == name && steps == []
    {
      this.name := name;
      steps := [];
    }

    method SetAttributes(attributes: seq<(string, string)>)
      modifies this`steps
      ensures steps == old(steps) + [SpanStep.SetAttributes(attributes)]
    {
      steps := steps + [SpanStep.SetAttributes(attributes)];
    }

    method SetStatus(code: StatusCode)
      modifies this`steps
      ensures steps == old(steps) + [SpanStep.SetStatus(code)]
    {
      steps := steps + [SpanStep.SetStatus(code)];
    }

    method RecordException(message: string)
      modifies this`steps
      ensures steps == old(steps) + [SpanStep.RecordException(message)]
    {
      steps := steps + [SpanStep.RecordException(message)];
    }

    method End()
      modifies this`steps
      ensures steps == old(steps) + [SpanStep.End]
    {
      steps := steps + [SpanStep.End];
    }

    method MarkRun()
      modifies this`steps
      ensures steps == old(steps) + [RunTool]
    {
      steps := steps + [RunTool];
    }
  }

  /** The four audit attributes. */
  function AuditAttributes(toolName: string, agentId: string, now: string, hash: string)
    : seq<(string, string)>
  {
    [("mcp.tool.name", toolName), ("mcp.agent.id", agentId),
     ("mcp.timestamp", now), ("mcp.params.hash", hash)]
  }

  /** The steps up to the call of `executeFn`, once the hash is computed. */
  function OpeningSteps(toolName: string, agentId: string, now: string, hash: string): seq<SpanStep> {
    [SetAttributes(AuditAttributes(toolName, agentId, now, hash)), RunTool]
  }

  /** The steps after `executeFn` ends with `outcome`. */
  function ClosingSteps<T>(outcome: Result<T>): seq<SpanStep> {
    (if outcome.Ok? then [SetStatus(OK)] else [SetStatus(ERROR), RecordException(outcome.message)])
    + [End]
  }

  /** The steps when computing the hash throws `message`: `executeFn` is
      never called. */
  function HashFailedSteps(message: string): seq<SpanStep> {
    [SetStatus(ERROR), RecordException(message), End]
  }

  /** The span steps of `auditLog` when `executeFn` ends with `outcome`. */
  function AuditSteps<T>(toolName: string, agentId: string, json: Option<string>, now: string,
                         outcome: Result<T>): seq<SpanStep>
  {
    match HashParams(json)
    case Err(m) => HashFailedSteps(m)
    case Ok(h) => OpeningSteps(toolName, agentId, now, h) + ClosingSteps(outcome)
  }

  /** What `auditLog` returns or rethrows. */
  function AuditResult<T>(json: Option<string>, outcome: Result<T>): Result<T> {
    match HashParams(json)
    case Err(m) => Err(m)
    case Ok(_) => outcome
  }

  /** `auditLog` up to the call of `executeFn`: the span is started and the
      audit attributes set; when the hash throws, the span is closed at once
      and `hash` carries the error. */
  method OpenAudit(toolName: string, agentId: string, json: Option<string>, now: string)
    returns (span: Span, hash: Result<string>)
    ensures fresh(span) && span.name == "mcp.tool." + toolName
    ensures hash == HashParams(json)
    ensures span.steps == match hash
      case Ok(h) => OpeningSteps(toolName, agentId, now, h)
      case Err(m) => HashFailedSteps(m)
  {
    span := new Span("mcp.tool." + toolName);
    hash := HashParams(json);
    if hash.Err? {
      span.SetStatus(ERROR);
      span.RecordException(hash.message);
      span.End();
    } else {
      span.SetAttributes(AuditAttributes(toolName, agentId, now, hash.value));
      span.MarkRun();
    }
  }

  /** `auditLog` after `executeFn` ended with `outcome`. */
  method CloseAudit<T>(span: Span, outcome: Result<T>)
    modifies span`steps
    ensures span.steps == old(span.steps) + ClosingSteps(outcome)
  {
    if outcome.Ok? {
      span.SetStatus(OK);
    } else {
      span.SetStatus(ERROR);
      span.RecordException(outcome.message);
    }
    span.End();
  }

  /** `auditLog(toolName, agentId, params, executeFn)`: `json` is
      `JSON.stringify(params)`, `now` the ISO timestamp, and `outcome` what
      `executeFn` returns or throws. */
  method AuditLog<T>(toolName: string, agentId: string, json: Option<string>, now: string,
                     outcome: Result<T>) returns (r: Result<T>, span: Span)
    ensures fresh(span) && span.name == "mcp.tool." + toolName
    ensures span.steps == AuditSteps(toolName, agentId, json, now, outcome)
    ensures r == AuditResult(json, outcome)
  {
    var hash;
    span, hash := OpenAudit(toolName, agentId, json, now);
    if hash.Err? {
      r := Err(hash.message);
    } else {
      CloseAudit(span, outcome);
      r := outcome;
    }
  }

  /* ----- Properties of the span lifecycle ----- */

  /** `end` is called exactly once, as the last step, on every path. */
  lemma EndsOnce<T>(toolName: string, agentId: string, json: Option<string>, now: string, outcome: Result<T>)
    ensures var steps := AuditSteps(toolName, agentId, json, now, outcome);
      |steps| > 0 && steps[|steps| - 1] == End && End !in steps[..|steps| - 1]
  {
  }

  /** The tool runs only after the four audit attributes are set. */
  lemma AttributesBeforeRun<T>(toolName: string, agentId: string, json: Option<string>, now: string,
                               outcome: Result<T>, i: nat)
    requires var steps := AuditSteps(toolName, agentId, json, now, outcome);
      i < |steps| && steps[i] == RunTool
    ensures json.Some? && i == 1
    ensures AuditSteps(toolName, agentId, json, now, outcome)[0]
         == SetAttributes(AuditAttributes(toolName, agentId, now, HashParams(json).value))
  {
  }

  /** The status is set once: OK exactly when the tool returned, and every
      error is recorded and rethrown unchanged. */
  lemma StatusMatchesOutcome<T>(toolName: string, agentId: string, json: Option<string>, now: string,
                                outcome: Result<T>)
    ensures var steps := AuditSteps(toolName, agentId, json, now, outcome);
      (SetStatus(OK) in steps <==> json.Some? && outcome.Ok?)
      && (SetStatus(ERROR) in steps <==> AuditResult(json, outcome).Err?)
      && (AuditResult(json, outcome).Err? ==> RecordException(AuditResult(json, outcome).message) in steps)
    ensures json.Some? ==> AuditResult(json, outcome) == outcome
  {
  }
}
