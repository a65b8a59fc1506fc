/** `secureToolExecution`: the mediation pipeline around one tool call.
    Access check, injection check and input scan run first, in this order;
    the tool runs only when all three pass, inside `auditLog`, and its
    output is scanned. A rejection by the first two checks sends nothing;
    when the parameters serialize, every later outcome is reported to the
    SIEM exactly once. */
module SecureExecution {
  import opened Wrappers
  import opened Text
  import opened AgentIdentity
  import opened InputValidator
  import opened ModelArmor
  import opened SiemIntegration
  import opened AuditMiddleware

  /** A value the tool returns, known by its `JSON.stringify` (`None` for
      `undefined`). */
  datatype Value = Value(json: Option<string>)

  datatype Stage = AccessCheck | InjectionCheck | InputScan | Execute | OutputScan

  /** What the pipeline does that can be observed: the stages it runs and
      the SIEM payloads it sends. */
  datatype Step =
    | Ran(stage: Stage)
    | Sent(payload: SiemPayload)

  /** The `TypeError` of `content.matchAll` when `JSON.stringify` gave
      `undefined`. */
  const MatchAllTypeError: string := "Cannot read properties of undefined (reading 'matchAll')"

  /** The text the injection patterns are tested against: `RegExp.test`
      turns `undefined` into the string `"undefined"`. */
  function TestedText(json: Option<string>): string {
    if json.None? then "undefined" else json.value
  }

  function Report(toolName: string, agentId: string, now: string, status: Status,
                  reason: Option<string>): SiemPayload
  {
    SendToSiem(SecurityEvent(toolName, agentId, now, status, reason))
  }

  function ArmorBlockedReason(violations: seq<string>): string {
    "Model Armor: " + Join(violations, ", ")
  }

  function ViolationMessage(violations: seq<string>): string
    requires violations != []
  {
    "Content policy violation: " + violations[0]
  }

  /* ----- The specification of the pipeline ----- */

  /** The steps of the callback handed to `auditLog`. */
  function CallbackLog(toolName: string, agentId: string, now: string, outcome: Result<Value>): seq<Step> {
    match outcome
    case Err(m) => [Ran(Execute), Sent(Report(toolName, agentId, now, Error, Some(m)))]
    case Ok(v) =>
      match v.json
      case None =>
        [Ran(Execute), Ran(OutputScan), Sent(Report(toolName, agentId, now, Error, Some(MatchAllTypeError)))]
      case Some(_) => [Ran(Execute), Ran(OutputScan), Sent(Report(toolName, agentId, now, Success, None))]
  }

  /** What the callback returns or rethrows. */
  function CallbackResult(outcome: Result<Value>): Result<Value> {
    if outcome.Ok? && outcome.value.json.None? then Err(MatchAllTypeError) else outcome
  }

  /** Whether the three checks let the call through to `auditLog`. */
  predicate Admitted(toolName: string, agent: Agent, json: Option<string>) {
    && ValidateAgentAccess(agent, toolName).Pass?
    && ValidateToolInput(toolName, TestedText(json)).Pass?
    && json.Some?
    && ScanSpec(json.value).safe
  }

  /** The input scan and what follows it, given `JSON.stringify(params)`. */
  function ScreenLog(toolName: string, agentId: string, json: Option<string>, now: string,
                     outcome: Result<Value>): seq<Step>
  {
    [Ran(InputScan)]
    + match json
      case None => []
      case Some(content) =>
        var armor := ScanSpec(content);
        if !armor.safe then [Sent(Report(toolName, agentId, now, Blocked, Some(ArmorBlockedReason(armor.violations))))]
        else CallbackLog(toolName, agentId, now, outcome)
  }

  /** Everything the pipeline appends to the log. */
  function PipelineLog(toolName: string, agent: Agent, json: Option<string>, now: string,
                       outcome: Result<Value>): seq<Step>
  {
    [Ran(AccessCheck)]
    + if ValidateAgentAccess(agent, toolName).Fail? then []
      else
        [Ran(InjectionCheck)]
        + if ValidateToolInput(toolName, TestedText(json)).Fail? then []
          else ScreenLog(toolName, agent.agentId, json, now, outcome)
  }

  /** What the input scan and what follows it return or throw. */
  function ScreenResult(json: Option<string>, outcome: Result<Value>): Result<Value> {
    match json
    case None => Err(MatchAllTypeError)
    case Some(content) =>
      var armor := ScanSpec(content);
      if !armor.safe then Err(ViolationMessage(armor.violations)) else CallbackResult(outcome)
  }

  /** What the pipeline returns or throws. */
  function PipelineResult(toolName: string, agent: Agent, json: Option<string>, outcome: Result<Value>)
    : Result<Value>
  {
    var access := ValidateAgentAccess(agent, toolName);
    var injection := ValidateToolInput(toolName, TestedText(json));
    if access.Fail? then Err(access.message)
    else if injection.Fail? then Err(injection.message)
    else ScreenResult(json, outcome)
  }

  /** The module-level `armor` instance and what the pipeline emits. */
  class SecurityLayer {
    const armor: ModelArmor
    var log: seq<Step>

    constructor ()
      ensures log == []
    {
      armor := new ModelArmor();
      log := [];
    }

    /** `secureToolExecution(toolName, agent, params, executeFn)`: `json` is
        `JSON.stringify(params)`, `now` the timestamp of every record, and
        `outcome` what `executeFn` returns or throws. `span` is the audit
        span, `null` when the call is rejected before `auditLog`. */
    method SecureToolExecution(toolName: string, agent: Agent, json: Option<string>, now: string,
                               outcome: Result<Value>) returns (r: Result<Value>, span: Span?)
      modifies this`log
      ensures log == old(log) + PipelineLog(toolName, agent, json, now, outcome)
      ensures r == PipelineResult(toolName, agent, json, outcome)
      ensures span != null <==> Admitted(toolName, agent, json)
      ensures span != null ==> (
        fresh(span) && span.steps == AuditSteps(toolName, agent.agentId, json, now, CallbackResult(outcome)))
    {
      log := log + [Ran(AccessCheck)];
      var access := ValidateAgentAccess(agent, toolName);
      if access.Fail? {
        return Err(access.message), null;
      }
      log := log + [Ran(InjectionCheck)];
      var injection := ValidateToolInput(toolName, TestedText(json));
      if injection.Fail? {
        return Err(injection.message), null;
      }
      ghost var checked := log;
      r, span := Screen(toolName, agent.agentId, json, now, outcome);
      ghost var screened := ScreenLog(toolName, agent.agentId, json, now, outcome);
      AppendAssoc(old(log), [Ran(AccessCheck)], [Ran(InjectionCheck)] + screened);
      AppendAssoc(old(log) + [Ran(AccessCheck)], [Ran(InjectionCheck)], screened);
    }

    /** The input scan and what follows it: a block is reported and thrown,
        PII only warned about, and an admitted call run under `auditLog`. */
    method Screen(toolName: string, agentId: string, json: Option<string>, now: string,
                  outcome: Result<Value>) returns (r: Result<Value>, span: Span?)
      modifies this`log
      ensures log == old(log) + ScreenLog(toolName, agentId, json, now, outcome)
      ensures r == ScreenResult(json, outcome)
      ensures span != null <==> json.Some? && ScanSpec(json.value).safe
      ensures span != null ==> (
        fresh(span) && span.steps == AuditSteps(toolName, agentId, json, now, CallbackResult(outcome)))
    {
      if json.None? {
        log := log + [Ran(InputScan)];
        return Err(MatchAllTypeError), null;
      }
      var armorResult := armor.ScanInput(json.value);
      if !armorResult.safe {
        log := log + [Ran(InputScan), Sent(Report(toolName, agentId, now, Blocked, Some(ArmorBlockedReason(armorResult.violations))))];
        return Err(ViolationMessage(armorResult.violations)), null;
      }
      ghost var before := log;
      log := log + [Ran(InputScan)];
      var audit;
      r, audit := AuditedCall(toolName, agentId, json, now, outcome);
      span := audit;
      AppendAssoc(before, [Ran(InputScan)], CallbackLog(toolName, agentId, now, outcome));
    }

    /** `auditLog(toolName, agent.agentId, params, callback)`, where the
        callback is `RunCallback`. */
    method AuditedCall(toolName: string, agentId: string, json: Option<string>, now: string,
                       outcome: Result<Value>) returns (r: Result<Value>, span: Span)
      modifies this`log
      ensures fresh(span)
      ensures span.steps == AuditSteps(toolName, agentId, json, now, CallbackResult(outcome))
      ensures r == AuditResult(json, CallbackResult(outcome))
      ensures log == old(log) + (if json.Some? then CallbackLog(toolName, agentId, now, outcome) else [])
    {
      var hash;
      span, hash := OpenAudit(toolName, agentId, json, now);
      if hash.Err? {
        return Err(hash.message), span;
      }
      r := RunCallback(toolName, agentId, now, outcome);
      CloseAudit(span, r);
    }

    /** The callback handed to `auditLog`: runs the tool, scans its output
        and reports the outcome, rethrowing any error. */
    method RunCallback(toolName: string, agentId: string, now: string, outcome: Result<Value>)
      returns (r: Result<Value>)
      modifies this`log
      ensures log == old(log) + CallbackLog(toolName, agentId, now, outcome)
      ensures r == CallbackResult(outcome)
    {
      if outcome.Err? {
        log := log + [Ran(Execute), Sent(Report(toolName, agentId, now, Error, Some(outcome.message)))];
        return outcome;
      }
      if outcome.value.json.None? {
        log := log + [Ran(Execute), Ran(OutputScan), Sent(Report(toolName, agentId, now, Error, Some(MatchAllTypeError)))];
        return Err(MatchAllTypeError);
      }
      var outputArmor := armor.ScanOutput(outcome.value.json.value);
      log := log + [Ran(Execute), Ran(OutputScan), Sent(Report(toolName, agentId, now, Success, None))];
      r := outcome;
    }
  }

  /* ----- Properties of the pipeline ----- */

  /** The SIEM payloads of a log, in order. */
  function Sends(log: seq<Step>): (ps: seq<SiemPayload>)
    ensures |ps| <= |log|
  {
    if log == [] then []
    else (if log[0].Sent? then [log[0].payload] else []) + Sends(log[1..])
  }

  /** The stages of a log, in order. */
  function Stages(log: seq<Step>): (ss: seq<Stage>)
    ensures |ss| <= |log|
  {
    if log == [] then []
    else (if log[0].Ran? then [log[0].stage] else []) + Stages(log[1..])
  }

  lemma {:induction false} SendsAppend(a: seq<Step>, b: seq<Step>)
    ensures Sends(a + b) == Sends(a) + Sends(b)
    decreases |a|
  {
    if a == [] {
      assert a + b == b;
    } else {
      assert (a + b)[0] == a[0] && (a + b)[1..] == a[1..] + b;
      SendsAppend(a[1..], b);
    }
  }

  lemma {:induction false} StagesAppend(a: seq<Step>, b: seq<Step>)
    ensures Stages(a + b) == Stages(a) + Stages(b)
    decreases |a|
  {
    if a == [] {
      assert a + b == b;
    } else {
      assert (a + b)[0] == a[0] && (a + b)[1..] == a[1..] + b;
      StagesAppend(a[1..], b);
    }
  }

  lemma Single(x: Step)
    ensures Sends([x]) == (if x.Sent? then [x.payload] else [])
    ensures Stages([x]) == (if x.Ran? then [x.stage] else [])
  {
    assert [x][1..] == [];
  }

  lemma Pair(x: Step, y: Step)
    ensures Sends([x, y]) == Sends([x]) + Sends([y])
    ensures Stages([x, y]) == Stages([x]) + Stages([y])
  {
    assert [x, y] == [x] + [y];
    SendsAppend([x], [y]);
    StagesAppend([x], [y]);
  }

  /** The SIEM payload the callback sends: its status and reason follow
      what the callback returns or rethrows. */
  function CallbackEvent(toolName: string, agentId: string, now: string, outcome: Result<Value>): SiemPayload {
    var result := CallbackResult(outcome);
    Report(toolName, agentId, now, if result.Ok? then Success else Error,
           if result.Ok? then None else Some(result.message))
  }

  function CallbackStages(outcome: Result<Value>): seq<Stage> {
    if outcome.Err? then [Execute] else [Execute, OutputScan]
  }

  /** The callback runs the tool first and sends exactly one payload, which
      reports its result. */
  lemma CallbackSendsOnce(toolName: string, agentId: string, now: string, outcome: Result<Value>)
    ensures Sends(CallbackLog(toolName, agentId, now, outcome)) == [CallbackEvent(toolName, agentId, now, outcome)]
    ensures Stages(CallbackLog(toolName, agentId, now, outcome)) == CallbackStages(outcome)
  {
    var log := CallbackLog(toolName, agentId, now, outcome);
    var last := Sent(CallbackEvent(toolName, agentId, now, outcome));
    Single(last);
    Single(Ran(Execute));
    if outcome.Err? {
      assert log == [Ran(Execute), last];
      Pair(Ran(Execute), last);
    } else {
      assert log == [Ran(Execute), Ran(OutputScan)] + [last];
      Pair(Ran(Execute), Ran(OutputScan));
      Single(Ran(OutputScan));
      SendsAppend([Ran(Execute), Ran(OutputScan)], [last]);
      StagesAppend([Ran(Execute), Ran(OutputScan)], [last]);
    }
  }

  /** The payloads the input scan and what follows it send. */
  function ScreenEvents(toolName: string, agentId: string, json: Option<string>, now: string,
                        outcome: Result<Value>): seq<SiemPayload>
  {
    match json
    case None => []
    case Some(content) =>
      var armor := ScanSpec(content);
      if !armor.safe then [Report(toolName, agentId, now, Blocked, Some(ArmorBlockedReason(armor.violations)))]
      else [CallbackEvent(toolName, agentId, now, outcome)]
  }

  lemma ScreenSends(toolName: string, agentId: string, json: Option<string>, now: string,
                    outcome: Result<Value>)
    ensures Sends(ScreenLog(toolName, agentId, json, now, outcome)) == ScreenEvents(toolName, agentId, json, now, outcome)
    ensures Stages(ScreenLog(toolName, agentId, json, now, outcome))
         == [InputScan] + (if json.Some? && ScanSpec(json.value).safe then CallbackStages(outcome) else [])
  {
    var rest := ScreenLog(toolName, agentId, json, now, outcome)[1..];
    assert ScreenLog(toolName, agentId, json, now, outcome) == [Ran(InputScan)] + rest;
    SendsAppend([Ran(InputScan)], rest);
    StagesAppend([Ran(InputScan)], rest);
    Single(Ran(InputScan));
    if json.Some? {
      var armor := ScanSpec(json.value);
      if armor.safe {
        CallbackSendsOnce(toolName, agentId, now, outcome);
      } else {
        Single(Sent(Report(toolName, agentId, now, Blocked, Some(ArmorBlockedReason(armor.violations)))));
      }
    }
  }

  /** The checks before the input scan; `screen` is what follows them. */
  lemma ChecksPrefix(toolName: string, agent: Agent, json: Option<string>, now: string,
                     outcome: Result<Value>)
    requires ValidateAgentAccess(agent, toolName).Pass?
    ensures var screen := if ValidateToolInput(toolName, TestedText(json)).Pass?
        then ScreenLog(toolName, agent.agentId, json, now, outcome) else [];
      PipelineLog(toolName, agent, json, now, outcome) == [Ran(AccessCheck)] + ([Ran(InjectionCheck)] + screen)
  {
  }

  /** The two check stages in front of whatever follows them. */
  lemma ChecksSteps(screen: seq<Step>)
    ensures Sends([Ran(AccessCheck)] + ([Ran(InjectionCheck)] + screen)) == Sends(screen)
    ensures Stages([Ran(AccessCheck)] + ([Ran(InjectionCheck)] + screen))
         == [AccessCheck, InjectionCheck] + Stages(screen)
  {
    Single(Ran(AccessCheck));
    Single(Ran(InjectionCheck));
    SendsAppend([Ran(AccessCheck)], [Ran(InjectionCheck)] + screen);
    SendsAppend([Ran(InjectionCheck)], screen);
    StagesAppend([Ran(AccessCheck)], [Ran(InjectionCheck)] + screen);
    StagesAppend([Ran(InjectionCheck)], screen);
  }

  /** The payloads of the whole pipeline. */
  lemma PipelineSends(toolName: string, agent: Agent, json: Option<string>, now: string,
                      outcome: Result<Value>)
    ensures Sends(PipelineLog(toolName, agent, json, now, outcome))
         == if ValidateAgentAccess(agent, toolName).Pass?
               && ValidateToolInput(toolName, TestedText(json)).Pass?
            then ScreenEvents(toolName, agent.agentId, json, now, outcome) else []
  {
    Single(Ran(AccessCheck));
    if ValidateAgentAccess(agent, toolName).Pass? {
      var screen := if ValidateToolInput(toolName, TestedText(json)).Pass?
        then ScreenLog(toolName, agent.agentId, json, now, outcome) else [];
      ChecksPrefix(toolName, agent, json, now, outcome);
      ChecksSteps(screen);
      ScreenSends(toolName, agent.agentId, json, now, outcome);
    }
  }

  /** The stages of the whole pipeline. */
  lemma PipelineStages(toolName: string, agent: Agent, json: Option<string>, now: string,
                       outcome: Result<Value>)
    ensures Stages(PipelineLog(toolName, agent, json, now, outcome))
         == if !ValidateAgentAccess(agent, toolName).Pass? then [AccessCheck]
            else if !ValidateToolInput(toolName, TestedText(json)).Pass? then [AccessCheck, InjectionCheck]
            else [AccessCheck, InjectionCheck] + Stages(ScreenLog(toolName, agent.agentId, json, now, outcome))
  {
    Single(Ran(AccessCheck));
    if ValidateAgentAccess(agent, toolName).Pass? {
      var screen := if ValidateToolInput(toolName, TestedText(json)).Pass?
        then ScreenLog(toolName, agent.agentId, json, now, outcome) else [];
      ChecksPrefix(toolName, agent, json, now, outcome);
      ChecksSteps(screen);
    }
  }

  const StageOrder: seq<Stage> := [AccessCheck, InjectionCheck, InputScan, Execute, OutputScan]

  /** The stages always run in the fixed order, each at most once: the
      pipeline stops after some prefix of it. */
  lemma StagesInOrder(toolName: string, agent: Agent, json: Option<string>, now: string,
                      outcome: Result<Value>)
    ensures exists k :: (1 <= k <= |StageOrder|
      && Stages(PipelineLog(toolName, agent, json, now, outcome)) == StageOrder[..k])
  {
    PipelineStages(toolName, agent, json, now, outcome);
    if !ValidateAgentAccess(agent, toolName).Pass? {
      assert StageOrder[..1] == [AccessCheck];
    } else if !ValidateToolInput(toolName, TestedText(json)).Pass? {
      assert StageOrder[..2] == [AccessCheck, InjectionCheck];
    } else {
      ScreenStagesInOrder(toolName, agent.agentId, json, now, outcome);
    }
  }

  /** Past both checks, the stages are a prefix of the fixed order at least
      three long. */
  lemma ScreenStagesInOrder(toolName: string, agentId: string, json: Option<string>, now: string,
                            outcome: Result<Value>)
    ensures exists k :: (3 <= k <= |StageOrder|
      && [AccessCheck, InjectionCheck] + Stages(ScreenLog(toolName, agentId, json, now, outcome))
         == StageOrder[..k])
  {
    ScreenSends(toolName, agentId, json, now, outcome);
    OrderAfterScan(json.Some? && ScanSpec(json.value).safe, outcome);
  }

  /** The input scan, followed by the callback's stages when the input is
      admitted, continues the fixed order. */
  lemma OrderAfterScan(admitted: bool, outcome: Result<Value>)
    ensures exists k :: (3 <= k <= |StageOrder|
      && [AccessCheck, InjectionCheck] + ([InputScan] + (if admitted then CallbackStages(outcome) else []))
         == StageOrder[..k])
  {
    if admitted && outcome.Err? {
      assert [AccessCheck, InjectionCheck] + ([InputScan] + [Execute]) == StageOrder[..4];
    } else if admitted {
      assert [AccessCheck, InjectionCheck] + ([InputScan] + [Execute, OutputScan]) == StageOrder[..5];
    } else {
      assert [AccessCheck, InjectionCheck] + ([InputScan] + []) == StageOrder[..3];
    }
  }

  /** `executeFn` runs exactly when all three checks pass; PII never keeps
      it from running. */
  lemma ExecutesIffAdmitted(toolName: string, agent: Agent, json: Option<string>, now: string,
                            outcome: Result<Value>)
    ensures Ran(Execute) in PipelineLog(toolName, agent, json, now, outcome)
        <==> Admitted(toolName, agent, json)
    ensures Admitted(toolName, agent, json) <==>
      && ValidateAgentAccess(agent, toolName).Pass?
      && ValidateToolInput(toolName, TestedText(json)).Pass?
      && json.Some?
      && Violations(json.value) == []
  {
  }

  /** A rejection by the access or injection check sends nothing; every
      later outcome sends exactly one SIEM payload: the block, the error or
      the success. */
  lemma OneEventPerOutcome(toolName: string, agent: Agent, json: Option<string>, now: string,
                           outcome: Result<Value>)
    ensures var events := Sends(PipelineLog(toolName, agent, json, now, outcome));
      var reached := ValidateAgentAccess(agent, toolName).Pass?
        && ValidateToolInput(toolName, TestedText(json)).Pass? && json.Some?;
      && (!reached ==> events == [])
      && (reached ==> |events| == 1 && events[0].toolName == toolName && events[0].agentId == agent.agentId)
  {
    PipelineSends(toolName, agent, json, now, outcome);
  }

  /** An unsafe input is reported as blocked, with every violation in the
      reason, and rejected with the first violation; the tool never runs. */
  lemma BlockedInput(toolName: string, agent: Agent, content: string, now: string,
                     outcome: Result<Value>)
    requires ValidateAgentAccess(agent, toolName).Pass?
    requires ValidateToolInput(toolName, content).Pass?
    requires Violations(content) != []
    ensures Sends(PipelineLog(toolName, agent, Some(content), now, outcome))
         == [Report(toolName, agent.agentId, now, Blocked, Some(ArmorBlockedReason(Violations(content))))]
    ensures PipelineResult(toolName, agent, Some(content), outcome)
         == Err(ViolationMessage(Violations(content)))
    ensures Ran(Execute) !in PipelineLog(toolName, agent, Some(content), now, outcome)
  {
    var armor := ScanSpec(content);
    assert armor.violations == Violations(content) && !armor.safe;
    PipelineSends(toolName, agent, Some(content), now, outcome);
    ExecutesIffAdmitted(toolName, agent, Some(content), now, outcome);
  }

  /** An admitted call returns the tool's result unchanged and reports
      success, or reports the tool's error and rethrows it. */
  lemma AdmittedOutcome(toolName: string, agent: Agent, json: Option<string>, now: string,
                        outcome: Result<Value>)
    requires Admitted(toolName, agent, json)
    ensures outcome.Err? ==>
      && PipelineResult(toolName, agent, json, outcome) == outcome
      && Sends(PipelineLog(toolName, agent, json, now, outcome))
         == [Report(toolName, agent.agentId, now, Error, Some(outcome.message))]
    ensures outcome.Ok? && outcome.value.json.Some? ==>
      && PipelineResult(toolName, agent, json, outcome) == outcome
      && Sends(PipelineLog(toolName, agent, json, now, outcome))
         == [Report(toolName, agent.agentId, now, Success, None)]
  {
    PipelineSends(toolName, agent, json, now, outcome);
  }

  /** An agent whose allow-list is just `'*'` is refused every other tool by
      the access check, whatever the parameters: the call fails with the
      authorization message, the injection check never runs and nothing is
      sent. */
  lemma StarAgentRefused(toolName: string, agentId: string, level: TrustLevel, json: Option<string>,
                         now: string, outcome: Result<Value>)
    requires toolName != "*"
    ensures var agent := Agent(agentId, ["*"], level);
      && PipelineResult(toolName, agent, json, outcome) == Err(NotAuthorizedMessage(agentId, toolName))
      && PipelineLog(toolName, agent, json, now, outcome) == [Ran(AccessCheck)]
      && Sends(PipelineLog(toolName, agent, json, now, outcome)) == []
  {
    var agent := Agent(agentId, ["*"], level);
    StarIsNotWildcard(agent, toolName);
    assert PipelineLog(toolName, agent, json, now, outcome) == [Ran(AccessCheck)] + [];
    Single(Ran(AccessCheck));
  }

  lemma AppendAssoc<T>(a: seq<T>, b: seq<T>, c: seq<T>)
    ensures a + b + c == a + (b + c)
  {
  }
}
