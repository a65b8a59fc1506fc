/** The SIEM back ends: Chronicle, Splunk HEC and Elastic. Each resolves its
    configuration once, is disabled while that configuration is empty, and
    otherwise builds its own payload from a `SiemEvent`; `SiemManager` picks
    the back ends from the environment and hands every event to each. */
module SiemConnectors {
  import opened Wrappers
  import opened SiemIntegration

  datatype Severity = LOW | MEDIUM | HIGH | CRITICAL

  function SeverityName(s: Severity): string {
    match s
    case LOW => "LOW"
    case MEDIUM => "MEDIUM"
    case HIGH => "HIGH"
    case CRITICAL => "CRITICAL"
  }

  /** `metadata` values are kept as their serialized text. */
  datatype SiemEvent = SiemEvent(
    timestamp: string,
    source: string,
    severity: Severity,
    category: string,
    agentId: string,
    toolName: string,
    status: Status,
    reason: Option<string>,
    metadata: Option<map<string, string>>)

  /** `process.env`: only the variables that are defined. */
  type Env = map<string, string>

  const ChronicleEndpointVar: string := "CHRONICLE_ENDPOINT"
  const SplunkEndpointVar: string := "SPLUNK_HEC_ENDPOINT"
  const SplunkTokenVar: string := "SPLUNK_HEC_TOKEN"
  const ElasticEndpointVar: string := "ELASTIC_ENDPOINT"

  /** `name in env` with a non-empty value: JavaScript truthiness of
      `process.env[name]`. */
  predicate EnvSet(env: Env, name: string) {
    name in env && env[name] != ""
  }

  /** `arg || process.env[name] || ''`: the empty string counts as absent. */
  function Resolve(arg: Option<string>, env: Env, name: string): (r: string)
    ensures arg.Some? && arg.value != "" ==> r == arg.value
    ensures (arg.None? || arg.value == "") && EnvSet(env, name) ==> r == env[name]
    ensures r == "" <==> (arg.None? || arg.value == "") && !EnvSet(env, name)
  {
    if arg.Some? && arg.value != "" then arg.value
    else if EnvSet(env, name) then env[name]
    else ""
  }

  /** The configured back ends; the fields are fixed by the constructor. */
  datatype Connector =
    | Chronicle(endpoint: string)
    | Splunk(endpoint: string, token: string)
    | Elastic(endpoint: string)

  function NewChronicle(endpoint: Option<string>, env: Env): (c: Connector)
    ensures c.Chronicle? && c.endpoint == Resolve(endpoint, env, ChronicleEndpointVar)
  {
    Chronicle(Resolve(endpoint, env, ChronicleEndpointVar))
  }

  function NewSplunk(endpoint: Option<string>, token: Option<string>, env: Env): (c: Connector)
    ensures c.Splunk? && c.endpoint == Resolve(endpoint, env, SplunkEndpointVar)
    ensures c.token == Resolve(token, env, SplunkTokenVar)
  {
    Splunk(Resolve(endpoint, env, SplunkEndpointVar), Resolve(token, env, SplunkTokenVar))
  }

  function NewElastic(endpoint: Option<string>, env: Env): (c: Connector)
    ensures c.Elastic? && c.endpoint == Resolve(endpoint, env, ElasticEndpointVar)
  {
    Elastic(Resolve(endpoint, env, ElasticEndpointVar))
  }

  /** Whether `send` builds a payload rather than only logging that it is
      disabled. */
  predicate Enabled(c: Connector) {
    match c
    case Chronicle(endpoint) => endpoint != ""
    case Splunk(endpoint, token) => endpoint != "" && token != ""
    case Elastic(endpoint) => endpoint != ""
  }

  datatype Label = Label(key: string, value: string)

  /** What one `send` produces. */
  datatype Delivery =
    | Disabled
    | ChroniclePayload(logText: string, timestamp: string, labels: seq<Label>)
    | SplunkPayload(host: string, source: string, sourcetype: string, event: SiemEvent)
    | ElasticPayload(atTimestamp: string, event: SiemEvent)

  const SplunkHost: string := "secure-mcp-server"
  const SplunkSourcetype: string := "mcp:security"

  /** `send(event)` of one connector; `stringify` is `JSON.stringify` on
      events. */
  function Deliver(c: Connector, event: SiemEvent, stringify: SiemEvent -> string): (d: Delivery)
    ensures d.Disabled? <==> !Enabled(c)
    ensures d.ChroniclePayload? <==> c.Chronicle? && Enabled(c)
    ensures d.SplunkPayload? <==> c.Splunk? && Enabled(c)
    ensures d.ElasticPayload? <==> c.Elastic? && Enabled(c)
    ensures d.ChroniclePayload? ==> (
      d.logText == stringify(event) && d.timestamp == event.timestamp
      && d.labels == [Label("severity", SeverityName(event.severity)), Label("source", event.source)])
    ensures d.SplunkPayload? ==> (
      d.host == SplunkHost && d.source == event.source
      && d.sourcetype == SplunkSourcetype && d.event == event)
    ensures d.ElasticPayload? ==> d.atTimestamp == event.timestamp && d.event == event
  {
    if !Enabled(c) then Disabled
    else match c
      case Chronicle(_) =>
        ChroniclePayload(stringify(event), event.timestamp,
                         [Label("severity", SeverityName(event.severity)), Label("source", event.source)])
      case Splunk(_, _) => SplunkPayload(SplunkHost, event.source, SplunkSourcetype, event)
      case Elastic(_) => ElasticPayload(event.timestamp, event)
  }

  /** The connectors the manager picks for an environment, in this order. */
  function ConfiguredConnectors(env: Env): (cs: seq<Connector>)
    ensures |cs| <= 3
  {
    (if EnvSet(env, ChronicleEndpointVar) then [NewChronicle(None, env)] else [])
    + (if EnvSet(env, SplunkEndpointVar) then [NewSplunk(None, None, env)] else [])
    + (if EnvSet(env, ElasticEndpointVar) then [NewElastic(None, env)] else [])
  }

  class SiemManager {
    var connectors: seq<Connector>

    constructor (env: Env)
      ensures connectors == ConfiguredConnectors(env)
    {
      connectors := [];
      if EnvSet(env, ChronicleEndpointVar) {
        connectors := connectors + [NewChronicle(None, env)];
      }
      if EnvSet(env, SplunkEndpointVar) {
        connectors := connectors + [NewSplunk(None, None, env)];
      }
      if EnvSet(env, ElasticEndpointVar) {
        connectors := connectors + [NewElastic(None, env)];
      }
    }

    /** `send(event)`: every connector's `send`, once each, with the same
        event; the results come back in connector order. */
    function Send(event: SiemEvent, stringify: SiemEvent -> string): (ds: seq<Delivery>)
      reads this
      ensures |ds| == |connectors|
      ensures forall i :: 0 <= i < |ds| ==> ds[i] == Deliver(connectors[i], event, stringify)
    {
      seq(|connectors|, i requires 0 <= i < |connectors| reads this =>
        Deliver(connectors[i], event, stringify))
    }
  }

  /* ----- Properties of connector selection ----- */

  /** A back end is present exactly when its endpoint variable is set, and
      the order is Chronicle, Splunk, Elastic. */
  lemma ConnectorSelection(env: Env)
    ensures var cs := ConfiguredConnectors(env);
      (exists i :: 0 <= i < |cs| && cs[i].Chronicle?) <==> EnvSet(env, ChronicleEndpointVar)
    ensures var cs := ConfiguredConnectors(env);
      (exists i :: 0 <= i < |cs| && cs[i].Splunk?) <==> EnvSet(env, SplunkEndpointVar)
    ensures var cs := ConfiguredConnectors(env);
      (exists i :: 0 <= i < |cs| && cs[i].Elastic?) <==> EnvSet(env, ElasticEndpointVar)
    ensures var cs := ConfiguredConnectors(env);
      forall i, j :: 0 <= i < j < |cs| ==> Rank(cs[i]) < Rank(cs[j])
  {
    var cs := ConfiguredConnectors(env);
    if EnvSet(env, ChronicleEndpointVar) {
      assert cs[0].Chronicle?;
    }
    if EnvSet(env, SplunkEndpointVar) {
      var k := if EnvSet(env, ChronicleEndpointVar) then 1 else 0;
      assert cs[k].Splunk?;
    }
    if EnvSet(env, ElasticEndpointVar) {
      assert cs[|cs| - 1].Elastic?;
    }
  }

  function Rank(c: Connector): nat {
    match c
    case Chronicle(_) => 0
    case Splunk(_, _) => 1
    case Elastic(_) => 2
  }

  /** Every connector the manager picks is configured from the environment:
      Chronicle and Elastic are therefore enabled, while Splunk is enabled
      only when its token is set as well. */
  lemma SelectedConnectorsEnabled(env: Env)
    ensures forall c :: c in ConfiguredConnectors(env) ==>
      (Enabled(c) <==> !c.Splunk? || EnvSet(env, SplunkTokenVar))
  {
  }

  /** The connectors the manager picks take their endpoints, and Splunk its
      token, from the environment. */
  lemma ConfiguredFromEnv(env: Env)
    ensures forall c :: c in ConfiguredConnectors(env) && c.Chronicle? ==> c.endpoint == env[ChronicleEndpointVar]
    ensures forall c :: c in ConfiguredConnectors(env) && c.Splunk? ==>
      c.endpoint == env[SplunkEndpointVar]
      && c.token == (if EnvSet(env, SplunkTokenVar) then env[SplunkTokenVar] else "")
    ensures forall c :: c in ConfiguredConnectors(env) && c.Elastic? ==> c.endpoint == env[ElasticEndpointVar]
  {
  }

  /** With no SIEM variable set, the manager has nothing to send to. */
  lemma EmptyEnvironment(env: Env)
    requires !EnvSet(env, ChronicleEndpointVar) && !EnvSet(env, SplunkEndpointVar)
    requires !EnvSet(env, ElasticEndpointVar)
    ensures ConfiguredConnectors(env) == []
  {
  }

  /** A constructor argument wins over the environment. */
  lemma ArgumentOverridesEnv(endpoint: string, env: Env)
    requires endpoint != ""
    ensures NewChronicle(Some(endpoint), env) == Chronicle(endpoint)
    ensures NewElastic(Some(endpoint), env) == Elastic(endpoint)
    ensures Enabled(NewChronicle(Some(endpoint), env)) && Enabled(NewElastic(Some(endpoint), env))
  {
  }
}
