/** `sendToSiem`: the payload of a security event, with its source and its
    severity. */
module SiemIntegration {
  import opened Wrappers

  datatype Status = Success | Blocked | Error

  /** The event handed to `sendToSiem`. */
  datatype SecurityEvent = SecurityEvent(
    toolName: string,
    agentId: string,
    timestamp: string,
    status: Status,
    reason: Option<string>)

  /** The event's fields, then `source` and `severity`. */
  datatype SiemPayload = SiemPayload(
    toolName: string,
    agentId: string,
    timestamp: string,
    status: Status,
    reason: Option<string>,
    source: string,
    severity: string)

  const LayerSource: string := "mcp-security-layer"

  /** The fields of the payload that came from the event. */
  function EventOf(p: SiemPayload): SecurityEvent {
    SecurityEvent(p.toolName, p.agentId, p.timestamp, p.status, p.reason)
  }

  /** The payload `sendToSiem` logs; the function has no other effect and
      never fails. */
  function SendToSiem(event: SecurityEvent): (p: SiemPayload)
    ensures EventOf(p) == event
    ensures p.source == LayerSource
    ensures p.severity == "HIGH" <==> event.status == Blocked
    ensures p.severity == "HIGH" || p.severity == "INFO"
  {
    SiemPayload(event.toolName, event.agentId, event.timestamp, event.status, event.reason,
                LayerSource, if event.status == Blocked then "HIGH" else "INFO")
  }

  /** Two events give the same payload only when they are the same event. */
  lemma SendToSiemInjective(e1: SecurityEvent, e2: SecurityEvent)
    requires SendToSiem(e1) == SendToSiem(e2)
    ensures e1 == e2
  {
    assert EventOf(SendToSiem(e1)) == EventOf(SendToSiem(e2));
  }

  /** A blocked event is reported with high severity, a successful or failed
      call with informational severity. */
  lemma SeverityByStatus(toolName: string, agentId: string, timestamp: string, reason: Option<string>)
    ensures SendToSiem(SecurityEvent(toolName, agentId, timestamp, Blocked, reason)).severity == "HIGH"
    ensures SendToSiem(SecurityEvent(toolName, agentId, timestamp, Success, reason)).severity == "INFO"
    ensures SendToSiem(SecurityEvent(toolName, agentId, timestamp, Error, reason)).severity == "INFO"
  {
  }
}
