/** Identifiers, modes, risks and the events of the audit log. */
module Events {
  import opened Common

  type Id = seq<byte>

  datatype Mode = ReadOnly | Interactive | Autonomous {
    predicate AllowsMutation() { this != ReadOnly }

    predicate RequiresHumanApproval() { this == Interactive }
  }

  datatype Risk = Low | Medium | High | Critical

  /** The decision recorded for a proposed action. */
  datatype Decision = Allow | Deny | RequireApproval

  /** Bulk content appears only as its hash. */
  datatype AuditEvent =
    | Genesis(auditPublicKey: string)
    | SessionStarted(session: Id, mode: Mode, profile: string)
    | SessionEnded(session: Id)
    | LlmRequest(session: Id, promptSha256: string)
    | LlmResponse(session: Id, responseSha256: string, canaryTriggered: bool)
    | PolicyDecision(session: Id, action: Id, exec: string, decision: Decision)
    | ApprovalGranted(session: Id, action: Id)
    | ExecRequested(session: Id, action: Id, exec: string, argsSha256: string)
    | ExecCompleted(session: Id, action: Id, exitCode: int, stdoutSha256: string, stderrSha256: string)
    | SnapshotTaken(session: Id, action: Id, snapshot: string)
    | RollbackPerformed(session: Id, action: Id, snapshot: string)
    | Note(message: string)
}
