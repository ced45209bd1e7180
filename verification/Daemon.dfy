/**
 The daemon's orchestrator joined to the executor: proposing, approving and rejecting
 actions, with fallible audit appends and a fallible transport, each as one atomic
 step. The specification gives the state of both sides after each step.
 */
module Daemon {
  import opened Common
  import opened Events
  import opened Wire
  import opened Execd
  import Digest
  import Policy
  import Prompt

  /** How long a pending approval stays valid, in milliseconds. */
  const APPROVAL_TTL_MS: nat := 5 * 60 * 1000
  const MAX_PENDING: nat := 64

  /** What does not change during a session. */
  datatype Config = Config(site: Site, hashing: Digest.Hashing, session: Id, secret: Bytes, mode: Mode, profile: string,
                           secrets: Prompt.SessionSecrets, system: string, parse: string -> ModelReply)

  /** What the text of the model's answer asks for; the tool name is not checked yet. */
  datatype ModelReply = Ask | Refuse | Malformed | UseTool(exec: string, args: map<string, string>)

  /** An action that passed every gate but the human; its signed frame is kept verbatim. */
  datatype Pending = Pending(frame: Bytes, action: Id, exec: string, digest: string, argsSha256: string,
                             twoPerson: bool, createdMs: nat)

  /** Whether a frame was sent at once, or on the approval of a pending action. */
  datatype Via = AtOnce | OnApproval(id: string, echoed: string, nowMs: nat)

  /** A send, with the length of the audit log at that moment. */
  datatype Sent = Sent(frame: Bytes, action: Id, via: Via, auditLength: nat)

  /** What happened to the approval table, in order. */
  datatype TableEvent =
    | Stashed(id: string, p: Pending)
    | Consumed(id: string)
    | Approved(id: string, p: Pending, echoed: string, nowMs: nat)

  datatype State = State(number: nat, pending: map<string, Pending>, audit: seq<AuditEvent>,
                         sent: seq<Sent>, table: seq<TableEvent>)

  /** Both sides. */
  datatype System = System(d: State, x: Execd.State)

  datatype Stage =
    | AtModelContract | AtBundle | AtArguments | AtPolicy | TooManyPending | UnknownApproval | DigestMismatch
    | TwoPersonRule | RejectedByOperator | ByExecutor(stage: Execd.Stage)

  datatype Failure = AuditFailure | BackendFailure | FrameTooLong | TransportFailure

  datatype TaskOutcome =
    | Asked
    | Refused
    | Compromised
    | DeniedAt(stage: Stage)
    | ApprovalRequired(id: string, digest: string, exec: string, twoPerson: bool)
    | Executed(exec: string, result: RunResult)
    | Failed(why: Failure)

  /** What the transport does with a sent frame. */
  datatype Delivery =
    | Lost
    | Delivered(s: Surroundings)
    | ReplyLost(s: Surroundings)

  /** What the environment supplies to one proposal: fresh ids, clock readings, and how many audit appends succeed. */
  datatype Proposal = Proposal(
    exec: string, args: map<string, string>,
    action: Id, nonce: Bytes, issuedMs: nat, pruneMs: nat, createdMs: nat, approvalId: string,
    appends: nat, delivery: Delivery)

  datatype Approval = Approval(id: string, digest: string, nowMs: nat, appends: nat, delivery: Delivery)

  // ----- Specification ----------------------------------------------------------------

  function Prune(pending: map<string, Pending>, nowMs: nat): map<string, Pending> {
    map id | id in pending && pending[id].createdMs >= SaturatingSub(nowMs, APPROVAL_TTL_MS) :: pending[id]
  }

  function Remove(pending: map<string, Pending>, id: string): map<string, Pending> {
    map k | k in pending && k != id :: pending[k]
  }

  ghost function WithAudit(d: State, e: AuditEvent): State {
    d.(audit := d.audit + [e])
  }

  /** Record the reply to a sent frame. */
  ghost function Recorded(c: Config, d: State, action: Id, exec: string, o: Execd.Outcome, appends: nat): (State, TaskOutcome) {
    match o
    case Completed(result, snapshot) =>
      if appends < (if snapshot.Some? then 2 else 1) then
        (if snapshot.Some? && appends == 1 then WithAudit(d, SnapshotTaken(c.session, action, snapshot.value)) else d,
         Failed(AuditFailure))
      else
        var d' := if snapshot.Some? then WithAudit(d, SnapshotTaken(c.session, action, snapshot.value)) else d;
        (WithAudit(d', ExecCompleted(c.session, action, result.exitCode,
                                     c.hashing.sha256Hex(result.stdout), c.hashing.sha256Hex(result.stderr))),
         Executed(exec, result))
    case Rejected(stage) =>
      if appends == 0 then (d, Failed(AuditFailure))
      else (WithAudit(d, Note("executor rejected")), DeniedAt(ByExecutor(stage)))
  }

  /** Audit the request, send the frame, record the outcome. */
  ghost function Dispatched(c: Config, y: System, p: Pending, via: Via, appends: nat, delivery: Delivery): (System, TaskOutcome) {
    if appends == 0 then (y, Failed(AuditFailure))
    else
      var d1 := WithAudit(y.d, ExecRequested(c.session, p.action, p.exec, p.argsSha256));
      var d2 := d1.(sent := d1.sent + [Sent(p.frame, p.action, via, |d1.audit|)],
                    table := d1.table + (if via.OnApproval? then [Approved(via.id, p, via.echoed, via.nowMs)] else []));
      match delivery
      case Lost => (System(d2, y.x), Failed(TransportFailure))
      case ReplyLost(s) => (System(d2, After(c.site, y.x, p.frame, s)), Failed(TransportFailure))
      case Delivered(s) =>
        var r := Recorded(c, d2, p.action, p.exec, Reply(c.site, y.x, p.frame, s).outcome, appends - 1);
        (System(r.0, After(c.site, y.x, p.frame, s)), r.1)
  }

  ghost function DenyRecorded(c: Config, d: State, action: Id, exec: string, stage: Stage, appends: nat): (State, TaskOutcome) {
    if appends == 0 then (d, Failed(AuditFailure))
    else (WithAudit(d, PolicyDecision(c.session, action, exec, Deny)), DeniedAt(stage))
  }

  ghost function PolicyOn(c: Config, exec: string, m: Manifest): Policy.Outcome {
    Policy.Evaluate(c.site.engine, Question(c.profile, c.mode, exec, m))
  }

  function Auditable(o: Policy.Outcome): Decision {
    match o
    case Allowed => Allow
    case NeedsApproval(_) => RequireApproval
    case Denied(_) => Deny
    case NotAllowed => Deny
  }

  ghost function RequestOf(c: Config, p: Proposal, m: Manifest, number: nat): ExecRequest {
    NextRequest(c.session, c.mode, c.profile, number, p.action, p.exec, p.args, m.risk, m.readOnly, p.nonce, p.issuedMs)
  }

  /** The pending entry a proposal makes, once its frame is signed. */
  ghost function PendingOf(c: Config, p: Proposal, m: Manifest, frame: Bytes, twoPerson: bool): Pending {
    Pending(frame, p.action, p.exec,
            c.hashing.sha256Hex(Digest.Preimage(c.hashing, p.exec, p.args, m.payloadSha256)),
            c.hashing.sha256Hex(c.hashing.json(p.args)), twoPerson, p.createdMs)
  }

  /** Stash a signed action for approval, unless the table is full of unexpired ones. */
  ghost function StashedFor(d: State, id: string, p: Pending, pruneMs: nat): (State, TaskOutcome) {
    var pruned := Prune(d.pending, pruneMs);
    if |pruned| >= MAX_PENDING then (d.(pending := pruned), DeniedAt(TooManyPending))
    else (d.(pending := pruned[id := p], table := d.table + [Stashed(id, p)]),
          ApprovalRequired(id, p.digest, p.exec, p.twoPerson))
  }

  ghost function Proposed(c: Config, y: System, p: Proposal): (System, TaskOutcome) {
    match c.site.load(p.exec)
    case None =>
      var r := DenyRecorded(c, y.d, p.action, p.exec, AtBundle, p.appends); (System(r.0, y.x), r.1)
    case Some(m) =>
      if !c.site.argsOk(m, p.args) then
        var r := DenyRecorded(c, y.d, p.action, p.exec, AtArguments, p.appends); (System(r.0, y.x), r.1)
      else Decided(c, y, p, m)
  }

  /** The bundle verified and the arguments fit: audit the decision, sign, then act on it. */
  ghost function Decided(c: Config, y: System, p: Proposal, m: Manifest): (System, TaskOutcome) {
    if p.appends == 0 then (y, Failed(AuditFailure)) else
    var decision := PolicyOn(c, p.exec, m);
    var d1 := WithAudit(y.d, PolicyDecision(c.session, p.action, p.exec, Auditable(decision)));
    var d2 := d1.(number := SaturatingInc(y.d.number));
    match ToFrame(c.site.codec, Seal(c.site.codec, c.secret, RequestOf(c, p, m, d2.number)))
    case None => (System(d2, y.x), Failed(FrameTooLong))
    case Some(frame) =>
      match decision
      case Allowed =>
        Dispatched(c, System(d2, y.x), PendingOf(c, p, m, frame, false), AtOnce, p.appends - 1, p.delivery)
      case NeedsApproval(twoPerson) =>
        var r := StashedFor(d2, p.approvalId, PendingOf(c, p, m, frame, twoPerson), p.pruneMs);
        (System(r.0, y.x), r.1)
      case Denied(_) => (System(d2, y.x), DeniedAt(AtPolicy))
      case NotAllowed => (System(d2, y.x), DeniedAt(AtPolicy))
  }

  ghost function ConsumedIn(d: State, id: string): State {
    d.(table := d.table + [Consumed(id)])
  }

  /** Approving takes the entry out of the table before anything else is decided. */
  ghost function ApprovalHandled(c: Config, y: System, a: Approval): (System, TaskOutcome) {
    var pruned := Prune(y.d.pending, a.nowMs);
    if a.id !in pruned then (System(y.d.(pending := pruned), y.x), DeniedAt(UnknownApproval))
    else
      var p := pruned[a.id];
      var d1 := y.d.(pending := Remove(pruned, a.id));
      if p.digest != a.digest then (System(ConsumedIn(d1, a.id), y.x), DeniedAt(DigestMismatch))
      else if p.twoPerson then
        if a.appends == 0 then (System(ConsumedIn(d1, a.id), y.x), Failed(AuditFailure))
        else (System(ConsumedIn(WithAudit(d1, Note("two-person rule unsatisfied")), a.id), y.x), DeniedAt(TwoPersonRule))
      else Granted(c, System(d1, y.x), a, p)
  }

  /** The grant goes on record, then the stored frame is sent. */
  ghost function Granted(c: Config, y: System, a: Approval, p: Pending): (System, TaskOutcome) {
    if a.appends == 0 then (System(ConsumedIn(y.d, a.id), y.x), Failed(AuditFailure))
    else
      var d := WithAudit(y.d, ApprovalGranted(c.session, p.action));
      if a.appends == 1 then (System(ConsumedIn(d, a.id), y.x), Failed(AuditFailure))
      else Dispatched(c, System(d, y.x), p, OnApproval(a.id, a.digest, a.nowMs), a.appends - 1, a.delivery)
  }

  ghost function RejectionHandled(d: State, id: string): (State, TaskOutcome) {
    if id in d.pending then (ConsumedIn(d.(pending := Remove(d.pending, id)), id), DeniedAt(RejectedByOperator))
    else (d, DeniedAt(UnknownApproval))
  }

  /**
   One operator task: the instruction, the untrusted contexts, what the model answers (or
   nothing, if the backend fails), how many audit appends succeed, and what a proposal
   that comes of it is supplied with.
   */
  datatype Task = Task(instruction: string, contexts: seq<Prompt.Context>, answer: Option<string>,
                       appends: nat, p: Proposal)

  ghost predicate Leaked(c: Config, text: string) {
    Prompt.Occurs(text, c.secrets.canary)
  }

  /** The answer keeps to the contract: one of the three replies, and a safe tool name. */
  predicate KeepsContract(c: Config, text: string) {
    match c.parse(text)
    case Ask => true
    case Refuse => true
    case Malformed => false
    case UseTool(exec, _) => SafeExecName(exec)
  }

  ghost function PromptDigest(c: Config, t: Task): string {
    c.hashing.sha256Hex(c.system + "\n" + Prompt.Message(c.secrets, t.instruction, t.contexts))
  }

  /** What the exchange with the model puts on record, if every append succeeds. */
  ghost function Exchange(c: Config, t: Task): seq<AuditEvent> {
    [LlmRequest(c.session, PromptDigest(c, t))] +
    match t.answer
    case None => []
    case Some(text) =>
      [LlmResponse(c.session, c.hashing.sha256Hex(text), Leaked(c, text))] +
      if Leaked(c, text) then [SessionEnded(c.session)]
      else if KeepsContract(c, text) then []
      else [Note(VIOLATION)]
  }

  const VIOLATION: string := "model output violated the bounded contract"

  ghost function Exchanged(c: Config, d: State, t: Task): State {
    var events := Exchange(c, t);
    d.(audit := d.audit + if t.appends < |events| then events[..t.appends] else events)
  }

  /** The proposal the answer makes, if the exchange is on record and the answer is sound. */
  ghost function ToolCall(c: Config, t: Task): Option<Proposal> {
    match t.answer
    case None => None
    case Some(text) =>
      if t.appends < 2 || Leaked(c, text) || !KeepsContract(c, text) || !c.parse(text).UseTool? then None
      else Some(t.p.(exec := c.parse(text).exec, args := c.parse(text).args, appends := t.appends - 2))
  }

  /** How a task ends that makes no proposal. */
  ghost function Ending(c: Config, t: Task): TaskOutcome {
    if t.appends < |Exchange(c, t)| then Failed(AuditFailure)
    else match t.answer
      case None => Failed(BackendFailure)
      case Some(text) =>
        if Leaked(c, text) then Compromised
        else match c.parse(text)
          case Ask => Asked
          case Refuse => Refused
          case _ => DeniedAt(AtModelContract)
  }

  ghost function TaskRun(c: Config, y: System, t: Task): (System, TaskOutcome) {
    var y' := System(Exchanged(c, y.d, t), y.x);
    match ToolCall(c, t)
    case Some(p) => Proposed(c, y', p)
    case None => (y', Ending(c, t))
  }

  /** An answer that leaks the canary ends the session: nothing is proposed, sent, stashed or run. */
  lemma LeakStopsTheTask(c: Config, y: System, t: Task)
    requires t.answer.Some? && Prompt.Occurs(t.answer.value, c.secrets.canary)
    ensures var (y', o) := TaskRun(c, y, t);
            && y'.x == y.x
            && y'.d == y.d.(audit := y'.d.audit)
            && y.d.audit <= y'.d.audit
            && (forall i :: |y.d.audit| <= i < |y'.d.audit| ==>
                  y'.d.audit[i].LlmRequest? || y'.d.audit[i].LlmResponse? || y'.d.audit[i].SessionEnded?)
            && (o == Compromised <==> t.appends >= 3)
            && (o == Compromised ==> y'.d.audit[|y'.d.audit| - 1] == SessionEnded(c.session))
  {
    hide Prompt.Message, Prompt.Occurs;
  }

  lemma NothingLeft(c: Config, y: System, p: Pending, via: Via, delivery: Delivery)
    ensures Dispatched(c, y, p, via, 0, delivery) == (y, Failed(AuditFailure))
  {
  }

  // ----- The orchestrator as code -----------------------------------------------------------

  class Orchestrator {
    const config: Config
    const session: Session
    const executor: Executor
    var pending: map<string, Pending>
    var audit: seq<AuditEvent>
    /** How many more appends the audit sink takes before it fails. */
    var appends: nat
    ghost var sent: seq<Sent>
    ghost var table: seq<TableEvent>

    ghost function Repr(): set<object>
      reads this, executor, executor.rate
    {
      {this, session} + executor.Repr()
    }

    ghost predicate Valid()
      reads this, executor, executor.rate, Repr()
    {
      && this !in executor.Repr() && session !in executor.Repr()
      && executor.Valid()
      && executor.site == config.site
      && session.id == config.session && session.secret == config.secret
      && session.mode == config.mode && session.profile == config.profile
    }

    ghost function Side(): State
      reads this, session
    {
      State.State(session.number, pending, audit, sent, table)
    }

    ghost function Whole(): System
      reads this, session, executor, executor.replay, executor.rate
    {
      System(Side(), executor.Now())
    }

    constructor (config: Config, session: Session, executor: Executor)
      requires executor.Valid() && executor.site == config.site && session !in executor.Repr()
      requires session.id == config.session && session.secret == config.secret
      requires session.mode == config.mode && session.profile == config.profile
      ensures Valid() && fresh(this) && this.executor == executor && this.session == session && this.config == config
      ensures Side() == State.State(session.number, map[], [], [], [])
    {
      this.config, this.session, this.executor := config, session, executor;
      pending, audit, appends := map[], [], 0;
      sent, table := [], [];
    }

    method Append(e: AuditEvent) returns (ok: bool)
      modifies this`audit, this`appends
      ensures ok <==> old(appends) > 0
      ensures audit == if ok then old(audit) + [e] else old(audit)
      ensures appends == if ok then old(appends) - 1 else 0
    {
      ok := appends > 0;
      if ok {
        audit := audit + [e];
        appends := appends - 1;
      }
    }

    /** Refuse before policy, on the record. */
    method Deny(action: Id, exec: string, stage: Stage) returns (r: TaskOutcome)
      modifies this`audit, this`appends
      ensures (Side(), r) == DenyRecorded(config, old(Side()), action, exec, stage, old(appends))
    {
      var ok := Append(PolicyDecision(config.session, action, exec, Events.Deny));
      r := if ok then DeniedAt(stage) else Failed(AuditFailure);
    }

    method RecordOutcome(action: Id, exec: string, o: Execd.Outcome) returns (r: TaskOutcome)
      modifies this`audit, this`appends
      ensures (Side(), r) == Recorded(config, old(Side()), action, exec, o, old(appends))
    {
      match o {
        case Completed(result, snapshot) =>
          if snapshot.Some? {
            var ok := Append(SnapshotTaken(config.session, action, snapshot.value));
            if !ok {
              return Failed(AuditFailure);
            }
          }
          var ok := Append(ExecCompleted(config.session, action, result.exitCode,
                                         config.hashing.sha256Hex(result.stdout), config.hashing.sha256Hex(result.stderr)));
          r := if ok then Executed(exec, result) else Failed(AuditFailure);
        case Rejected(stage) =>
          var ok := Append(Note("executor rejected"));
          r := if ok then DeniedAt(ByExecutor(stage)) else Failed(AuditFailure);
      }
    }

    /** Nothing is sent unless the request is on the record first. */
    method Dispatch(p: Pending, ghost via: Via, delivery: Delivery) returns (r: TaskOutcome)
      requires Valid()
      requires !delivery.Lost? ==> executor.rate.clock <= delivery.s.now
      modifies Repr()
      ensures Valid() && Repr() == old(Repr())
      ensures (Whole(), r) == Dispatched(config, old(Whole()), p, via, old(appends), delivery)
    {
      hide After, Reply, Executor.Valid, Recorded;
      var ok := Append(ExecRequested(config.session, p.action, p.exec, p.argsSha256));
      if !ok {
        return Failed(AuditFailure);
      }
      sent := sent + [Sent(p.frame, p.action, via, |audit|)];
      table := table + (if via.OnApproval? then [Approved(via.id, p, via.echoed, via.nowMs)] else []);
      if delivery.Lost? {
        return Failed(TransportFailure);
      }
      var reply := executor.Handle(p.frame, delivery.s);
      if delivery.ReplyLost? {
        return Failed(TransportFailure);
      }
      r := RecordOutcome(p.action, p.exec, reply.outcome);
    }

    /** Drop expired pending approvals. */
    method PrunePending(nowMs: nat)
      modifies this`pending
      ensures pending == Prune(old(pending), nowMs)
    {
      var cutoff := SaturatingSub(nowMs, APPROVAL_TTL_MS);
      pending := map id | id in pending && pending[id].createdMs >= cutoff :: pending[id];
    }

    method Reject(id: string) returns (r: TaskOutcome)
      modifies this`pending, this`table
      ensures (Side(), r) == RejectionHandled(old(Side()), id)
    {
      if id !in pending {
        return DeniedAt(UnknownApproval);
      }
      pending := Remove(pending, id);
      table := table + [Consumed(id)];
      r := DeniedAt(RejectedByOperator);
    }

    method Approve(a: Approval) returns (r: TaskOutcome)
      requires Valid() && appends == a.appends
      requires !a.delivery.Lost? ==> executor.rate.clock <= a.delivery.s.now
      modifies Repr()
      ensures Valid() && Repr() == old(Repr())
      ensures (Whole(), r) == ApprovalHandled(config, old(Whole()), a)
    {
      hide Granted, Executor.Valid, Prune, Remove;
      PrunePending(a.nowMs);
      if a.id !in pending {
        return DeniedAt(UnknownApproval);
      }
      var p := pending[a.id];
      pending := Remove(pending, a.id);
      if p.digest != a.digest {
        table := table + [Consumed(a.id)];
        return DeniedAt(DigestMismatch);
      }
      if p.twoPerson {
        var ok := Append(Note("two-person rule unsatisfied"));
        table := table + [Consumed(a.id)];
        return if ok then DeniedAt(TwoPersonRule) else Failed(AuditFailure);
      }
      r := Grant(a, p);
    }

    /** The grant goes on record, then the stored frame is sent. */
    method Grant(a: Approval, p: Pending) returns (r: TaskOutcome)
      requires Valid() && appends == a.appends
      requires !a.delivery.Lost? ==> executor.rate.clock <= a.delivery.s.now
      modifies Repr()
      ensures Valid() && Repr() == old(Repr())
      ensures (Whole(), r) == Granted(config, old(Whole()), a, p)
    {
      hide Dispatched, Executor.Valid;
      var ok := Append(ApprovalGranted(config.session, p.action));
      if !ok {
        table := table + [Consumed(a.id)];
        return Failed(AuditFailure);
      }
      if appends == 0 {
        table := table + [Consumed(a.id)];
      }
      NothingLeft(config, Whole(), p, OnApproval(a.id, a.digest, a.nowMs), a.delivery);
      r := Dispatch(p, OnApproval(a.id, a.digest, a.nowMs), a.delivery);
    }

    /** The bundle verified and the arguments fit: audit the decision, sign, then act on it. */
    method Decide(p: Proposal, m: Manifest) returns (r: TaskOutcome)
      requires Valid() && appends == p.appends
      requires !p.delivery.Lost? ==> executor.rate.clock <= p.delivery.s.now
      modifies Repr()
      ensures Valid() && Repr() == old(Repr())
      ensures (Whole(), r) == Decided(config, old(Whole()), p, m)
    {
      hide Dispatched, StashedFor, Executor.Valid, Policy.Evaluate, Question, Seal, ToFrame, RequestOf, Digest.Preimage, Auditable;
      var decision := Policy.Evaluate(config.site.engine, Question(config.profile, config.mode, p.exec, m));
      var ok := Append(PolicyDecision(config.session, p.action, p.exec, Auditable(decision)));
      if !ok {
        return Failed(AuditFailure);
      }
      var frame := Sign(p, m);
      if frame.None? {
        return Failed(FrameTooLong);
      }
      var digest := Digest.ActionDigest(config.hashing, p.exec, p.args, m.payloadSha256);
      var argsSha256 := config.hashing.sha256Hex(config.hashing.json(p.args));
      match decision {
        case Allowed =>
          r := Dispatch(Pending(frame.value, p.action, p.exec, digest, argsSha256, false, p.createdMs), AtOnce, p.delivery);
        case NeedsApproval(twoPerson) =>
          r := Stash(p.approvalId, Pending(frame.value, p.action, p.exec, digest, argsSha256, twoPerson, p.createdMs), p.pruneMs);
        case Denied(_) =>
          r := DeniedAt(AtPolicy);
        case NotAllowed =>
          r := DeniedAt(AtPolicy);
      }
    }

    method Sign(p: Proposal, m: Manifest) returns (frame: Option<Bytes>)
      requires session.id == config.session && session.secret == config.secret
      requires session.mode == config.mode && session.profile == config.profile
      modifies session
      ensures Side() == old(Side()).(number := SaturatingInc(old(session.number)))
      ensures frame == ToFrame(config.site.codec, Seal(config.site.codec, config.secret, RequestOf(config, p, m, session.number)))
    {
      var envelope := session.SignExecRequest(config.site.codec, p.action, p.exec, p.args, m.risk, m.readOnly, p.nonce, p.issuedMs);
      frame := ToFrame(config.site.codec, envelope);
    }

    /** Keep a signed action for approval, unless too many unexpired ones wait already. */
    method Stash(id: string, p: Pending, nowMs: nat) returns (r: TaskOutcome)
      modifies this`pending, this`table
      ensures (Side(), r) == StashedFor(old(Side()), id, p, nowMs)
    {
      hide Prune;
      PrunePending(nowMs);
      if |pending| >= MAX_PENDING {
        return DeniedAt(TooManyPending);
      }
      pending := pending[id := p];
      table := table + [Stashed(id, p)];
      r := ApprovalRequired(id, p.digest, p.exec, p.twoPerson);
    }

    /** Verify the bundle and the arguments, then decide. */
    method Invoke(p: Proposal) returns (r: TaskOutcome)
      requires Valid() && appends == p.appends
      requires !p.delivery.Lost? ==> executor.rate.clock <= p.delivery.s.now
      modifies Repr()
      ensures Valid() && Repr() == old(Repr())
      ensures (Whole(), r) == Proposed(config, old(Whole()), p)
    {
      hide Decided, Executor.Valid;
      match config.site.load(p.exec) {
        case None =>
          r := Deny(p.action, p.exec, AtBundle);
        case Some(m) =>
          if !config.site.argsOk(m, p.args) {
            r := Deny(p.action, p.exec, AtArguments);
          } else {
            r := Decide(p, m);
          }
      }
    }

    /** Ask the model on the record and check its answer: either a tool call to propose, or the end of the task. */
    method Consult(t: Task) returns (call: Option<Proposal>, ending: TaskOutcome)
      requires appends == t.appends
      modifies this`audit, this`appends
      ensures Side() == Exchanged(config, old(Side()), t)
      ensures call == ToolCall(config, t)
      ensures call.Some? ==> appends == call.value.appends
      ensures call.None? ==> ending == Ending(config, t)
    {
      hide SafeExecName, Prompt.Message, Prompt.Occurs;
      ghost var before := audit;
      call, ending := None, Failed(AuditFailure);
      var user := Prompt.Build(config.secrets, t.instruction, t.contexts);
      var ok := Append(LlmRequest(config.session, config.hashing.sha256Hex(config.system + "\n" + user)));
      if !ok {
        assert before + Exchange(config, t)[..0] == before;
        return;
      }
      if t.answer.None? {
        return None, Failed(BackendFailure);
      }
      var text := t.answer.value;
      var leaked := Prompt.Contains(text, config.secrets.canary);
      ok := Append(LlmResponse(config.session, config.hashing.sha256Hex(text), leaked));
      if !ok {
        assert before + Exchange(config, t)[..1] == audit;
        return;
      }
      assert before + Exchange(config, t)[..2] == audit;
      if leaked {
        ok := Append(SessionEnded(config.session));
        return None, if ok then Compromised else Failed(AuditFailure);
      }
      if !KeepsContract(config, text) {
        ok := Append(Note(VIOLATION));
        return None, if ok then DeniedAt(AtModelContract) else Failed(AuditFailure);
      }
      match config.parse(text) {
        case Ask => ending := Asked;
        case Refuse => ending := Refused;
        case UseTool(exec, args) => call := Some(t.p.(exec := exec, args := args, appends := appends));
      }
    }

    /** One operator task, from the prompt to the outcome. */
    method RunTask(t: Task) returns (r: TaskOutcome)
      requires Valid() && appends == t.appends
      requires !t.p.delivery.Lost? ==> executor.rate.clock <= t.p.delivery.s.now
      modifies Repr()
      ensures Valid() && Repr() == old(Repr())
      ensures (Whole(), r) == TaskRun(config, old(Whole()), t)
    {
      hide Proposed, Executor.Valid, Exchange, Ending, KeepsContract, Leaked;
      var call, ending := Consult(t);
      match call {
        case None => r := ending;
        case Some(p) => r := Invoke(p);
      }
    }
  }
}
