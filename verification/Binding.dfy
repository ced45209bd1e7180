/** What a human approved is what runs: from the digest that was echoed to the call of the runner. */
module Binding {
  import opened Common
  import opened Events
  import opened Wire
  import opened Execd
  import opened Daemon
  import opened Protocol
  import opened ApprovalTable
  import Agreement
  import Digest
  import ExecdRuns
  import Policy
  import RateLimit
  import Replay

  /** The digest shown to the operator for an action. */
  ghost function DigestOf(c: Config, exec: string, args: map<string, string>, payloadSha256: string): string {
    c.hashing.sha256Hex(Digest.Preimage(c.hashing, exec, args, payloadSha256))
  }

  /** The digest of a pending action is the digest of the very request its frame opens to. */
  ghost predicate Describes(c: Config, p: Pending) {
    match OpenFrame(c.site.codec, Agreement.Key(c), p.frame)
    case None => false
    case Some(r) =>
      && r.exec == p.exec && r.action == p.action && SafeExecName(r.exec)
      && match c.site.load(r.exec)
         case None => false
         case Some(m) => p.digest == DigestOf(c, r.exec, r.args, m.payloadSha256)
  }

  ghost predicate AllDescribed(c: Config, d: Daemon.State) {
    && (forall id :: id in d.pending ==> Describes(c, d.pending[id]))
    && (forall j :: 0 <= j < |d.table| && d.table[j].Approved? ==> Describes(c, d.table[j].p))
  }

  // ----- Every step keeps the description ----------------------------------------------------

  /** Only the pending entries and the approvals matter. */
  lemma DescribedCarriesOver(c: Config, d: Daemon.State, d': Daemon.State)
    requires AllDescribed(c, d)
    requires forall id :: id in d'.pending ==> id in d.pending && d'.pending[id] == d.pending[id]
    requires d'.table == d.table || exists id :: d'.table == d.table + [Consumed(id)]
    ensures AllDescribed(c, d')
  {
    hide Describes;
  }

  lemma DispatchKeepsDescribed(c: Config, y: System, p: Pending, via: Via, appends: nat, delivery: Delivery)
    requires AllDescribed(c, y.d) && Describes(c, p)
    ensures AllDescribed(c, Dispatched(c, y, p, via, appends, delivery).0.d)
  {
    hide Describes, Dispatched;
    DispatchOnTable(c, y, p, via, appends, delivery);
  }

  lemma StashKeepsDescribed(c: Config, d: Daemon.State, id: string, p: Pending, pruneMs: nat)
    requires AllDescribed(c, d) && Describes(c, p)
    ensures AllDescribed(c, StashedFor(d, id, p, pruneMs).0)
  {
    hide Describes;
  }

  /** What is signed and what is digested is the same action. */
  lemma SignedIsDescribed(c: Config, p: Proposal, m: Manifest, number: nat, twoPerson: bool)
    requires Sound(c.site.codec) && SafeExecName(p.exec) && c.site.load(p.exec) == Some(m)
    requires ToFrame(c.site.codec, Seal(c.site.codec, c.secret, RequestOf(c, p, m, number))).Some?
    ensures var frame := ToFrame(c.site.codec, Seal(c.site.codec, c.secret, RequestOf(c, p, m, number))).value;
            Describes(c, PendingOf(c, p, m, frame, twoPerson))
  {
    hide OpenFrame, Seal, ToFrame, SafeExecName, Sound;
    OpenUndoesSeal(c.site.codec, c.secret, RequestOf(c, p, m, number));
  }

  lemma ProposalKeepsDescribed(c: Config, y: System, p: Proposal)
    requires Sound(c.site.codec) && AllDescribed(c, y.d) && SafeExecName(p.exec)
    ensures AllDescribed(c, Proposed(c, y, p).0.d)
  {
    hide Describes, OpenFrame, Seal, ToFrame, Policy.Evaluate, SafeExecName, Sound, Dispatched, AllDescribed, StashedFor;
    DescribedCarriesOver(c, y.d, WithAudit(y.d, PolicyDecision(c.session, p.action, p.exec, Events.Deny)));
    if c.site.load(p.exec).Some? && p.appends > 0 {
      var m := c.site.load(p.exec).value;
      var decision := PolicyOn(c, p.exec, m);
      var d1 := WithAudit(y.d, PolicyDecision(c.session, p.action, p.exec, Auditable(decision)));
      var d2 := d1.(number := SaturatingInc(y.d.number));
      DescribedCarriesOver(c, y.d, d2);
      var frame := ToFrame(c.site.codec, Seal(c.site.codec, c.secret, RequestOf(c, p, m, d2.number)));
      if frame.Some? {
        if decision.NeedsApproval? {
          SignedIsDescribed(c, p, m, d2.number, decision.twoPerson);
          StashKeepsDescribed(c, d2, p.approvalId, PendingOf(c, p, m, frame.value, decision.twoPerson), p.pruneMs);
        } else {
          SignedIsDescribed(c, p, m, d2.number, false);
          DispatchKeepsDescribed(c, System(d2, y.x), PendingOf(c, p, m, frame.value, false), AtOnce, p.appends - 1, p.delivery);
        }
      }
    }
  }

  lemma PendingIsDescribed(c: Config, d: Daemon.State, id: string)
    requires AllDescribed(c, d) && id in d.pending
    ensures Describes(c, d.pending[id])
  {
  }

  lemma ApprovalKeepsDescribed(c: Config, y: System, a: Approval)
    requires AllDescribed(c, y.d)
    ensures AllDescribed(c, ApprovalHandled(c, y, a).0.d)
  {
    hide Describes, Dispatched, AllDescribed;
    var pruned := Prune(y.d.pending, a.nowMs);
    DescribedCarriesOver(c, y.d, y.d.(pending := pruned));
    if a.id in pruned {
      var p := pruned[a.id];
      PendingIsDescribed(c, y.d, a.id);
      var d1 := y.d.(pending := Remove(pruned, a.id));
      var d2 := WithAudit(d1, ApprovalGranted(c.session, p.action));
      DescribedCarriesOver(c, y.d, ConsumedIn(d1, a.id));
      DescribedCarriesOver(c, y.d, ConsumedIn(d2, a.id));
      DescribedCarriesOver(c, y.d, ConsumedIn(WithAudit(d1, Note("two-person rule unsatisfied")), a.id));
      DescribedCarriesOver(c, y.d, d2);
      if a.appends > 0 {
        DispatchKeepsDescribed(c, System(d2, y.x), p, OnApproval(a.id, a.digest, a.nowMs), a.appends - 1, a.delivery);
      }
    }
  }

  lemma StepKeepsDescribed(c: Config, y: System, step: Step)
    requires Sound(c.site.codec) && AllDescribed(c, y.d)
    ensures AllDescribed(c, Next(c, y, step).d)
  {
    hide AllDescribed, Proposed, ApprovalHandled, SafeExecName, Sound, ToolCall, Exchange;
    match step
    case RunTask(t) =>
      DescribedCarriesOver(c, y.d, Exchanged(c, y.d, t));
      if ToolCall(c, t).Some? {
        Agreement.ToolCallIsSafe(c, t);
        ProposalKeepsDescribed(c, System(Exchanged(c, y.d, t), y.x), ToolCall(c, t).value);
      }
    case Approve(a) => ApprovalKeepsDescribed(c, y, a);
    case Reject(id) => DescribedCarriesOver(c, y.d, RejectionHandled(y.d, id).0);
    case Redeliver(frame, s) =>
  }

  // ----- The runner gets what the frame says ----------------------------------------------------

  /** The call runs the bundle and arguments of the request its frame opens to. */
  ghost predicate RunsItsFrame(site: Site, key: Bytes, call: RunnerCall) {
    match OpenFrame(site.codec, key, call.frame)
    case None => false
    case Some(r) =>
      && call.session == r.session && call.number == r.number
      && call.exec == r.exec && call.args == r.args
      && site.load(r.exec) == Some(call.manifest)
  }

  ghost predicate AllRunTheirFrames(c: Config, x: Execd.State) {
    && x.key == Agreement.Key(c)
    && forall i :: 0 <= i < |x.runs| ==> RunsItsFrame(c.site, x.key, x.runs[i])
  }

  lemma CallRunsItsFrame(site: Site, x: Execd.State, frame: Bytes, s: Surroundings)
    requires ExecdRuns.AllGatesPassed(site, x, frame, s)
    ensures RunsItsFrame(site, x.key, CallOf(site, x, frame, s))
  {
    hide OpenFrame, SafeExecName, Policy.Evaluate, Replay.Decide, RateLimit.Decide;
  }

  lemma StepKeepsFrames(c: Config, x: Execd.State, frame: Bytes, s: Surroundings)
    requires AllRunTheirFrames(c, x)
    ensures AllRunTheirFrames(c, After(c.site, x, frame, s))
  {
    hide RunsItsFrame, ExecdRuns.AllGatesPassed, Refusal, CallOf;
    ExecdRuns.RunIffAllGates(c.site, x, frame, s);
    if ExecdRuns.AllGatesPassed(c.site, x, frame, s) {
      CallRunsItsFrame(c.site, x, frame, s);
    }
  }

  lemma {:induction false} RunKeepsFrames(c: Config, y: System, steps: seq<Step>)
    requires AllRunTheirFrames(c, y.x)
    ensures AllRunTheirFrames(c, Run(c, y, steps).x)
  {
    hide AllRunTheirFrames, Next, After;
    if steps != [] {
      var n := |steps| - 1;
      RunKeepsFrames(c, y, steps[..n]);
      var before := Run(c, y, steps[..n]);
      StepHandsAtMostOne(c, before, steps[n]);
      var x' := Next(c, before, steps[n]).x;
      if x' != before.x {
        var frame: Bytes, s: Surroundings :| x' == After(c.site, before.x, frame, s);
        StepKeepsFrames(c, before.x, frame, s);
      }
    }
  }

  ghost predicate Bound(c: Config, y: System) {
    AllDescribed(c, y.d) && SoundTable(y.d) && AllRunTheirFrames(c, y.x)
  }

  lemma {:induction false} RunKeepsBound(c: Config, y: System, steps: seq<Step>)
    requires Sound(c.site.codec) && Bound(c, y)
    ensures Bound(c, Run(c, y, steps))
  {
    hide AllDescribed, AllRunTheirFrames, SoundTable, Next, Sound;
    RunKeepsFrames(c, y, steps);
    if steps != [] {
      var n := |steps| - 1;
      RunKeepsBound(c, y, steps[..n]);
      var before := Run(c, y, steps[..n]);
      StepKeepsDescribed(c, before, steps[n]);
      StepKeepsTable(c, before, steps[n]);
    }
  }

  // ----- End to end --------------------------------------------------------------------------------

  /** A call that runs a described entry's frame runs the action with the entry's digest. */
  lemma DigestOfCall(c: Config, p: Pending, call: RunnerCall)
    requires Describes(c, p) && RunsItsFrame(c.site, Agreement.Key(c), call) && call.frame == p.frame
    ensures SafeExecName(call.exec)
    ensures p.digest == DigestOf(c, call.exec, call.args, call.manifest.payloadSha256)
  {
    hide OpenFrame, SafeExecName;
  }

  /**
   Over every run from the start, whatever was redelivered: if the operator approved the
   digest of an action and the approved frame ever reaches the runner, then the runner
   was called with exactly that executable, those arguments and that payload; otherwise
   two different texts have the same hash.
   */
  lemma ApprovedIsWhatRuns(c: Config, ceiling: Mode, limits: RateLimit.RateLimits, clock: int, steps: seq<Step>,
                           i: nat, j: nat, exec: string, args: map<string, string>, payloadSha256: string)
    requires Sound(c.site.codec) && Digest.SoundJson(c.hashing) && SafeExecName(exec)
    requires var y := Run(c, Start(c, ceiling, limits, clock), steps);
             && i < |y.d.sent| && y.d.sent[i].via.OnApproval?
             && y.d.sent[i].via.echoed == DigestOf(c, exec, args, payloadSha256)
             && j < |y.x.runs| && y.x.runs[j].frame == y.d.sent[i].frame
    ensures var call := Run(c, Start(c, ceiling, limits, clock), steps).x.runs[j];
            || (call.exec == exec && call.args == args && call.manifest.payloadSha256 == payloadSha256)
            || Collision(c.hashing.sha256Hex, Digest.Preimage(c.hashing, exec, args, payloadSha256),
                         Digest.Preimage(c.hashing, call.exec, call.args, call.manifest.payloadSha256))
  {
    hide Run, Describes, RunsItsFrame, Digest.Preimage, StashedUntil, SafeExecName, Sound, Digest.SoundJson;
    var start := Start(c, ceiling, limits, clock);
    StartHasSoundTable(c, ceiling, limits, clock);
    assert Bound(c, start);
    RunKeepsBound(c, start, steps);
    var y := Run(c, start, steps);
    var sent, call := y.d.sent[i], y.x.runs[j];
    assert SentAsApproved(y.d.table, sent);
    var k :| 0 <= k < |y.d.table| && y.d.table[k].Approved? && y.d.table[k].echoed == sent.via.echoed
             && y.d.table[k].p.frame == sent.frame;
    assert ApprovedRightly(y.d.table, k);
    DigestOfCall(c, y.d.table[k].p, call);
    Digest.DigestDeterminesAction(c.hashing, exec, args, payloadSha256,
                                  call.exec, call.args, call.manifest.payloadSha256);
  }
}
