/** The approval table over whole runs: bounded, expiring, single-use, and faithful to what was stashed. */
module ApprovalTable {
  import opened Common
  import opened Events
  import opened Wire
  import opened Execd
  import opened Daemon
  import opened Protocol
  import Policy
  import RateLimit

  /** The event at `k` stashed `p` under `id`, and nothing touched `id` from there up to `end`. */
  ghost predicate StashedAt(table: seq<TableEvent>, k: nat, end: nat, id: string, p: Pending) {
    && k < end <= |table|
    && table[k] == Stashed(id, p)
    && forall j :: k < j < end ==> table[j].id != id
  }

  ghost predicate StashedUntil(table: seq<TableEvent>, end: nat, id: string, p: Pending) {
    exists k: nat :: StashedAt(table, k, end, id, p)
  }

  /**
   An approved entry is the one last stashed under that id, not touched since; the
   echoed digest is its own, it had not expired at the clock reading of the approval,
   and it is not a two-person action.
   */
  ghost predicate ApprovedRightly(table: seq<TableEvent>, j: nat)
    requires j < |table|
  {
    table[j].Approved? ==>
      && StashedUntil(table, j, table[j].id, table[j].p)
      && table[j].p.digest == table[j].echoed
      && !table[j].p.twoPerson
      && table[j].nowMs <= table[j].p.createdMs + APPROVAL_TTL_MS
  }

  ghost predicate SentAsApproved(table: seq<TableEvent>, s: Sent) {
    s.via.OnApproval? ==>
      exists j :: 0 <= j < |table| && table[j].Approved? && table[j].id == s.via.id
                  && table[j].echoed == s.via.echoed && table[j].nowMs == s.via.nowMs
                  && table[j].p.frame == s.frame && table[j].p.action == s.action
  }

  ghost predicate TableOk(pending: map<string, Pending>, table: seq<TableEvent>) {
    && |pending| <= MAX_PENDING
    && (forall id :: id in pending ==> StashedUntil(table, |table|, id, pending[id]))
    && (forall j :: 0 <= j < |table| ==> ApprovedRightly(table, j))
  }

  ghost predicate SoundTable(d: Daemon.State) {
    && TableOk(d.pending, d.table)
    && forall i :: 0 <= i < |d.sent| ==> SentAsApproved(d.table, d.sent[i])
  }

  // ----- The moves of the table -----------------------------------------------------------

  lemma StashedStays(table: seq<TableEvent>, e: TableEvent, end: nat, id: string, p: Pending)
    requires StashedUntil(table, end, id, p)
    ensures StashedUntil(table + [e], end, id, p)
    ensures end == |table| && e.id != id ==> StashedUntil(table + [e], end + 1, id, p)
  {
    var k: nat :| StashedAt(table, k, end, id, p);
    assert StashedAt(table + [e], k, end, id, p);
    if end == |table| && e.id != id {
      assert StashedAt(table + [e], k, end + 1, id, p);
    }
  }

  lemma RightlyStays(table: seq<TableEvent>, e: TableEvent)
    requires forall j :: 0 <= j < |table| ==> ApprovedRightly(table, j)
    ensures forall j :: 0 <= j < |table| ==> ApprovedRightly(table + [e], j)
  {
    hide StashedUntil;
    forall j | 0 <= j < |table| ensures ApprovedRightly(table + [e], j) {
      assert ApprovedRightly(table, j);
      if table[j].Approved? {
        StashedStays(table, e, j, table[j].id, table[j].p);
      }
    }
  }

  lemma SentStays(table: seq<TableEvent>, e: TableEvent, s: Sent)
    requires SentAsApproved(table, s)
    ensures SentAsApproved(table + [e], s)
  {
    if s.via.OnApproval? {
      var j :| 0 <= j < |table| && table[j].Approved? && table[j].id == s.via.id
               && table[j].echoed == s.via.echoed && table[j].nowMs == s.via.nowMs
               && table[j].p.frame == s.frame && table[j].p.action == s.action;
      assert (table + [e])[j] == table[j];
    }
  }

  lemma SubmapIsSmaller(m: map<string, Pending>, n: map<string, Pending>)
    requires m.Keys <= n.Keys
    ensures |m| <= |n|
  {
    SubsetIsSmaller(m.Keys, n.Keys);
  }

  lemma {:induction false} SubsetIsSmaller(a: set<string>, b: set<string>)
    requires a <= b
    ensures |a| <= |b|
  {
    if x :| x in a {
      SubsetIsSmaller(a - {x}, b - {x});
    }
  }

  lemma PruneKeepsTable(pending: map<string, Pending>, nowMs: nat, table: seq<TableEvent>)
    requires TableOk(pending, table)
    ensures TableOk(Prune(pending, nowMs), table)
  {
    hide StashedUntil, ApprovedRightly;
    SubmapIsSmaller(Prune(pending, nowMs), pending);
  }

  lemma StashKeepsTable(pending: map<string, Pending>, id: string, p: Pending, table: seq<TableEvent>)
    requires TableOk(pending, table) && |pending| < MAX_PENDING
    ensures TableOk(pending[id := p], table + [Stashed(id, p)])
  {
    hide StashedUntil;
    var table' := table + [Stashed(id, p)];
    RightlyStays(table, Stashed(id, p));
    var after := pending[id := p];
    forall k | k in after ensures StashedUntil(table', |table'|, k, after[k]) {
      if k == id {
        StashedNow(table, id, p);
      } else {
        StashedStays(table, Stashed(id, p), |table|, k, pending[k]);
      }
    }
    assert after.Keys == pending.Keys + {id};
    SubsetIsSmaller(pending.Keys - {id}, pending.Keys);
    assert pending.Keys + {id} == (pending.Keys - {id}) + {id};
  }

  lemma StashedNow(table: seq<TableEvent>, id: string, p: Pending)
    ensures StashedUntil(table + [Stashed(id, p)], |table| + 1, id, p)
  {
    assert StashedAt(table + [Stashed(id, p)], |table|, |table| + 1, id, p);
  }

  lemma RemoveKeepsTable(pending: map<string, Pending>, id: string, e: TableEvent, table: seq<TableEvent>)
    requires TableOk(pending, table) && e.id == id
    requires ApprovedRightly(table + [e], |table|)
    ensures TableOk(Remove(pending, id), table + [e])
  {
    hide StashedUntil;
    RightlyStays(table, e);
    SubmapIsSmaller(Remove(pending, id), pending);
    forall k | k in Remove(pending, id) ensures StashedUntil(table + [e], |table| + 1, k, pending[k]) {
      StashedStays(table, e, |table|, k, pending[k]);
    }
  }

  lemma ConsumeKeepsTable(pending: map<string, Pending>, id: string, table: seq<TableEvent>)
    requires TableOk(pending, table)
    ensures TableOk(Remove(pending, id), table + [Consumed(id)])
  {
    RemoveKeepsTable(pending, id, Consumed(id), table);
  }

  lemma ApproveKeepsTable(pending: map<string, Pending>, id: string, echoed: string, nowMs: nat, table: seq<TableEvent>)
    requires TableOk(pending, table) && id in pending
    requires pending[id].digest == echoed && !pending[id].twoPerson && nowMs <= pending[id].createdMs + APPROVAL_TTL_MS
    ensures TableOk(Remove(pending, id), table + [Approved(id, pending[id], echoed, nowMs)])
  {
    hide StashedUntil;
    var e := Approved(id, pending[id], echoed, nowMs);
    StashedStays(table, e, |table|, id, pending[id]);
    RemoveKeepsTable(pending, id, e, table);
  }

  // ----- Steps ------------------------------------------------------------------------------

  /** The table side of the daemon: everything but the audit log and the counter. */
  ghost predicate SameTable(d: Daemon.State, d': Daemon.State) {
    d.pending == d'.pending && d.table == d'.table && d.sent == d'.sent
  }

  lemma EventKeepsSent(d: Daemon.State, e: TableEvent)
    requires forall i :: 0 <= i < |d.sent| ==> SentAsApproved(d.table, d.sent[i])
    ensures forall i :: 0 <= i < |d.sent| ==> SentAsApproved(d.table + [e], d.sent[i])
  {
    hide SentAsApproved;
    forall i | 0 <= i < |d.sent| ensures SentAsApproved(d.table + [e], d.sent[i]) {
      SentStays(d.table, e, d.sent[i]);
    }
  }

  /** A dispatch changes the table only by its send, recorded in `sent` and, on approval, in `table`. */
  lemma DispatchOnTable(c: Config, y: System, p: Pending, via: Via, appends: nat, delivery: Delivery)
    ensures var d' := Dispatched(c, y, p, via, appends, delivery).0.d;
            && d'.pending == y.d.pending
            && (appends == 0 ==> SameTable(y.d, d'))
            && (appends > 0 ==> exists at: nat :: d'.sent == y.d.sent + [Sent(p.frame, p.action, via, at)])
            && (appends > 0 && via.AtOnce? ==> d'.table == y.d.table)
            && (appends > 0 && via.OnApproval? ==> d'.table == y.d.table + [Approved(via.id, p, via.echoed, via.nowMs)])
  {
    hide After, Reply;
    if appends > 0 {
      var d' := Dispatched(c, y, p, via, appends, delivery).0.d;
      assert d'.sent == y.d.sent + [Sent(p.frame, p.action, via, |y.d.audit| + 1)];
      assert y.d.table + [] == y.d.table;
    }
  }

  lemma DirectDispatchKeepsTable(c: Config, y: System, p: Pending, appends: nat, delivery: Delivery)
    requires SoundTable(y.d)
    ensures SoundTable(Dispatched(c, y, p, AtOnce, appends, delivery).0.d)
  {
    hide Dispatched, TableOk, SentAsApproved;
    DispatchOnTable(c, y, p, AtOnce, appends, delivery);
    var d' := Dispatched(c, y, p, AtOnce, appends, delivery).0.d;
    if appends > 0 {
      var at: nat :| d'.sent == y.d.sent + [Sent(p.frame, p.action, AtOnce, at)];
      DirectIsFine(d'.table, Sent(p.frame, p.action, AtOnce, at));
    }
  }

  lemma DirectIsFine(table: seq<TableEvent>, s: Sent)
    requires s.via.AtOnce?
    ensures SentAsApproved(table, s)
  {
  }

  lemma ApprovedDispatchKeepsTable(c: Config, y: System, pending: map<string, Pending>, id: string, echoed: string, nowMs: nat,
                                   appends: nat, delivery: Delivery)
    requires TableOk(pending, y.d.table) && id in pending && y.d.pending == Remove(pending, id)
    requires forall i :: 0 <= i < |y.d.sent| ==> SentAsApproved(y.d.table, y.d.sent[i])
    requires pending[id].digest == echoed && !pending[id].twoPerson && nowMs <= pending[id].createdMs + APPROVAL_TTL_MS
    requires appends > 0
    ensures SoundTable(Dispatched(c, y, pending[id], OnApproval(id, echoed, nowMs), appends, delivery).0.d)
  {
    hide Dispatched, TableOk, Remove, SentAsApproved;
    var via := OnApproval(id, echoed, nowMs);
    var e := Approved(id, pending[id], echoed, nowMs);
    DispatchOnTable(c, y, pending[id], via, appends, delivery);
    var d' := Dispatched(c, y, pending[id], via, appends, delivery).0.d;
    var at: nat :| d'.sent == y.d.sent + [Sent(pending[id].frame, pending[id].action, via, at)];
    EventKeepsSent(y.d, e);
    ApprovedIsFine(y.d.table, e, Sent(pending[id].frame, pending[id].action, via, at));
    ApproveKeepsTable(pending, id, echoed, nowMs, y.d.table);
  }

  lemma ApprovedIsFine(table: seq<TableEvent>, e: TableEvent, s: Sent)
    requires e.Approved? && s.via == OnApproval(e.id, e.echoed, e.nowMs) && s.frame == e.p.frame && s.action == e.p.action
    ensures SentAsApproved(table + [e], s)
  {
    assert (table + [e])[|table|] == e;
  }

  lemma ProposalKeepsTable(c: Config, y: System, p: Proposal)
    requires SoundTable(y.d)
    ensures SoundTable(Proposed(c, y, p).0.d)
  {
    hide Dispatched, TableOk, SentAsApproved, Policy.Evaluate, Seal, ToFrame, StashedFor;
    if c.site.load(p.exec).Some? && p.appends > 0 {
      var m := c.site.load(p.exec).value;
      var decision := PolicyOn(c, p.exec, m);
      var d1 := WithAudit(y.d, PolicyDecision(c.session, p.action, p.exec, Auditable(decision)));
      var d2 := d1.(number := SaturatingInc(y.d.number));
      var frame := ToFrame(c.site.codec, Seal(c.site.codec, c.secret, RequestOf(c, p, m, d2.number)));
      if frame.Some? {
        DirectDispatchKeepsTable(c, System(d2, y.x), PendingOf(c, p, m, frame.value, false), p.appends - 1, p.delivery);
        if decision.NeedsApproval? {
          StashForKeepsTable(d2, p.approvalId, PendingOf(c, p, m, frame.value, decision.twoPerson), p.pruneMs);
        }
      }
    }
  }

  lemma StashForKeepsTable(d: Daemon.State, id: string, p: Pending, pruneMs: nat)
    requires SoundTable(d)
    ensures SoundTable(StashedFor(d, id, p, pruneMs).0)
  {
    hide TableOk, SentAsApproved, Prune;
    PruneKeepsTable(d.pending, pruneMs, d.table);
    if |Prune(d.pending, pruneMs)| < MAX_PENDING {
      StashKeepsTable(Prune(d.pending, pruneMs), id, p, d.table);
      EventKeepsSent(d, Stashed(id, p));
    }
  }

  lemma ApprovalKeepsTable(c: Config, y: System, a: Approval)
    requires SoundTable(y.d)
    ensures SoundTable(ApprovalHandled(c, y, a).0.d)
  {
    hide Dispatched, TableOk, SentAsApproved, Remove, Prune;
    PruneKeepsTable(y.d.pending, a.nowMs, y.d.table);
    var pruned := Prune(y.d.pending, a.nowMs);
    if a.id in pruned {
      var p := pruned[a.id];
      ConsumeKeepsTable(pruned, a.id, y.d.table);
      EventKeepsSent(y.d, Consumed(a.id));
      if p.digest == a.digest && !p.twoPerson && a.appends > 1 {
        PruneMeansFresh(y.d.pending, a.nowMs, a.id);
        var d2 := WithAudit(y.d.(pending := Remove(pruned, a.id)), ApprovalGranted(c.session, p.action));
        ApprovedDispatchKeepsTable(c, System(d2, y.x), pruned, a.id, a.digest, a.nowMs, a.appends - 1, a.delivery);
      }
    }
  }

  lemma PruneMeansFresh(pending: map<string, Pending>, nowMs: nat, id: string)
    requires id in Prune(pending, nowMs)
    ensures nowMs <= Prune(pending, nowMs)[id].createdMs + APPROVAL_TTL_MS
  {
  }

  lemma RejectionKeepsTable(d: Daemon.State, id: string)
    requires SoundTable(d)
    ensures SoundTable(RejectionHandled(d, id).0)
  {
    hide TableOk, SentAsApproved;
    ConsumeKeepsTable(d.pending, id, d.table);
    EventKeepsSent(d, Consumed(id));
  }

  lemma StepKeepsTable(c: Config, y: System, step: Step)
    requires SoundTable(y.d)
    ensures SoundTable(Next(c, y, step).d)
  {
    hide SoundTable, Proposed, ApprovalHandled, RejectionHandled, After, ToolCall, Exchange;
    match step
    case RunTask(t) =>
      AuditDoesNotMatter(y.d, Exchanged(c, y.d, t).audit);
      if ToolCall(c, t).Some? {
        ProposalKeepsTable(c, System(Exchanged(c, y.d, t), y.x), ToolCall(c, t).value);
      }
    case Approve(a) => ApprovalKeepsTable(c, y, a);
    case Reject(id) => RejectionKeepsTable(y.d, id);
    case Redeliver(frame, s) =>
  }

  lemma AuditDoesNotMatter(d: Daemon.State, audit: seq<AuditEvent>)
    requires SoundTable(d)
    ensures SoundTable(d.(audit := audit))
  {
  }

  /**
   Over any run: the table never exceeds its cap; and every frame sent on an approval is
   byte for byte the one last stashed under that id, sent under its own digest, within
   its lifetime, not a two-person action, and not touched between stash and approval.
   */
  lemma {:induction false} RunKeepsTable(c: Config, y: System, steps: seq<Step>)
    requires SoundTable(y.d)
    ensures SoundTable(Run(c, y, steps).d)
  {
    hide SoundTable, Next;
    if steps != [] {
      RunKeepsTable(c, y, steps[..|steps| - 1]);
      StepKeepsTable(c, Run(c, y, steps[..|steps| - 1]), steps[|steps| - 1]);
    }
  }

  lemma StartHasSoundTable(c: Config, ceiling: Mode, limits: RateLimit.RateLimits, clock: int)
    ensures SoundTable(Start(c, ceiling, limits, clock).d)
  {
  }

  /** From the start of a session. */
  lemma RunFromStartIsSound(c: Config, ceiling: Mode, limits: RateLimit.RateLimits, clock: int, steps: seq<Step>)
    ensures var d := Run(c, Start(c, ceiling, limits, clock), steps).d;
            && |d.pending| <= MAX_PENDING
            && (forall i :: 0 <= i < |d.sent| ==> SentAsApproved(d.table, d.sent[i]))
            && (forall j :: 0 <= j < |d.table| ==> ApprovedRightly(d.table, j))
  {
    hide Run, SentAsApproved, ApprovedRightly, StashedUntil;
    StartHasSoundTable(c, ceiling, limits, clock);
    RunKeepsTable(c, Start(c, ceiling, limits, clock), steps);
  }

  /** Between two approvals of one id lies a new stash: an approval is single-use. */
  lemma ApprovalsAreSingleUse(d: Daemon.State, i: nat, j: nat)
    requires SoundTable(d) && i < j < |d.table|
    requires d.table[i].Approved? && d.table[j].Approved? && d.table[i].id == d.table[j].id
    ensures exists k :: i < k < j && d.table[k] == Stashed(d.table[j].id, d.table[j].p)
  {
    assert ApprovedRightly(d.table, j);
    var k: nat :| StashedAt(d.table, k, j, d.table[j].id, d.table[j].p);
  }

  /** Whatever comes of it, approving or rejecting an id leaves no entry under that id. */
  lemma HandledIdIsGone(c: Config, y: System, a: Approval, id: string)
    ensures a.id !in ApprovalHandled(c, y, a).0.d.pending
    ensures id !in RejectionHandled(y.d, id).0.pending
  {
    hide After, Reply, Recorded;
    var pruned := Prune(y.d.pending, a.nowMs);
    if a.id in pruned && a.appends > 1 {
      var d2 := WithAudit(y.d.(pending := Remove(pruned, a.id)), ApprovalGranted(c.session, pruned[a.id].action));
      DispatchOnTable(c, System(d2, y.x), pruned[a.id], OnApproval(a.id, a.digest, a.nowMs), a.appends - 1, a.delivery);
    }
  }

  /** With nothing under the id, approving it sends nothing and changes neither log nor executor. */
  lemma UnknownIdSendsNothing(c: Config, y: System, a: Approval)
    requires a.id !in y.d.pending
    ensures ApprovalHandled(c, y, a).1 == DeniedAt(UnknownApproval)
    ensures ApprovalHandled(c, y, a).0 == System(y.d.(pending := Prune(y.d.pending, a.nowMs)), y.x)
  {
  }
}
