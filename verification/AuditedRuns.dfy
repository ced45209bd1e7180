/** The daemon's events in the bytes of the log: what the verifier reads is what the daemon put on record. */
module AuditedRuns {
  import opened Common
  import opened LineSplit
  import opened Hex
  import opened Events
  import opened Audit
  import opened AuditWriter
  import opened AuditFailures
  import AuditOrder
  import Daemon
  import Execd
  import Protocol
  import RateLimit

  /** The events whose append succeeded, in order. */
  ghost function Recorded(ops: seq<Op>): seq<AuditEvent> {
    if ops == [] then [] else
      var op := ops[|ops| - 1];
      Recorded(ops[..|ops| - 1]) + if op.commit.Durable? then [op.event] else []
  }

  /** Their times, in order. */
  ghost function RecordedTimes(ops: seq<Op>): seq<nat> {
    if ops == [] then [] else
      var op := ops[|ops| - 1];
      RecordedTimes(ops[..|ops| - 1]) + if op.commit.Durable? then [op.timestamp] else []
  }

  ghost function TimesOf(entries: seq<AuditEntry>): seq<nat> {
    seq(|entries|, i requires 0 <= i < |entries| => entries[i].record.timestamp)
  }

  ghost function EventsOf(entries: seq<AuditEntry>): seq<AuditEvent> {
    seq(|entries|, i requires 0 <= i < |entries| => entries[i].record.event)
  }

  /** The events of the entries the verifier reads. */
  ghost function EventsIn(p: Primitives, sink: Bytes): seq<AuditEvent> {
    EventsOf(Entries(p, ReadLines(sink)))
  }

  ghost function FirstEvent(p: Primitives, secret: Bytes): AuditEvent {
    Genesis(Encoded(p.publicKey(secret)))
  }

  lemma EventsSnoc(entries: seq<AuditEntry>, e: AuditEntry)
    ensures EventsOf(entries + [e]) == EventsOf(entries) + [e.record.event]
    ensures TimesOf(entries + [e]) == TimesOf(entries) + [e.record.timestamp]
  {
  }

  lemma OneEvent(e: AuditEntry)
    ensures EventsOf([e]) == [e.record.event] && TimesOf([e]) == [e.record.timestamp]
  {
  }

  lemma SealedEvent(p: Primitives, secret: Bytes, st: LogState, op: Op)
    ensures Seal(p, secret, NextRecord(st, op.event, op.timestamp)).record.event == op.event
    ensures Seal(p, secret, NextRecord(st, op.event, op.timestamp)).record.timestamp == op.timestamp
  {
  }

  /** As long as failures are clean, the entries are the genesis entry and the successes. */
  lemma {:induction false} CleanEntries(p: Primitives, secret: Bytes, since: nat, ops: seq<Op>) returns (entries: seq<AuditEntry>)
    requires SoundSignatures(p) && CleanFailures(ops)
    ensures Intact(p, secret, Run(p, secret, since, ops), entries) && entries != []
    ensures EventsOf(entries) == [FirstEvent(p, secret)] + Recorded(ops)
    ensures TimesOf(entries) == [since] + RecordedTimes(ops)
  {
    hide Intact, Seal, EventsOf, TimesOf, SoundSignatures;
    if ops == [] {
      var genesis := OpenedIsIntact(p, secret, since);
      entries := [genesis];
      OneEvent(genesis);
    } else {
      var n := |ops| - 1;
      var st := Run(p, secret, since, ops[..n]);
      entries := CleanEntries(p, secret, since, ops[..n]);
      if ops[n].commit.Durable? {
        var e := Seal(p, secret, NextRecord(st, ops[n].event, ops[n].timestamp));
        AppendKeepsIntact(p, secret, st, entries, ops[n].event, ops[n].timestamp);
        SealedEvent(p, secret, st, ops[n]);
        EventsSnoc(entries, e);
        entries := entries + [e];
      } else {
        assert st.sink + [] == st.sink;
      }
    }
  }

  lemma {:induction false} NumberCounts(p: Primitives, secret: Bytes, since: nat, ops: seq<Op>)
    ensures Run(p, secret, since, ops).number == Saturated(1 + Successes(ops))
    ensures |Recorded(ops)| == Successes(ops)
  {
    hide Seal, LineOf;
    if ops != [] {
      NumberCounts(p, secret, since, ops[..|ops| - 1]);
    }
  }

  /** What the verifier accepts carries exactly the recorded events. */
  ghost predicate FileCarries(p: Primitives, secret: Bytes, sink: Bytes, events: seq<AuditEvent>) {
    Verdict(p, p.publicKey(secret), ReadLines(sink)).Ok? && EventsIn(p, sink) == events
  }

  /** The verifier reads back exactly the entries of a clean run. */
  lemma CleanFileEntries(p: Primitives, secret: Bytes, since: nat, ops: seq<Op>) returns (entries: seq<AuditEntry>)
    requires SoundSignatures(p) && SoundCodec(p) && CleanFailures(ops)
    ensures var lines := ReadLines(Run(p, secret, since, ops).sink);
            Verdict(p, p.publicKey(secret), lines).Ok? && Entries(p, lines) == entries
    ensures EventsOf(entries) == [FirstEvent(p, secret)] + Recorded(ops)
    ensures TimesOf(entries) == [since] + RecordedTimes(ops)
  {
    hide ReadLines, Verdict, Run, Chained, EncodeAll, SoundSignatures, SoundCodec, EventsOf, TimesOf;
    var st := Run(p, secret, since, ops);
    entries := CleanEntries(p, secret, since, ops);
    IntactVerifies(p, secret, st, entries);
    IntactReads(p, entries, []);
    assert st.sink + [] == st.sink && EncodeAll(p, entries) + [] == EncodeAll(p, entries);
    EncodedParses(p, entries);
  }

  lemma CleanFileCarries(p: Primitives, secret: Bytes, since: nat, ops: seq<Op>)
    requires SoundSignatures(p) && SoundCodec(p) && CleanFailures(ops)
    ensures FileCarries(p, secret, Run(p, secret, since, ops).sink, [FirstEvent(p, secret)] + Recorded(ops))
  {
    hide ReadLines, Verdict, Run, SoundSignatures, SoundCodec, EventsOf, TimesOf, Recorded, RecordedTimes;
    var entries := CleanFileEntries(p, secret, since, ops);
  }

  /**
   After any run of appends, fewer than 2^64 of them, the verifier accepts the file and
   reads from it the genesis event and the recorded events, in order, if and only if no
   failed commit left a byte behind.
   */
  lemma FileCarriesEventsIffClean(p: Primitives, secret: Bytes, since: nat, ops: seq<Op>)
    requires SoundSignatures(p) && SoundCodec(p) && SelfDelimiting(p) && |ops| + 2 < U64_MAX
    ensures FileCarries(p, secret, Run(p, secret, since, ops).sink, [FirstEvent(p, secret)] + Recorded(ops))
       <==> CleanFailures(ops)
  {
    hide SoundSignatures, SoundCodec, SelfDelimiting, Run, Verdict, ReadLines, Broken;
    if CleanFailures(ops) {
      CleanFileCarries(p, secret, since, ops);
    } else {
      var st := Run(p, secret, since, ops);
      UncleanRunIsSpoiled(p, secret, since, ops);
      NumberCounts(p, secret, since, ops);
      SuccessBound(ops);
      if Broken(p, secret, st) {
        BrokenForGood(p, secret, st, st);
      } else {
        var es: seq<AuditEntry>, pieces: seq<Piece> :| Ahead(p, secret, st, es, pieces);
        AheadVerdict(p, secret, st, es, pieces);
        VerdictMeaning(p, p.publicKey(secret), ReadLines(st.sink));
      }
    }
  }

  // ----- The daemon's runs --------------------------------------------------------------------

  /** Events about no action in front change no phase. */
  lemma {:induction false} PhaseAfterRemarks(remarks: seq<AuditEvent>, audit: seq<AuditEvent>, action: Id)
    requires AuditOrder.AreRemarks(remarks)
    ensures AuditOrder.PhaseOf(remarks + audit, action) == AuditOrder.PhaseOf(audit, action)
  {
    hide AuditOrder.Mentions, AuditOrder.Advance;
    var all := remarks + audit;
    if audit != [] {
      var n := |audit| - 1;
      assert all[..|all| - 1] == remarks + audit[..n];
      PhaseAfterRemarks(remarks, audit[..n], action);
    } else if remarks != [] {
      assert all == remarks;
      PhaseAfterRemarks(remarks[..|remarks| - 1], [], action);
      assert remarks[..|remarks| - 1] + [] == remarks[..|remarks| - 1];
    }
  }

  lemma GenesisIsRemark(p: Primitives, secret: Bytes)
    ensures forall action: Id :: !AuditOrder.Mentions(FirstEvent(p, secret), action)
  {
  }

  /** The grammar of the daemon's record holds of the file the verifier accepts. */
  ghost predicate FileInOrder(file: seq<AuditEvent>, before: nat, sent: seq<Daemon.Sent>) {
    && (forall action: Id :: AuditOrder.PhaseOf(file, action) != AuditOrder.Broken)
    && (forall i :: 0 <= i < |sent| ==> RequestedInFile(file, before, sent[i]))
  }

  /** The send's own request event stands where the daemon put it, behind `before` others. */
  ghost predicate RequestedInFile(file: seq<AuditEvent>, before: nat, s: Daemon.Sent) {
    && 0 < s.auditLength && before + s.auditLength <= |file|
    && file[before + s.auditLength - 1].ExecRequested?
    && file[before + s.auditLength - 1].action == s.action
  }

  /**
   Over any run of daemon and executor whose record a writer carried out, with appends
   failing wherever they will as long as they leave nothing behind: the verifier accepts
   the file, each action's entries in it follow the grammar, and every frame sent has its
   request entry there.
   */
  lemma VerifiedFileIsInOrder(c: Daemon.Config, ceiling: Mode, limits: RateLimit.RateLimits, clock: int,
                              steps: seq<Protocol.Step>, p: Primitives, secret: Bytes, since: nat,
                              ops: seq<Op>, prelude: seq<AuditEvent>)
    requires SoundSignatures(p) && SoundCodec(p) && CleanFailures(ops)
    requires AuditOrder.FreshActions(c, steps) && AuditOrder.AreRemarks(prelude)
    requires Recorded(ops) == prelude + Protocol.Run(c, Protocol.Start(c, ceiling, limits, clock), steps).d.audit
    ensures var sink := Run(p, secret, since, ops).sink;
            && Verdict(p, p.publicKey(secret), ReadLines(sink)).Ok?
            && FileInOrder(EventsIn(p, sink), 1 + |prelude|,
                           Protocol.Run(c, Protocol.Start(c, ceiling, limits, clock), steps).d.sent)
  {
    hide SoundSignatures, SoundCodec, Run, Verdict, EventsIn, Recorded, Protocol.Run, AuditOrder.PhaseOf, AuditOrder.FreshActions, FirstEvent;
    var d := Protocol.Run(c, Protocol.Start(c, ceiling, limits, clock), steps).d;
    CleanFileCarries(p, secret, since, ops);
    AuditOrder.RunFromStartIsInOrder(c, ceiling, limits, clock, steps);
    var front := [FirstEvent(p, secret)] + prelude;
    var file := EventsIn(p, Run(p, secret, since, ops).sink);
    assert file == front + d.audit;
    GenesisIsRemark(p, secret);
    assert AuditOrder.AreRemarks(front);
    forall action: Id ensures AuditOrder.PhaseOf(file, action) != AuditOrder.Broken {
      PhaseAfterRemarks(front, d.audit, action);
    }
    forall i | 0 <= i < |d.sent| ensures RequestedInFile(file, |front|, d.sent[i]) {
      assert AuditOrder.OnRecord(d.audit, d.sent[i]);
    }
  }
}
