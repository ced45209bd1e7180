/** What the executor answers and runs, said of the frame, the manifest and the two histories themselves. */
module ExecutorLaws {
  import opened Common
  import opened Events
  import opened Wire
  import opened Execd
  import opened ExecdRuns
  import opened PathNorm
  import CeilingLaws
  import Denylist
  import WildcardRules
  import Policy
  import RateLimit
  import Replay

  // ----- The policy on a bundle ----------------------------------------------------------

  /** The script is a denied command, or a path it reads or writes is denied for that. */
  ghost predicate Denies(e: Policy.Engine, m: Manifest) {
    || e.commandDenied(m.script)
    || (exists i :: 0 <= i < |m.pathsRo| && Denylist.CheckPath(e.rules, m.pathsRo[i], Denylist.Read).Some?)
    || (exists i :: 0 <= i < |m.pathsRw| && Denylist.CheckPath(e.rules, m.pathsRw[i], Denylist.Write).Some?)
  }

  ghost predicate Allowlisted(e: Policy.Engine, profile: string, mode: Mode, exec: string) {
    exists i :: Policy.Lists(e.allowlist, i, profile, exec, mode)
  }

  lemma DeniedPathsAre(e: Policy.Engine, m: Manifest)
    ensures Policy.SomePathDenied(e, Intents(m))
       <==> || (exists i :: 0 <= i < |m.pathsRo| && Denylist.CheckPath(e.rules, m.pathsRo[i], Denylist.Read).Some?)
            || (exists i :: 0 <= i < |m.pathsRw| && Denylist.CheckPath(e.rules, m.pathsRw[i], Denylist.Write).Some?)
  {
    hide Denylist.CheckPath;
    var asked, ro := Intents(m), |m.pathsRo|;
    forall i | 0 <= i < ro ensures asked[i].path == m.pathsRo[i] && asked[i].access == Denylist.Read {
    }
    forall i | 0 <= i < |m.pathsRw|
      ensures asked[ro + i].path == m.pathsRw[i] && asked[ro + i].access == Denylist.Write
    {
    }
    assert forall i :: ro <= i < |asked| ==> asked[i].path == m.pathsRw[i - ro] && asked[i].access == Denylist.Write;
  }

  /** The four answers of the policy about a bundle. */
  lemma PolicyByBundle(e: Policy.Engine, profile: string, mode: Mode, exec: string, m: Manifest)
    ensures var o := Policy.Evaluate(e, Question(profile, mode, exec, m));
            && (o.Denied? <==> Denies(e, m))
            && (o == Policy.NotAllowed <==> !Denies(e, m) && !Allowlisted(e, profile, mode, exec))
            && (o == Policy.Allowed <==> !Denies(e, m) && Allowlisted(e, profile, mode, exec)
                                         && mode != Interactive && m.risk != Critical)
            && (o == Policy.NeedsApproval(m.risk == Critical)
                <==> !Denies(e, m) && Allowlisted(e, profile, mode, exec) && (mode == Interactive || m.risk == Critical))
            && (o.NeedsApproval? ==> o.twoPerson == (m.risk == Critical))
  {
    hide Policy.Evaluate, Policy.IsAllowed, Intents, Policy.SomePathDenied;
    var q := Question(profile, mode, exec, m);
    Policy.EvaluateMeaning(e, q);
    Policy.AllowedMeaning(e.allowlist, profile, exec, mode);
    DeniedPathsAre(e, m);
    assert Policy.SomeCommandDenied(e, q.commands) <==> e.commandDenied(m.script) by {
      assert q.commands == [m.script];
      assert q.commands[0] == m.script;
    }
  }

  // ----- One answer --------------------------------------------------------------------------

  /** Authentic: signed under the key in force, and a request. */
  ghost predicate IsAuthentic(site: Site, st: State, frame: Bytes) {
    IsSigned(site.codec, st.key, frame) && site.codec.decodeRequest(MessageIn(site.codec, frame).value).Some?
  }

  ghost function RequestFrom(site: Site, frame: Bytes): ExecRequest
    requires MessageIn(site.codec, frame).Some? && site.codec.decodeRequest(MessageIn(site.codec, frame).value).Some?
  {
    site.codec.decodeRequest(MessageIn(site.codec, frame).value).value
  }

  ghost predicate IsStale(st: State, r: ExecRequest) {
    || (exists i :: 0 <= i < |st.admissions| && st.admissions[i].session == r.session && r.number <= st.admissions[i].number)
    || (exists i :: 0 <= i < |st.admissions| && |st.admissions| - 4096 <= i && st.admissions[i].nonce == r.nonce)
  }

  ghost predicate IsOverRate(st: State, now: int, m: Manifest) {
    var h := st.hits;
    || |set i | 0 <= i < |h| && now - h[i].now < 60_000_000_000| >= st.limits.total
    || (!m.readOnly
        && |set i | 0 <= i < |h| && h[i].kind.mutating && now - h[i].now < 60_000_000_000| >= st.limits.mutating)
    || (m.risk == Critical
        && |set i | 0 <= i < |h| && h[i].kind.critical && now - h[i].now < 3_600_000_000_000| >= st.limits.critical)
  }

  lemma Opened(site: Site, st: State, frame: Bytes)
    ensures OpenFrame(site.codec, st.key, frame).Some? <==> IsAuthentic(site, st, frame)
    ensures IsAuthentic(site, st, frame) ==> OpenFrame(site.codec, st.key, frame) == Some(RequestFrom(site, frame))
  {
    hide OpenFrame;
    if OpenFrame(site.codec, st.key, frame).Some? {
      OpensIffSigned(site.codec, st.key, frame, OpenFrame(site.codec, st.key, frame).value);
    } else if IsAuthentic(site, st, frame) {
      OpensIffSigned(site.codec, st.key, frame, RequestFrom(site, frame));
    }
  }

  lemma StaleMeaning(st: State, r: ExecRequest)
    ensures Replay.Decide(st.admissions, AttemptOf(r)) != Replay.Admitted <==> IsStale(st, r)
  {
    Replay.DecideMeaning(st.admissions, AttemptOf(r));
  }

  lemma RateMeaning(st: State, now: int, m: Manifest)
    requires forall i :: 0 <= i < |st.hits| ==> st.hits[i].now <= now
    ensures RateLimit.Decide(st.limits, st.hits, RateLimit.Call(now, KindOf(m))) != RateLimit.Admitted <==> IsOverRate(st, now, m)
  {
    hide RateLimit.Decide, KindOf;
    CeilingLaws.ShedByCounting(st.limits, st.hits, now, m);
  }

  /** The answer to an authentic, fresh request for a verified bundle. */
  ghost function AnswerFor(site: Site, st: State, r: ExecRequest, m: Manifest, s: Surroundings): Outcome {
    if !site.argsOk(m, r.args) then Rejected(ArgRejected)
    else if !m.readOnly && st.ceiling == ReadOnly then Rejected(NotReadOnly)
    else if Denies(site.engine, m) then Rejected(DenylistHit)
    else if !Allowlisted(site.engine, r.profile, r.mode, r.exec) then Rejected(NotAllowlisted)
    else if IsOverRate(st, s.now, m) then Rejected(RateLimited)
    else if m.mutatesPersistentState && (m.pathsRw == [] || !s.snapshot.Taken?) then Rejected(SnapshotUnavailable)
    else if !site.planOk(m) || !s.cgroupOk then Rejected(SandboxRejected)
    else Completed(s.result, if m.mutatesPersistentState then Some(s.snapshot.id) else None)
  }

  lemma BundleAnswer(site: Site, st: State, r: ExecRequest, m: Manifest, s: Surroundings)
    requires forall i :: 0 <= i < |st.hits| ==> st.hits[i].now <= s.now
    ensures AnswerFor(site, st, r, m, s) ==
              match BundleRefusal(site, st, r, m, s)
              case Some(g) => Rejected(StageOf(g))
              case None => Completed(s.result, SnapshotOf(m, s))
  {
    hide Policy.Evaluate, Question, RateLimit.Decide, Denies, Allowlisted, IsOverRate, KindOf;
    PolicyByBundle(site.engine, r.profile, r.mode, r.exec, m);
    RateMeaning(st, s.now, m);
  }

  /**
   The answer to any frame, gate by gate in the order of the pipeline, each rejection
   with its own stage.
   */
  lemma AnswerByGates(site: Site, st: State, frame: Bytes, s: Surroundings)
    requires forall i :: 0 <= i < |st.hits| ==> st.hits[i].now <= s.now
    ensures Reply(site, st, frame, s) ==
              if !IsAuthentic(site, st, frame) then
                Response([0, 0, 0, 0, 0, 0, 0, 0, 0, 0, 0, 0, 0, 0, 0, 0], Rejected(SignatureInvalid))
              else
                var r := RequestFrom(site, frame);
                Response(r.action,
                         if IsStale(st, r) then Rejected(ReplayStage)
                         else if !SafeExecName(r.exec) || site.load(r.exec).None? then Rejected(BundleUnverified)
                         else AnswerFor(site, st, r, site.load(r.exec).value, s))
  {
    hide OpenFrame, IsAuthentic, IsStale, AnswerFor, SafeExecName, BundleRefusal, Replay.Decide, Refusal, MessageIn;
    Opened(site, st, frame);
    RefusalByBranch(site, st, frame, s);
    BundleGatesAreLate(site, st, s);
    if IsAuthentic(site, st, frame) {
      var r := OpenFrame(site.codec, st.key, frame).value;
      StaleMeaning(st, r);
      if BundleOf(site, r).Some? {
        BundleAnswer(site, st, r, BundleOf(site, r).value, s);
      }
    }
  }

  /** The bundle of an authentic, fresh request passes every gate up to the limiter, and the limiter. */
  ghost predicate IsCharged(site: Site, st: State, r: ExecRequest, s: Surroundings) {
    && SafeExecName(r.exec) && site.load(r.exec).Some?
    && AnswerFor(site, st, r, site.load(r.exec).value, s) !in
         {Rejected(ArgRejected), Rejected(NotReadOnly), Rejected(DenylistHit), Rejected(NotAllowlisted), Rejected(RateLimited)}
  }

  /** What a frame leaves behind in the two histories: a stale or unauthentic one nothing, others as far as they came. */
  lemma StateByGates(site: Site, st: State, frame: Bytes, s: Surroundings)
    requires forall i :: 0 <= i < |st.hits| ==> st.hits[i].now <= s.now
    ensures var st' := After(site, st, frame, s);
            && st'.key == st.key && st'.ceiling == st.ceiling && st'.limits == st.limits
            && (!IsAuthentic(site, st, frame) || IsStale(st, RequestFrom(site, frame)) ==> st' == st)
            && (IsAuthentic(site, st, frame) && !IsStale(st, RequestFrom(site, frame)) ==>
                  var r := RequestFrom(site, frame);
                  && st'.admissions == st.admissions + [Replay.Attempt(r.session, r.number, r.nonce)]
                  && (if IsCharged(site, st, r, s) then
                        var m := site.load(r.exec).value;
                        st'.hits == st.hits + [RateLimit.Call(s.now, RateLimit.ActionClass(!m.readOnly, m.risk == Critical))]
                      else st'.hits == st.hits && st'.runs == st.runs))
  {
    hide OpenFrame, IsAuthentic, IsStale, AnswerFor, SafeExecName, BundleRefusal, Replay.Decide, RateLimit.Decide, Refusal, MessageIn;
    Opened(site, st, frame);
    RefusalByBranch(site, st, frame, s);
    if IsAuthentic(site, st, frame) {
      var r := OpenFrame(site.codec, st.key, frame).value;
      StaleMeaning(st, r);
      if BundleOf(site, r).Some? {
        var m := BundleOf(site, r).value;
        BundleAnswer(site, st, r, m, s);
        LaterThanBundle(site, st, r, m, s);
      }
    }
  }

  lemma LaterThanBundle(site: Site, st: State, r: ExecRequest, m: Manifest, s: Surroundings)
    ensures BundleRefusal(site, st, r, m, s).Some? ==> Rank(BundleRefusal(site, st, r, m, s).value) > Rank(BundleGate)
  {
    hide Demands;
  }

  // ----- Every runner call, over whole runs ------------------------------------------------------

  /** No denied command, no path denied for the access the bundle declares, and a place on the allowlist. */
  ghost predicate IsPermitted(e: Policy.Engine, call: RunnerCall) {
    && !e.commandDenied(call.manifest.script)
    && (forall i :: 0 <= i < |call.manifest.pathsRo| ==> Denylist.CheckPath(e.rules, call.manifest.pathsRo[i], Denylist.Read) == None)
    && (forall i :: 0 <= i < |call.manifest.pathsRw| ==> Denylist.CheckPath(e.rules, call.manifest.pathsRw[i], Denylist.Write) == None)
    && exists profile, mode :: Allowlisted(e, profile, mode, call.exec)
  }

  /** Everything about the call that a step makes. */
  lemma CallIsMade(site: Site, st: State, frame: Bytes, s: Surroundings)
    requires AllGatesPassed(site, st, frame, s)
    ensures IsAuthentic(site, st, frame)
    ensures var r := RequestFrom(site, frame);
            && site.load(r.exec).Some?
            && var m := site.load(r.exec).value;
            && After(site, st, frame, s).runs == st.runs
                 + [RunnerCall(frame, r.session, r.number, r.exec, m, r.args,
                               if m.mutatesPersistentState && s.snapshot.Taken? then Some(s.snapshot.id) else None, s.now)]
            && !Denies(site.engine, m) && Allowlisted(site.engine, r.profile, r.mode, r.exec)
  {
    hide OpenFrame, IsAuthentic, SafeExecName, Policy.Evaluate, Question, Replay.Decide, RateLimit.Decide, Denies, Allowlisted, MessageIn;
    Opened(site, st, frame);
    RunIffAllGates(site, st, frame, s);
    var r := OpenFrame(site.codec, st.key, frame).value;
    PolicyByBundle(site.engine, r.profile, r.mode, r.exec, site.load(r.exec).value);
  }

  lemma {:induction false} EveryCallIsPermitted(site: Site, st: State, inputs: seq<Input>)
    requires Fresh(st)
    ensures forall j :: 0 <= j < |Run(site, st, inputs).runs| ==> IsPermitted(site.engine, Run(site, st, inputs).runs[j])
  {
    hide After, AllGatesPassed, IsPermitted, Denies, Allowlisted, IsAuthentic;
    if inputs != [] {
      var n := |inputs| - 1;
      EveryCallIsPermitted(site, st, inputs[..n]);
      var before := Run(site, st, inputs[..n]);
      if inputs[n].Deliver? {
        RunIffAllGates(site, before, inputs[n].frame, inputs[n].s);
        if AllGatesPassed(site, before, inputs[n].frame, inputs[n].s) {
          CallIsMade(site, before, inputs[n].frame, inputs[n].s);
          var r := RequestFrom(site, inputs[n].frame);
          var calls := After(site, before, inputs[n].frame, inputs[n].s).runs;
          PermittedCall(site.engine, r.profile, r.mode, calls[|calls| - 1]);
        }
      }
    }
  }

  lemma PermittedCall(e: Policy.Engine, profile: string, mode: Mode, call: RunnerCall)
    requires !Denies(e, call.manifest) && Allowlisted(e, profile, mode, call.exec)
    ensures IsPermitted(e, call)
  {
    hide Denylist.CheckPath, Policy.Lists;
  }

  /** With the shipped rules: out of reach for writing, and for reading too under an Any rule. */
  ghost predicate KeepsOff(path: string, access: Denylist.Access) {
    && Accepted(path)
    && (forall i :: 0 <= i < |Denylist.PROTECTED| && (access == Denylist.Write || Denylist.PROTECTED[i].scope == Denylist.Any)
          ==> !(Denylist.PROTECTED[i].names <= NamesOf(path)))
    && (forall i :: 0 <= i < |Denylist.FILES| && (access == Denylist.Write || Denylist.FILES[i].scope == Denylist.Any)
          ==> NamesOf(path) != Denylist.FILES[i].names)
    && (forall i, mid :: 0 <= i < |WildcardRules.STARRED|
          && (access == Denylist.Write || WildcardRules.STARRED[i].scope == Denylist.Any)
          ==> !WildcardRules.Fills(mid, WildcardRules.STARRED[i].before, WildcardRules.STARRED[i].after, Canonical(NamesOf(path))))
  }

  lemma UndeniedKeepsOff(path: string, access: Denylist.Access)
    requires Denylist.CheckPath(Denylist.RULES, path, access) == None
    ensures KeepsOff(path, access)
  {
    hide Denylist.CheckPath, NamesOf, Canonical;
    Denylist.CheckPathMeaning(Denylist.RULES, path, access);
    forall i | 0 <= i < |Denylist.PROTECTED| && (access == Denylist.Write || Denylist.PROTECTED[i].scope == Denylist.Any)
      ensures !(Denylist.PROTECTED[i].names <= NamesOf(path))
    {
      if Denylist.PROTECTED[i].names <= NamesOf(path) {
        Denylist.ProtectedDirectories(i, path, access);
      }
    }
    forall i | 0 <= i < |Denylist.FILES| && (access == Denylist.Write || Denylist.FILES[i].scope == Denylist.Any)
      ensures NamesOf(path) != Denylist.FILES[i].names
    {
      if NamesOf(path) == Denylist.FILES[i].names {
        Denylist.ProtectedFiles(i, path, access);
      }
    }
    forall i, mid | 0 <= i < |WildcardRules.STARRED|
        && (access == Denylist.Write || WildcardRules.STARRED[i].scope == Denylist.Any)
      ensures !WildcardRules.Fills(mid, WildcardRules.STARRED[i].before, WildcardRules.STARRED[i].after, Canonical(NamesOf(path)))
    {
      if WildcardRules.Fills(mid, WildcardRules.STARRED[i].before, WildcardRules.STARRED[i].after, Canonical(NamesOf(path))) {
        WildcardRules.ProtectedByStar(i, mid, path, access);
      }
    }
  }

  /**
   With the shipped rules installed, no bundle that ever runs declares a path, in any
   spelling, that reaches into a protected directory or at a protected file.
   */
  lemma NoCallReachesProtected(site: Site, st: State, inputs: seq<Input>, j: nat)
    requires Fresh(st) && site.engine.rules == Denylist.RULES
    requires j < |Run(site, st, inputs).runs|
    ensures var m := Run(site, st, inputs).runs[j].manifest;
            && (forall i :: 0 <= i < |m.pathsRw| ==> KeepsOff(m.pathsRw[i], Denylist.Write))
            && (forall i :: 0 <= i < |m.pathsRo| ==> KeepsOff(m.pathsRo[i], Denylist.Read))
  {
    hide Run, KeepsOff, Denylist.CheckPath;
    EveryCallIsPermitted(site, st, inputs);
    var m := Run(site, st, inputs).runs[j].manifest;
    assert IsPermitted(site.engine, Run(site, st, inputs).runs[j]);
    forall i | 0 <= i < |m.pathsRw| ensures KeepsOff(m.pathsRw[i], Denylist.Write) {
      UndeniedKeepsOff(m.pathsRw[i], Denylist.Write);
    }
    forall i | 0 <= i < |m.pathsRo| ensures KeepsOff(m.pathsRo[i], Denylist.Read) {
      UndeniedKeepsOff(m.pathsRo[i], Denylist.Read);
    }
  }
}
