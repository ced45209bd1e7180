/** Nothing happens on a frame nobody signed, over every run of the executor and of the whole protocol. */
module Authenticity {
  import opened Common
  import opened Events
  import opened Wire
  import opened Execd
  import opened ExecdRuns
  import Agreement
  import Binding
  import Daemon
  import Policy
  import Protocol
  import RateLimit
  import Replay

  /**
   The call's frame is an envelope whose signature verifies under `key` over exactly the
   bytes that decode to the request that ran.
   */
  ghost predicate RunsSignedBytes(c: Codec, key: Bytes, call: RunnerCall) {
    exists e: Envelope, r: ExecRequest ::
      && c.decodeEnvelope(call.frame) == Some(e)
      && e.version == 1 && |e.signature| == 64 && c.verify(key, e.request, e.signature)
      && c.decodeRequest(e.request) == Some(r)
      && r.session == call.session && r.number == call.number && r.exec == call.exec && r.args == call.args
  }

  /** A frame without such a signature, or whose signed bytes are no request, is refused and changes nothing. */
  lemma UnsignedChangesNothing(site: Site, st: State, frame: Bytes, s: Surroundings)
    ensures Reply(site, st, frame, s).outcome == Rejected(SignatureInvalid)
       <==> !(IsSigned(site.codec, st.key, frame) && site.codec.decodeRequest(MessageIn(site.codec, frame).value).Some?)
    ensures Reply(site, st, frame, s).outcome == Rejected(SignatureInvalid) ==> After(site, st, frame, s) == st
  {
    hide OpenFrame, Refusal, SafeExecName, Policy.Evaluate, Replay.Decide, RateLimit.Decide;
    RefusalByBranch(site, st, frame, s);
    BundleGatesAreLate(site, st, s);
    if OpenFrame(site.codec, st.key, frame).Some? {
      OpensIffSigned(site.codec, st.key, frame, OpenFrame(site.codec, st.key, frame).value);
    } else if IsSigned(site.codec, st.key, frame) && site.codec.decodeRequest(MessageIn(site.codec, frame).value).Some? {
      OpensIffSigned(site.codec, st.key, frame, site.codec.decodeRequest(MessageIn(site.codec, frame).value).value);
    }
  }

  lemma StepRunsSigned(site: Site, st: State, frame: Bytes, s: Surroundings)
    requires AllGatesPassed(site, st, frame, s)
    ensures RunsSignedBytes(site.codec, st.key, CallOf(site, st, frame, s))
  {
    hide OpenFrame, SafeExecName, Policy.Evaluate, Replay.Decide, RateLimit.Decide;
    var r := OpenFrame(site.codec, st.key, frame).value;
    OpensIffSigned(site.codec, st.key, frame, r);
    var e: Envelope :| site.codec.decodeEnvelope(frame) == Some(e)
      && e.version == 1 && |e.signature| == 64 && site.codec.verify(st.key, e.request, e.signature);
    assert site.codec.decodeRequest(e.request) == Some(r);
  }

  /** The call came in with one of the inputs, signed under the key then in force. */
  ghost predicate CameInSigned(site: Site, st: State, inputs: seq<Input>, call: RunnerCall) {
    exists k :: 0 <= k < |inputs| && inputs[k].Deliver? && inputs[k].frame == call.frame
                && RunsSignedBytes(site.codec, Run(site, st, inputs[..k]).key, call)
  }

  lemma MoreInputs(site: Site, st: State, inputs: seq<Input>, call: RunnerCall)
    requires inputs != [] && CameInSigned(site, st, inputs[..|inputs| - 1], call)
    ensures CameInSigned(site, st, inputs, call)
  {
    hide RunsSignedBytes, Run;
    var n := |inputs| - 1;
    var k :| 0 <= k < n && inputs[..n][k].Deliver? && inputs[..n][k].frame == call.frame
             && RunsSignedBytes(site.codec, Run(site, st, inputs[..n][..k]).key, call);
    assert inputs[..n][..k] == inputs[..k] && inputs[..n][k] == inputs[k];
  }

  /** Over every run, with the key changing in between: each runner call is of a frame signed under the key in force. */
  lemma {:induction false} EveryRunIsSigned(site: Site, st: State, inputs: seq<Input>)
    requires Fresh(st)
    ensures forall j :: 0 <= j < |Run(site, st, inputs).runs| ==> CameInSigned(site, st, inputs, Run(site, st, inputs).runs[j])
  {
    hide After, CallOf, RunsSignedBytes, AllGatesPassed;
    if inputs != [] {
      var n := |inputs| - 1;
      EveryRunIsSigned(site, st, inputs[..n]);
      var before := Run(site, st, inputs[..n]);
      forall j | 0 <= j < |before.runs| ensures CameInSigned(site, st, inputs, before.runs[j]) {
        MoreInputs(site, st, inputs, before.runs[j]);
      }
      if inputs[n].Deliver? {
        RunIffAllGates(site, before, inputs[n].frame, inputs[n].s);
        if AllGatesPassed(site, before, inputs[n].frame, inputs[n].s) {
          var call := CallOf(site, before, inputs[n].frame, inputs[n].s);
          StepRunsSigned(site, before, inputs[n].frame, inputs[n].s);
          CallFrame(site, before, inputs[n].frame, inputs[n].s);
          assert CameInSigned(site, st, inputs, call);
        }
      }
    }
  }

  lemma CallFrame(site: Site, st: State, frame: Bytes, s: Surroundings)
    ensures CallOf(site, st, frame, s).frame == frame
  {
  }

  /** In every run of daemon and executor from the start, each runner call is of bytes signed under the session's key. */
  lemma EveryCallIsSigned(c: Daemon.Config, ceiling: Mode, limits: RateLimit.RateLimits, clock: int,
                          steps: seq<Protocol.Step>, j: nat)
    requires j < |Protocol.Run(c, Protocol.Start(c, ceiling, limits, clock), steps).x.runs|
    ensures RunsSignedBytes(c.site.codec, c.site.codec.publicKey(c.secret),
                            Protocol.Run(c, Protocol.Start(c, ceiling, limits, clock), steps).x.runs[j])
  {
    hide Protocol.Run, OpenFrame;
    var start := Protocol.Start(c, ceiling, limits, clock);
    var call := Protocol.Run(c, start, steps).x.runs[j];
    Binding.RunKeepsFrames(c, start, steps);
    assert Binding.RunsItsFrame(c.site, c.site.codec.publicKey(c.secret), call);
    var r := OpenFrame(c.site.codec, c.site.codec.publicKey(c.secret), call.frame).value;
    OpensIffSigned(c.site.codec, c.site.codec.publicKey(c.secret), call.frame, r);
    var e: Envelope :| c.site.codec.decodeEnvelope(call.frame) == Some(e)
      && e.version == 1 && |e.signature| == 64 && c.site.codec.verify(c.site.codec.publicKey(c.secret), e.request, e.signature);
    assert c.site.codec.decodeRequest(e.request) == Some(r);
  }
}
