/**
 The incremental log tailer: a byte-level loop with partial lines, a cap on the
 lines of one poll, CRLF, over-long lines and rotation, against simply splitting
 the file.
 */
module Tailer {
  import opened Common
  import opened LineSplit

  datatype Limits = Limits(maxLineBytes: nat, maxLines: nat)

  datatype LogEvent = LogEvent(line: Bytes, truncated: bool)

  // ----- What one line becomes ----------------------------------------------

  /** One line as an event: bare of its carriage return, cut to the cap. */
  function Emit(line: Bytes, maxLineBytes: nat): LogEvent {
    var bare := StripCarriageReturn(line);
    LogEvent(if |bare| > maxLineBytes then bare[..maxLineBytes] else bare, |bare| > maxLineBytes)
  }

  ghost function EmitAll(lines: seq<Bytes>, maxLineBytes: nat): seq<LogEvent> {
    seq(|lines|, i requires 0 <= i < |lines| => Emit(lines[i], maxLineBytes))
  }

  lemma EmitAllSnoc(lines: seq<Bytes>, n: nat, maxLineBytes: nat)
    requires n < |lines|
    ensures EmitAll(lines[..n + 1], maxLineBytes) == EmitAll(lines[..n], maxLineBytes) + [Emit(lines[n], maxLineBytes)]
  {
  }

  /**
   The event of a line, in bytes: the line without its last byte if that is 13, cut to the
   cap, and marked exactly if it was cut.
   */
  ghost predicate IsEventOf(event: LogEvent, line: Bytes, maxLineBytes: nat) {
    exists bare: Bytes ::
      && IsBare(bare, line)
      && event.line == (if |bare| > maxLineBytes then bare[..maxLineBytes] else bare)
      && (event.truncated <==> |bare| > maxLineBytes)
  }

  ghost predicate AreEventsOf(events: seq<LogEvent>, lines: seq<Bytes>, maxLineBytes: nat) {
    |events| == |lines| && forall i :: 0 <= i < |lines| ==> IsEventOf(events[i], lines[i], maxLineBytes)
  }

  lemma EmittedAreEvents(lines: seq<Bytes>, maxLineBytes: nat)
    ensures AreEventsOf(EmitAll(lines, maxLineBytes), lines, maxLineBytes)
  {
    hide StripCarriageReturn, IsBare;
    forall i | 0 <= i < |lines| ensures IsEventOf(Emit(lines[i], maxLineBytes), lines[i], maxLineBytes) {
      StripIsBare(lines[i]);
      assert IsBare(StripCarriageReturn(lines[i]), lines[i]);
    }
  }

  // ----- One poll -------------------------------------------------------------

  ghost function Min(a: nat, b: nat): nat { if a < b then a else b }

  /** Where reading starts: at the offset, or at 0 if the file has become shorter. */
  function StartOf(content: Bytes, offset: nat): (start: nat)
    ensures start <= |content|
  {
    if |content| < offset then 0 else offset
  }

  /** The lines one poll consumes. */
  ghost function Batch(content: Bytes, offset: nat, limits: Limits): seq<Bytes> {
    var pending := Lines(content[StartOf(content, offset)..]);
    pending[..Min(limits.maxLines, |pending|)]
  }

  class LogTailer {
    const limits: Limits
    var offset: nat

    /** Begin at the length the file has now. */
    constructor (file: Option<Bytes>, limits: Limits)
      ensures this.limits == limits
      ensures offset == match file case None => 0 case Some(content) => |content|
    {
      this.limits := limits;
      offset := match file case None => 0 case Some(content) => |content|;
    }

    /** Begin at offset 0. */
    constructor FromStart(limits: Limits)
      ensures this.limits == limits && offset == 0
    {
      this.limits, offset := limits, 0;
    }

    /**
     Emit the next complete lines, at most `maxLines`, and advance past exactly
     those; a partial last line stays.
     */
    method Poll(file: Option<Bytes>) returns (events: seq<LogEvent>)
      modifies this
      ensures file.None? ==> events == [] && offset == old(offset)
      ensures file.Some? ==>
                var batch := Batch(file.value, old(offset), limits);
                && events == EmitAll(batch, limits.maxLineBytes)
                && AreEventsOf(events, batch, limits.maxLineBytes)
                && offset == StartOf(file.value, old(offset)) + SizeOf(batch) <= |file.value|
    {
      hide Lines, Unlines, SizeOf, Batch, Emit, EmitAll, FirstNewline, AreEventsOf;
      events := [];
      if file.None? {
        return;
      }
      var content := file.value;
      if |content| < offset {
        offset := 0;
      }
      ghost var pending := Lines(content[offset..]);
      var consumed, count := 0, 0;
      NoLines();
      while count < limits.maxLines
        invariant count <= limits.maxLines && count <= |pending|
        invariant offset == StartOf(content, old(offset)) && pending == Lines(content[offset..])
        invariant consumed == SizeOf(pending[..count]) && offset + consumed <= |content|
        invariant events == EmitAll(pending[..count], limits.maxLineBytes)
      {
        ReadOn(content, offset, count, limits.maxLineBytes);
        var rest := content[offset + consumed..];
        var k := FirstNewline(rest);
        if k == |rest| {
          break;
        }
        consumed := consumed + k + 1;
        events := events + [Emit(rest[..k], limits.maxLineBytes)];
        count := count + 1;
      }
      BatchIs(content, old(offset), limits, count);
      EmittedAreEvents(pending[..count], limits.maxLineBytes);
      offset := offset + consumed;
    }
  }

  /** One more line of a poll: where it ends, and what it adds to the batch. */
  lemma ReadOn(content: Bytes, start: nat, count: nat, maxLineBytes: nat)
    requires start <= |content| && count <= |Lines(content[start..])|
    ensures var pending := Lines(content[start..]);
            var at := start + SizeOf(pending[..count]);
            && at <= |content|
            && var rest := content[at..];
            var k := FirstNewline(rest);
            && (k == |rest| <==> count == |pending|)
            && (count < |pending| ==>
                  && at + k + 1 <= |content|
                  && SizeOf(pending[..count + 1]) == SizeOf(pending[..count]) + k + 1
                  && EmitAll(pending[..count + 1], maxLineBytes)
                     == EmitAll(pending[..count], maxLineBytes) + [Emit(rest[..k], maxLineBytes)])
  {
    hide Lines, SizeOf, Emit, EmitAll, FirstNewline;
    NextLine(content, start, count);
    if count < |Lines(content[start..])| {
      EmitAllSnoc(Lines(content[start..]), count, maxLineBytes);
    }
  }

  /** A poll that stopped at its cap or at the partial rest consumed exactly its batch. */
  lemma BatchIs(content: Bytes, offset: nat, limits: Limits, count: nat)
    requires count <= limits.maxLines
    requires var pending := Lines(content[StartOf(content, offset)..]);
             count <= |pending| && (count == limits.maxLines || count == |pending|)
    ensures Batch(content, offset, limits) == Lines(content[StartOf(content, offset)..])[..count]
  {
  }

  lemma NoLines()
    ensures forall lines: seq<Bytes> :: SizeOf(lines[..0]) == 0
    ensures forall lines: seq<Bytes>, max: nat :: EmitAll(lines[..0], max) == []
  {
  }

  // ----- Whole runs over a file that others write ----------------------------------

  datatype Step = Append(bytes: Bytes) | Replace(content: Bytes) | Poll

  datatype Watch = Watch(content: Bytes, offset: nat, emitted: seq<LogEvent>)

  ghost function After(w: Watch, limits: Limits, step: Step): Watch {
    match step
    case Append(bytes) => w.(content := w.content + bytes)
    case Replace(content) => w.(content := content)
    case Poll =>
      var batch := Batch(w.content, w.offset, limits);
      Watch(w.content, StartOf(w.content, w.offset) + SizeOf(batch),
            w.emitted + EmitAll(batch, limits.maxLineBytes))
  }

  ghost function Run(w: Watch, limits: Limits, steps: seq<Step>): Watch {
    if steps == [] then w else
      After(Run(w, limits, steps[..|steps| - 1]), limits, steps[|steps| - 1])
  }

  /** The lines written at or after position `start`. */
  ghost function Written(content: Bytes, start: nat): seq<Bytes>
    requires start <= |content|
  {
    Lines(content[start..])
  }

  /**
   What has been emitted is a prefix of the split of the file from `start`, and
   the offset is `start` plus the bytes of exactly those lines.
   */
  ghost predicate InStep(w: Watch, start: nat, limits: Limits) {
    && start <= |w.content|
    && |w.emitted| <= |Written(w.content, start)|
    && w.emitted == EmitAll(Written(w.content, start)[..|w.emitted|], limits.maxLineBytes)
    && w.offset == start + SizeOf(Written(w.content, start)[..|w.emitted|])
  }

  lemma AppendKeepsStep(w: Watch, start: nat, limits: Limits, bytes: Bytes)
    requires InStep(w, start, limits)
    ensures InStep(After(w, limits, Append(bytes)), start, limits)
  {
    var n := |w.emitted|;
    assert (w.content + bytes)[start..] == w.content[start..] + bytes;
    LinesGrow(w.content[start..], bytes);
    var before, now := Written(w.content, start), Written(w.content + bytes, start);
    assert now[..n] == before[..n];
  }

  lemma PollKeepsStep(w: Watch, start: nat, limits: Limits)
    requires InStep(w, start, limits)
    ensures var w' := After(w, limits, Poll);
            && InStep(w', start, limits)
            && |w'.emitted| == Min(|w.emitted| + limits.maxLines, |Written(w.content, start)|)
  {
    hide Lines, Unlines;
    var all, n := Lines(w.content[start..]), |w.emitted|;
    LinesAfter(w.content[start..], n);
    assert w.content[start..][w.offset - start..] == w.content[w.offset..];
    var batch := Batch(w.content, w.offset, limits);
    var more := n + |batch|;
    assert batch == all[n..more];
    assert all[..more] == all[..n] + batch;
    UnlinesAppend(all[..n], batch);
    LinesAfter(w.content[start..], more);
  }

  /** The file is never replaced or truncated. */
  ghost predicate OnlyGrows(steps: seq<Step>) {
    forall i :: 0 <= i < |steps| ==> !steps[i].Replace?
  }

  /** In every interleaving of appends and polls, emission stays in step with splitting the file. */
  lemma {:induction false} RunStaysInStep(content: Bytes, start: nat, limits: Limits, steps: seq<Step>)
    requires start <= |content| && OnlyGrows(steps)
    ensures InStep(Run(Watch(content, start, []), limits, steps), start, limits)
  {
    var w := Watch(content, start, []);
    if steps == [] {
      assert Written(content, start)[..0] == [];
    } else {
      var n := |steps| - 1;
      RunStaysInStep(content, start, limits, steps[..n]);
      match steps[n]
      case Append(bytes) => AppendKeepsStep(Run(w, limits, steps[..n]), start, limits, bytes);
      case Poll => PollKeepsStep(Run(w, limits, steps[..n]), start, limits);
    }
  }

  /** Over every run of appends and polls, the i-th event is that of the i-th line. */
  lemma RunEmitsTheLines(content: Bytes, start: nat, limits: Limits, steps: seq<Step>)
    requires start <= |content| && OnlyGrows(steps)
    ensures var w := Run(Watch(content, start, []), limits, steps);
            && start <= |w.content|
            && |w.emitted| <= |Written(w.content, start)|
            && AreEventsOf(w.emitted, Written(w.content, start)[..|w.emitted|], limits.maxLineBytes)
  {
    hide Run, EmitAll, Lines, AreEventsOf;
    RunStaysInStep(content, start, limits, steps);
    var w := Run(Watch(content, start, []), limits, steps);
    EmittedAreEvents(Written(w.content, start)[..|w.emitted|], limits.maxLineBytes);
  }

  /** Read whole, a file and its copy with carriage returns give the same events. */
  lemma CrlfCopyEmitsTheSame(content: Bytes, limits: Limits, k: nat)
    requires limits.maxLines > 0 && NoneEndsInReturn(Lines(content)) && k >= |Lines(content)|
    ensures Polls(Watch(ToCrlf(content), 0, []), limits, k).emitted == Polls(Watch(content, 0, []), limits, k).emitted
  {
    hide Lines, Polls, EmitAll, ToCrlf;
    var copy, lines := ToCrlf(content), Lines(content);
    CrlfLines(content);
    assert content[0..] == content && copy[0..] == copy;
    assert Run(Watch(content, 0, []), limits, []) == Watch(content, 0, []);
    assert Run(Watch(copy, 0, []), limits, []) == Watch(copy, 0, []);
    EnoughPollsEmitEverything(content, 0, limits, [], k);
    EnoughPollsEmitEverything(copy, 0, limits, [], k);
    CrlfEmits(lines, limits.maxLineBytes);
  }

  lemma CrlfEmits(lines: seq<Bytes>, maxLineBytes: nat)
    requires NoneEndsInReturn(lines)
    ensures EmitAll(WithReturns(lines), maxLineBytes) == EmitAll(lines, maxLineBytes)
  {
    hide StripCarriageReturn;
    forall i | 0 <= i < |lines| ensures Emit(lines[i] + [13], maxLineBytes) == Emit(lines[i], maxLineBytes) {
      CrlfStrips(lines[i]);
    }
  }

  /** How many lines `k` polls may emit at most. */
  ghost function Capacity(maxLines: nat, k: nat): nat {
    if k == 0 then 0 else Capacity(maxLines, k - 1) + maxLines
  }

  lemma {:induction false} CapacityGrows(maxLines: nat, k: nat)
    requires maxLines > 0
    ensures Capacity(maxLines, k) >= k
  {
    if k > 0 {
      CapacityGrows(maxLines, k - 1);
    }
  }

  /** `k` polls in a row. */
  ghost function Polls(w: Watch, limits: Limits, k: nat): Watch {
    if k == 0 then w else After(Polls(w, limits, k - 1), limits, Poll)
  }

  /** After `k` polls in a row the count of emitted lines has grown by `k` caps, or to all lines. */
  lemma {:induction false} PollsProgress(w: Watch, start: nat, limits: Limits, k: nat)
    requires InStep(w, start, limits)
    ensures InStep(Polls(w, limits, k), start, limits) && Polls(w, limits, k).content == w.content
    ensures |Polls(w, limits, k).emitted| == Min(|w.emitted| + Capacity(limits.maxLines, k), |Written(w.content, start)|)
  {
    hide Lines, EmitAll, SizeOf, Batch;
    if k > 0 {
      PollsProgress(w, start, limits, k - 1);
      PollKeepsStep(Polls(w, limits, k - 1), start, limits);
    }
  }

  /** With a positive cap, enough polls emit every complete line of the file, once, in order. */
  lemma EnoughPollsEmitEverything(content: Bytes, start: nat, limits: Limits, steps: seq<Step>, k: nat)
    requires start <= |content| && limits.maxLines > 0 && OnlyGrows(steps)
    ensures var w := Run(Watch(content, start, []), limits, steps);
            && start <= |w.content|
            && var all := Written(w.content, start);
            k >= |all| ==> Polls(w, limits, k).emitted == EmitAll(all, limits.maxLineBytes)
  {
    hide Run, Polls, EmitAll, Lines;
    RunStaysInStep(content, start, limits, steps);
    var w := Run(Watch(content, start, []), limits, steps);
    PollsProgress(w, start, limits, k);
    CapacityGrows(limits.maxLines, k);
    var all := Written(w.content, start);
    assert all[..|all|] == all;
  }

  // ----- Rotation and truncation ----------------------------------------------------

  /**
   Since when, and from which position of the present file, emission is in step:
   from the `base`-th event on; `resumed` is false between a replacement and the next poll.
   */
  datatype Epoch = Epoch(base: nat, start: nat, resumed: bool)

  ghost function NextEpoch(w: Watch, ep: Epoch, step: Step): Epoch {
    match step
    case Append(_) => ep
    case Replace(_) => Epoch(|w.emitted|, 0, false)
    case Poll => if ep.resumed then ep else Epoch(|w.emitted|, StartOf(w.content, w.offset), true)
  }

  ghost function EpochOf(w: Watch, limits: Limits, steps: seq<Step>): Epoch {
    if steps == [] then Epoch(|w.emitted|, w.offset, true) else
      var before := steps[..|steps| - 1];
      NextEpoch(Run(w, limits, before), EpochOf(w, limits, before), steps[|steps| - 1])
  }

  /** What was emitted since the epoch began. */
  ghost function Since(w: Watch, base: nat): Watch
    requires base <= |w.emitted|
  {
    w.(emitted := w.emitted[base..])
  }

  ghost predicate InEpoch(w: Watch, ep: Epoch, limits: Limits) {
    && ep.base <= |w.emitted|
    && (if ep.resumed then InStep(Since(w, ep.base), ep.start, limits) else ep.base == |w.emitted|)
  }

  lemma PollSince(w: Watch, base: nat, limits: Limits)
    requires base <= |w.emitted|
    ensures base <= |After(w, limits, Poll).emitted|
    ensures Since(After(w, limits, Poll), base) == After(Since(w, base), limits, Poll)
  {
    hide Batch, EmitAll, SizeOf;
  }

  /** The first poll after a replacement starts an epoch at 0 if the file is shorter than the offset, else at the offset. */
  lemma PollResumes(w: Watch, limits: Limits)
    ensures InEpoch(After(w, limits, Poll), Epoch(|w.emitted|, StartOf(w.content, w.offset), true), limits)
  {
    hide Batch, EmitAll, SizeOf, Lines;
    var start := StartOf(w.content, w.offset);
    var unread := Watch(w.content, start, []);
    NothingYet(w.content, start, limits);
    PollKeepsStep(unread, start, limits);
    PollSince(w, |w.emitted|, limits);
    SameBatch(w, start, limits);
  }

  lemma NothingYet(content: Bytes, start: nat, limits: Limits)
    requires start <= |content|
    ensures InStep(Watch(content, start, []), start, limits)
  {
    assert Written(content, start)[..0] == [];
  }

  lemma SameBatch(w: Watch, start: nat, limits: Limits)
    requires start == StartOf(w.content, w.offset)
    ensures After(Since(w, |w.emitted|), limits, Poll) == After(Watch(w.content, start, []), limits, Poll)
  {
    hide Lines, EmitAll, SizeOf;
    assert w.emitted[|w.emitted|..] == [];
  }

  lemma StepKeepsEpoch(w: Watch, ep: Epoch, limits: Limits, step: Step)
    requires InEpoch(w, ep, limits)
    ensures InEpoch(After(w, limits, step), NextEpoch(w, ep, step), limits)
  {
    hide InStep, Batch, EmitAll, SizeOf;
    match step
    case Append(bytes) =>
      if ep.resumed {
        AppendKeepsStep(Since(w, ep.base), ep.start, limits, bytes);
      }
    case Replace(_) =>
    case Poll =>
      if ep.resumed {
        PollSince(w, ep.base, limits);
        PollKeepsStep(Since(w, ep.base), ep.start, limits);
      } else {
        PollResumes(w, limits);
      }
  }

  /**
   Over every run of appends, replacements and polls: since the first poll after the last
   replacement, emission is in step with the file as it then was and has grown, from 0 if
   that poll found it shorter than the offset, and otherwise from the offset.
   */
  lemma {:induction false} RunStaysInEpoch(content: Bytes, start: nat, limits: Limits, steps: seq<Step>)
    requires start <= |content|
    ensures InEpoch(Run(Watch(content, start, []), limits, steps), EpochOf(Watch(content, start, []), limits, steps), limits)
  {
    hide InEpoch, After, NextEpoch;
    var w := Watch(content, start, []);
    if steps == [] {
      EpochBegins(content, start, limits);
    } else {
      var before := steps[..|steps| - 1];
      RunStaysInEpoch(content, start, limits, before);
      StepKeepsEpoch(Run(w, limits, before), EpochOf(w, limits, before), limits, steps[|steps| - 1]);
    }
  }

  lemma EpochBegins(content: Bytes, start: nat, limits: Limits)
    requires start <= |content|
    ensures InEpoch(Watch(content, start, []), Epoch(0, start, true), limits)
  {
    hide InStep;
    NothingYet(content, start, limits);
    assert Since(Watch(content, start, []), 0) == Watch(content, start, []);
  }

  /**
   A poll that finds the file shorter than its offset reads the new file from its
   beginning: with a positive cap enough polls emit each complete line of it.
   */
  lemma ShorterFileIsReadWhole(w: Watch, limits: Limits, k: nat)
    requires |w.content| < w.offset && limits.maxLines > 0 && k >= |Lines(w.content)|
    ensures Polls(w, limits, k + 1).emitted == w.emitted + EmitAll(Lines(w.content), limits.maxLineBytes)
  {
    hide Lines, EmitAll, Batch, SizeOf, InStep;
    var w1 := Watch(w.content, 0, []);
    assert w.content[0..] == w.content;
    NothingYet(w.content, 0, limits);
    PollsProgress(w1, 0, limits, k + 1);
    CapacityGrows(limits.maxLines, k + 1);
    AllEmitted(Polls(w1, limits, k + 1), limits);
    PollsFromZero(w, limits, k + 1);
  }

  lemma AllEmitted(w: Watch, limits: Limits)
    requires InStep(w, 0, limits) && |w.emitted| == |Lines(w.content)|
    ensures w.emitted == EmitAll(Lines(w.content), limits.maxLineBytes)
  {
    hide Lines, EmitAll;
    assert w.content[0..] == w.content;
    assert Lines(w.content)[..|w.emitted|] == Lines(w.content);
  }

  /** From the first poll on, nothing distinguishes it from a file watched from its beginning. */
  lemma {:induction false} PollsFromZero(w: Watch, limits: Limits, k: nat)
    requires |w.content| < w.offset && k > 0
    ensures var v := Polls(Watch(w.content, 0, []), limits, k);
            Polls(w, limits, k) == v.(emitted := w.emitted + v.emitted)
  {
    hide Lines, EmitAll, SizeOf;
    if k > 1 {
      PollsFromZero(w, limits, k - 1);
    } else {
      assert Polls(w, limits, 0) == w;
      assert Polls(Watch(w.content, 0, []), limits, 0) == Watch(w.content, 0, []);
    }
  }
}
