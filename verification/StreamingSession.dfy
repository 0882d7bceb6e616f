/** One realtime session: ingest, rolling steps, provisional events, and the final pass.

What the models return for a window (voice activity, overlap regions), the fused segments, the label
changes and fresh event identifiers are inputs.  The ghost fields hold what the stored fields abbreviate: the whole
stream, the steps taken with everything they handed on, and the full event history.
*/
module StreamingSessions {
  import opened Audio
  import opened EventLog
  import opened Finals
  import opened Options
  import opened Ownership
  import opened Publication
  import opened PySlices
  import opened Ring
  import opened Timeline
  import opened Watermark

  datatype Phase = CREATED | STREAMING | FINALIZING | FINALIZED | FAILED

  datatype PushResult = OutsideStreaming | Misaligned | Accepted(due: bool)

  /** An event without dedup key: its identifier and its body. */
  datatype Note = Note(id: string, body: string)

  /** What one step publishes: the fused provisional segments with their texts, and the label changes. */
  datatype Emission = Emission(segments: seq<Provisional>, bodies: seq<string>, changes: seq<Note>)

  // ---- What is published, in order --------------------------------------------------------

  function NoteRequest(note: Note, revision: int): Request {
    Request(note.id, revision, None, false, None, note.body)
  }

  function ProvisionalRequests(segments: seq<Provisional>, bodies: seq<string>): seq<Request>
    requires |bodies| == |segments|
  {
    seq(|segments|, k requires 0 <= k < |segments| => NoteRequest(Note(segments[k].id, bodies[k]), 1))
  }

  /** A label change is a revision of what was delivered. */
  function ChangeRequests(changes: seq<Note>): seq<Request> {
    seq(|changes|, k requires 0 <= k < |changes| => NoteRequest(changes[k], 2))
  }

  /** A step publishes segments only if some interval closed. */
  function StepRequests(e: Emission, closed: bool): seq<Request>
    requires |e.bodies| == |e.segments|
  {
    (if closed then ProvisionalRequests(e.segments, e.bodies) else []) + ChangeRequests(e.changes)
  }

  function WarningRequests(warning: Option<Note>): seq<Request> {
    if warning.None? then [] else [NoteRequest(warning.value, 1)]
  }

  /** What the final pass publishes. */
  function PassRequests(changes: seq<Note>, finals: seq<Final>, ids: seq<string>, chosen: seq<Option<string>>,
                        warning: Option<Note>): seq<Request>
    requires |ids| == |finals| == |chosen|
  {
    ChangeRequests(changes) + (FinalRequests(finals, ids, chosen) + WarningRequests(warning))
  }

  /** Everything finalization publishes: the forced step, the label changes and finals of the final
  pass, its warnings, and the closing event; only the last for a session without audio. */
  function FinalizeRequests(heard: bool, e: Emission, closed: bool, changes: seq<Note>, finals: seq<Final>,
                            ids: seq<string>, chosen: seq<Option<string>>, warning: Option<Note>, closing: Note)
    : seq<Request>
    requires |e.bodies| == |e.segments| && |ids| == |finals| && (heard ==> |chosen| == |finals|)
  {
    (if heard then
       StepRequests(e, closed) + PassRequests(changes, finals, ids, chosen, warning)
     else [])
    + [NoteRequest(closing, 1)]
  }

  // ---- Fresh identifiers ------------------------------------------------------------------

  function RequestIds(reqs: seq<Request>): seq<string> {
    seq(|reqs|, k requires 0 <= k < |reqs| => reqs[k].id)
  }

  lemma FreshIdsMeans(log: Log, reqs: seq<Request>)
    requires FreshIds(log, RequestIds(reqs)) && forall k :: 0 <= k < |reqs| ==> reqs[k].revision >= 1
    ensures FreshRequests(log, reqs)
  {
    hide Unused;
    assert forall k :: 0 <= k < |reqs| ==> RequestIds(reqs)[k] == reqs[k].id;
  }

  lemma FreshSuffix(log: Log, a: seq<string>, b: seq<string>)
    requires FreshIds(log, a + b)
    ensures FreshIds(log, b)
  {
    hide Unused;
    assert forall i :: 0 <= i < |b| ==> (a + b)[|a| + i] == b[i];
  }

  lemma IdsConcat(a: seq<Request>, b: seq<Request>)
    ensures RequestIds(a + b) == RequestIds(a) + RequestIds(b)
  {
  }

  lemma StepRevisions(e: Emission, closed: bool)
    requires |e.bodies| == |e.segments|
    ensures forall k :: 0 <= k < |StepRequests(e, closed)| ==> StepRequests(e, closed)[k].revision >= 1
  {
  }

  lemma StepAccepted(log: Log, e: Emission, closed: bool)
    requires |e.bodies| == |e.segments| && FreshIds(log, RequestIds(StepRequests(e, true)))
    ensures NoneRefused(log, StepRequests(e, closed))
  {
    IdsConcat(ProvisionalRequests(e.segments, e.bodies), ChangeRequests(e.changes));
    FreshSuffix(log, RequestIds(ProvisionalRequests(e.segments, e.bodies)), RequestIds(ChangeRequests(e.changes)));
    assert [] + ChangeRequests(e.changes) == ChangeRequests(e.changes);
    StepRevisions(e, closed);
    hide Unused, FreshIds, ProvisionalRequests, ChangeRequests;
    FreshIdsMeans(log, StepRequests(e, closed));
    FreshAccepted(log, StepRequests(e, closed));
  }

  lemma FinalizeRevisions(heard: bool, e: Emission, closed: bool, changes: seq<Note>, finals: seq<Final>,
                          ids: seq<string>, chosen: seq<Option<string>>, warning: Option<Note>, closing: Note)
    requires |e.bodies| == |e.segments| && |ids| == |finals| && (heard ==> |chosen| == |finals|)
    ensures var reqs := FinalizeRequests(heard, e, closed, changes, finals, ids, chosen, warning, closing);
      forall k :: 0 <= k < |reqs| ==> reqs[k].revision >= 1
  {
    StepRevisions(e, closed);
    hide StepRequests;
  }

  /** The identifiers finalization may use. */
  function FinalizeIds(e: Emission, changes: seq<Note>, ids: seq<string>, warning: Option<Note>, closing: Note)
    : seq<string>
    requires |e.bodies| == |e.segments|
  {
    RequestIds(StepRequests(e, true))
    + (RequestIds(ChangeRequests(changes)) + (ids + RequestIds(WarningRequests(warning))))
    + [closing.id]
  }

  lemma FinalizeFresh(log: Log, heard: bool, e: Emission, closed: bool, changes: seq<Note>, finals: seq<Final>,
                      ids: seq<string>, chosen: seq<Option<string>>, warning: Option<Note>, closing: Note)
    requires |e.bodies| == |e.segments| && |ids| == |finals| && (heard ==> |chosen| == |finals|)
    requires FreshIds(log, FinalizeIds(e, changes, ids, warning, closing))
    ensures FreshIds(log, RequestIds(
            FinalizeRequests(heard, e, closed, changes, finals, ids, chosen, warning, closing)))
  {
    var provisional, change := ProvisionalRequests(e.segments, e.bodies), ChangeRequests(e.changes);
    var last := [NoteRequest(closing, 1)];
    assert RequestIds(last) == [closing.id];
    IdsConcat(provisional, change);
    hide Unused, FreshIds, ProvisionalRequests, ChangeRequests, WarningRequests, FinalRequest;
    if heard {
      var pass := ChangeRequests(changes) + (FinalRequests(finals, ids, chosen) + WarningRequests(warning));
      IdsConcat(ChangeRequests(changes), FinalRequests(finals, ids, chosen) + WarningRequests(warning));
      IdsConcat(FinalRequests(finals, ids, chosen), WarningRequests(warning));
      FinalIds(finals, ids, chosen);
      IdsConcat(StepRequests(e, closed) + pass, last);
      IdsConcat(StepRequests(e, closed), pass);
      if !closed {
        assert [] + change == change;
        var rest := RequestIds(change) + RequestIds(pass) + [closing.id];
        assert FinalizeIds(e, changes, ids, warning, closing) == RequestIds(provisional) + rest;
        FreshSuffix(log, RequestIds(provisional), rest);
      }
    } else {
      var all := FinalizeIds(e, changes, ids, warning, closing);
      assert all == all[..|all| - 1] + [closing.id];
      FreshSuffix(log, all[..|all| - 1], [closing.id]);
      assert [] + last == last;
    }
  }

  lemma FinalIds(finals: seq<Final>, ids: seq<string>, chosen: seq<Option<string>>)
    requires |ids| == |finals| == |chosen|
    ensures RequestIds(FinalRequests(finals, ids, chosen)) == ids
  {
  }

  lemma FinalizeAccepted(log: Log, heard: bool, e: Emission, closed: bool, changes: seq<Note>, finals: seq<Final>,
                         ids: seq<string>, chosen: seq<Option<string>>, warning: Option<Note>, closing: Note)
    requires |e.bodies| == |e.segments| && |ids| == |finals| && (heard ==> |chosen| == |finals|)
    requires FreshIds(log, FinalizeIds(e, changes, ids, warning, closing))
    ensures NoneRefused(log, FinalizeRequests(heard, e, closed, changes, finals, ids, chosen, warning, closing))
  {
    hide *;
    FinalizeFresh(log, heard, e, closed, changes, finals, ids, chosen, warning, closing);
    FinalizeRevisions(heard, e, closed, changes, finals, ids, chosen, warning, closing);
    FreshIdsMeans(log, FinalizeRequests(heard, e, closed, changes, finals, ids, chosen, warning, closing));
    FreshAccepted(log, FinalizeRequests(heard, e, closed, changes, finals, ids, chosen, warning, closing));
  }

  function MsOf(samples: nat, rate: nat): nat
    requires rate > 0
  {
    SamplesToMs(samples, rate).value
  }

  function SampleCount(ms: nat, rate: nat): nat
    requires rate > 0
  {
    MsToSamples(ms, rate).value
  }

  /** The ring holds the end of the stream. */
  ghost predicate InRing(samples: seq<int>, total: nat, stream: seq<int>, ringMs: nat, rate: nat)
    requires rate > 0
  {
    samples == Keep(stream, SampleCount(ringMs, rate)) && total == |stream|
  }

  ghost predicate Marked(emittedUntil: nat, handed: seq<TimeInterval>, steps: seq<Step>, silenceMs: nat) {
    (emittedUntil, handed) == Run(steps, silenceMs)
  }

  lemma PushedInRing(samples: seq<int>, total: nat, stream: seq<int>, frame: seq<int>, ringMs: nat, rate: nat)
    requires rate > 0 && InRing(samples, total, stream, ringMs, rate)
    ensures InRing(Keep(samples + frame, SampleCount(ringMs, rate)), total + |frame|, stream + frame, ringMs, rate)
  {
    hide SampleCount;
    KeepAfterAppend(stream, frame, SampleCount(ringMs, rate));
  }

  lemma RingOf(samples: seq<int>, total: nat, stream: seq<int>, ringMs: nat, rate: nat)
    requires rate > 0 && InRing(samples, total, stream, ringMs, rate)
    ensures samples == Keep(stream, SampleCount(ringMs, rate)) && total == |stream|
    ensures samples == [] <==> stream == []
  {
    hide SampleCount;
    KeepIsSuffix(stream, SampleCount(ringMs, rate));
  }

  lemma MarkedNext(emittedUntil: nat, handed: seq<TimeInterval>, steps: seq<Step>, silenceMs: nat, step: Step)
    requires Marked(emittedUntil, handed, steps, silenceMs)
    ensures Marked(Mark(step.speech, step, emittedUntil, silenceMs), handed + StepSlices(step, emittedUntil, silenceMs),
                   steps + [step], silenceMs)
  {
    hide Mark, StepSlices;
    assert (steps + [step])[..|steps|] == steps;
  }

  class StreamingSession {
    const rate: nat
    const hopMs: nat
    const windowMs: nat
    const ringMs: nat
    const silenceMs: nat
    const log: SessionEventLog
    var phase: Phase
    var samples: seq<int>
    var total: nat
    var emitted: seq<Provisional>
    var emittedUntil: nat
    var lastProcess: nat
    var finalized: bool
    ghost var stream: seq<int>
    ghost var steps: seq<Step>
    ghost var handed: seq<TimeInterval>
    ghost var history: seq<Event>

    ghost predicate Valid()
      reads `samples, `total, `stream, `emittedUntil, `handed, `steps, `history, log
    {
      && rate > 0
      && InRing(samples, total, stream, ringMs, rate)
      && Marked(emittedUntil, handed, steps, silenceMs)
      && Logs(log.State(), history)
    }

    constructor (rate: nat, hopMs: nat, windowMs: nat, ringMs: nat, silenceMs: nat, log: SessionEventLog)
      requires rate > 0 && log.State() == NewLog(log.retention)
      ensures Valid() && phase == CREATED && !finalized && stream == [] && this.log == log
    {
      this.rate, this.hopMs, this.windowMs, this.ringMs := rate, hopMs, windowMs, ringMs;
      this.silenceMs, this.log := silenceMs, log;
      phase, samples, total, emitted, emittedUntil, lastProcess, finalized := CREATED, [], 0, [], 0, 0, false;
      stream, steps, handed, history := [], [], [], [];
    }

    lemma ValidRing()
      requires Valid()
      ensures rate > 0 && InRing(samples, total, stream, ringMs, rate)
    {
      hide InRing, Marked, Logs;
    }

    function NowMs(): nat
      requires rate > 0
      reads `total
    {
      MsOf(total, rate)
    }

    /** Append to the log, keeping track of its history. */
    method Record(req: Request) returns (outcome: Outcome)
      requires Valid()
      modifies log, `history
      ensures Valid() && history == Extend(old(history), outcome)
      ensures (log.State(), outcome) == AppendTo(old(log.State()), req)
    {
      AppendKeepsLogs(log.State(), history, req);
      hide Logs, AppendTo, Marked, InRing, Keep;
      outcome := log.Append(req);
      history := Extend(history, outcome);
    }

    method Start(req: Request) returns (outcome: Option<Outcome>)
      requires Valid()
      modifies this, log
      ensures Valid() && stream == old(stream)
      ensures outcome.None? <==> old(phase) != CREATED
      ensures outcome.None? ==> phase == old(phase) && log.State() == old(log.State())
      ensures outcome.Some? ==> phase == STREAMING && (log.State(), outcome.value) == AppendTo(old(log.State()), req)
    {
      hide Logs, AppendTo, Marked, InRing, Keep;
      if phase != CREATED {
        return None;
      }
      phase := STREAMING;
      var o := Record(req);
      outcome := Some(o);
    }

    /** The ring keeps the end of the stream, however the stream is framed. */
    method PushPcm(payload: seq<Byte>) returns (r: PushResult)
      requires Valid()
      modifies this
      ensures Valid() && phase == old(phase) && lastProcess == old(lastProcess)
      ensures emitted == old(emitted) && emittedUntil == old(emittedUntil)
      ensures r == OutsideStreaming <==> old(phase) != STREAMING
      ensures r == Misaligned <==> old(phase) == STREAMING && |payload| % 2 != 0
      ensures !r.Accepted? ==> stream == old(stream) && samples == old(samples) && total == old(total)
      ensures r.Accepted? ==> stream == old(stream) + Decode(payload) && (r.due <==> NowMs() - lastProcess >= hopMs)
    {
      assert rate > 0;
      hide Logs, Valid, Decode, MsOf;
      if phase != STREAMING {
        return OutsideStreaming;
      }
      if |payload| % 2 != 0 {
        return Misaligned;
      }
      TakeFrame(Decode(payload));
      r := Accepted(NowMs() - lastProcess >= hopMs);
    }

    method TakeFrame(frame: seq<int>)
      requires Valid()
      modifies `samples, `total, `stream
      ensures Valid() && stream == old(stream) + frame
    {
      hide Logs, Marked, InRing, Tail, SampleCount;
      var ring := SampleCount(ringMs, rate);
      PushedInRing(samples, total, stream, frame, ringMs, rate);
      stream := stream + frame;
      total := total + |frame|;
      samples := samples + frame;
      if |samples| > ring {
        samples := Tail(samples, ring);
      }
    }

    /** The rolling window with its absolute start. */
    method WindowBuffer() returns (window: Option<(seq<int>, nat)>)
      requires Valid()
      ensures window.None? <==> stream == []
      ensures window.Some? ==> window.value.1 <= |stream| && window.value.0 == stream[window.value.1..]
      ensures window.Some? && ringMs >= 1 && windowMs >= 1 && rate >= 1000 ==>
        |window.value.0| == SmallerOf(|stream|, SmallerOf(SampleCount(ringMs, rate), SampleCount(windowMs, rate)))
    {
      hide *;
      ValidRing();
      RingOf(samples, total, stream, ringMs, rate);
      var ring, n := SampleCount(ringMs, rate), SampleCount(windowMs, rate);
      WindowIsStreamSuffix(stream, ring, n);
      KeepIsSuffix(stream, ring);
      if ringMs >= 1 && windowMs >= 1 && rate >= 1000 {
        PositiveSamples(ringMs, rate);
        PositiveSamples(windowMs, rate);
      }
      if |samples| == 0 {
        return None;
      }
      var chunk := Tail(samples, n);
      window := Some((chunk, total - |chunk|));
    }

    /** One rolling step over what the models report for the current window: the slices to transcribe
    outside the overlaps, the regions to decode as overlaps, and what is published of them. */
    method Process(speech: seq<TimeInterval>, overlaps: seq<TimeInterval>, force: bool, e: Emission)
      returns (slices: seq<TimeInterval>, regions: seq<TimeInterval>)
      requires Valid() && |e.bodies| == |e.segments| && FreshIds(log.State(), RequestIds(StepRequests(e, true)))
      modifies `lastProcess, `emittedUntil, `steps, `handed, `emitted, `history, log
      ensures Valid() && lastProcess == NowMs()
      ensures stream == [] ==>
        && slices == [] && regions == [] && steps == old(steps) && emittedUntil == old(emittedUntil)
        && emitted == old(emitted) && log.State() == old(log.State()) && history == old(history)
      ensures stream != [] ==>
        var step := Step(speech, overlaps, NowMs(), force);
        var pending := Watermark.Pending(speech, step, old(emittedUntil), silenceMs);
        && steps == old(steps) + [step]
        && slices == StepSlices(step, old(emittedUntil), silenceMs) && handed == old(handed) + slices
        && regions == Routed(pending, step, silenceMs)
        && emittedUntil == Mark(speech, step, old(emittedUntil), silenceMs)
        && emitted == old(emitted) + (if pending != [] then e.segments else [])
        && log.State() == PublishAll(old(log.State()), StepRequests(e, pending != []))
        && history == Published(old(log.State()), old(history), StepRequests(e, pending != []))
        && NoneRefused(old(log.State()), StepRequests(e, pending != []))
    {
      hide *;
      var heard, closed;
      heard, closed, slices, regions := Listen(speech, overlaps, force);
      if heard {
        StepAccepted(log.State(), e, closed);
        EmitStep(e, closed);
      }
    }

    /** The part of a step before anything is published. */
    method Listen(speech: seq<TimeInterval>, overlaps: seq<TimeInterval>, force: bool)
      returns (heard: bool, closed: bool, slices: seq<TimeInterval>, regions: seq<TimeInterval>)
      requires Valid()
      modifies `lastProcess, `emittedUntil, `steps, `handed
      ensures Valid() && lastProcess == NowMs() && (heard <==> stream != [])
      ensures !heard ==> slices == [] && regions == [] && steps == old(steps) && emittedUntil == old(emittedUntil)
      ensures heard ==>
        var step := Step(speech, overlaps, NowMs(), force);
        var pending := Watermark.Pending(speech, step, old(emittedUntil), silenceMs);
        && (closed <==> pending != [])
        && steps == old(steps) + [step]
        && slices == StepSlices(step, old(emittedUntil), silenceMs) && handed == old(handed) + slices
        && regions == Routed(pending, step, silenceMs)
        && emittedUntil == Mark(speech, step, old(emittedUntil), silenceMs)
    {
      hide Logs, Marked, InRing, Keep, Watermark.Pending, Mark, Slices, Routed, MsOf, SampleCount;
      RingOf(samples, total, stream, ringMs, rate);
      lastProcess := NowMs();
      slices, regions, closed := [], [], false;
      heard := |samples| > 0;
      if !heard {
        return;
      }
      var step := Step(speech, overlaps, lastProcess, force);
      MarkedNext(emittedUntil, handed, steps, silenceMs, step);
      var pending, mark := CloseIntervals(speech, step, emittedUntil);
      closed := pending != [];
      slices, regions := HandOn(pending, step);
      emittedUntil := mark;
      steps := steps + [step];
      handed := handed + slices;
    }

    /** Publish the segments, if any interval closed, and then the label changes. */
    method EmitStep(e: Emission, closed: bool)
      requires Valid() && |e.bodies| == |e.segments|
      modifies `emitted, `history, log
      ensures Valid() && emitted == old(emitted) + (if closed then e.segments else [])
      ensures log.State() == PublishAll(old(log.State()), StepRequests(e, closed))
      ensures history == Published(old(log.State()), old(history), StepRequests(e, closed))
    {
      ghost var before, was, past := log.State(), emitted, history;
      hide Logs, Valid, AppendTo, PublishAll, Published, ProvisionalRequests, ChangeRequests;
      assert was + [] == was;
      var provisional: seq<Request> := [];
      if closed {
        provisional := ProvisionalRequests(e.segments, e.bodies);
        emitted := emitted + e.segments;
      }
      Emit(provisional);
      Emit(ChangeRequests(e.changes));
      PublishConcat(before, provisional, ChangeRequests(e.changes));
      PublishedConcat(before, past, provisional, ChangeRequests(e.changes));
    }

    /** Append in order. */
    method Emit(reqs: seq<Request>)
      requires Valid()
      modifies `history, log
      ensures Valid() && log.State() == PublishAll(old(log.State()), reqs)
      ensures history == Published(old(log.State()), old(history), reqs)
    {
      ghost var before, past := log.State(), history;
      hide Logs, Valid, AppendTo, PublishAll, Published;
      PublishNothing(before);
      PublishedNone(before, past);
      assert reqs[..0] == [];
      for k := 0 to |reqs|
        invariant Valid() && log.State() == PublishAll(before, reqs[..k])
        invariant history == Published(before, past, reqs[..k])
      {
        PublishNext(before, reqs, k);
        PublishedSnoc(before, past, reqs[..k], reqs[k]);
        assert reqs[..k] + [reqs[k]] == reqs[..k + 1];
        var outcome := Record(reqs[k]);
      }
      assert reqs[..|reqs|] == reqs;
    }

    /** The closed intervals cut at the watermark, and the next watermark. */
    method CloseIntervals(speech: seq<TimeInterval>, step: Step, emitted: nat)
      returns (pending: seq<TimeInterval>, mark: nat)
      ensures pending == Watermark.Pending(speech, step, emitted, silenceMs)
      ensures mark == Mark(speech, step, emitted, silenceMs)
    {
      pending := [];
      mark := emitted;
      assert speech[..0] == [];
      for i := 0 to |speech|
        invariant pending == Watermark.Pending(speech[..i], step, emitted, silenceMs)
        invariant mark == Mark(speech[..i], step, emitted, silenceMs)
      {
        assert speech[..i + 1][..i] == speech[..i];
        var x := speech[i];
        if x.end > emitted && (step.force || step.now - x.end >= silenceMs) {
          pending := pending + [Interval(Max(x.start, emitted), x.end)];
          mark := Max(mark, x.end);
        }
      }
      assert speech[..|speech|] == speech;
    }

    method HandOn(pending: seq<TimeInterval>, step: Step)
      returns (slices: seq<TimeInterval>, regions: seq<TimeInterval>)
      ensures slices == Slices(pending, step.overlaps)
      ensures regions == Routed(pending, step, silenceMs)
    {
      slices, regions := [], [];
      hide NonOverlap, RoutedFor;
      assert pending[..0] == [];
      for i := 0 to |pending|
        invariant slices == Slices(pending[..i], step.overlaps)
        invariant regions == Routed(pending[..i], step, silenceMs)
      {
        assert pending[..i + 1][..i] == pending[..i];
        var outside := OutsideOverlaps(pending[i], step.overlaps);
        var closed := ClosedRegions(pending[i], step);
        slices := slices + outside;
        regions := regions + closed;
      }
      assert pending[..|pending|] == pending;
    }

    method OutsideOverlaps(pending: TimeInterval, overlaps: seq<TimeInterval>) returns (slices: seq<TimeInterval>)
      ensures slices == NonOverlap([pending], overlaps)
    {
      slices := NonOverlapSlices([pending], overlaps);
    }

    method ClosedRegions(pending: TimeInterval, step: Step) returns (regions: seq<TimeInterval>)
      ensures regions == RoutedFor(pending, step.overlaps, step, silenceMs)
    {
      regions := [];
      assert step.overlaps[..0] == [];
      for i := 0 to |step.overlaps|
        invariant regions == RoutedFor(pending, step.overlaps[..i], step, silenceMs)
      {
        assert step.overlaps[..i + 1][..i] == step.overlaps[..i];
        var clipped := Clamp(step.overlaps[i], pending);
        if clipped.None? {
          continue;
        }
        if !step.force && step.now - clipped.value.end < silenceMs {
          continue;
        }
        regions := regions + [step.overlaps[i]];
      }
      assert step.overlaps[..|step.overlaps|] == step.overlaps;
    }

    /** The forced last step, the final pass over what it and the steps before delivered, and the
    closing event; a second call does nothing. */
    method Finalize(speech: seq<TimeInterval>, overlaps: seq<TimeInterval>, e: Emission, changes: seq<Note>,
                    finals: seq<Final>, ids: seq<string>, warning: Option<Note>, closing: Note)
      returns (chosen: seq<Option<string>>)
      requires Valid() && |e.bodies| == |e.segments| && |ids| == |finals|
      requires FreshIds(log.State(), FinalizeIds(e, changes, ids, warning, closing))
      modifies this, log
      ensures Valid() && finalized
      ensures old(finalized) ==> log.State() == old(log.State()) && history == old(history) && emitted == old(emitted)
      ensures old(finalized) ==> phase == old(phase) && emittedUntil == old(emittedUntil) && steps == old(steps)
      ensures !old(finalized) ==> phase == FINALIZED
      ensures !old(finalized) && stream != [] ==> Paired(emitted, finals, chosen)
      ensures !old(finalized) ==>
        var closed :=
          Watermark.Pending(speech, Step(speech, overlaps, NowMs(), true), old(emittedUntil), silenceMs) != [];
        && emitted == old(emitted) + (if stream != [] && closed then e.segments else [])
        && (stream != [] ==> |chosen| == |finals|)
        && var reqs := FinalizeRequests(stream != [], e, closed, changes, finals, ids, chosen, warning, closing);
           && log.State() == PublishAll(old(log.State()), reqs)
           && history == Published(old(log.State()), old(history), reqs)
           && NoneRefused(old(log.State()), reqs)
    {
      chosen := [];
      if finalized {
        return;
      }
      ghost var before := log.State();
      ghost var closed := false;
      chosen, closed := Close(speech, overlaps, e, changes, finals, ids, warning, closing);
      hide *;
      FinalizeAccepted(before, stream != [], e, closed, changes, finals, ids, chosen, warning, closing);
    }

    method Close(speech: seq<TimeInterval>, overlaps: seq<TimeInterval>, e: Emission, changes: seq<Note>,
                 finals: seq<Final>, ids: seq<string>, warning: Option<Note>, closing: Note)
      returns (chosen: seq<Option<string>>, ghost closed: bool)
      requires Valid() && |e.bodies| == |e.segments| && |ids| == |finals|
      modifies this, log
      ensures Valid() && finalized && phase == FINALIZED && stream == old(stream)
      ensures closed <==>
        Watermark.Pending(speech, Step(speech, overlaps, NowMs(), true), old(emittedUntil), silenceMs) != []
      ensures emitted == old(emitted) + (if stream != [] && closed then e.segments else [])
      ensures stream != [] ==> Paired(emitted, finals, chosen) && |chosen| == |finals|
      ensures log.State() == PublishAll(old(log.State()),
                FinalizeRequests(stream != [], e, closed, changes, finals, ids, chosen, warning, closing))
      ensures history == Published(old(log.State()), old(history),
                FinalizeRequests(stream != [], e, closed, changes, finals, ids, chosen, warning, closing))
    {
      hide *;
      ValidRing();
      ghost var before, past := log.State(), history;
      phase := FINALIZING;
      chosen := [];
      var heard, any, slices, regions := Listen(speech, overlaps, true);
      closed := Watermark.Pending(speech, Step(speech, overlaps, NowMs(), true), old(emittedUntil), silenceMs) != [];
      ghost var reqs: seq<Request> := [];
      if heard {
        chosen := StepAndPass(e, any, changes, finals, ids, warning);
        reqs := StepRequests(e, any) + PassRequests(changes, finals, ids, chosen, warning);
      } else {
        PublishNothing(before);
        PublishedNone(before, past);
      }
      Emit([NoteRequest(closing, 1)]);
      PublishConcat(before, reqs, [NoteRequest(closing, 1)]);
      PublishedConcat(before, past, reqs, [NoteRequest(closing, 1)]);
      phase := FINALIZED;
      finalized := true;
      FinalizeRequestsAre(heard, e, closed, changes, finals, ids, chosen, warning, closing);
    }

    method StepAndPass(e: Emission, closed: bool, changes: seq<Note>, finals: seq<Final>, ids: seq<string>,
                       warning: Option<Note>)
      returns (chosen: seq<Option<string>>)
      requires Valid() && |e.bodies| == |e.segments| && |ids| == |finals|
      modifies `emitted, `history, log
      ensures Valid() && emitted == old(emitted) + (if closed then e.segments else [])
      ensures Paired(emitted, finals, chosen) && |chosen| == |finals|
      ensures log.State()
           == PublishAll(old(log.State()),
                StepRequests(e, closed) + PassRequests(changes, finals, ids, chosen, warning))
      ensures history == Published(old(log.State()), old(history),
                StepRequests(e, closed) + PassRequests(changes, finals, ids, chosen, warning))
    {
      ghost var before, past := log.State(), history;
      EmitStep(e, closed);
      chosen := PairFinals(emitted, finals);
      assert |chosen| == |finals|;
      hide *;
      FinalPass(changes, finals, ids, chosen, warning);
      PublishConcat(before, StepRequests(e, closed), PassRequests(changes, finals, ids, chosen, warning));
      PublishedConcat(before, past, StepRequests(e, closed), PassRequests(changes, finals, ids, chosen, warning));
    }

    method FinalPass(changes: seq<Note>, finals: seq<Final>, ids: seq<string>, chosen: seq<Option<string>>,
                     warning: Option<Note>)
      requires Valid() && |ids| == |finals| == |chosen|
      modifies `history, log
      ensures Valid()
        && log.State() == PublishAll(old(log.State()), PassRequests(changes, finals, ids, chosen, warning))
        && history == Published(old(log.State()), old(history), PassRequests(changes, finals, ids, chosen, warning))
    {
      ghost var before, past := log.State(), history;
      hide Logs, Valid, AppendTo, PublishAll, Published, ChangeRequests, FinalRequest, WarningRequests;
      Emit(ChangeRequests(changes));
      Emit(FinalRequests(finals, ids, chosen));
      Emit(WarningRequests(warning));
      PublishConcat(before, ChangeRequests(changes), FinalRequests(finals, ids, chosen) + WarningRequests(warning));
      PublishConcat(PublishAll(before, ChangeRequests(changes)),
              FinalRequests(finals, ids, chosen), WarningRequests(warning));
      ghost var rest := FinalRequests(finals, ids, chosen) + WarningRequests(warning);
      PublishedConcat(before, past, ChangeRequests(changes), rest);
      PublishedConcat(PublishAll(before, ChangeRequests(changes)), Published(before, past, ChangeRequests(changes)),
              FinalRequests(finals, ids, chosen), WarningRequests(warning));
    }

    method Fail(req: Request) returns (outcome: Outcome)
      requires Valid()
      modifies `phase, `history, log
      ensures Valid() && phase == FAILED
      ensures (log.State(), outcome) == AppendTo(old(log.State()), req)
    {
      hide Logs, Marked, InRing, Keep, AppendTo;
      phase := FAILED;
      outcome := Record(req);
    }
  }

  lemma FinalizeRequestsAre(heard: bool, e: Emission, closed: bool, changes: seq<Note>, finals: seq<Final>,
                            ids: seq<string>, chosen: seq<Option<string>>, warning: Option<Note>, closing: Note)
    requires |e.bodies| == |e.segments| && |ids| == |finals| && (heard ==> |chosen| == |finals|)
    ensures FinalizeRequests(heard, e, closed, changes, finals, ids, chosen, warning, closing) ==
      (if heard then StepRequests(e, closed) + PassRequests(changes, finals, ids, chosen, warning) else [])
      + [NoteRequest(closing, 1)]
  {
    hide StepRequests, PassRequests;
  }

  lemma PositiveSamples(ms: nat, rate: nat)
    requires ms >= 1 && rate >= 1000
    ensures SampleCount(ms, rate) >= 1
  {
    MsToSamplesMonotone(1, ms, rate);
  }

  lemma PublishNothing(log: Log)
    ensures PublishAll(log, []) == log
  {
  }

  lemma PublishNext(log: Log, reqs: seq<Request>, k: nat)
    requires k < |reqs|
    ensures PublishAll(log, reqs[..k + 1]) == AppendTo(PublishAll(log, reqs[..k]), reqs[k]).0
  {
    assert reqs[..k + 1][..k] == reqs[..k];
  }
}
