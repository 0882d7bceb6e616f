/** What a step and the end of a streaming session put into the history, event by event. */
module PassEvents {
  import opened DedupKeys
  import opened EventLog
  import opened Finals
  import opened Options
  import opened Publication
  import opened StreamingSessions

  /** An event that is not final, replaces nothing and carries no key. */
  predicate Plain(e: Event, id: string, revision: int, body: string) {
    && e.id == id && e.revision == revision && e.body == body
    && !e.isFinal && e.supersedes.None? && e.dedup.None?
  }

  /** Exactly one event has this identifier; it is a new one and plain. */
  ghost predicate PlainOnce(after: seq<Event>, from: nat, id: string, revision: int, body: string) {
    exists i :: from <= i < |after| && Plain(after[i], id, revision, body)
      && forall j :: 0 <= j < |after| && j != i ==> after[j].id != id
  }

  /** The same for a final. */
  ghost predicate FinalOnce(after: seq<Event>, from: nat, f: Final, id: string, superseded: Option<string>) {
    exists i :: from <= i < |after| && Replaces(after[i], f, id, superseded)
      && forall j :: 0 <= j < |after| && j != i ==> after[j].id != id
  }

  ghost predicate PlainAll(after: seq<Event>, from: nat, notes: seq<Note>, revision: int) {
    forall k :: 0 <= k < |notes| ==> PlainOnce(after, from, notes[k].id, revision, notes[k].body)
  }

  function PlainRequest(id: string, revision: int, body: string): Request {
    Request(id, revision, None, false, None, body)
  }

  lemma PlainPublished(log: Log, history: seq<Event>, reqs: seq<Request>, id: string, revision: int, body: string)
    requires Logs(log, history) && FreshRequests(log, reqs) && PlainRequest(id, revision, body) in reqs
    ensures PlainOnce(Published(log, history, reqs), |history|, id, revision, body)
  {
    var m :| 0 <= m < |reqs| && reqs[m] == PlainRequest(id, revision, body);
    hide Logs, FreshRequests, AppendedAt, Published;
    AppendedIff(log, reqs, m);
    AppendedOnce(log, history, reqs, m);
    var after := Published(log, history, reqs);
    var i :| |history| <= i < |after| && Carries(after[i], reqs[m])
      && forall j :: 0 <= j < |after| && j != i ==> after[j].id != reqs[m].id;
    assert Plain(after[i], id, revision, body);
  }

  /** The `m`-th request is this final, and no request before it carries its key. */
  lemma FinalPublished(log: Log, history: seq<Event>, reqs: seq<Request>, m: nat, f: Final, id: string,
                       superseded: Option<string>)
    requires Logs(log, history) && FreshRequests(log, reqs) && m < |reqs| && reqs[m] == FinalRequest(f, id, superseded)
    requires f.Dedup() !in log.finals && forall j :: 0 <= j < m ==> !HasKey(reqs[j], f.Dedup())
    ensures FinalOnce(Published(log, history, reqs), |history|, f, id, superseded)
  {
    hide Logs, FreshRequests, AppendedAt, Published, HasKey, DedupKey;
    AppendedIff(log, reqs, m);
    AppendedOnce(log, history, reqs, m);
    var after := Published(log, history, reqs);
    var i :| |history| <= i < |after| && Carries(after[i], reqs[m])
      && forall j :: 0 <= j < |after| && j != i ==> after[j].id != reqs[m].id;
    assert Replaces(after[i], f, id, superseded);
  }

  // ---- A step -----------------------------------------------------------------------------

  ghost predicate SegmentsOut(after: seq<Event>, from: nat, e: Emission)
    requires |e.bodies| == |e.segments|
  {
    forall k :: 0 <= k < |e.segments| ==> PlainOnce(after, from, e.segments[k].id, 1, e.bodies[k])
  }

  lemma SegmentAmong(e: Emission, k: nat)
    requires |e.bodies| == |e.segments| && k < |e.segments|
    ensures PlainRequest(e.segments[k].id, 1, e.bodies[k]) in StepRequests(e, true)
  {
    var reqs := ProvisionalRequests(e.segments, e.bodies);
    assert reqs[k] in reqs;
  }

  lemma ChangeAmong(e: Emission, closed: bool, k: nat)
    requires |e.bodies| == |e.segments| && k < |e.changes|
    ensures PlainRequest(e.changes[k].id, 2, e.changes[k].body) in StepRequests(e, closed)
  {
    NoteAmong(e.changes, k);
  }

  lemma NoteAmong(changes: seq<Note>, k: nat)
    requires k < |changes|
    ensures PlainRequest(changes[k].id, 2, changes[k].body) in ChangeRequests(changes)
  {
    assert ChangeRequests(changes)[k] in ChangeRequests(changes);
  }

  lemma StepFresh(log: Log, e: Emission, closed: bool)
    requires |e.bodies| == |e.segments| && FreshIds(log, RequestIds(StepRequests(e, true)))
    ensures FreshRequests(log, StepRequests(e, closed))
  {
    IdsConcat(ProvisionalRequests(e.segments, e.bodies), ChangeRequests(e.changes));
    FreshSuffix(log, RequestIds(ProvisionalRequests(e.segments, e.bodies)), RequestIds(ChangeRequests(e.changes)));
    assert [] + ChangeRequests(e.changes) == ChangeRequests(e.changes);
    StepRevisions(e, closed);
    hide Unused, FreshIds, ProvisionalRequests, ChangeRequests;
    FreshIdsMeans(log, StepRequests(e, closed));
  }

  lemma StepIsPlain(e: Emission, closed: bool)
    requires |e.bodies| == |e.segments|
    ensures |StepRequests(e, closed)| == (if closed then |e.segments| else 0) + |e.changes|
    ensures forall k :: 0 <= k < |StepRequests(e, closed)| ==> !StepRequests(e, closed)[k].isFinal
  {
  }

  /** A step publishes its segments, if some interval closed, each with its text as a first revision; and
  each label change as a second revision. */
  lemma StepPublishes(log: Log, history: seq<Event>, e: Emission, closed: bool)
    requires Logs(log, history) && |e.bodies| == |e.segments| && FreshIds(log, RequestIds(StepRequests(e, true)))
    ensures var after := Published(log, history, StepRequests(e, closed));
      && history <= after && |after| == |history| + (if closed then |e.segments| else 0) + |e.changes|
      && (closed ==> SegmentsOut(after, |history|, e))
      && PlainAll(after, |history|, e.changes, 2)
  {
    hide *;
    var reqs := StepRequests(e, closed);
    StepFresh(log, e, closed);
    StepIsPlain(e, closed);
    PublishKeepsLogs(log, history, reqs);
    AllPlainCounted(log, history, reqs);
    NoChanges(reqs);
    AllAmong(log, history, e, closed, [], reqs, reqs);
  }

  lemma NoChanges(reqs: seq<Request>)
    ensures reqs + ChangeRequests([]) == reqs && reqs <= reqs
  {
  }

  lemma AllPlainCounted(log: Log, history: seq<Event>, reqs: seq<Request>)
    requires FreshRequests(log, reqs) && forall k :: 0 <= k < |reqs| ==> !reqs[k].isFinal
    ensures |Published(log, history, reqs)| == |history| + |reqs|
  {
    PublishedAtMost(log, history, reqs);
    hide FreshRequests, AppendedAt, Published;
    forall k: nat | k < |reqs|
      ensures AppendedAt(log, reqs, k)
    {
      AppendedIff(log, reqs, k);
    }
  }

  // ---- The end of a session ---------------------------------------------------------------

  /** A final of a new slot: neither in the log nor earlier in the pass. */
  ghost predicate NewSlot(log: Log, finals: seq<Final>, k: nat)
    requires k < |finals|
  {
    finals[k].Dedup() !in log.finals && forall j :: 0 <= j < k ==> !SameSlot(finals[j], finals[k])
  }

  /** What is published in front of the finals, the finals, and what follows. */
  lemma FinalizeParts(e: Emission, closed: bool, changes: seq<Note>, finals: seq<Final>, ids: seq<string>,
                      chosen: seq<Option<string>>, warning: Option<Note>, closing: Note)
    returns (before: seq<Request>, rest: seq<Request>)
    requires |e.bodies| == |e.segments| && |ids| == |finals| == |chosen|
    ensures FinalizeRequests(true, e, closed, changes, finals, ids, chosen, warning, closing)
         == before + FinalRequests(finals, ids, chosen) + rest
    ensures before == StepRequests(e, closed) + ChangeRequests(changes)
    ensures forall k :: 0 <= k < |before| ==> !before[k].isFinal
    ensures rest == (if warning.None? then [] else [PlainRequest(warning.value.id, 1, warning.value.body)])
                    + [PlainRequest(closing.id, 1, closing.body)]
  {
    before := StepRequests(e, closed) + ChangeRequests(changes);
    rest := WarningRequests(warning) + [NoteRequest(closing, 1)];
    StepIsPlain(e, closed);
    hide StepRequests, FinalRequest;
  }

  lemma FinalizeIsFresh(log: Log, heard: bool, e: Emission, closed: bool, changes: seq<Note>, finals: seq<Final>,
                        ids: seq<string>, chosen: seq<Option<string>>, warning: Option<Note>, closing: Note)
    requires |e.bodies| == |e.segments| && |ids| == |finals| && (heard ==> |chosen| == |finals|)
    requires FreshIds(log, FinalizeIds(e, changes, ids, warning, closing))
    ensures FreshRequests(log, FinalizeRequests(heard, e, closed, changes, finals, ids, chosen, warning, closing))
  {
    hide *;
    FinalizeFresh(log, heard, e, closed, changes, finals, ids, chosen, warning, closing);
    FinalizeRevisions(heard, e, closed, changes, finals, ids, chosen, warning, closing);
    FreshIdsMeans(log, FinalizeRequests(heard, e, closed, changes, finals, ids, chosen, warning, closing));
  }

  lemma FinalKeyNew(log: Log, before: seq<Request>, finals: seq<Final>, ids: seq<string>, chosen: seq<Option<string>>,
                    rest: seq<Request>, k: nat, j: nat)
    requires |ids| == |finals| == |chosen| && k < |finals| && j < |before| + k && NewSlot(log, finals, k)
    requires forall i :: 0 <= i < |before| ==> !before[i].isFinal
    ensures |FinalRequests(finals, ids, chosen)| == |finals|
    ensures !HasKey((before + FinalRequests(finals, ids, chosen) + rest)[j], finals[k].Dedup())
  {
    FinalHasKey(finals, ids, chosen, k, finals[k]);
    hide FinalRequests, FinalRequest, HasKey, SameSlot;
    var middle := FinalRequests(finals, ids, chosen);
    if j < |before| {
      assert (before + middle + rest)[j] == before[j];
      NoKey(before[j], finals[k].Dedup());
    } else {
      FinalHasKey(finals, ids, chosen, j - |before|, finals[k]);
      assert (before + middle + rest)[j] == middle[j - |before|];
    }
  }

  lemma NoKey(req: Request, key: string)
    requires !req.isFinal
    ensures !HasKey(req, key)
  {
  }

  lemma FinalHasKey(finals: seq<Final>, ids: seq<string>, chosen: seq<Option<string>>, j: nat, f: Final)
    requires |ids| == |finals| == |chosen| && j < |finals|
    ensures |FinalRequests(finals, ids, chosen)| == |finals|
    ensures HasKey(FinalRequests(finals, ids, chosen)[j], f.Dedup()) <==> SameSlot(finals[j], f)
  {
    SameDedupIff(finals[j], f);
    hide DedupKey, SameSlot;
  }

  /** Every final of a new slot gets exactly one event, whatever is published before the finals. */
  lemma FinalsPublished(log: Log, history: seq<Event>, before: seq<Request>, finals: seq<Final>, ids: seq<string>,
                        chosen: seq<Option<string>>, rest: seq<Request>, k: nat)
    requires |ids| == |finals| == |chosen| && k < |finals| && NewSlot(log, finals, k)
    requires forall i :: 0 <= i < |before| ==> !before[i].isFinal
    requires Logs(log, history) && FreshRequests(log, before + FinalRequests(finals, ids, chosen) + rest)
    ensures FinalOnce(Published(log, history, before + FinalRequests(finals, ids, chosen) + rest), |history|,
                      finals[k], ids[k], chosen[k])
  {
    var reqs := before + FinalRequests(finals, ids, chosen) + rest;
    forall j: nat | j < |before| + k
      ensures !HasKey(reqs[j], finals[k].Dedup())
    {
      FinalKeyNew(log, before, finals, ids, chosen, rest, k, j);
    }
    hide Logs, FreshRequests, HasKey, FinalRequest, DedupKey, SameSlot, Published, FinalOnce;
    FinalPublished(log, history, reqs, |before| + k, finals[k], ids[k], chosen[k]);
  }

  lemma ClosesLast(log: Log, history: seq<Event>, reqs: seq<Request>, id: string, revision: int, body: string)
    requires FreshRequests(log, reqs) && reqs != [] && reqs[|reqs| - 1] == PlainRequest(id, revision, body)
    ensures var after := Published(log, history, reqs);
      after != [] && Plain(after[|after| - 1], id, revision, body)
  {
    var init, last := reqs[..|reqs| - 1], reqs[|reqs| - 1];
    assert init + [last] == reqs;
    PublishedSnoc(log, history, init, last);
    AppendedIff(log, reqs, |init|);
    AppendedLast(log, init, last);
    AppendedCarries(PublishAll(log, init), last);
    hide FreshRequests, AppendedAt, Published, AppendTo, PublishAll;
  }

  /** The end of a session publishes the forced step, the label changes of the final pass, every final of
  a new slot with what it replaces, the warning if there is one, and the closing event as the last. */
  lemma FinalizePublishes(log: Log, history: seq<Event>, e: Emission, closed: bool, changes: seq<Note>,
                          finals: seq<Final>, ids: seq<string>, chosen: seq<Option<string>>, warning: Option<Note>,
                          closing: Note)
    requires Logs(log, history) && |e.bodies| == |e.segments| && |ids| == |finals| == |chosen|
    requires FreshIds(log, FinalizeIds(e, changes, ids, warning, closing))
    ensures var after := Published(log, history,
              FinalizeRequests(true, e, closed, changes, finals, ids, chosen, warning, closing));
      && history <= after
      && (closed ==> SegmentsOut(after, |history|, e))
      && PlainAll(after, |history|, e.changes, 2) && PlainAll(after, |history|, changes, 2)
      && (forall k :: 0 <= k < |finals| && NewSlot(log, finals, k) ==>
            FinalOnce(after, |history|, finals[k], ids[k], chosen[k]))
      && (warning.Some? ==> PlainOnce(after, |history|, warning.value.id, 1, warning.value.body))
      && after != [] && Plain(after[|after| - 1], closing.id, 1, closing.body)
  {
    hide *;
    var reqs := FinalizeRequests(true, e, closed, changes, finals, ids, chosen, warning, closing);
    var before, rest := FinalizeParts(e, closed, changes, finals, ids, chosen, warning, closing);
    FinalizeIsFresh(log, true, e, closed, changes, finals, ids, chosen, warning, closing);
    PublishKeepsLogs(log, history, reqs);
    PartsAmong(before, FinalRequests(finals, ids, chosen), rest);
    ClosesLast(log, history, reqs, closing.id, 1, closing.body);
    AllAmong(log, history, e, closed, changes, reqs, before);
    if warning.Some? {
      PlainPublished(log, history, reqs, warning.value.id, 1, warning.value.body);
    }
    forall k: nat | k < |finals| && NewSlot(log, finals, k)
      ensures FinalOnce(Published(log, history, reqs), |history|, finals[k], ids[k], chosen[k])
    {
      FinalsPublished(log, history, before, finals, ids, chosen, rest, k);
    }
  }

  lemma PartsAmong(before: seq<Request>, middle: seq<Request>, rest: seq<Request>)
    requires rest != []
    ensures var reqs := before + middle + rest;
      && before <= reqs && reqs != [] && reqs[|reqs| - 1] == rest[|rest| - 1] && rest[0] in reqs
  {
    var reqs := before + middle + rest;
    assert reqs[|before + middle|] == rest[0];
  }

  lemma AllAmong(log: Log, history: seq<Event>, e: Emission, closed: bool, changes: seq<Note>, reqs: seq<Request>,
                 before: seq<Request>)
    requires Logs(log, history) && FreshRequests(log, reqs) && |e.bodies| == |e.segments|
    requires before == StepRequests(e, closed) + ChangeRequests(changes) && before <= reqs
    ensures var after := Published(log, history, reqs);
      && (closed ==> SegmentsOut(after, |history|, e))
      && PlainAll(after, |history|, e.changes, 2) && PlainAll(after, |history|, changes, 2)
  {
    var after := Published(log, history, reqs);
    hide Logs, FreshRequests, Published, PlainOnce, StepRequests, ChangeRequests, PlainRequest;
    assert forall r :: r in before ==> r in reqs;
    forall k: nat | k < |e.segments| && closed
      ensures PlainOnce(after, |history|, e.segments[k].id, 1, e.bodies[k])
    {
      SegmentAmong(e, k);
      PlainPublished(log, history, reqs, e.segments[k].id, 1, e.bodies[k]);
    }
    forall k: nat | k < |e.changes|
      ensures PlainOnce(after, |history|, e.changes[k].id, 2, e.changes[k].body)
    {
      ChangeAmong(e, closed, k);
      PlainPublished(log, history, reqs, e.changes[k].id, 2, e.changes[k].body);
    }
    forall k: nat | k < |changes|
      ensures PlainOnce(after, |history|, changes[k].id, 2, changes[k].body)
    {
      NoteAmong(changes, k);
      PlainPublished(log, history, reqs, changes[k].id, 2, changes[k].body);
    }
  }

  /** Without audio the closing event is all there is. */
  lemma SilentFinalizePublishes(log: Log, history: seq<Event>, e: Emission, closed: bool, changes: seq<Note>,
                                finals: seq<Final>, ids: seq<string>, warning: Option<Note>, closing: Note)
    requires Logs(log, history) && |e.bodies| == |e.segments| && |ids| == |finals|
    requires FreshIds(log, FinalizeIds(e, changes, ids, warning, closing))
    ensures var after := Published(log, history,
              FinalizeRequests(false, e, closed, changes, finals, ids, [], warning, closing));
      history <= after && |after| == |history| + 1 && Plain(after[|history|], closing.id, 1, closing.body)
  {
    var reqs := FinalizeRequests(false, e, closed, changes, finals, ids, [], warning, closing);
    FinalizeIsFresh(log, false, e, closed, changes, finals, ids, [], warning, closing);
    assert reqs == [PlainRequest(closing.id, 1, closing.body)];
    hide Logs, FreshIds, FreshRequests, Published, Plain, FinalizeRequests;
    PublishKeepsLogs(log, history, reqs);
    AllPlainCounted(log, history, reqs);
    ClosesLast(log, history, reqs, closing.id, 1, closing.body);
  }
}
