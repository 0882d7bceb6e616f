/** What each operation does to the speakers, field by field, and which states go with which facts in
every reachable session. */
module SessionOutcomes {
  import Decimals
  import opened MergeForest
  import opened Options
  import opened SessionRuns
  import opened SessionSafety
  import opened SessionState
  import opened Speakers
  import SpeakerSession

  /** Nobody but `r` changes, and nobody comes or goes. */
  ghost predicate OnlyChanges(s: Session, s': Session, r: Id) {
    && s'.speakers.Keys == s.speakers.Keys && s'.order == s.order && s'.sink == s.sink
    && s'.cap == s.cap && s'.calibrated == s.calibrated
    && forall id :: id in s.speakers && id != r ==> s'.speakers[id] == s.speakers[id]
  }

  /** One recorded transition. */
  predicate Moved(m: Machine, m': Machine, to: Identity, reason: string) {
    m' == Machine(to, m.history + [Transition(m.state, to, reason, |m.history| + 2)])
  }

  predicate SameCounters(s: Session, s': Session) {
    s'.labels == s.labels && s'.temporaries == s.temporaries
  }

  // ---- Voice id ---------------------------------------------------------------------------

  /** An accepted decision names the speaker and enrols it unless its state forbids that; a decision
  without registry entry or name is refused. */
  lemma AcceptedOutcome(s: Session, id: Id, registry: string, name: string)
    requires Sane(s) && id in s.speakers
    ensures var r, s' := Get(s, id), Do(s, ApplyVoiceId(id, Accepted(registry, name)));
      if registry == "" || name == "" then s' == s
      else
        && OnlyChanges(s, s', r) && SameCounters(s, s')
        && s'.pending == s.pending + [LabelChange(r, s.speakers[r].display, name, "voice_id_accept")]
        && var sp, sp' := s.speakers[r], s'.speakers[r];
           && sp'.registry == Some(registry) && sp'.display == name
           && sp' == sp.(registry := sp'.registry, display := sp'.display, machine := sp'.machine)
           && (match sp.machine.state
               case PROVISIONAL => Moved(sp.machine, sp'.machine, ENROLLED, "voice_id_accept")
               case SESSION_ANONYMOUS => Moved(sp.machine, sp'.machine, ENROLLED, "voice_id_accept")
               case AMBIGUOUS => Moved(sp.machine, sp'.machine, ENROLLED, "voice_id_reaccept")
               case _ => sp'.machine == sp.machine)
  {
    hide Sane, Get;
  }

  /** A contradiction makes an enrolled speaker ambiguous, and does nothing to any other. */
  lemma ContradictedOutcome(s: Session, id: Id)
    requires Sane(s) && id in s.speakers
    ensures var r, s' := Get(s, id), Do(s, ApplyVoiceId(id, Contradicted));
      if !s.speakers[r].machine.state.ENROLLED? then s' == s
      else
        && OnlyChanges(s, s', r) && SameCounters(s, s') && s'.pending == s.pending
        && Moved(s.speakers[r].machine, s'.speakers[r].machine, AMBIGUOUS, "voice_id_contradiction")
        && s'.speakers[r] == s.speakers[r].(machine := s'.speakers[r].machine)
  {
    hide Sane, Get;
  }

  lemma NoDecisionOutcome(s: Session, id: Id)
    requires Sane(s)
    ensures Do(s, ApplyVoiceId(id, NoDecision)) == s
    ensures id !in s.speakers ==> forall decision :: Do(s, ApplyVoiceId(id, decision)) == s
  {
    hide Sane, Get;
  }

  // ---- Merges and promotions --------------------------------------------------------------

  /** The source points to the target and shows its label; unless enrolled, ambiguous or unknown it ends
  merged.  The target inherits a prototype if it has none, and what the source must stay apart from. */
  lemma MergeOutcome(s: Session, src: Id, tgt: Id, reason: string)
    requires Sane(s) && IsActive(s.speakers, src) && IsActive(s.speakers, tgt) && src != tgt
    ensures var s' := Do(s, Merge(src, tgt, reason));
      if tgt in s.speakers[src].cannotLink then s' == s
      else
        && s'.speakers.Keys == s.speakers.Keys && s'.order == s.order && s'.sink == s.sink && SameCounters(s, s')
        && (forall id :: id in s.speakers && id != src && id != tgt ==> s'.speakers[id] == s.speakers[id])
        && s'.pending == s.pending + [LabelChange(src, s.speakers[src].display, s.speakers[tgt].display, reason)]
        && var from, from', to, to' := s.speakers[src], s'.speakers[src], s.speakers[tgt], s'.speakers[tgt];
           && from' == from.(machine := from'.machine, display := to.display, mergedInto := Some(tgt))
           && from'.machine.state == (if from.machine.state in {PROVISIONAL, SESSION_ANONYMOUS} then MERGED
                                      else from.machine.state)
           && |from'.machine.history| == |from.machine.history|
              + (match from.machine.state case PROVISIONAL => 2 case SESSION_ANONYMOUS => 1 case _ => 0)
           && to' == to.(voice := to'.voice, cannotLink := to.cannotLink + from.cannotLink)
           && to'.voice.replaced == to.voice.replaced
           && to'.voice.current == (if to.voice.current.Some? then to.voice.current else from.voice.current)
  {
    DoIsMerge(s, Merge(src, tgt, reason));
    GetOfRoot(s, src);
    GetOfRoot(s, tgt);
    hide Sane, Get, Do, MergeRoots;
    if tgt !in s.speakers[src].cannotLink {
      assert s.speakers[src].cannotLink - {tgt} == s.speakers[src].cannotLink;
      MergedFields(s, src, tgt, reason);
    }
  }

  lemma MergedFields(s: Session, src: Id, tgt: Id, reason: string)
    requires Roots(s, src, tgt)
    ensures var s' := MergeRoots(s, src, tgt, reason);
      && s'.speakers.Keys == s.speakers.Keys && s'.order == s.order && s'.sink == s.sink && SameCounters(s, s')
      && (forall id :: id in s.speakers && id != src && id != tgt ==> s'.speakers[id] == s.speakers[id])
      && s'.pending == s.pending + [LabelChange(src, s.speakers[src].display, s.speakers[tgt].display, reason)]
      && var from, from', to, to' := s.speakers[src], s'.speakers[src], s.speakers[tgt], s'.speakers[tgt];
         && from' == from.(machine := from'.machine, display := to.display, mergedInto := Some(tgt))
         && from'.machine.state == (if from.machine.state in {PROVISIONAL, SESSION_ANONYMOUS} then MERGED
                                    else from.machine.state)
         && |from'.machine.history| == |from.machine.history|
            + (match from.machine.state case PROVISIONAL => 2 case SESSION_ANONYMOUS => 1 case _ => 0)
         && to' == to.(voice := to'.voice, cannotLink := to.cannotLink + (from.cannotLink - {tgt}))
         && to'.voice.replaced == to.voice.replaced
         && to'.voice.current == (if to.voice.current.Some? then to.voice.current else from.voice.current)
  {
  }

  /** A provisional speaker becomes anonymous under the label asked for, or the next generated one. */
  lemma PromoteOutcome(s: Session, id: Id, reason: string, display: Option<Label>)
    requires Sane(s) && id in s.speakers
    ensures var r, s' := Get(s, id), Do(s, Promote(id, reason, display));
      if !s.speakers[r].machine.state.PROVISIONAL? then s' == s
      else
        && OnlyChanges(s, s', r) && s'.temporaries == s.temporaries
        && s'.labels == s.labels + (if display.None? then 1 else 0)
        && var sp, sp' := s.speakers[r], s'.speakers[r];
           && sp'.display == (if display.Some? then display.value else "Speaker " + Decimals.Decimal(s.labels + 1))
           && Moved(sp.machine, sp'.machine, SESSION_ANONYMOUS, reason)
           && sp' == sp.(machine := sp'.machine, display := sp'.display)
           && s'.pending == s.pending + [LabelChange(r, sp.display, sp'.display, reason)]
  {
    hide Sane, Get;
  }

  // ---- Evidence ---------------------------------------------------------------------------

  /** Buffered evidence counts for provisional speakers only, other evidence for all but the unknown and
  ambiguous; it starts a prototype under the speaker's own identifier or makes its next version. */
  lemma EvidenceOutcome(s: Session, id: Id, buffered: bool)
    requires Sane(s) && id in s.speakers
    ensures var r, s' := Get(s, id), Do(s, LearnVoice(id, buffered));
      var sp := s.speakers[r];
      if (if buffered then !sp.machine.state.PROVISIONAL? else sp.machine.state in {UNKNOWN, AMBIGUOUS}) then s' == s
      else
        && OnlyChanges(s, s', r) && SameCounters(s, s') && s'.pending == s.pending
        && var sp' := s'.speakers[r];
           && sp' == sp.(voice := sp'.voice) && sp'.voice.current.Some?
           && (match sp.voice.current
               case None => sp'.voice.current.value == Prototype(r, 1) && sp'.voice.replaced == sp.voice.replaced
               case Some(p) => sp'.voice.current.value == Prototype(p.key, p.version + 1)
                               && sp'.voice.replaced == sp.voice.replaced + [p])
  {
    hide Sane, Get;
  }

  // ---- Finalization -----------------------------------------------------------------------

  /** A provisional speaker without evidence ends unknown; one with evidence becomes anonymous under a
  generated label counted from `from` up to `to`, if thresholds are calibrated; others stay as they are. */
  ghost predicate Finalized(sp: Speaker, sp': Speaker, calibrated: bool, from: nat, to: nat) {
    if !sp.machine.state.PROVISIONAL? then sp' == sp
    else if sp.voice.current.None? then
      Moved(sp.machine, sp'.machine, UNKNOWN, "insufficient_evidence") && sp' == sp.(machine := sp'.machine)
    else if !calibrated then sp' == sp
    else
      && Moved(sp.machine, sp'.machine, SESSION_ANONYMOUS, "separated_evidence_final")
      && sp' == sp.(machine := sp'.machine, display := sp'.display)
      && exists n: nat :: from < n <= to && sp'.display == "Speaker " + Decimals.Decimal(n)
  }

  ghost predicate SameFrame(s: Session, s': Session) {
    && s'.speakers.Keys == s.speakers.Keys && s'.order == s.order && s'.sink == s.sink
    && s'.cap == s.cap && s'.calibrated == s.calibrated && s'.temporaries == s.temporaries
    && s.labels <= s'.labels && s.pending <= s'.pending
  }

  lemma FinalizeOneIs(s: Session, id: Id)
    requires id in s.speakers
    ensures var s' := FinalizeOne(s, id);
      && SameFrame(s, s') && Finalized(s.speakers[id], s'.speakers[id], s.calibrated, s.labels, s'.labels)
      && forall other :: other in s.speakers && other != id ==> s'.speakers[other] == s.speakers[other]
  {
  }

  lemma FinalizedLater(sp: Speaker, sp': Speaker, calibrated: bool, from: nat, to: nat, later: nat)
    requires Finalized(sp, sp', calibrated, from, to) && to <= later
    ensures Finalized(sp, sp', calibrated, from, later)
  {
    hide Moved;
  }

  lemma FinalizedEarlier(sp: Speaker, sp': Speaker, calibrated: bool, earlier: nat, from: nat, to: nat)
    requires Finalized(sp, sp', calibrated, from, to) && earlier <= from
    ensures Finalized(sp, sp', calibrated, earlier, to)
  {
    hide Moved;
  }

  lemma {:induction false} FinalizeAllIs(s: Session, ids: seq<Id>)
    requires (forall id :: id in ids ==> id in s.speakers) && forall i, j :: 0 <= i < j < |ids| ==> ids[i] != ids[j]
    ensures var s' := FinalizeAll(s, ids);
      && SameFrame(s, s')
      && (forall id :: id in s.speakers ==>
            if id in ids then Finalized(s.speakers[id], s'.speakers[id], s.calibrated, s.labels, s'.labels)
            else s'.speakers[id] == s.speakers[id])
  {
    if ids != [] {
      var init, last := ids[..|ids| - 1], ids[|ids| - 1];
      FinalizeAllIs(s, init);
      var before, s' := FinalizeAll(s, init), FinalizeAll(s, ids);
      FinalizeOneIs(before, last);
      assert s' == FinalizeOne(before, last) && ids == init + [last] && last !in init;
      hide FinalizeAll, FinalizeOne, Finalized;
      forall id | id in s.speakers && id in ids
        ensures Finalized(s.speakers[id], s'.speakers[id], s.calibrated, s.labels, s'.labels)
      {
        if id == last {
          FinalizedEarlier(s.speakers[id], s'.speakers[id], s.calibrated, s.labels, before.labels, s'.labels);
        } else {
          FinalizedLater(s.speakers[id], s'.speakers[id], s.calibrated, s.labels, before.labels, s'.labels);
        }
      }
    }
  }

  /** The end of a session settles every active speaker and touches no other. */
  lemma FinalizeOutcome(s: Session, id: Id)
    requires Sane(s) && id in s.speakers
    ensures var s' := Do(s, FinalizeUnresolved);
      && SameFrame(s, s')
      && if s.speakers[id].mergedInto.None?
         then Finalized(s.speakers[id], s'.speakers[id], s.calibrated, s.labels, s'.labels)
         else s'.speakers[id] == s.speakers[id]
  {
    ActiveKnown(s.order, s.speakers, None);
    SpeakerSession.ActiveDistinct(s.order, s.speakers, None);
    hide Active, FinalizeAll, Finalized;
    FinalizeAllIs(s, ActiveIds(s));
  }

  // ---- Newcomers --------------------------------------------------------------------------

  /** Exactly one new speaker, last in the order. */
  ghost predicate Joined(s: Session, s': Session, id: Id) {
    && id !in s.speakers && id in s'.speakers && s'.speakers == s.speakers[id := s'.speakers[id]]
    && s'.order == s.order + [id] && s'.pending == s.pending && s'.cap == s.cap && s'.calibrated == s.calibrated
  }

  predicate Blank(sp: Speaker, state: Identity, display: Label, cluster: Option<string>) {
    && sp.machine.state == state && sp.display == display && sp.cluster == cluster
    && sp.registry.None? && sp.voice == Voice(None, []) && sp.mergedInto.None? && sp.cannotLink == {}
  }

  /** Below the cap a fresh identifier joins as an anonymous speaker under the label asked for, or the
  next generated one when none or an empty one is. */
  lemma CreateOutcome(s: Session, id: Id, cluster: Option<string>, display: Option<Label>)
    requires Sane(s)
    ensures var s' := Do(s, Create(id, cluster, display));
      if |ActiveIds(s)| >= s.cap then s' == s
      else if id in s.speakers then s' == s.(labels := s.labels + 1)
      else
        && Joined(s, s', id) && s'.sink == s.sink && s'.labels == s.labels + 1 && s'.temporaries == s.temporaries
        && Blank(s'.speakers[id], SESSION_ANONYMOUS,
                 if display.Some? && display.value != "" then display.value
                 else "Speaker " + Decimals.Decimal(s.labels + 1), cluster)
        && s'.speakers[id].machine.history == []
  {
    hide Sane, ActiveIds;
  }

  lemma CreateTemporaryOutcome(s: Session, id: Id)
    requires Sane(s)
    ensures var s' := Do(s, CreateTemporary(id));
      if |ActiveIds(s)| >= s.cap then s' == s
      else if id in s.speakers then s' == s.(temporaries := s.temporaries + 1)
      else
        && Joined(s, s', id) && s'.sink == s.sink && s'.temporaries == s.temporaries + 1 && s'.labels == s.labels
        && Blank(s'.speakers[id], PROVISIONAL, "Temporary Speaker " + Decimals.Decimal(s.temporaries + 1), None)
        && s'.speakers[id].machine.history == []
  {
    hide Sane, ActiveIds;
  }

  /** The sink is made once, whatever the cap is, and is unknown from the start. */
  lemma UnattributedOutcome(s: Session, id: Id)
    requires Sane(s)
    ensures var s' := Do(s, Unattributed(id));
      if s.sink.Some? || id in s.speakers then s' == s
      else
        && Joined(s, s', id) && s'.sink == Some(id) && SameCounters(s, s')
        && Blank(s'.speakers[id], UNKNOWN, "Unknown", None)
        && Moved(Machine(PROVISIONAL, []), s'.speakers[id].machine, UNKNOWN, "insufficient_evidence")
  {
    hide Sane;
  }

  // ---- States and facts -------------------------------------------------------------------

  /** Who is in the registry is enrolled, or was and is ambiguous, or is unknown; who is merged is
  neither provisional nor anonymous any more, and who is not is not in the merged state. */
  ghost predicate FitsState(sp: Speaker) {
    && (sp.registry.Some? ==> sp.machine.state in {ENROLLED, AMBIGUOUS, UNKNOWN})
    && (sp.mergedInto.Some? ==> sp.machine.state !in {PROVISIONAL, SESSION_ANONYMOUS})
    && (sp.mergedInto.None? ==> !sp.machine.state.MERGED?)
  }

  ghost predicate Lawful(s: Session) {
    && (forall id :: id in s.speakers ==> FitsState(s.speakers[id]))
    && (s.sink.Some? ==> s.sink.value in s.speakers && s.speakers[s.sink.value].machine.state.UNKNOWN?)
  }

  lemma PromoteLawful(s: Session, r: Id, reason: string, display: Option<Label>)
    requires r in s.speakers && s.speakers[r].mergedInto.None? && Lawful(s)
    ensures Lawful(PromoteRoot(s, r, reason, display))
  {
    hide SpeakerLabel;
  }

  lemma VoiceIdLawful(s: Session, r: Id, decision: VoiceId)
    requires r in s.speakers && s.speakers[r].mergedInto.None? && Lawful(s)
    ensures Lawful(VoiceIdRoot(s, r, decision))
  {
  }

  lemma LearnLawful(s: Session, r: Id, buffered: bool)
    requires r in s.speakers && Lawful(s)
    ensures Lawful(LearnRoot(s, r, buffered))
  {
    hide Learn;
  }

  lemma FinalizeOneLawful(s: Session, id: Id)
    requires id in s.speakers && s.speakers[id].mergedInto.None? && Lawful(s)
    ensures Lawful(FinalizeOne(s, id))
  {
    PromoteLawful(s, id, "separated_evidence_final", None);
    hide PromoteRoot;
  }

  lemma {:induction false} FinalizeLawful(s: Session, ids: seq<Id>)
    requires (forall id :: id in ids ==> id in s.speakers && s.speakers[id].mergedInto.None?) && Lawful(s)
    ensures Lawful(FinalizeAll(s, ids))
  {
    if ids != [] {
      var init, last := ids[..|ids| - 1], ids[|ids| - 1];
      FinalizeLawful(s, init);
      FinalizeInPlace(s, init);
      assert last in ids;
      hide Lawful, FinalizeOne;
      FinalizeOneLawful(FinalizeAll(s, init), last);
    }
  }

  lemma MergeLawful(s: Session, src: Id, tgt: Id, reason: string)
    requires Roots(s, src, tgt) && Lawful(s)
    ensures Lawful(MergeRoots(s, src, tgt, reason))
  {
  }

  lemma CannotLinkLawful(s: Session, a: Id, b: Id)
    requires Sane(s) && Lawful(s)
    ensures Lawful(DoCannotLink(s, a, b))
  {
    hide Sane, Get;
  }

  lemma NewcomerLawful(s: Session, op: Op)
    requires Sane(s) && Lawful(s) && (op.Create? || op.CreateTemporary? || op.Unattributed?)
    ensures Lawful(Do(s, op))
  {
    hide Sane, ActiveIds, NameFor, TemporaryLabel;
  }

  lemma DoKeepsLawful(s: Session, op: Op)
    requires Sane(s) && Lawful(s)
    ensures Lawful(Do(s, op))
  {
    hide Sane, Lawful, MergeRoots, PromoteRoot, VoiceIdRoot, LearnRoot, FinalizeAll, DoCannotLink, CanMerge;
    hide DoCreate, DoCreateTemporary, DoUnattributed;
    match op
    case CannotLink(a, b) => CannotLinkLawful(s, a, b);
    case Merge(a, b, reason) =>
      if CanMerge(s, a, b) {
        CanMergeRoots(s, a, b);
        MergeLawful(s, Get(s, a), Get(s, b), reason);
      }
    case Promote(id, reason, display) =>
      if id in s.speakers { PromoteLawful(s, Get(s, id), reason, display); }
    case ApplyVoiceId(id, decision) =>
      if id in s.speakers { VoiceIdLawful(s, Get(s, id), decision); }
    case LearnVoice(id, buffered) =>
      if id in s.speakers { LearnLawful(s, Get(s, id), buffered); }
    case FinalizeUnresolved =>
      ActiveKnown(s.order, s.speakers, None);
      FinalizeLawful(s, ActiveIds(s));
    case Drain => DrainLawful(s);
    case _ => NewcomerLawful(s, op);
  }

  lemma DrainLawful(s: Session)
    requires Lawful(s)
    ensures Lawful(s.(pending := []))
  {
  }

  /** In every reachable state. */
  lemma {:induction false} RunLawful(cap: nat, calibrated: bool, ops: seq<Op>)
    ensures Lawful(Run(cap, calibrated, ops).session)
  {
    if ops == [] {
      assert Lawful(Run(cap, calibrated, []).session);
    } else {
      hide Sane, Lawful, Do, Good;
      RunLawful(cap, calibrated, ops[..|ops| - 1]);
      RunNextSession(cap, calibrated, ops);
      DoKeepsLawful(Run(cap, calibrated, ops[..|ops| - 1]).session, ops[|ops| - 1]);
    }
  }

  /** Who has a registry entry is enrolled, ambiguous or unknown, in every reachable state. */
  lemma RegisteredIsEnrolled(cap: nat, calibrated: bool, ops: seq<Op>, id: Id)
    requires id in Run(cap, calibrated, ops).session.speakers
    requires Run(cap, calibrated, ops).session.speakers[id].registry.Some?
    ensures Run(cap, calibrated, ops).session.speakers[id].machine.state in {ENROLLED, AMBIGUOUS, UNKNOWN}
  {
    RunLawful(cap, calibrated, ops);
    hide Run;
  }
}
