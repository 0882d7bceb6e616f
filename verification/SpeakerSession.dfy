/** The session speaker state in place: every method performs the operation of `SessionState` it is named after. */
module SpeakerSession {
  import opened MergeForest
  import opened Options
  import opened SessionSafety
  import opened SessionState
  import opened Speakers

  // ---- Finalization, speaker by speaker ---------------------------------------------------

  ghost predicate Distinct(ids: seq<Id>) {
    forall i, j :: 0 <= i < j < |ids| ==> ids[i] != ids[j]
  }

  lemma {:induction false} ActiveDistinct(order: seq<Id>, speakers: Roster, skip: Option<Id>)
    requires Distinct(order)
    ensures Distinct(Active(order, speakers, skip))
  {
    if order != [] {
      var init, last := order[..|order| - 1], order[|order| - 1];
      ActiveDistinct(init, speakers, skip);
      ActiveKnown(init, speakers, skip);
      assert last !in init;
      assert last !in Active(init, speakers, skip);
    }
  }

  lemma FinalizeOneLeaves(s: Session, id: Id, other: Id)
    requires id in s.speakers && other in s.speakers && other != id
    ensures other in FinalizeOne(s, id).speakers && FinalizeOne(s, id).speakers[other] == s.speakers[other]
    ensures FinalizeOne(s, id).calibrated == s.calibrated
  {
  }

  lemma {:induction false} FinalizeLeaves(s: Session, ids: seq<Id>, other: Id)
    requires (forall id :: id in ids ==> id in s.speakers) && other in s.speakers && other !in ids
    ensures other in FinalizeAll(s, ids).speakers && FinalizeAll(s, ids).speakers[other] == s.speakers[other]
  {
    if ids != [] {
      FinalizeLeaves(s, ids[..|ids| - 1], other);
      FinalizeOneLeaves(FinalizeAll(s, ids[..|ids| - 1]), ids[|ids| - 1], other);
      hide FinalizeOne;
    }
  }

  lemma FinalizeOneSettings(s: Session, id: Id)
    requires id in s.speakers
    ensures FinalizeOne(s, id).calibrated == s.calibrated && FinalizeOne(s, id).cap == s.cap
    ensures FinalizeOne(s, id).order == s.order
  {
  }

  lemma {:induction false} FinalizeSettings(s: Session, ids: seq<Id>)
    requires forall id :: id in ids ==> id in s.speakers
    ensures FinalizeAll(s, ids).calibrated == s.calibrated
  {
    if ids != [] {
      FinalizeSettings(s, ids[..|ids| - 1]);
      FinalizeOneSettings(FinalizeAll(s, ids[..|ids| - 1]), ids[|ids| - 1]);
      hide FinalizeOne;
    }
  }

  predicate Evidenceless(sp: Speaker) {
    sp.machine.state.PROVISIONAL? && sp.voice.current.None?
  }

  /** Where finalization leaves one of the speakers it visits. */
  function Settled(sp: Speaker, calibrated: bool): Identity {
    if !sp.machine.state.PROVISIONAL? then sp.machine.state
    else if sp.voice.current.None? then UNKNOWN
    else if calibrated then SESSION_ANONYMOUS
    else PROVISIONAL
  }

  lemma FinalizeOneSettles(s: Session, id: Id)
    requires id in s.speakers
    ensures id in FinalizeOne(s, id).speakers
    ensures FinalizeOne(s, id).speakers[id].machine.state == Settled(s.speakers[id], s.calibrated)
  {
  }

  lemma {:induction false} FinalizeSettles(s: Session, ids: seq<Id>, id: Id)
    requires (forall id :: id in ids ==> id in s.speakers) && Distinct(ids) && id in ids
    ensures FinalizeAll(s, ids).speakers[id].machine.state == Settled(s.speakers[id], s.calibrated)
  {
    var init, last := ids[..|ids| - 1], ids[|ids| - 1];
    assert ids == init + [last];
    var before := FinalizeAll(s, init);
    FinalizeSettings(s, init);
    if id == last {
      assert id !in init;
      FinalizeLeaves(s, init, id);
      FinalizeOneSettles(before, id);
    } else {
      FinalizeSettles(s, init, id);
      FinalizeOneLeaves(before, last, id);
    }
    hide FinalizeOne, Settled;
  }

  /** After finalization no active speaker is provisional, except one with evidence under
  uncalibrated thresholds; and the merged ones are left alone. */
  lemma FinalizationSettlesEveryone(s: Session, id: Id)
    requires Sane(s) && id in s.speakers
    ensures id in Do(s, FinalizeUnresolved).speakers
    ensures Do(s, FinalizeUnresolved).speakers[id].machine.state
         == if s.speakers[id].mergedInto.None? then Settled(s.speakers[id], s.calibrated)
            else s.speakers[id].machine.state
  {
    ActiveKnown(s.order, s.speakers, None);
    ActiveDistinct(s.order, s.speakers, None);
    if s.speakers[id].mergedInto.None? {
      hide Active, FinalizeAll, Settled;
      FinalizeSettles(s, ActiveIds(s), id);
    } else {
      hide Active, FinalizeAll, Settled;
      FinalizeLeaves(s, ActiveIds(s), id);
    }
  }

  /** The speakers that end unknown for want of evidence, in order. */
  function Unresolved(s: Session, ids: seq<Id>): seq<Id>
    requires forall id :: id in ids ==> id in s.speakers
  {
    if ids == [] then []
    else
      var last := ids[|ids| - 1];
      Unresolved(s, ids[..|ids| - 1]) + (if Evidenceless(s.speakers[last]) then [last] else [])
  }

  lemma FinalizeNobody(s: Session)
    ensures FinalizeAll(s, []) == s && Unresolved(s, []) == []
  {
  }

  lemma FinalizeMore(s: Session, ids: seq<Id>, k: nat)
    requires (forall id :: id in ids ==> id in s.speakers) && Distinct(ids) && k < |ids|
    ensures ids[k] in FinalizeAll(s, ids[..k]).speakers
    ensures FinalizeAll(s, ids[..k]).speakers[ids[k]] == s.speakers[ids[k]]
    ensures FinalizeAll(s, ids[..k + 1]) == FinalizeOne(FinalizeAll(s, ids[..k]), ids[k])
    ensures Unresolved(s, ids[..k + 1])
         == Unresolved(s, ids[..k]) + (if Evidenceless(s.speakers[ids[k]]) then [ids[k]] else [])
  {
    assert ids[..k + 1][..k] == ids[..k];
    assert ids[k] !in ids[..k];
    FinalizeLeaves(s, ids[..k], ids[k]);
    hide FinalizeOne;
  }

  class SessionSpeakerState {
    const cap: nat
    const calibrated: bool
    var speakers: Roster
    var order: seq<Id>
    var pending: seq<LabelChange>
    var temporaries: nat
    var labels: nat
    var sink: Option<Id>

    ghost function State(): Session
      reads this
    {
      Session(cap, calibrated, speakers, order, pending, temporaries, labels, sink)
    }

    constructor (cap: nat, calibrated: bool)
      ensures State() == NewSession(cap, calibrated) && Sane(State())
    {
      this.cap, this.calibrated := cap, calibrated;
      speakers, order, pending, temporaries, labels, sink := map[], [], [], 0, 0, None;
      new;
      assert LinksOf(speakers) == map[];
      assert Ranked(map[], map[]);
    }

    /** Follow the links to the active speaker. */
    method Find(id: Id) returns (r: Id)
      requires Sane(State()) && id in speakers
      ensures r == Get(State(), id)
    {
      ghost var links := LinksOf(speakers);
      r := id;
      while speakers[r].mergedInto.Some?
        invariant r in speakers && Root(links, r) == Root(links, id)
        decreases RankOf(links)[r]
      {
        assert links[r] == speakers[r].mergedInto;
        r := speakers[r].mergedInto.value;
      }
    }

    /** `id` is the fresh identifier; an occupied one, or a full session, is refused. */
    method CreateSpeaker(id: Id, cluster: Option<string>, display: Option<Label>) returns (ok: bool)
      requires Sane(State())
      modifies this
      ensures Sane(State()) && State() == Do(old(State()), Create(id, cluster, display))
      ensures ok <==> |ActiveIds(old(State()))| < cap && id !in old(speakers)
    {
      DoKeepsSane(State(), Create(id, cluster, display));
      hide Sane, Active;
      if |Active(order, speakers, None)| >= cap {
        return false;
      }
      labels := labels + 1;
      if id in speakers {
        return false;
      }
      var name := if display.Some? && display.value != "" then display.value else SpeakerLabel(labels);
      speakers := speakers[id := NewSpeaker(NewMachine(SESSION_ANONYMOUS), name, cluster)];
      order := order + [id];
      ok := true;
    }

    method CreateTemporarySpeaker(id: Id) returns (ok: bool)
      requires Sane(State())
      modifies this
      ensures Sane(State()) && State() == Do(old(State()), CreateTemporary(id))
      ensures ok <==> |ActiveIds(old(State()))| < cap && id !in old(speakers)
    {
      DoKeepsSane(State(), CreateTemporary(id));
      hide Sane, Active;
      if |Active(order, speakers, None)| >= cap {
        return false;
      }
      temporaries := temporaries + 1;
      if id in speakers {
        return false;
      }
      speakers := speakers[id := NewSpeaker(NewMachine(PROVISIONAL), TemporaryLabel(temporaries), None)];
      order := order + [id];
      ok := true;
    }

    /** The one sink of the session, created at its first use under the fresh identifier `id`. */
    method UnattributedSpeaker(id: Id) returns (r: Option<Id>)
      requires Sane(State())
      modifies this
      ensures Sane(State()) && State() == Do(old(State()), Unattributed(id))
      ensures r.Some? ==> sink == r
      ensures r.None? <==> old(sink).None? && id in old(speakers)
    {
      DoKeepsSane(State(), Unattributed(id));
      hide Sane;
      if sink.Some? {
        return sink;
      }
      if id in speakers {
        return None;
      }
      speakers := speakers[id := NewSpeaker(UnknownMachine(), UNATTRIBUTED_LABEL, None)];
      order := order + [id];
      sink := Some(id);
      r := sink;
    }

    method AddCannotLink(a: Id, b: Id)
      requires Sane(State()) && a in speakers && b in speakers
      modifies this
      ensures Sane(State()) && State() == Do(old(State()), CannotLink(a, b))
    {
      DoKeepsSane(State(), CannotLink(a, b));
      var first := Find(a);
      var second := Find(b);
      hide Sane, Get;
      if first == second {
        return;
      }
      speakers := speakers[first := speakers[first].(cannotLink := speakers[first].cannotLink + {second})];
      speakers := speakers[second := speakers[second].(cannotLink := speakers[second].cannotLink + {first})];
    }

    /** Fold `a` into `b`; refused, without any effect, by the guard. */
    method MergeSpeakers(a: Id, b: Id, reason: string) returns (ok: bool)
      requires Sane(State()) && a in speakers && b in speakers
      modifies this
      ensures Sane(State()) && State() == Do(old(State()), Merge(a, b, reason))
      ensures ok <==> CanMerge(old(State()), a, b)
    {
      DoKeepsSane(State(), Merge(a, b, reason));
      var src := Find(a);
      var tgt := Find(b);
      hide Sane, Get;
      if src == tgt || tgt in speakers[src].cannotLink {
        return false;
      }
      MergeAt(src, tgt, reason);
      ok := true;
    }

    method MergeAt(src: Id, tgt: Id, reason: string)
      requires src in speakers && tgt in speakers && src != tgt
      modifies this
      ensures State() == MergeRoots(old(State()), src, tgt, reason)
    {
      var from, to := speakers[src], speakers[tgt];
      if to.voice.current.None? {
        to := to.(voice := to.voice.(current := from.voice.current));
      }
      to := to.(cannotLink := to.cannotLink + (from.cannotLink - {tgt}));
      pending := pending + [LabelChange(src, from.display, to.display, reason)];
      from := from.(machine := MergedMachine(from.machine, reason), mergedInto := Some(tgt), display := to.display);
      speakers := speakers[tgt := to][src := from];
    }

    method PromoteProvisional(id: Id, reason: string, display: Option<Label>)
      requires Sane(State()) && id in speakers
      modifies this
      ensures Sane(State()) && State() == Do(old(State()), Promote(id, reason, display))
    {
      DoKeepsSane(State(), Promote(id, reason, display));
      var r := Find(id);
      hide Sane, Get;
      PromoteAt(r, reason, display);
    }

    method PromoteAt(r: Id, reason: string, display: Option<Label>)
      requires r in speakers
      modifies this
      ensures State() == PromoteRoot(old(State()), r, reason, display)
    {
      var sp := speakers[r];
      if sp.machine.state != PROVISIONAL {
        return;
      }
      var name;
      if display.None? {
        labels := labels + 1;
        name := SpeakerLabel(labels);
      } else {
        name := display.value;
      }
      pending := pending + [LabelChange(r, sp.display, name, reason)];
      speakers := speakers[r := sp.(machine := Step(sp.machine, SESSION_ANONYMOUS, reason).value, display := name)];
    }

    /** Refused, without any effect, when an acceptance names no registered speaker. */
    method ApplyVoiceIdDecision(id: Id, decision: VoiceId) returns (ok: bool)
      requires Sane(State()) && id in speakers
      modifies this
      ensures Sane(State()) && State() == Do(old(State()), ApplyVoiceId(id, decision))
      ensures ok <==> !(decision.Accepted? && (decision.registry == "" || decision.name == ""))
    {
      DoKeepsSane(State(), ApplyVoiceId(id, decision));
      var r := Find(id);
      hide Sane, Get;
      var sp := speakers[r];
      if decision.Accepted? {
        if decision.registry == "" || decision.name == "" {
          return false;
        }
        var machine := sp.machine;
        if machine.state == PROVISIONAL || machine.state == SESSION_ANONYMOUS {
          machine := Step(machine, ENROLLED, "voice_id_accept").value;
        } else if machine.state == AMBIGUOUS {
          machine := Step(machine, ENROLLED, "voice_id_reaccept").value;
        }
        pending := pending + [LabelChange(r, sp.display, decision.name, "voice_id_accept")];
        speakers := speakers[r := sp.(machine := machine, registry := Some(decision.registry),
                                      display := decision.name)];
      } else if decision.Contradicted? && sp.machine.state == ENROLLED {
        speakers := speakers[r := sp.(machine := Step(sp.machine, AMBIGUOUS, "voice_id_contradiction").value)];
      }
      ok := true;
    }

    /** Visit the active speakers in order; the result lists those that end unknown. */
    method Finalize() returns (unresolved: seq<Id>)
      requires Sane(State())
      modifies this
      ensures Sane(State()) && State() == Do(old(State()), FinalizeUnresolved)
      ensures (forall id :: id in ActiveIds(old(State())) ==> id in old(speakers))
      ensures unresolved == Unresolved(old(State()), ActiveIds(old(State())))
    {
      ghost var s := State();
      DoKeepsSane(s, FinalizeUnresolved);
      ActiveKnown(order, speakers, None);
      ActiveDistinct(order, speakers, None);
      var active := Active(order, speakers, None);
      unresolved := FinalizeEach(active);
    }

    /** Evidence that passed the quality gates: `buffered` for a temporary identity, or for its prototype. */
    method UpdatePrototype(id: Id, buffered: bool) returns (accepted: bool)
      requires Sane(State()) && id in speakers
      modifies this
      ensures Sane(State()) && State() == Do(old(State()), LearnVoice(id, buffered))
      ensures var state := old(speakers)[Get(old(State()), id)].machine.state;
        accepted <==> if buffered then state.PROVISIONAL? else !state.UNKNOWN? && !state.AMBIGUOUS?
    {
      DoKeepsSane(State(), LearnVoice(id, buffered));
      var r := Find(id);
      hide Sane, Get, LearnRoot;
      accepted := LearnAt(r, buffered);
    }

    method LearnAt(r: Id, buffered: bool) returns (accepted: bool)
      requires r in speakers
      modifies this
      ensures State() == LearnRoot(old(State()), r, buffered)
      ensures var state := old(speakers)[r].machine.state;
        accepted <==> if buffered then state.PROVISIONAL? else !state.UNKNOWN? && !state.AMBIGUOUS?
    {
      var sp := speakers[r];
      if buffered {
        if sp.machine.state != PROVISIONAL {
          return false;
        }
      } else if sp.machine.state == UNKNOWN || sp.machine.state == AMBIGUOUS {
        return false;
      }
      if sp.voice.current.None? {
        speakers := speakers[r := sp.(voice := sp.voice.(current := Some(Prototype(r, 1))))];
      } else {
        var p := sp.voice.current.value;
        speakers := speakers[r := sp.(voice := Voice(Some(p.(version := p.version + 1)), sp.voice.replaced + [p]))];
      }
      accepted := true;
    }

    method FinalizeEach(active: seq<Id>) returns (unresolved: seq<Id>)
      requires (forall id :: id in active ==> id in speakers) && Distinct(active)
      modifies this
      ensures State() == FinalizeAll(old(State()), active)
      ensures unresolved == Unresolved(old(State()), active)
    {
      ghost var s := State();
      hide FinalizeAll, FinalizeOne, Unresolved, Distinct;
      var k := 0;
      unresolved := [];
      FinalizeNobody(s);
      assert active[..0] == [];
      while k < |active|
        invariant 0 <= k <= |active|
        invariant State() == FinalizeAll(s, active[..k])
        invariant unresolved == Unresolved(s, active[..k])
      {
        FinalizeMore(s, active, k);
        var gone := FinalizeAt(active[k]);
        if gone {
          unresolved := unresolved + [active[k]];
        }
        k := k + 1;
      }
      assert active[..k] == active;
    }

    method FinalizeAt(id: Id) returns (gone: bool)
      requires id in speakers
      modifies this
      ensures State() == FinalizeOne(old(State()), id)
      ensures gone <==> Evidenceless(old(speakers)[id])
    {
      gone := false;
      var sp := speakers[id];
      if sp.machine.state != PROVISIONAL {
        return;
      }
      if sp.voice.current.None? {
        speakers := speakers[id := sp.(machine := Step(sp.machine, UNKNOWN, "insufficient_evidence").value)];
        gone := true;
        return;
      }
      if calibrated {
        PromoteAt(id, "separated_evidence_final", None);
      }
    }

    method DrainLabelChanges() returns (changes: seq<LabelChange>)
      requires Sane(State())
      modifies this
      ensures Sane(State()) && State() == Do(old(State()), Drain)
      ensures changes == old(pending)
    {
      DoKeepsSane(State(), Drain);
      changes := pending;
      pending := [];
    }
  }
}
