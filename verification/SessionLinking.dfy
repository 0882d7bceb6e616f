/** Linking against the prototypes a session offers.

The keys offered are those of the session's active speakers, so what a crop's sources link to resolves
to speakers, to different ones for different sources; and what the second pass links temporary speakers
to is never a temporary speaker.
*/
module SessionLinking {
  import opened MergeForest
  import opened Options
  import opened PrototypeKeys
  import opened Reconciliation
  import opened SessionRuns
  import opened SessionSafety
  import opened SessionState
  import SourceLinking
  import opened SpeakerSession

  predicate Eligible(speakers: Roster, id: Id, provisionals: bool) {
    && IsActive(speakers, id) && speakers[id].voice.current.Some?
    && (provisionals || !speakers[id].machine.state.PROVISIONAL?)
  }

  /** The active speakers with a prototype, in order; without the provisional ones for `prototypes()`,
  with them for `linking_prototypes()`. */
  function Voiced(order: seq<Id>, speakers: Roster, provisionals: bool): (r: seq<Id>)
    ensures forall id :: id in r <==> id in order && Eligible(speakers, id, provisionals)
    ensures forall j :: 0 <= j < |r| ==> Eligible(speakers, r[j], provisionals)
    ensures (forall i, j :: 0 <= i < j < |order| ==> order[i] != order[j])
        ==> (forall i, j :: 0 <= i < j < |r| ==> r[i] != r[j])
  {
    if order == [] then []
    else
      var last := order[|order| - 1];
      assert order == order[..|order| - 1] + [last];
      Voiced(order[..|order| - 1], speakers, provisionals)
      + (if Eligible(speakers, last, provisionals) then [last] else [])
  }

  /** The call links against the session's prototypes. */
  ghost predicate Offered(s: Session, provisionals: bool, call: SourceLinking.Call) {
    var ids := Voiced(s.order, s.speakers, provisionals);
    && |call.prototypes| == |ids|
    && forall j :: 0 <= j < |ids| ==> call.prototypes[j].key == s.speakers[ids[j]].voice.current.value.key
  }

  /** Whom the link of source `i` names: the speaker that offered the assigned column. */
  lemma LinkResolves(s: Session, provisionals: bool, call: SourceLinking.Call, i: nat)
    requires Sane(s) && Keyed(s) && Offered(s, provisionals, call)
    requires call.Solved() && i < |call.embeddings| && SourceLinking.IsLinked(call, i)
    ensures var ids := Voiced(s.order, s.speakers, provisionals);
      && i < |call.cols| && call.cols[i] < |ids| && call.Result(i).speaker.Some?
      && call.Result(i).speaker.value in s.speakers
      && Get(s, call.Result(i).speaker.value) == ids[call.cols[i]]
  {
    SourceLinking.LinkIsSupported(call, i);
    var ids, j := Voiced(s.order, s.speakers, provisionals), call.cols[i];
    assert ids[j] in ids;
    assert call.Names()[j] == call.prototypes[j].key;
    hide *;
    KeyedAt(s, ids[j]);
    OfferedAt(s, provisionals, call, j);
  }

  lemma KeyedAt(s: Session, id: Id)
    requires Sane(s) && Keyed(s) && IsActive(s.speakers, id) && s.speakers[id].voice.current.Some?
    ensures s.speakers[id].voice.current.value.key in s.speakers
    ensures Get(s, s.speakers[id].voice.current.value.key) == id
  {
    hide Sane, Get;
  }

  lemma OfferedAt(s: Session, provisionals: bool, call: SourceLinking.Call, j: nat)
    requires Offered(s, provisionals, call) && j < |Voiced(s.order, s.speakers, provisionals)|
    ensures |call.prototypes| == |Voiced(s.order, s.speakers, provisionals)|
    ensures var id := Voiced(s.order, s.speakers, provisionals)[j];
      && IsActive(s.speakers, id) && s.speakers[id].voice.current.Some?
      && call.prototypes[j].key == s.speakers[id].voice.current.value.key
  {
  }

  /** In every reachable state, two sources of one crop are linked to different active speakers,
  whatever prototypes have been handed on by merges. */
  lemma SourcesLinkToDifferentSpeakers(cap: nat, calibrated: bool, ops: seq<Op>, provisionals: bool,
                                       call: SourceLinking.Call, i: nat, k: nat)
    requires Offered(Run(cap, calibrated, ops).session, provisionals, call) && call.Solved()
    requires i < k < |call.embeddings| && SourceLinking.IsLinked(call, i) && SourceLinking.IsLinked(call, k)
    ensures call.Result(i).speaker.Some? && call.Result(k).speaker.Some?
    ensures var s, a, b := Run(cap, calibrated, ops).session,
              call.Result(i).speaker.value, call.Result(k).speaker.value;
      && Sane(s) && a in s.speakers && b in s.speakers
      && IsActive(s.speakers, Get(s, a)) && IsActive(s.speakers, Get(s, b)) && Get(s, a) != Get(s, b)
  {
    hide *;
    var s := Run(cap, calibrated, ops).session;
    RunKeyed(cap, calibrated, ops);
    LinkResolves(s, provisionals, call, i);
    LinkResolves(s, provisionals, call, k);
    SourceLinking.LinksAreInjective(call, i, k);
    VoicedDiffer(s, provisionals, call.cols[i], call.cols[k]);
  }

  lemma VoicedDiffer(s: Session, provisionals: bool, i: nat, j: nat)
    requires Sane(s)
    requires i < |Voiced(s.order, s.speakers, provisionals)|
       && j < |Voiced(s.order, s.speakers, provisionals)| && i != j
    ensures var ids := Voiced(s.order, s.speakers, provisionals);
      ids[i] != ids[j] && IsActive(s.speakers, ids[i]) && IsActive(s.speakers, ids[j])
  {
    hide LinksOf, Forest;
    var ids := Voiced(s.order, s.speakers, provisionals);
    assert ids[i] in ids && ids[j] in ids;
  }

  // ---- The second pass --------------------------------------------------------------------

  /** One call per temporary speaker with evidence, its prototype as the only source. */
  ghost predicate Asked(s: Session, call: SourceLinking.Call) {
    Offered(s, false, call) && call.Solved() && |call.embeddings| == 1
  }

  /** The links are the answers of these calls. */
  ghost predicate Answers(s: Session, calls: map<Id, SourceLinking.Call>, links: map<Id, Id>) {
    && (forall id :: id in calls ==> Asked(s, calls[id]))
    && (forall id :: id in links <==> id in calls && SourceLinking.IsLinked(calls[id], 0))
    && (forall id :: id in links ==> calls[id].Result(0).speaker == Some(links[id]))
  }

  function Temporaries(s: Session): seq<Id>
    requires forall id :: id in ActiveIds(s) ==> id in s.speakers
  {
    Provisionals(ActiveIds(s), s.speakers)
  }

  lemma TemporariesAre(s: Session)
    requires Sane(s)
    ensures forall id :: id in ActiveIds(s) ==> id in s.speakers
    ensures forall id :: id in Temporaries(s) <==> IsActive(s.speakers, id) && s.speakers[id].machine.state.PROVISIONAL?
    ensures forall i, j :: 0 <= i < j < |Temporaries(s)| ==> Temporaries(s)[i] != Temporaries(s)[j]
  {
    hide LinksOf, Forest, Active;
    ActiveKnown(s.order, s.speakers, None);
    ActiveDistinct(s.order, s.speakers, None);
  }

  lemma AnswerAt(s: Session, calls: map<Id, SourceLinking.Call>, links: map<Id, Id>, id: Id)
    requires Sane(s) && Keyed(s) && Answers(s, calls, links) && id in links
    ensures links[id] in s.speakers
    ensures !s.speakers[Get(s, links[id])].machine.state.PROVISIONAL?
  {
    assert Asked(s, calls[id]) && SourceLinking.IsLinked(calls[id], 0);
    assert calls[id].Result(0).speaker == Some(links[id]);
    hide *;
    AskedIs(s, calls[id]);
    LinkResolves(s, false, calls[id], 0);
    NotTemporary(s, calls[id].cols[0]);
  }

  lemma AskedIs(s: Session, call: SourceLinking.Call)
    requires Asked(s, call)
    ensures Offered(s, false, call) && call.Solved() && |call.embeddings| == 1
  {
  }

  lemma NotTemporary(s: Session, j: nat)
    requires j < |Voiced(s.order, s.speakers, false)|
    ensures var id := Voiced(s.order, s.speakers, false)[j];
      id in s.speakers && !s.speakers[id].machine.state.PROVISIONAL?
  {
    var ids := Voiced(s.order, s.speakers, false);
    assert ids[j] in ids;
  }

  /** What the linking answers is what the pass needs: nobody links to a temporary speaker. */
  lemma AnswersAreLinkable(s: Session, calls: map<Id, SourceLinking.Call>, links: map<Id, Id>)
    requires Sane(s) && Keyed(s) && Answers(s, calls, links)
    ensures forall id :: id in ActiveIds(s) ==> id in s.speakers
    ensures Linkable(s, Temporaries(s), links)
  {
    TemporariesAre(s);
    hide Sane, Keyed, Answers, Get, Active, ActiveIds, Temporaries;
    forall id | id in Temporaries(s)
      ensures LinksOutside(s, Temporaries(s), links, id)
    {
      if id in links {
        AnswerAt(s, calls, links, id);
      }
    }
  }

  /** In every reachable state the second pass merges exactly the temporary speakers that have a
  prototype, link, and do not store their target. */
  lemma ReconciliationOnRuns(cap: nat, calibrated: bool, ops: seq<Op>, calls: map<Id, SourceLinking.Call>,
                             links: map<Id, Id>, id: Id)
    requires var s := Run(cap, calibrated, ops).session;
      Answers(s, calls, links) && IsActive(s.speakers, id) && s.speakers[id].machine.state.PROVISIONAL?
    ensures var s := Run(cap, calibrated, ops).session;
      && Sane(s) && (forall x :: x in ActiveIds(s) ==> x in s.speakers)
      && (forall x :: x in Temporaries(s) ==> x in s.speakers) && (id in links ==> links[id] in s.speakers)
      && var s' := SettleAll(s, Temporaries(s), links);
      && id in s'.speakers
      && s'.speakers[id].mergedInto == if Reconciliation.Accepted(s, id, links) then Some(Get(s, links[id])) else None
  {
    hide *;
    var s := Run(cap, calibrated, ops).session;
    RunKeyed(cap, calibrated, ops);
    AnswersAreLinkable(s, calls, links);
    TemporariesAre(s);
    ReconciliationIsExact(s, Temporaries(s), links, id);
  }
}
