/** Whose voice a prototype is.

A prototype carries the identity it was made for.  A merge hands the source's prototype to a target that
has none, key and all, so the key may name a merged identity; it always resolves to the speaker that
holds the prototype.
*/
module PrototypeKeys {
  import opened MergeForest
  import opened Options
  import opened SessionState
  import opened SessionSafety
  import opened SessionRuns
  import opened Speakers

  // ---- On links and keys ------------------------------------------------------------------

  type Keys = map<Id, Option<Id>>

  /** The key of every root resolves to that root. */
  ghost predicate KeyedIn(l: Links, keys: Keys)
    requires Forest(l) && keys.Keys == l.Keys
  {
    forall r :: r in l && l[r].None? && keys[r].Some? ==> keys[r].value in l && Root(l, keys[r].value) == r
  }

  lemma AddKeepsKeyed(l: Links, keys: Keys, id: Id)
    requires Forest(l) && keys.Keys == l.Keys && KeyedIn(l, keys) && id !in l
    ensures Forest(l[id := None]) && KeyedIn(l[id := None], keys[id := None])
  {
    AddKeepsForest(l, id);
    hide Forest, Ranked;
  }

  /** The target takes over the source's key if it has none. */
  lemma LinkKeepsKeyed(l: Links, keys: Keys, src: Id, tgt: Id)
    requires Forest(l) && keys.Keys == l.Keys && KeyedIn(l, keys) && TwoRoots(l, src, tgt)
    ensures Forest(l[src := Some(tgt)])
    ensures KeyedIn(l[src := Some(tgt)], keys[tgt := if keys[tgt].None? then keys[src] else keys[tgt]])
  {
    LinkKeepsForest(l, src, tgt);
    hide Forest, Ranked;
  }

  lemma LearnKeepsKeyed(l: Links, keys: Keys, r: Id)
    requires Forest(l) && keys.Keys == l.Keys && KeyedIn(l, keys) && r in l && l[r].None?
    ensures KeyedIn(l, keys[r := if keys[r].None? then Some(r) else keys[r]])
  {
    hide Forest;
  }

  // ---- On sessions ------------------------------------------------------------------------

  function KeyOf(sp: Speaker): Option<Id> {
    if sp.voice.current.Some? then Some(sp.voice.current.value.key) else None
  }

  function KeysOf(speakers: Roster): Keys {
    map id | id in speakers :: KeyOf(speakers[id])
  }

  /** Every active speaker's prototype was made for an identity that resolves to this speaker. */
  ghost predicate Keyed(s: Session)
    requires Sane(s)
  {
    forall id :: IsActive(s.speakers, id) && s.speakers[id].voice.current.Some? ==>
      s.speakers[id].voice.current.value.key in s.speakers && Get(s, s.speakers[id].voice.current.value.key) == id
  }

  lemma KeyedMeans(s: Session)
    requires Sane(s)
    ensures KeysOf(s.speakers).Keys == LinksOf(s.speakers).Keys
    ensures Keyed(s) <==> KeyedIn(LinksOf(s.speakers), KeysOf(s.speakers))
  {
    var l, keys := LinksOf(s.speakers), KeysOf(s.speakers);
    hide Root, Forest;
    if KeyedIn(l, keys) {
      forall id | IsActive(s.speakers, id) && s.speakers[id].voice.current.Some?
        ensures s.speakers[id].voice.current.value.key in s.speakers
        ensures Get(s, s.speakers[id].voice.current.value.key) == id
      {
        assert l[id].None? && keys[id] == Some(s.speakers[id].voice.current.value.key);
      }
    }
    if Keyed(s) {
      forall r | r in l && l[r].None? && keys[r].Some?
        ensures keys[r].value in l && Root(l, keys[r].value) == r
      {
        assert IsActive(s.speakers, r);
      }
    }
  }

  lemma KeysPut(speakers: Roster, id: Id, sp: Speaker)
    ensures KeysOf(speakers[id := sp]) == KeysOf(speakers)[id := KeyOf(sp)]
  {
  }

  // ---- What the operations do to the keys -------------------------------------------------

  ghost predicate SameVoices(one: Roster, two: Roster) {
    one.Keys == two.Keys && forall id :: id in one ==> two[id].voice == one[id].voice
  }

  lemma PromoteVoices(s: Session, r: Id, reason: string, display: Option<Label>)
    requires r in s.speakers
    ensures SameVoices(s.speakers, PromoteRoot(s, r, reason, display).speakers)
  {
    hide Step;
  }

  lemma VoiceIdVoices(s: Session, r: Id, decision: VoiceId)
    requires r in s.speakers
    ensures SameVoices(s.speakers, VoiceIdRoot(s, r, decision).speakers)
  {
    hide Step;
  }

  lemma FinalizeOneVoices(s: Session, id: Id)
    requires id in s.speakers
    ensures SameVoices(s.speakers, FinalizeOne(s, id).speakers)
  {
    PromoteVoices(s, id, "separated_evidence_final", None);
    hide Step, PromoteRoot;
  }

  lemma {:induction false} FinalizeVoices(s: Session, ids: seq<Id>)
    requires forall id :: id in ids ==> id in s.speakers
    ensures SameVoices(s.speakers, FinalizeAll(s, ids).speakers)
  {
    if ids != [] {
      FinalizeVoices(s, ids[..|ids| - 1]);
      FinalizeOneVoices(FinalizeAll(s, ids[..|ids| - 1]), ids[|ids| - 1]);
      hide FinalizeOne;
    }
  }

  lemma LearnVoices(s: Session, r: Id, buffered: bool)
    requires r in s.speakers
    ensures var keys := KeysOf(s.speakers);
      || KeysOf(LearnRoot(s, r, buffered).speakers) == keys
      || KeysOf(LearnRoot(s, r, buffered).speakers) == keys[r := if keys[r].None? then Some(r) else keys[r]]
  {
    var sp := s.speakers[r];
    KeysPut(s.speakers, r, sp.(voice := Learn(sp.voice, r)));
    assert KeysOf(s.speakers)[r] == KeyOf(sp);
    hide KeysOf;
  }

  lemma LocalVoices(s: Session, op: Op)
    requires Sane(s) && Local(op) && !op.LearnVoice?
    ensures SameVoices(s.speakers, Do(s, op).speakers)
  {
    hide Sane, PromoteRoot, VoiceIdRoot, FinalizeAll, Get;
    match op
    case Promote(id, reason, display) =>
      if id in s.speakers { PromoteVoices(s, Get(s, id), reason, display); }
    case ApplyVoiceId(id, decision) =>
      if id in s.speakers { VoiceIdVoices(s, Get(s, id), decision); }
    case FinalizeUnresolved =>
      ActiveKnown(s.order, s.speakers, None);
      FinalizeVoices(s, ActiveIds(s));
    case Drain =>
  }

  lemma CannotLinkVoices(s: Session, a: Id, b: Id)
    requires Sane(s)
    ensures SameVoices(s.speakers, DoCannotLink(s, a, b).speakers)
  {
    hide Sane, Get;
  }

  lemma MergeKeys(s: Session, src: Id, tgt: Id, reason: string)
    requires Roots(s, src, tgt)
    ensures src in KeysOf(s.speakers) && tgt in KeysOf(s.speakers)
    ensures var keys := KeysOf(s.speakers);
      KeysOf(MergeRoots(s, src, tgt, reason).speakers)
      == keys[tgt := if keys[tgt].None? then keys[src] else keys[tgt]]
  {
    hide MergedMachine;
    var s', keys := MergeRoots(s, src, tgt, reason), KeysOf(s.speakers);
    MergeRootsMade(s, src, tgt, reason);
    KeysPut(s.speakers, tgt, s'.speakers[tgt]);
    KeysPut(s.speakers[tgt := s'.speakers[tgt]], src, s'.speakers[src]);
    assert keys[src] == KeyOf(s.speakers[src]) && keys[tgt] == KeyOf(s.speakers[tgt]);
    assert s'.speakers[src].voice == s.speakers[src].voice;
    assert KeyOf(s'.speakers[tgt]) == if keys[tgt].None? then keys[src] else keys[tgt];
    hide KeysOf, MergeRoots, KeyOf;
  }

  // ---- Every operation and every run ------------------------------------------------------

  lemma SameKeyed(s: Session, s': Session)
    requires Sane(s) && Sane(s') && Keyed(s)
    requires LinksOf(s'.speakers) == LinksOf(s.speakers) && KeysOf(s'.speakers) == KeysOf(s.speakers)
    ensures Keyed(s')
  {
    KeyedMeans(s);
    KeyedMeans(s');
  }

  lemma LocalKeepsKeyed(s: Session, op: Op)
    requires Sane(s) && Keyed(s) && Local(op) && Sane(Do(s, op))
    ensures Keyed(Do(s, op))
  {
    hide *;
    LocalInPlace(s, op);
    InPlaceIdentities(s, Do(s, op));
    SameIdentitiesMeans(s, Do(s, op));
    if op.LearnVoice? {
      LearnOpKeyed(s, op.id, op.buffered);
    } else {
      LocalVoices(s, op);
      VoicesKeys(s.speakers, Do(s, op).speakers);
      SameKeyed(s, Do(s, op));
    }
  }

  lemma SameIdentitiesMeans(s: Session, s': Session)
    requires SameIdentities(s, s')
    ensures LinksOf(s'.speakers) == LinksOf(s.speakers)
  {
    hide LinksOf;
  }

  lemma VoicesKeys(one: Roster, two: Roster)
    requires SameVoices(one, two)
    ensures KeysOf(two) == KeysOf(one)
  {
  }

  lemma LearnOpIs(s: Session, id: Id, buffered: bool)
    requires Sane(s)
    ensures Do(s, LearnVoice(id, buffered)) == if id in s.speakers then LearnRoot(s, Get(s, id), buffered) else s
  {
    hide Sane, LearnRoot;
  }

  lemma LearnOpKeyed(s: Session, id: Id, buffered: bool)
    requires Sane(s) && Keyed(s)
    requires Sane(Do(s, LearnVoice(id, buffered)))
    requires LinksOf(Do(s, LearnVoice(id, buffered)).speakers) == LinksOf(s.speakers)
    ensures Keyed(Do(s, LearnVoice(id, buffered)))
  {
    hide *;
    var s' := Do(s, LearnVoice(id, buffered));
    LearnOpIs(s, id, buffered);
    if id in s.speakers {
      LearnVoices(s, Get(s, id), buffered);
      KeyedMeans(s);
      KeyedMeans(s');
      SaneParts(s);
      RootKnown(s, Get(s, id));
      LearnKeepsKeyed(LinksOf(s.speakers), KeysOf(s.speakers), Get(s, id));
    }
  }

  lemma RootKnown(s: Session, r: Id)
    requires r in s.speakers && s.speakers[r].mergedInto.None?
    ensures r in LinksOf(s.speakers) && LinksOf(s.speakers)[r].None?
  {
  }

  lemma RegisterKeepsKeyed(s: Session, s': Session, id: Id)
    requires Sane(s) && Keyed(s) && Sane(s') && Registers(s, s', id)
    requires id in s'.speakers && id !in s.speakers ==> s'.speakers[id].voice.current.None?
    ensures Keyed(s')
  {
    KeyedMeans(s);
    KeyedMeans(s');
    if s'.speakers != s.speakers {
      KeysPut(s.speakers, id, s'.speakers[id]);
      RosterPut(s.speakers, id, s'.speakers[id]);
      assert id !in LinksOf(s.speakers);
      hide Keyed, KeyedIn, KeysOf, LinksOf, StoredOf, LabelsOf, Sane;
      SaneParts(s);
      AddKeepsKeyed(LinksOf(s.speakers), KeysOf(s.speakers), id);
    }
  }

  lemma NewcomerSilent(s: Session, op: Op)
    requires Sane(s) && (op.Create? || op.CreateTemporary? || op.Unattributed?)
    ensures var s' := Do(s, op);
      op.id in s'.speakers && op.id !in s.speakers ==> s'.speakers[op.id].voice.current.None?
  {
    hide Sane, ActiveIds, UnknownMachine, NameFor;
  }

  lemma MergeKeepsKeyed(s: Session, a: Id, b: Id, reason: string)
    requires Sane(s) && Keyed(s) && Sane(DoMerge(s, a, b, reason))
    ensures Keyed(DoMerge(s, a, b, reason))
  {
    hide *;
    MergeIs(s, a, b, reason);
    if CanMerge(s, a, b) {
      MergeRootsKeyed(s, Get(s, a), Get(s, b), reason);
    }
  }

  lemma MergeRootsKeyed(s: Session, src: Id, tgt: Id, reason: string)
    requires Sane(s) && Keyed(s) && Roots(s, src, tgt)
    requires src in s.speakers && tgt in s.speakers && Sane(MergeRoots(s, src, tgt, reason))
    ensures Keyed(MergeRoots(s, src, tgt, reason))
  {
    hide *;
    var s' := MergeRoots(s, src, tgt, reason);
    KeyedMeans(s);
    KeyedMeans(s');
    SaneParts(s);
    MergeKeys(s, src, tgt, reason);
    MergeRootsRoster(s, src, tgt, reason);
    RootsAreRoots(s, src, tgt);
    LinkKeepsKeyed(LinksOf(s.speakers), KeysOf(s.speakers), src, tgt);
  }

  lemma CannotLinkKeepsKeyed(s: Session, a: Id, b: Id)
    requires Sane(s) && Keyed(s) && Sane(DoCannotLink(s, a, b))
    ensures Keyed(DoCannotLink(s, a, b))
  {
    hide *;
    CannotLinkIdentities(s, a, b);
    SameIdentitiesMeans(s, DoCannotLink(s, a, b));
    CannotLinkVoices(s, a, b);
    VoicesKeys(s.speakers, DoCannotLink(s, a, b).speakers);
    SameKeyed(s, DoCannotLink(s, a, b));
  }

  lemma DoKeepsKeyed(s: Session, op: Op)
    requires Sane(s) && Keyed(s)
    ensures Sane(Do(s, op)) && Keyed(Do(s, op))
  {
    DoKeepsSane(s, op);
    hide Sane, Keyed, MergeRoots, PromoteRoot, VoiceIdRoot, LearnRoot, FinalizeAll, DoCannotLink, DoMerge, CanMerge;
    hide DoCreate, DoCreateTemporary, DoUnattributed, Registers;
    if Local(op) {
      LocalKeepsKeyed(s, op);
    } else if op.CannotLink? {
      CannotLinkKeepsKeyed(s, op.a, op.b);
    } else if op.Merge? {
      MergeKeepsKeyed(s, op.a, op.b, op.reason);
    } else {
      OpRegisters(s, op);
      NewcomerSilent(s, op);
      RegisterKeepsKeyed(s, Do(s, op), op.id);
    }
  }

  lemma StartKeyed(cap: nat, calibrated: bool)
    ensures Sane(Start(cap, calibrated).session) && Keyed(Start(cap, calibrated).session)
  {
    StartGood(cap, calibrated);
  }

  /** In every reachable state the prototype of an active speaker was made for an identity that
  resolves to that speaker. */
  lemma {:induction false} RunKeyed(cap: nat, calibrated: bool, ops: seq<Op>)
    ensures Sane(Run(cap, calibrated, ops).session) && Keyed(Run(cap, calibrated, ops).session)
  {
    if ops == [] {
      StartKeyed(cap, calibrated);
    } else {
      hide Sane, Keyed, Do, Good;
      RunKeyed(cap, calibrated, ops[..|ops| - 1]);
      RunNextSession(cap, calibrated, ops);
      GoodSane(Run(cap, calibrated, ops));
      DoKeepsKeyed(Run(cap, calibrated, ops[..|ops| - 1]).session, ops[|ops| - 1]);
    }
  }

  /** So no two active speakers share a key. */
  lemma KeysDiffer(s: Session, a: Id, b: Id)
    requires Sane(s) && Keyed(s) && IsActive(s.speakers, a) && IsActive(s.speakers, b) && a != b
    requires s.speakers[a].voice.current.Some? && s.speakers[b].voice.current.Some?
    ensures s.speakers[a].voice.current.value.key != s.speakers[b].voice.current.value.key
  {
    hide Sane, Get;
    assert Get(s, s.speakers[a].voice.current.value.key) == a;
  }
}
