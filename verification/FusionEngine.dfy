/** The fusion engine at work on a session's speakers, and when it can fail. */
module FusionEngines {
  import opened Fusion
  import opened MergeForest
  import opened Options
  import opened SessionState
  import opened SpeakerSession
  import opened Speakers
  import opened Transcript
  import opened Utterances

  // ---- When fusion cannot fail ------------------------------------------------------------

  /** Every turn's cluster has an active speaker, and the linked groups name known speakers. */
  ghost predicate Owned(s: Session, turns: seq<Turn>) {
    forall i :: 0 <= i < |turns| ==> Owner(s, turns[i].cluster).Some?
  }

  ghost predicate Known(s: Session, group: Group) {
    group.speaker.Some? ==> group.speaker.value in s.speakers
  }

  /** Nobody was created but perhaps the sink. */
  ghost predicate OnlySink(s0: Session, s: Session) {
    s.sink.Some? || s.speakers == s0.speakers
  }

  lemma OwnerGains(s: Session, s': Session, cluster: string)
    requires Sane(s) && Gains(s, s') && Owner(s, cluster).Some?
    ensures Owner(s', cluster).Some?
  {
    var id := Owner(s, cluster).value;
    assert id in s.order && id in s'.order;
    assert Owns(s'.speakers, id, cluster);
  }

  lemma OwnedGains(s: Session, s': Session, turns: seq<Turn>)
    requires Sane(s) && Gains(s, s') && Owned(s, turns)
    ensures Owned(s', turns)
  {
    hide Sane, Gains, Owner;
    forall i | 0 <= i < |turns|
      ensures Owner(s', turns[i].cluster).Some?
    {
      OwnerGains(s, s', turns[i].cluster);
    }
  }

  lemma {:induction false} BestIsSomeTurn(s: Session, turns: seq<Turn>, word: Word, previous: Option<Id>)
    ensures var cluster := Best(s, turns, word, previous).0;
      cluster.Some? ==> exists i :: 0 <= i < |turns| && turns[i].cluster == cluster.value
  {
    if turns != [] {
      BestIsSomeTurn(s, turns[..|turns| - 1], word, previous);
      var cluster, before := Best(s, turns, word, previous).0, Best(s, turns[..|turns| - 1], word, previous).0;
      hide Owner, Overlap;
      if cluster.Some? && cluster == before {
        var i :| 0 <= i < |turns| - 1 && turns[..|turns| - 1][i].cluster == cluster.value;
        assert turns[i].cluster == cluster.value;
      } else if cluster.Some? {
        assert turns[|turns| - 1].cluster == cluster.value;
      }
    }
  }

  lemma FallbackSucceeds(s0: Session, s: Session, other: Id)
    requires OnlySink(s0, s) && other !in s0.speakers
    ensures Fallback(s, other).Placed? && OnlySink(s0, Fallback(s, other).session)
  {
    hide FirstProvisional, UnknownMachine;
  }

  lemma PlaceWordSucceeds(s0: Session, s: Session, group: Group, word: Word, turns: seq<Turn>,
                          previous: Option<Id>, other: Id)
    requires OnlySink(s0, s) && other !in s0.speakers && Owned(s, turns) && Known(s, group)
    ensures var p := PlaceWord(s, group, word, turns, previous, other);
      p.Placed? && OnlySink(s0, p.session)
  {
    FallbackSucceeds(s0, s, other);
    BestIsSomeTurn(s, turns, word, previous);
    hide Best, Owner, Fallback;
  }

  lemma KnownGains(s: Session, s': Session, group: Group)
    requires Known(s, group) && Gains(s, s')
    ensures Known(s', group)
  {
  }

  lemma {:induction false} AttributeSucceeds(s0: Session, s: Session, group: Group, words: seq<Word>, turns: seq<Turn>,
                                             others: seq<Id>)
    requires Sane(s) && |others| >= |words| && OnlySink(s0, s) && Owned(s, turns) && Known(s, group)
    requires forall other :: other in others ==> other !in s0.speakers
    ensures var r := AttributeAll(s, group, words, turns, others); r.Done? && OnlySink(s0, r.session)
    decreases |words|
  {
    if words != [] {
      var k := |words| - 1;
      AttributeSucceeds(s0, s, group, words[..k], turns, others);
      var before := AttributeAll(s, group, words[..k], turns, others);
      OwnedGains(s, before.session, turns);
      KnownGains(s, before.session, group);
      hide Sane, Gains, Owned, Known, PlaceWord, OnlySink, Get, Words;
      PlaceWordSucceeds(s0, before.session, group, words[k], turns, PreviousOf(before.words), others[k]);
      AttributeNext(s, group, words, turns, others, k);
      hide AttributeAll;
      assert words[..k + 1] == words;
    }
  }

  ghost predicate OthersFresh(s: Session, others: seq<seq<Id>>) {
    forall g :: 0 <= g < |others| ==> forall other :: other in others[g] ==> other !in s.speakers
  }

  /** Fusion does not fail when every turn's cluster has an active speaker and every linked group a
  known one, however full the session is: the words nobody claims share one sink. */
  lemma {:induction false} CoalesceSucceeds(s: Session, groups: seq<Group>, turns: seq<Turn>, others: seq<seq<Id>>,
                                            maxPause: int)
    requires Sane(s) && Supplied(groups, others) && OthersFresh(s, others) && Owned(s, turns)
    requires forall g :: 0 <= g < |groups| ==> Known(s, groups[g])
    ensures var r := CoalesceAll(s, groups, turns, others, maxPause); r.Coalesced? && OnlySink(s, r.session)
    decreases |groups|
  {
    if groups != [] {
      var k := |groups| - 1;
      CoalesceSucceeds(s, groups[..k], turns, others[..k], maxPause);
      var before := CoalesceAll(s, groups[..k], turns, others[..k], maxPause);
      hide Sane, Gains, Owned, Known, AttributeAll, OnlySink, SortWords, Chunk;
      OwnedGains(s, before.session, turns);
      KnownGains(s, before.session, groups[k]);
      AttributeSucceeds(s, before.session, groups[k], SortWords(groups[k].words), turns, others[k]);
    }
  }

  // ---- Prefixes ---------------------------------------------------------------------------

  lemma AttributeNext(s: Session, group: Group, words: seq<Word>, turns: seq<Turn>, others: seq<Id>, k: nat)
    requires Sane(s) && |others| >= |words| && k < |words|
    requires AttributeAll(s, group, words[..k], turns, others).Done?
    ensures var before := AttributeAll(s, group, words[..k], turns, others);
      var p := PlaceWord(before.session, group, words[k], turns, PreviousOf(before.words), others[k]);
      && (p.Refused? ==> AttributeAll(s, group, words[..k + 1], turns, others) == Failed)
      && (p.Placed? ==>
            && Sane(p.session) && p.id in p.session.speakers
            && AttributeAll(s, group, words[..k + 1], turns, others)
            == Done(p.session, before.words + [Attributed(words[k], Get(p.session, p.id))]))
  {
    var before := AttributeAll(s, group, words[..k], turns, others);
    assert words[..k + 1][..k] == words[..k];
    if PlaceWord(before.session, group, words[k], turns, PreviousOf(before.words), others[k]).Placed? {
      PlaceWordGains(before.session, group, words[k], turns, PreviousOf(before.words), others[k]);
    }
    hide Sane, PlaceWord, Gains, Words, Get;
  }

  lemma {:induction false} AttributePrefix(s: Session, group: Group, words: seq<Word>, turns: seq<Turn>,
                                           others: seq<Id>, k: nat)
    requires Sane(s) && |others| >= |words| && k <= |words|
    requires AttributeAll(s, group, words[..k], turns, others).Failed?
    ensures AttributeAll(s, group, words, turns, others).Failed?
    decreases |words|
  {
    if k == |words| {
      assert words[..k] == words;
    } else {
      var init := words[..|words| - 1];
      assert init[..k] == words[..k];
      AttributePrefix(s, group, init, turns, others, k);
    }
  }

  lemma CoalesceNext(s: Session, groups: seq<Group>, turns: seq<Turn>, others: seq<seq<Id>>, maxPause: int, g: nat)
    requires Sane(s) && Supplied(groups, others) && g < |groups|
    requires CoalesceAll(s, groups[..g], turns, others[..g], maxPause).Coalesced?
    ensures var before := CoalesceAll(s, groups[..g], turns, others[..g], maxPause);
      var a := AttributeAll(before.session, groups[g], SortWords(groups[g].words), turns, others[g]);
      CoalesceAll(s, groups[..g + 1], turns, others[..g + 1], maxPause) ==
      if a.Failed? then Raised else Coalesced(a.session, before.parts + [Chunk(a.words, maxPause)])
  {
    hide Sane, CoalesceAll, AttributeAll, SortWords, Gains, Chunk, Words;
    var gs, os := groups[..g + 1], others[..g + 1];
    assert gs[..g] == groups[..g] && os[..g] == others[..g];
    CoalesceUnfold(s, gs, turns, os, maxPause);
  }

  lemma CoalesceUnfold(s: Session, groups: seq<Group>, turns: seq<Turn>, others: seq<seq<Id>>, maxPause: int)
    requires Sane(s) && Supplied(groups, others) && groups != []
    requires BeforeLast(s, groups, turns, others, maxPause).Coalesced?
    ensures var before := BeforeLast(s, groups, turns, others, maxPause);
      var a := LastGroup(before.session, groups, turns, others);
      CoalesceAll(s, groups, turns, others, maxPause) ==
      if a.Failed? then Raised else Coalesced(a.session, before.parts + [Chunk(a.words, maxPause)])
  {
    hide Sane, AttributeAll, SortWords, Gains, Chunk, Words;
  }

  lemma RaisedBefore(s: Session, groups: seq<Group>, turns: seq<Turn>, others: seq<seq<Id>>, maxPause: int)
    requires Sane(s) && Supplied(groups, others) && groups != []
    requires BeforeLast(s, groups, turns, others, maxPause).Raised?
    ensures CoalesceAll(s, groups, turns, others, maxPause).Raised?
  {
    hide Sane, AttributeAll, SortWords, Gains, Chunk, Words;
  }

  lemma {:induction false} CoalescePrefix(s: Session, groups: seq<Group>, turns: seq<Turn>, others: seq<seq<Id>>,
                                          maxPause: int, g: nat)
    requires Sane(s) && Supplied(groups, others) && g <= |groups|
    requires CoalesceAll(s, groups[..g], turns, others[..g], maxPause).Raised?
    ensures CoalesceAll(s, groups, turns, others, maxPause).Raised?
    decreases |groups|
  {
    hide Sane, CoalesceAll, AttributeAll, Gains, Chunk, Words, SortWords;
    if g == |groups| {
      assert groups[..g] == groups && others[..g] == others;
    } else {
      var k := |groups| - 1;
      assert groups[..k][..g] == groups[..g] && others[..k][..g] == others[..g];
      CoalescePrefix(s, groups[..k], turns, others[..k], maxPause, g);
      RaisedBefore(s, groups, turns, others, maxPause);
    }
  }

  /** One more word, on the flat list of segments. */
  function AddWord(segments: seq<Segment>, started: bool, next: Attributed, g: nat, maxPause: int): seq<Segment> {
    if started && segments != []
       && Continues(segments[|segments| - 1].utterance.speaker, segments[|segments| - 1].utterance.words,
                   next, maxPause)
    then
      var last := segments[|segments| - 1];
      segments[..|segments| - 1]
      + [last.(utterance := Utterance(last.utterance.speaker, last.utterance.words + [next.word]))]
    else segments + [Segment(Utterance(next.speaker, [next.word]), g)]
  }

  lemma AddWordPlaces(before: seq<Segment>, us: seq<Utterance>, next: Attributed, g: nat, maxPause: int)
    ensures AddWord(before + Tag(us, g), us != [], next, g, maxPause) == before + Tag(Place(us, next, maxPause), g)
  {
    hide Continues;
    var segments := before + Tag(us, g);
    if us != [] {
      assert segments[|segments| - 1] == Segment(us[|us| - 1], g);
      assert segments[..|segments| - 1] == before + Tag(us[..|us| - 1], g);
    }
  }

  lemma ChunkSnoc(ws: seq<Attributed>, next: Attributed, maxPause: int)
    ensures Chunk(ws + [next], maxPause) == Place(Chunk(ws, maxPause), next, maxPause)
    ensures Chunk(ws + [next], maxPause) != []
  {
    assert (ws + [next])[..|ws|] == ws;
  }

  /** What is written of a group after some of its words. */
  ghost predicate Written(segments: seq<Segment>, before: seq<Segment>, done: seq<Attributed>, g: nat, maxPause: int,
                          started: bool, previous: Option<Id>) {
    && segments == before + Tag(Chunk(done, maxPause), g)
    && (started <==> Chunk(done, maxPause) != [])
    && previous == PreviousOf(done)
  }

  lemma WrittenStart(before: seq<Segment>, g: nat, maxPause: int)
    ensures Written(before, before, [], g, maxPause, false, None)
  {
  }

  lemma WrittenNext(segments: seq<Segment>, before: seq<Segment>, done: seq<Attributed>, g: nat, maxPause: int,
                    started: bool, previous: Option<Id>, next: Attributed)
    requires Written(segments, before, done, g, maxPause, started, previous)
    ensures started ==> segments != []
    ensures Written(AddWord(segments, started, next, g, maxPause), before, done + [next], g, maxPause,
                    true, Some(next.speaker))
  {
    hide Chunk, Place, AddWord;
    AddWordPlaces(before, Chunk(done, maxPause), next, g, maxPause);
    ChunkSnoc(done, next, maxPause);
  }

  datatype WordOwner = Unclaimed | Claimed(id: Id) | Full

  datatype FuseResult = Fused(segments: seq<Segment>) | NoSpeaker | LostWords

  class FusionEngine {
    const state: SessionSpeakerState
    const maxPause: int

    constructor (state: SessionSpeakerState, maxPause: int)
      ensures this.state == state && this.maxPause == maxPause
    {
      this.state, this.maxPause := state, maxPause;
    }

    method FindByCluster(cluster: string) returns (r: Option<Id>)
      ensures r == Owner(state.State(), cluster)
    {
      var k := 0;
      while k < |state.order|
        invariant 0 <= k <= |state.order|
        invariant Owner(state.State(), cluster) == ByCluster(state.order[k..], state.speakers, cluster)
      {
        var id := state.order[k];
        assert state.order[k..][1..] == state.order[k + 1..];
        if id in state.speakers && state.speakers[id].cluster == Some(cluster) && state.speakers[id].mergedInto.None? {
          return Some(id);
        }
        k := k + 1;
      }
      r := None;
    }

    /** The turn with the largest overlap decides; `other` is used if its cluster has no speaker yet. */
    method AttributeWord(word: Word, turns: seq<Turn>, previous: Option<Id>, other: Id) returns (r: WordOwner)
      requires Sane(state.State())
      modifies state
      ensures Sane(state.State())
      ensures r.Unclaimed? ==> state.State() == old(state.State())
      ensures match Best(old(state.State()), turns, word, previous).0
        case None => r == Unclaimed
        case Some(cluster) =>
          match EnsureCluster(old(state.State()), cluster, other)
          case Refused => r == Full
          case Placed(s, id) => r == Claimed(id) && state.State() == s
    {
      var cluster := BestCluster(word, turns, previous);
      if cluster.None? {
        return Unclaimed;
      }
      hide Sane, Best, Active, NameFor;
      var owner := FindByCluster(cluster.value);
      if owner.Some? {
        return Claimed(owner.value);
      }
      var ok := state.CreateSpeaker(other, cluster, None);
      r := if ok then Claimed(other) else Full;
    }

    method BestCluster(word: Word, turns: seq<Turn>, previous: Option<Id>) returns (best: Option<string>)
      ensures best == Best(state.State(), turns, word, previous).0
    {
      var most := 0;
      best := None;
      for i := 0 to |turns|
        invariant (best, most) == Best(state.State(), turns[..i], word, previous)
      {
        assert turns[..i + 1][..i] == turns[..i];
        var overlap := turns[i].interval.IntersectionMs(word.Interval());
        if overlap <= 0 {
          continue;
        }
        var owner := FindByCluster(turns[i].cluster);
        if overlap > most {
          most := overlap;
          best := Some(turns[i].cluster);
        } else if overlap == most && previous.Some? && owner == previous {
          best := Some(turns[i].cluster);
        }
      }
      assert turns[..|turns|] == turns;
    }

    method FallbackSpeaker(other: Id) returns (r: Option<Id>)
      requires Sane(state.State())
      modifies state
      ensures Sane(state.State())
      ensures match Fallback(old(state.State()), other)
        case Refused => r == None
        case Placed(s, id) => r == Some(id) && state.State() == s
    {
      var provisional := FindProvisional();
      hide Sane, UnknownMachine, FirstProvisional;
      if provisional.Some? {
        return provisional;
      }
      r := state.UnattributedSpeaker(other);
    }

    method FindProvisional() returns (r: Option<Id>)
      ensures r == FirstProvisional(state.order, state.speakers)
    {
      var k := 0;
      while k < |state.order|
        invariant 0 <= k <= |state.order|
        invariant FirstProvisional(state.order, state.speakers) == FirstProvisional(state.order[k..], state.speakers)
      {
        var id := state.order[k];
        assert state.order[k..][1..] == state.order[k + 1..];
        if id in state.speakers && state.speakers[id].mergedInto.None?
           && state.speakers[id].machine.state.PROVISIONAL? {
          return Some(id);
        }
        k := k + 1;
      }
      r := None;
    }

    /** The speaker of one word, before merges are resolved. */
    method OwnerOf(group: Group, word: Word, turns: seq<Turn>, previous: Option<Id>, other: Id) returns (r: Option<Id>)
      requires Sane(state.State())
      modifies state
      ensures Sane(state.State())
      ensures match PlaceWord(old(state.State()), group, word, turns, previous, other)
        case Refused => r == None
        case Placed(s, id) => r == Some(id) && state.State() == s && id in state.speakers
    {
      ghost var s := state.State();
      if PlaceWord(s, group, word, turns, previous, other).Placed? {
        PlaceWordGains(s, group, word, turns, previous, other);
      }
      hide Sane, Fallback, EnsureCluster, Best;
      if group.isOverlap || group.speaker.Some? {
        if group.speaker.None? {
          r := FallbackSpeaker(other);
        } else if group.speaker.value in state.speakers {
          r := group.speaker;
        } else {
          r := None;
        }
      } else {
        var owner := AttributeWord(word, turns, previous, other);
        match owner {
          case Unclaimed => r := FallbackSpeaker(other);
          case Claimed(id) => r := Some(id);
          case Full => r := None;
        }
      }
    }

    /** The speaker of one word, after merges are resolved. */
    method CanonicalOwner(group: Group, word: Word, turns: seq<Turn>, previous: Option<Id>, other: Id)
      returns (r: Option<Id>)
      requires Sane(state.State())
      modifies state
      ensures Sane(state.State())
      ensures match PlaceWord(old(state.State()), group, word, turns, previous, other)
        case Refused => r == None
        case Placed(s, id) => id in s.speakers && state.State() == s && r == Some(Get(state.State(), id))
    {
      hide Sane, PlaceWord, Get;
      r := OwnerOf(group, word, turns, previous, other);
      if r.Some? {
        var canonical := state.Find(r.value);
        r := Some(canonical);
      }
    }

    method CoalesceGroup(group: Group, turns: seq<Turn>, others: seq<Id>, g: nat, before: seq<Segment>)
      returns (ok: bool, segments: seq<Segment>)
      requires Sane(state.State()) && |others| >= |group.words|
      modifies state
      ensures Sane(state.State())
      ensures var a := AttributeAll(old(state.State()), group, SortWords(group.words), turns, others);
        && (ok <==> a.Done?)
        && (ok ==> state.State() == a.session && segments == before + Tag(Chunk(a.words, maxPause), g))
    {
      ghost var s := state.State();
      ghost var done: seq<Attributed> := [];
      var words := SortWords(group.words);
      AttributeNothing(s, group, turns, others);
      WrittenStart(before, g, maxPause);
      hide Sane, PlaceWord, SortWords, Chunk, AttributeAll, Gains, Get, Words, AddWord, Tag, Written;
      assert words[..0] == [];
      var previous: Option<Id> := None;
      var started := false;
      segments := before;
      for k := 0 to |words|
        invariant Sane(state.State())
        invariant AttributeAll(s, group, words[..k], turns, others) == Done(state.State(), done)
        invariant Written(segments, before, done, g, maxPause, started, previous)
      {
        assert previous == PreviousOf(done) by {
          WrittenPrevious(segments, before, done, g, maxPause, started, previous);
        }
        AttributeNext(s, group, words, turns, others, k);
        var canonical := CanonicalOwner(group, words[k], turns, previous, others[k]);
        if canonical.None? {
          AttributePrefix(s, group, words, turns, others, k + 1);
          return false, segments;
        }
        ghost var next := Attributed(words[k], canonical.value);
        WrittenNext(segments, before, done, g, maxPause, started, previous, next);
        segments := Extend(segments, started, words[k], canonical.value, g);
        started := true;
        previous := canonical;
        done := done + [next];
      }
      assert words[..|words|] == words;
      WrittenAll(segments, before, done, g, maxPause, started, previous);
      ok := true;
    }

    method Extend(segments: seq<Segment>, started: bool, word: Word, canonical: Id, g: nat) returns (r: seq<Segment>)
      requires started ==> segments != []
      ensures r == AddWord(segments, started, Attributed(word, canonical), g, maxPause)
    {
      if started {
        var current := segments[|segments| - 1].utterance;
        if current.speaker == canonical && current.words != [] && word.start - MaxEnd(current.words) <= maxPause
           && !EndsSentence(current.words[|current.words| - 1].text) {
          return segments[..|segments| - 1]
               + [segments[|segments| - 1].(utterance := current.(words := current.words + [word]))];
        }
      }
      r := segments + [Segment(Utterance(canonical, [word]), g)];
    }

    /** The segments of all groups, in order; fails only where a word has no possible speaker. */
    method Coalesce(groups: seq<Group>, turns: seq<Turn>, others: seq<seq<Id>>)
      returns (ok: bool, segments: seq<Segment>)
      requires Sane(state.State()) && Supplied(groups, others)
      modifies state
      ensures Sane(state.State())
      ensures var r := CoalesceAll(old(state.State()), groups, turns, others, maxPause);
        && (ok <==> r.Coalesced?)
        && (ok ==> state.State() == r.session && segments == TagAll(r.parts))
    {
      ghost var s := state.State();
      ghost var parts: seq<seq<Utterance>> := [];
      StartSession(s, groups, turns, others, maxPause);
      hide Sane, SortWords, Chunk, AttributeAll, CoalesceAll, Gains, Words, Tag;
      segments := [];
      assert groups[..0] == [] && others[..0] == [];
      for g := 0 to |groups|
        invariant Sane(state.State())
        invariant CoalesceAll(s, groups[..g], turns, others[..g], maxPause) == Coalesced(state.State(), parts)
        invariant |parts| == g && segments == TagAll(parts)
      {
        CoalesceNext(s, groups, turns, others, maxPause, g);
        ghost var a := AttributeAll(state.State(), groups[g], SortWords(groups[g].words), turns, others[g]);
        ok, segments := CoalesceGroup(groups[g], turns, others[g], g, segments);
        if !ok {
          CoalescePrefix(s, groups, turns, others, maxPause, g + 1);
          return;
        }
        TagSnoc(parts, Chunk(a.words, maxPause));
        parts := parts + [Chunk(a.words, maxPause)];
      }
      assert groups[..|groups|] == groups && others[..|groups|] == others;
      ok := true;
    }

    method CountSpoken(groups: seq<Group>) returns (spoken: nat)
      ensures spoken == |SpokenWords(groups)|
    {
      spoken := 0;
      assert groups[..0] == [];
      for g := 0 to |groups|
        invariant spoken == |SpokenWords(groups[..g])|
      {
        assert groups[..g + 1][..g] == groups[..g];
        spoken := spoken + |groups[g].words|;
      }
      assert groups[..|groups|] == groups;
    }

    method CountEmitted(segments: seq<Segment>) returns (emitted: nat)
      ensures emitted == |Emitted(segments)|
    {
      emitted := 0;
      assert segments[..0] == [];
      for i := 0 to |segments|
        invariant emitted == |Emitted(segments[..i])|
      {
        assert segments[..i + 1][..i] == segments[..i];
        emitted := emitted + |segments[i].utterance.words|;
      }
      assert segments[..|segments|] == segments;
    }

    /** Coalesce and check that no word was lost: the check never fires. */
    method Fuse(groups: seq<Group>, turns: seq<Turn>, others: seq<seq<Id>>) returns (r: FuseResult)
      requires Sane(state.State()) && Supplied(groups, others)
      modifies state
      ensures Sane(state.State())
      ensures r != LostWords
      ensures var c := CoalesceAll(old(state.State()), groups, turns, others, maxPause);
        if c.Raised? then r == NoSpeaker else state.State() == c.session && r == Fused(TagAll(c.parts))
    {
      ghost var s := state.State();
      CoalesceIsFaithful(s, groups, turns, others, maxPause);
      hide Sane, CoalesceAll, Faithful;
      var ok, segments := Coalesce(groups, turns, others);
      if !ok {
        return NoSpeaker;
      }
      WordsConserved(CoalesceAll(s, groups, turns, others, maxPause).parts, groups, maxPause);
      var spoken := CountSpoken(groups);
      var emitted := CountEmitted(segments);
      if emitted != spoken {
        return LostWords;
      }
      r := Fused(segments);
    }
  }

  lemma AttributeNothing(s: Session, group: Group, turns: seq<Turn>, others: seq<Id>)
    requires Sane(s)
    ensures AttributeAll(s, group, [], turns, others) == Done(s, [])
  {
  }

  lemma WrittenPrevious(segments: seq<Segment>, before: seq<Segment>, done: seq<Attributed>, g: nat, maxPause: int,
                        started: bool, previous: Option<Id>)
    requires Written(segments, before, done, g, maxPause, started, previous)
    ensures previous == PreviousOf(done)
  {
  }

  lemma WrittenAll(segments: seq<Segment>, before: seq<Segment>, done: seq<Attributed>, g: nat, maxPause: int,
                   started: bool, previous: Option<Id>)
    requires Written(segments, before, done, g, maxPause, started, previous)
    ensures segments == before + Tag(Chunk(done, maxPause), g)
  {
  }

  lemma StartSession(s: Session, groups: seq<Group>, turns: seq<Turn>, others: seq<seq<Id>>, maxPause: int)
    requires Sane(s) && Supplied(groups, others)
    ensures CoalesceAll(s, [], turns, [], maxPause) == Coalesced(s, []) && TagAll([]) == []
  {
  }

  lemma TagSnoc(parts: seq<seq<Utterance>>, part: seq<Utterance>)
    ensures TagAll(parts + [part]) == TagAll(parts) + Tag(part, |parts|)
  {
    assert (parts + [part])[..|parts|] == parts;
  }
}
