/** Fusion: every recognised word gets a speaker, and attributed words become transcript segments.

Fresh speaker identifiers are inputs: the `k`-th word of a group uses the `k`-th identifier supplied
for the group if, and only if, a speaker has to be created for it.
*/
module Fusion {
  import opened MergeForest
  import opened Options
  import opened SessionSafety
  import opened SessionState
  import opened Sorting
  import opened Speakers
  import opened Transcript
  import opened Utterances

  /** Words of one recognition call; `speaker` is set by source linking. */
  datatype Group = Group(words: seq<Word>, isOverlap: bool, speaker: Option<Id>)

  // ---- Attribution ------------------------------------------------------------------------

  predicate Owns(speakers: Roster, id: Id, cluster: string) {
    id in speakers && speakers[id].cluster == Some(cluster) && speakers[id].mergedInto.None?
  }

  /** The first active speaker of a cluster, in order of creation. */
  function ByCluster(order: seq<Id>, speakers: Roster, cluster: string): (r: Option<Id>)
    ensures r.Some? ==> Owns(speakers, r.value, cluster)
    ensures r.None? ==> forall id :: id in order ==> !Owns(speakers, id, cluster)
  {
    if order == [] then None
    else if Owns(speakers, order[0], cluster) then Some(order[0])
    else ByCluster(order[1..], speakers, cluster)
  }

  function Owner(s: Session, cluster: string): Option<Id> {
    ByCluster(s.order, s.speakers, cluster)
  }

  function Overlap(turn: Turn, word: Word): nat {
    turn.interval.IntersectionMs(word.Interval())
  }

  /** The cluster chosen so far and its overlap: a larger overlap wins, and the previous speaker's
  turn wins ties. */
  function Best(s: Session, turns: seq<Turn>, word: Word, previous: Option<Id>): (Option<string>, nat) {
    if turns == [] then (None, 0)
    else
      var (cluster, most) := Best(s, turns[..|turns| - 1], word, previous);
      var turn := turns[|turns| - 1];
      var overlap := Overlap(turn, word);
      if overlap == 0 then (cluster, most)
      else if overlap > most then (Some(turn.cluster), overlap)
      else if overlap == most && previous.Some? && Owner(s, turn.cluster) == previous then (Some(turn.cluster), most)
      else (cluster, most)
  }

  /** A turn of the previous speaker has the largest overlap. */
  ghost predicate PreviousTies(s: Session, turns: seq<Turn>, word: Word, previous: Option<Id>, most: nat) {
    previous.Some? &&
      exists i :: 0 <= i < |turns| && Overlap(turns[i], word) == most && Owner(s, turns[i].cluster) == previous
  }

  /** `i` is the first turn with the largest overlap. */
  ghost predicate FirstLargest(turns: seq<Turn>, word: Word, most: nat, i: int) {
    0 <= i < |turns| && Overlap(turns[i], word) == most && forall j :: 0 <= j < i ==> Overlap(turns[j], word) < most
  }

  ghost predicate Chosen(s: Session, turns: seq<Turn>, word: Word, previous: Option<Id>,
                           cluster: Option<string>, most: nat)
  {
    && (forall i :: 0 <= i < |turns| ==> Overlap(turns[i], word) <= most)
    && (cluster.None? <==> most == 0)
    && (cluster.Some? ==>
          if PreviousTies(s, turns, word, previous, most) then Owner(s, cluster.value) == previous
          else exists i :: FirstLargest(turns, word, most, i) && turns[i].cluster == cluster.value)
  }

  /** A turn with the largest intersection wins; among several, the previous speaker's if there is
  one and the first otherwise; nobody exactly when no turn intersects the word. */
  lemma {:induction false} BestIsChosen(s: Session, turns: seq<Turn>, word: Word, previous: Option<Id>)
    ensures Chosen(s, turns, word, previous, Best(s, turns, word, previous).0, Best(s, turns, word, previous).1)
  {
    if turns != [] {
      var init := turns[..|turns| - 1];
      BestIsChosen(s, init, word, previous);
      var (cluster, most) := Best(s, init, word, previous);
      ChosenNext(s, init, turns[|turns| - 1], word, previous, cluster, most);
      assert init + [turns[|turns| - 1]] == turns;
    }
  }

  lemma ChosenNext(s: Session, turns: seq<Turn>, turn: Turn, word: Word, previous: Option<Id>,
                   cluster: Option<string>, most: nat)
    requires Chosen(s, turns, word, previous, cluster, most)
    ensures var overlap := Overlap(turn, word);
      if overlap == 0 then Chosen(s, turns + [turn], word, previous, cluster, most)
      else if overlap > most then Chosen(s, turns + [turn], word, previous, Some(turn.cluster), overlap)
      else if overlap == most && previous.Some? && Owner(s, turn.cluster) == previous then
        Chosen(s, turns + [turn], word, previous, Some(turn.cluster), most)
      else Chosen(s, turns + [turn], word, previous, cluster, most)
  {
    hide Owner, Overlap;
    var all, overlap := turns + [turn], Overlap(turn, word);
    assert forall i :: 0 <= i < |turns| ==> all[i] == turns[i];
    assert all[|turns|] == turn;
    if overlap > most {
      assert FirstLargest(all, word, overlap, |turns|);
    } else if cluster.Some? && (overlap < most || previous.None? || Owner(s, turn.cluster) != previous) {
      SameTies(s, turns, turn, word, previous, most);
      if !PreviousTies(s, turns, word, previous, most) {
        var i :| FirstLargest(turns, word, most, i) && turns[i].cluster == cluster.value;
        assert FirstLargest(all, word, most, i);
      }
    }
  }

  lemma SameTies(s: Session, turns: seq<Turn>, turn: Turn, word: Word, previous: Option<Id>, most: nat)
    requires Overlap(turn, word) != most || previous.None? || Owner(s, turn.cluster) != previous
    ensures PreviousTies(s, turns + [turn], word, previous, most) <==> PreviousTies(s, turns, word, previous, most)
  {
    hide Owner, Overlap;
    var all := turns + [turn];
    assert forall i :: 0 <= i < |turns| ==> all[i] == turns[i];
  }

  function FirstProvisional(order: seq<Id>, speakers: Roster): (r: Option<Id>)
    ensures r.Some? ==> r.value in speakers
  {
    if order == [] then None
    else if order[0] in speakers && speakers[order[0]].mergedInto.None? && speakers[order[0]].machine.state.PROVISIONAL?
    then Some(order[0])
    else FirstProvisional(order[1..], speakers)
  }

  datatype Placing = Refused | Placed(session: Session, id: Id)

  /** The speaker of a cluster, created if there is none. */
  function EnsureCluster(s: Session, cluster: string, other: Id): Placing {
    match Owner(s, cluster)
    case Some(id) => Placed(s, id)
    case None =>
      if |ActiveIds(s)| >= s.cap || other in s.speakers then Refused
      else Placed(DoCreate(s, other, Some(cluster), None), other)
  }

  /** Where words go that no turn claims: the first provisional speaker, or the sink. */
  function Fallback(s: Session, other: Id): Placing {
    var provisional := FirstProvisional(s.order, s.speakers);
    if provisional.Some? then Placed(s, provisional.value)
    else if s.sink.Some? then Placed(s, s.sink.value)
    else if other in s.speakers then Refused
    else Placed(DoUnattributed(s, other), other)
  }

  function PlaceWord(s: Session, group: Group, word: Word, turns: seq<Turn>, previous: Option<Id>, other: Id): Placing {
    if group.isOverlap || group.speaker.Some? then
      if group.speaker.None? then Fallback(s, other)
      else if group.speaker.value in s.speakers then Placed(s, group.speaker.value)
      else Refused
    else
      match Best(s, turns, word, previous).0
      case None => Fallback(s, other)
      case Some(cluster) => EnsureCluster(s, cluster, other)
  }

  /** The state only gains speakers, and the known ones keep their links. */
  ghost predicate Gains(s: Session, s': Session) {
    && (forall id :: id in s.speakers ==> id in s'.speakers && s'.speakers[id] == s.speakers[id])
    && s'.cap == s.cap && s.order <= s'.order && (s.sink.Some? ==> s'.sink == s.sink)
  }

  lemma GainsTransitive(a: Session, b: Session, c: Session)
    requires Gains(a, b) && Gains(b, c)
    ensures Gains(a, c)
  {
  }

  lemma CreateGains(s: Session, cluster: string, other: Id)
    requires Sane(s) && |ActiveIds(s)| < s.cap && other !in s.speakers
    ensures var s' := DoCreate(s, other, Some(cluster), None);
      Sane(s') && other in s'.speakers && Gains(s, s')
  {
    CreateSane(s, other, Some(cluster), None);
    hide Sane, ActiveIds, NameFor;
  }

  lemma EnsureGains(s: Session, cluster: string, other: Id)
    requires Sane(s) && EnsureCluster(s, cluster, other).Placed?
    ensures var p := EnsureCluster(s, cluster, other);
      Sane(p.session) && p.id in p.session.speakers && Gains(s, p.session)
  {
    hide Sane, ActiveIds, ByCluster, DoCreate;
    if Owner(s, cluster).None? {
      CreateGains(s, cluster, other);
    }
  }

  lemma UnattributedGains(s: Session, other: Id)
    requires Sane(s) && s.sink.None? && other !in s.speakers
    ensures var s' := DoUnattributed(s, other);
      Sane(s') && other in s'.speakers && Gains(s, s')
  {
    UnattributedSane(s, other);
    hide Sane, UnknownMachine;
  }

  lemma FallbackGains(s: Session, other: Id)
    requires Sane(s) && Fallback(s, other).Placed?
    ensures var p := Fallback(s, other);
      Sane(p.session) && p.id in p.session.speakers && Gains(s, p.session)
  {
    SaneParts(s);
    assert s.sink.Some? ==> s.sink.value in s.speakers;
    hide Sane, FirstProvisional, DoUnattributed, Listed;
    if s.sink.None? && other !in s.speakers {
      UnattributedGains(s, other);
    }
  }

  lemma PlaceWordGains(s: Session, group: Group, word: Word, turns: seq<Turn>, previous: Option<Id>, other: Id)
    requires Sane(s) && PlaceWord(s, group, word, turns, previous, other).Placed?
    ensures var p := PlaceWord(s, group, word, turns, previous, other);
      Sane(p.session) && p.id in p.session.speakers && Gains(s, p.session)
  {
    hide Sane, Fallback, EnsureCluster, Best;
    if Fallback(s, other).Placed? {
      FallbackGains(s, other);
    }
    var cluster := Best(s, turns, word, previous).0;
    if cluster.Some? && EnsureCluster(s, cluster.value, other).Placed? {
      EnsureGains(s, cluster.value, other);
    }
  }

  // ---- The words of one group -------------------------------------------------------------

  datatype Attribution = Failed | Done(session: Session, words: seq<Attributed>)

  function PreviousOf(words: seq<Attributed>): Option<Id> {
    if words == [] then None else Some(words[|words| - 1].speaker)
  }

  /** Attribute the words in order, each to a canonical speaker; fails where the source raises. */
  ghost function AttributeAll(s: Session, group: Group, words: seq<Word>, turns: seq<Turn>, others: seq<Id>)
    : (r: Attribution)
    requires Sane(s) && |others| >= |words|
    ensures r.Done? ==> Sane(r.session) && Gains(s, r.session)
    ensures r.Done? ==> Words(r.words) == words
    decreases |words|
  {
    if words == [] then Done(s, [])
    else
      var k := |words| - 1;
      var before := AttributeAll(s, group, words[..k], turns, others);
      if before.Failed? then Failed
      else
        var p := PlaceWord(before.session, group, words[k], turns, PreviousOf(before.words), others[k]);
        if p.Refused? then Failed
        else
          PlaceWordGains(before.session, group, words[k], turns, PreviousOf(before.words), others[k]);
          GainsTransitive(s, before.session, p.session);
          WordsSnoc(before.words, Attributed(words[k], Get(p.session, p.id)), words);
          Done(p.session, before.words + [Attributed(words[k], Get(p.session, p.id))])
  }

  lemma WordsSnoc(done: seq<Attributed>, next: Attributed, words: seq<Word>)
    requires words != [] && Words(done) == words[..|words| - 1] && next.word == words[|words| - 1]
    ensures Words(done + [next]) == words
  {
    assert Words(done + [next]) == Words(done) + [next.word];
    assert words == words[..|words| - 1] + [words[|words| - 1]];
  }

  // ---- Whole sessions ---------------------------------------------------------------------

  /** The utterances of every group, group by group. */
  datatype Coalescing = Raised | Coalesced(session: Session, parts: seq<seq<Utterance>>)

  ghost predicate Supplied(groups: seq<Group>, others: seq<seq<Id>>) {
    |others| == |groups| && forall g :: 0 <= g < |groups| ==> |others[g]| >= |groups[g].words|
  }

  ghost function CoalesceAll(s: Session, groups: seq<Group>, turns: seq<Turn>, others: seq<seq<Id>>, maxPause: int)
    : (r: Coalescing)
    requires Sane(s) && Supplied(groups, others)
    ensures r.Coalesced? ==> Sane(r.session) && Gains(s, r.session) && |r.parts| == |groups|
    decreases |groups|
  {
    if groups == [] then Coalesced(s, [])
    else
      var k := |groups| - 1;
      var before := CoalesceAll(s, groups[..k], turns, others[..k], maxPause);
      if before.Raised? then Raised
      else
        var a := AttributeAll(before.session, groups[k], SortWords(groups[k].words), turns, others[k]);
        if a.Failed? then Raised
        else
          GainsTransitive(s, before.session, a.session);
          Coalesced(a.session, before.parts + [Chunk(a.words, maxPause)])
  }

  /** Every group's utterances concatenate to its words in time order, words with equal times in the
  order given; none could have been joined with its neighbour, and the break points are forced. */
  ghost predicate Faithful(parts: seq<seq<Utterance>>, groups: seq<Group>, maxPause: int) {
    && |parts| == |groups|
    && forall g :: 0 <= g < |groups| ==>
         && AllWords(parts[g]) == SortWords(groups[g].words)
         && SortedBy(AllWords(parts[g]), Earlier)
         && Shaped(parts[g], maxPause)
  }

  ghost function BeforeLast(s: Session, groups: seq<Group>, turns: seq<Turn>, others: seq<seq<Id>>, maxPause: int)
    : (r: Coalescing)
    requires Sane(s) && Supplied(groups, others) && groups != []
    ensures r.Coalesced? ==> Sane(r.session)
  {
    CoalesceAll(s, groups[..|groups| - 1], turns, others[..|groups| - 1], maxPause)
  }

  ghost function LastGroup(s: Session, groups: seq<Group>, turns: seq<Turn>, others: seq<seq<Id>>): Attribution
    requires Sane(s) && Supplied(groups, others) && groups != []
  {
    var k := |groups| - 1;
    AttributeAll(s, groups[k], SortWords(groups[k].words), turns, others[k])
  }

  lemma CoalesceStep(s: Session, groups: seq<Group>, turns: seq<Turn>, others: seq<seq<Id>>, maxPause: int)
    requires Sane(s) && Supplied(groups, others) && groups != []
    requires CoalesceAll(s, groups, turns, others, maxPause).Coalesced?
    ensures var before := BeforeLast(s, groups, turns, others, maxPause);
      before.Coalesced?
      && var a := LastGroup(before.session, groups, turns, others);
      a.Done? && Gains(before.session, a.session) && Words(a.words) == SortWords(groups[|groups| - 1].words)
      && CoalesceAll(s, groups, turns, others, maxPause)
      == Coalesced(a.session, before.parts + [Chunk(a.words, maxPause)])
  {
    hide Sane, AttributeAll, SortWords, Gains, Chunk, Words;
  }

  lemma {:induction false} CoalesceIsFaithful(s: Session, groups: seq<Group>, turns: seq<Turn>, others: seq<seq<Id>>,
                                              maxPause: int)
    requires Sane(s) && Supplied(groups, others)
    ensures var r := CoalesceAll(s, groups, turns, others, maxPause);
      r.Coalesced? ==> Faithful(r.parts, groups, maxPause)
    decreases |groups|
  {
    hide *;
    if groups == [] {
      NothingFaithful(s, turns, others, maxPause);
    } else if CoalesceAll(s, groups, turns, others, maxPause).Coalesced? {
      var k := |groups| - 1;
      var before := BeforeLast(s, groups, turns, others, maxPause);
      CoalesceStep(s, groups, turns, others, maxPause);
      BeforeIs(s, groups, turns, others, maxPause);
      CoalesceIsFaithful(s, groups[..k], turns, others[..k], maxPause);
      var a := LastGroup(before.session, groups, turns, others);
      PartFaithful(a.words, maxPause);
      FaithfulSnoc(before.parts, groups[..k], Chunk(a.words, maxPause), groups[k], maxPause);
      assert groups[..k] + [groups[k]] == groups;
    }
  }

  lemma NothingFaithful(s: Session, turns: seq<Turn>, others: seq<seq<Id>>, maxPause: int)
    requires Sane(s) && Supplied([], others)
    ensures CoalesceAll(s, [], turns, others, maxPause) == Coalesced(s, []) && Faithful([], [], maxPause)
  {
    hide Sane;
  }

  lemma BeforeIs(s: Session, groups: seq<Group>, turns: seq<Turn>, others: seq<seq<Id>>, maxPause: int)
    requires Sane(s) && Supplied(groups, others) && groups != []
    ensures var k := |groups| - 1;
      && |others| == |groups| && Supplied(groups[..k], others[..k])
      && BeforeLast(s, groups, turns, others, maxPause) == CoalesceAll(s, groups[..k], turns, others[..k], maxPause)
  {
    hide Sane, CoalesceAll;
  }

  lemma PartFaithful(ws: seq<Attributed>, maxPause: int)
    ensures AllWords(Chunk(ws, maxPause)) == Words(ws) && Shaped(Chunk(ws, maxPause), maxPause)
  {
    ChunkKeepsWords(ws, maxPause);
    ChunkLegal(ws, maxPause);
  }

  lemma FaithfulSnoc(parts: seq<seq<Utterance>>, groups: seq<Group>, part: seq<Utterance>, group: Group, maxPause: int)
    requires Faithful(parts, groups, maxPause) && AllWords(part) == SortWords(group.words) && Shaped(part, maxPause)
    ensures Faithful(parts + [part], groups + [group], maxPause)
  {
    SortWordsOrdered(group.words);
    hide AllWords, SortWords, Shaped, SortedBy;
  }

  // ---- Segments ---------------------------------------------------------------------------

  datatype Segment = Segment(utterance: Utterance, group: nat)

  function Tag(us: seq<Utterance>, g: nat): seq<Segment> {
    seq(|us|, i requires 0 <= i < |us| => Segment(us[i], g))
  }

  function TagAll(parts: seq<seq<Utterance>>): seq<Segment> {
    if parts == [] then [] else TagAll(parts[..|parts| - 1]) + Tag(parts[|parts| - 1], |parts| - 1)
  }

  function Emitted(segments: seq<Segment>): seq<Word> {
    if segments == [] then [] else Emitted(segments[..|segments| - 1]) + segments[|segments| - 1].utterance.words
  }

  function SpokenWords(groups: seq<Group>): seq<Word> {
    if groups == [] then [] else SpokenWords(groups[..|groups| - 1]) + groups[|groups| - 1].words
  }

  lemma {:induction false} EmittedConcat(a: seq<Segment>, b: seq<Segment>)
    ensures Emitted(a + b) == Emitted(a) + Emitted(b)
  {
    if b == [] {
      assert a + b == a;
    } else {
      var all := a + b;
      assert all[..|all| - 1] == a + b[..|b| - 1];
      EmittedConcat(a, b[..|b| - 1]);
    }
  }

  lemma {:induction false} EmittedTag(us: seq<Utterance>, g: nat)
    ensures Emitted(Tag(us, g)) == AllWords(us)
  {
    if us != [] {
      var t := Tag(us, g);
      assert t[..|t| - 1] == Tag(us[..|us| - 1], g);
      EmittedTag(us[..|us| - 1], g);
    }
  }

  /** Words are conserved, whatever they are and however often they occur. */
  lemma {:induction false} WordsConserved(parts: seq<seq<Utterance>>, groups: seq<Group>, maxPause: int)
    requires Faithful(parts, groups, maxPause)
    ensures multiset(Emitted(TagAll(parts))) == multiset(SpokenWords(groups))
    ensures |Emitted(TagAll(parts))| == |SpokenWords(groups)|
    decreases |groups|
  {
    if groups != [] {
      var k := |groups| - 1;
      WordsConserved(parts[..k], groups[..k], maxPause);
      EmittedConcat(TagAll(parts[..k]), Tag(parts[k], k));
      EmittedTag(parts[k], k);
      hide Emitted, AllWords, Shaped, Tag;
      assert |SortWords(groups[k].words)| == |groups[k].words|;
    }
  }

  // ---- Who speaks -------------------------------------------------------------------------

  ghost predicate AllActive(s: Session, ws: seq<Attributed>) {
    forall i :: 0 <= i < |ws| ==> IsActive(s.speakers, ws[i].speaker)
  }

  lemma ActiveGains(s: Session, s': Session, ws: seq<Attributed>)
    requires AllActive(s, ws) && Gains(s, s')
    ensures AllActive(s', ws)
  {
  }

  lemma {:induction false} AttributedActive(s: Session, group: Group, words: seq<Word>, turns: seq<Turn>,
                                           others: seq<Id>)
    requires Sane(s) && |others| >= |words|
    ensures var r := AttributeAll(s, group, words, turns, others); r.Done? ==> AllActive(r.session, r.words)
    decreases |words|
  {
    if words != [] {
      var k := |words| - 1;
      AttributedActive(s, group, words[..k], turns, others);
      var before := AttributeAll(s, group, words[..k], turns, others);
      if before.Done? {
        var p := PlaceWord(before.session, group, words[k], turns, PreviousOf(before.words), others[k]);
        if p.Placed? {
          PlaceWordGains(before.session, group, words[k], turns, PreviousOf(before.words), others[k]);
          hide Sane, PlaceWord, Gains, AllActive;
          ActiveGains(before.session, p.session, before.words);
          ActiveSnoc(p.session, before.words, Attributed(words[k], Get(p.session, p.id)));
        }
      }
    }
  }

  lemma ActiveSnoc(s: Session, ws: seq<Attributed>, next: Attributed)
    requires AllActive(s, ws) && IsActive(s.speakers, next.speaker)
    ensures AllActive(s, ws + [next])
  {
  }

  ghost predicate SpeakersActive(s: Session, us: seq<Utterance>) {
    forall i :: 0 <= i < |us| ==> IsActive(s.speakers, us[i].speaker)
  }

  lemma {:induction false} ChunkActive(s: Session, ws: seq<Attributed>, maxPause: int)
    requires AllActive(s, ws)
    ensures SpeakersActive(s, Chunk(ws, maxPause))
  {
    hide *;
    if ws == [] {
      NobodySpeaks(s, maxPause);
    } else {
      var init, last := ws[..|ws| - 1], ws[|ws| - 1];
      ActiveInit(s, ws);
      ChunkActive(s, init, maxPause);
      ChunkLast(ws, maxPause);
      PlaceActive(s, Chunk(init, maxPause), last, maxPause);
    }
  }

  lemma NobodySpeaks(s: Session, maxPause: int)
    ensures SpeakersActive(s, Chunk([], maxPause))
  {
  }

  lemma ActiveInit(s: Session, ws: seq<Attributed>)
    requires AllActive(s, ws) && ws != []
    ensures AllActive(s, ws[..|ws| - 1]) && IsActive(s.speakers, ws[|ws| - 1].speaker)
  {
  }

  lemma ChunkLast(ws: seq<Attributed>, maxPause: int)
    requires ws != []
    ensures Chunk(ws, maxPause) == Place(Chunk(ws[..|ws| - 1], maxPause), ws[|ws| - 1], maxPause)
  {
    hide Place;
  }

  lemma PlaceActive(s: Session, us: seq<Utterance>, next: Attributed, maxPause: int)
    requires SpeakersActive(s, us) && IsActive(s.speakers, next.speaker)
    ensures SpeakersActive(s, Place(us, next, maxPause))
  {
    hide Continues, IsActive;
  }

  ghost predicate PartsActive(s: Session, parts: seq<seq<Utterance>>) {
    forall g :: 0 <= g < |parts| ==> SpeakersActive(s, parts[g])
  }

  lemma PartsSnoc(s: Session, s': Session, parts: seq<seq<Utterance>>, part: seq<Utterance>)
    requires PartsActive(s, parts) && Gains(s, s') && SpeakersActive(s', part)
    ensures PartsActive(s', parts + [part])
  {
    hide SpeakersActive, Gains;
    forall g | 0 <= g < |parts|
      ensures SpeakersActive(s', parts[g])
    {
      SpeakersGain(s, s', parts[g]);
    }
  }

  /** Every segment names a speaker that is active at the end: nobody's words are shown under an
  identity that was merged away. */
  lemma {:induction false} SegmentsNameActive(s: Session, groups: seq<Group>, turns: seq<Turn>, others: seq<seq<Id>>,
                                              maxPause: int)
    requires Sane(s) && Supplied(groups, others)
    ensures var r := CoalesceAll(s, groups, turns, others, maxPause); r.Coalesced? ==> PartsActive(r.session, r.parts)
    decreases |groups|
  {
    if groups != [] && CoalesceAll(s, groups, turns, others, maxPause).Coalesced? {
      var k := |groups| - 1;
      var before := BeforeLast(s, groups, turns, others, maxPause);
      CoalesceStep(s, groups, turns, others, maxPause);
      SegmentsNameActive(s, groups[..k], turns, others[..k], maxPause);
      AttributedActive(before.session, groups[k], SortWords(groups[k].words), turns, others[k]);
      var a := LastGroup(before.session, groups, turns, others);
      hide *;
      ChunkActive(a.session, a.words, maxPause);
      PartsSnoc(before.session, a.session, before.parts, Chunk(a.words, maxPause));
    }
  }

  lemma SpeakersGain(s: Session, s': Session, us: seq<Utterance>)
    requires SpeakersActive(s, us) && Gains(s, s')
    ensures SpeakersActive(s', us)
  {
  }
}
