/** Who says each word after fusion.

The statement is on the finished utterances and the final session: linked groups go to their speaker,
claimed words to the speaker of a cluster the turns allow, and everything else to the first provisional
speaker or the sink.
*/
module FusionAttribution {
  import opened Fusion
  import opened MergeForest
  import opened Options
  import opened SessionSafety
  import opened SessionState
  import opened Speakers
  import opened Transcript
  import opened Utterances

  // ---- First in the order -----------------------------------------------------------------

  /** The first active speaker of the cluster, in order of creation. */
  ghost predicate FirstOwner(s: Session, cluster: string, id: Id) {
    exists m :: 0 <= m < |s.order| && s.order[m] == id && Owns(s.speakers, id, cluster)
      && forall n :: 0 <= n < m ==> !Owns(s.speakers, s.order[n], cluster)
  }

  predicate Waiting(speakers: Roster, id: Id) {
    IsActive(speakers, id) && speakers[id].machine.state.PROVISIONAL?
  }

  ghost predicate NobodyWaits(s: Session) {
    forall id :: id in s.order ==> !Waiting(s.speakers, id)
  }

  ghost predicate FirstWaiting(s: Session, id: Id) {
    exists m :: 0 <= m < |s.order| && s.order[m] == id && Waiting(s.speakers, id)
      && forall n :: 0 <= n < m ==> !Waiting(s.speakers, s.order[n])
  }

  lemma {:induction false} ByClusterIsFirst(order: seq<Id>, speakers: Roster, cluster: string) returns (m: nat)
    requires ByCluster(order, speakers, cluster).Some?
    ensures m < |order| && order[m] == ByCluster(order, speakers, cluster).value && Owns(speakers, order[m], cluster)
    ensures forall n :: 0 <= n < m ==> !Owns(speakers, order[n], cluster)
  {
    m := 0;
    if !Owns(speakers, order[0], cluster) {
      var k := ByClusterIsFirst(order[1..], speakers, cluster);
      m := k + 1;
      assert forall n :: 0 < n < m ==> order[n] == order[1..][n - 1];
    }
  }

  lemma OwnerIsFirst(s: Session, cluster: string, id: Id)
    ensures Owner(s, cluster) == Some(id) <==> FirstOwner(s, cluster, id)
  {
    if Owner(s, cluster).Some? {
      var m := ByClusterIsFirst(s.order, s.speakers, cluster);
      hide Owns;
      if FirstOwner(s, cluster, id) {
        var k :| 0 <= k < |s.order| && s.order[k] == id && Owns(s.speakers, id, cluster)
          && forall n :: 0 <= n < k ==> !Owns(s.speakers, s.order[n], cluster);
        assert k == m;
      }
    } else {
      assert forall n :: 0 <= n < |s.order| ==> s.order[n] in s.order;
    }
  }

  lemma {:induction false} FirstProvisionalIs(order: seq<Id>, speakers: Roster)
    ensures FirstProvisional(order, speakers).None? <==> forall id :: id in order ==> !Waiting(speakers, id)
    ensures FirstProvisional(order, speakers).Some? ==>
      exists m :: 0 <= m < |order| && order[m] == FirstProvisional(order, speakers).value && Waiting(speakers, order[m])
        && forall n :: 0 <= n < m ==> !Waiting(speakers, order[n])
  {
    if order != [] {
      FirstProvisionalIs(order[1..], speakers);
      assert order == [order[0]] + order[1..];
      if Waiting(speakers, order[0]) {
        assert order[0] in order;
      } else if FirstProvisional(order, speakers).Some? {
        var k :| 0 <= k < |order[1..]| && order[1..][k] == FirstProvisional(order[1..], speakers).value
          && Waiting(speakers, order[1..][k]) && forall n :: 0 <= n < k ==> !Waiting(speakers, order[1..][n]);
        assert order[k + 1] == order[1..][k];
        assert forall n :: 0 < n < k + 1 ==> order[n] == order[1..][n - 1];
      }
    }
  }

  // ---- Where a word belongs ---------------------------------------------------------------

  /** For words nobody claims. */
  ghost predicate Default(s: Session, speaker: Id)
    requires Sane(s)
  {
    if NobodyWaits(s) then s.sink.Some? && speaker == Get(s, s.sink.value) else FirstWaiting(s, speaker)
  }

  ghost predicate Unclaimed(turns: seq<Turn>, word: Word) {
    forall i :: 0 <= i < |turns| ==> Overlap(turns[i], word) == 0
  }

  /** Some cluster with the largest overlap, by the rule for ties, is the speaker's. */
  ghost predicate OfClaimingCluster(s: Session, turns: seq<Turn>, word: Word, previous: Option<Id>, speaker: Id) {
    exists cluster: string, most: nat ::
      Chosen(s, turns, word, previous, Some(cluster), most) && FirstOwner(s, cluster, speaker)
  }

  ghost predicate BelongsTo(s: Session, group: Group, turns: seq<Turn>, word: Word, previous: Option<Id>, speaker: Id)
    requires Sane(s)
  {
    if group.speaker.Some? then group.speaker.value in s.speakers && speaker == Get(s, group.speaker.value)
    else if group.isOverlap || Unclaimed(turns, word) then Default(s, speaker)
    else OfClaimingCluster(s, turns, word, previous, speaker)
  }

  ghost predicate AllBelong(s: Session, group: Group, turns: seq<Turn>, ws: seq<Attributed>)
    requires Sane(s)
  {
    forall i :: 0 <= i < |ws| ==> BelongsTo(s, group, turns, ws[i].word, PreviousOf(ws[..i]), ws[i].speaker)
  }

  // ---- Sessions that only gain speakers ---------------------------------------------------

  /** Nobody new is provisional. */
  ghost predicate Extends(s: Session, s': Session) {
    && Gains(s, s')
    && forall k :: |s.order| <= k < |s'.order| ==>
         s'.order[k] !in s.speakers && s'.order[k] in s'.speakers && !Waiting(s'.speakers, s'.order[k])
  }

  lemma ExtendsSelf(s: Session)
    ensures Extends(s, s)
  {
  }

  lemma ExtendsOn(a: Session, b: Session, c: Session)
    requires Extends(a, b) && Extends(b, c)
    ensures Extends(a, c)
  {
    GainsTransitive(a, b, c);
    forall k | |a.order| <= k < |c.order|
      ensures c.order[k] !in a.speakers && c.order[k] in c.speakers && !Waiting(c.speakers, c.order[k])
    {
      if k < |b.order| {
        assert c.order[k] == b.order[k];
        StillNotWaiting(b, c, b.order[k]);
      }
    }
  }

  lemma StillNotWaiting(b: Session, c: Session, id: Id)
    requires Gains(b, c) && !Waiting(b.speakers, id) && (id in b.speakers || !Waiting(c.speakers, id))
    ensures !Waiting(c.speakers, id)
  {
  }

  lemma {:induction false} RootSame(l: Links, l': Links, x: Id)
    requires Forest(l) && Forest(l') && x in l && forall id :: id in l ==> id in l' && l'[id] == l[id]
    ensures Root(l', x) == Root(l, x)
    decreases RankOf(l)[x]
  {
    if l[x].Some? {
      RootSame(l, l', l[x].value);
    }
  }

  lemma GainsKeepGet(s: Session, s': Session, id: Id)
    requires Sane(s) && Sane(s') && Gains(s, s') && id in s.speakers
    ensures id in s'.speakers && Get(s', id) == Get(s, id)
  {
    RootSame(LinksOf(s.speakers), LinksOf(s'.speakers), id);
  }

  lemma FirstOwnerStays(s: Session, s': Session, cluster: string, id: Id)
    requires Sane(s) && Extends(s, s') && FirstOwner(s, cluster, id)
    ensures FirstOwner(s', cluster, id)
  {
    hide LinksOf, Forest;
    var m :| 0 <= m < |s.order| && s.order[m] == id && Owns(s.speakers, id, cluster)
      && forall n :: 0 <= n < m ==> !Owns(s.speakers, s.order[n], cluster);
    assert s'.order[m] == id;
    forall n | 0 <= n < m
      ensures !Owns(s'.speakers, s'.order[n], cluster)
    {
      assert s'.order[n] == s.order[n] && s.order[n] in s.order;
    }
  }

  /** Whether a known speaker owns a cluster does not change. */
  lemma KnownOwner(s: Session, s': Session, cluster: string, id: Id)
    requires Sane(s) && Extends(s, s') && id in s.speakers
    ensures Owner(s', cluster) == Some(id) <==> Owner(s, cluster) == Some(id)
  {
    OwnerIsFirst(s, cluster, id);
    OwnerIsFirst(s', cluster, id);
    if FirstOwner(s, cluster, id) {
      FirstOwnerStays(s, s', cluster, id);
    }
    if FirstOwner(s', cluster, id) {
      KnownFirst(s, s', cluster, id);
    }
  }

  lemma KnownFirst(s: Session, s': Session, cluster: string, id: Id)
    requires Sane(s) && Extends(s, s') && id in s.speakers && FirstOwner(s', cluster, id)
    ensures FirstOwner(s, cluster, id)
  {
    hide LinksOf, Forest;
    var m :| 0 <= m < |s'.order| && s'.order[m] == id && Owns(s'.speakers, id, cluster)
      && forall n :: 0 <= n < m ==> !Owns(s'.speakers, s'.order[n], cluster);
    assert m < |s.order|;
    assert s.order[m] == id;
    forall n | 0 <= n < m
      ensures !Owns(s.speakers, s.order[n], cluster)
    {
      assert s'.order[n] == s.order[n] && s.order[n] in s.order;
    }
  }

  lemma ChosenStays(s: Session, s': Session, turns: seq<Turn>, word: Word, previous: Option<Id>,
                    cluster: Option<string>, most: nat)
    requires Sane(s) && Extends(s, s') && (previous.Some? ==> previous.value in s.speakers)
    requires Chosen(s, turns, word, previous, cluster, most)
    ensures Chosen(s', turns, word, previous, cluster, most)
  {
    hide Sane, Extends, Owner, Overlap;
    if previous.Some? {
      forall c: string
        ensures Owner(s', c) == previous <==> Owner(s, c) == previous
      {
        KnownOwner(s, s', c, previous.value);
      }
    }
  }

  lemma FirstWaitingStays(s: Session, s': Session, id: Id)
    requires Sane(s) && Extends(s, s') && FirstWaiting(s, id)
    ensures FirstWaiting(s', id) && !NobodyWaits(s')
  {
    hide LinksOf, Forest;
    var m :| 0 <= m < |s.order| && s.order[m] == id && Waiting(s.speakers, id)
      && forall n :: 0 <= n < m ==> !Waiting(s.speakers, s.order[n]);
    assert s'.order[m] == id && id in s'.order;
    forall n | 0 <= n < m
      ensures !Waiting(s'.speakers, s'.order[n])
    {
      assert s'.order[n] == s.order[n] && s.order[n] in s.order;
    }
  }

  lemma NobodyStays(s: Session, s': Session)
    requires Sane(s) && Extends(s, s') && NobodyWaits(s)
    ensures NobodyWaits(s')
  {
    hide LinksOf, Forest;
    forall id | id in s'.order
      ensures !Waiting(s'.speakers, id)
    {
      var k :| 0 <= k < |s'.order| && s'.order[k] == id;
      if k < |s.order| {
        assert s.order[k] == id && id in s.order;
      }
    }
  }

  lemma DefaultStays(s: Session, s': Session, speaker: Id)
    requires Sane(s) && Sane(s') && Extends(s, s') && Default(s, speaker)
    ensures Default(s', speaker)
  {
    if NobodyWaits(s) {
      NobodyStays(s, s');
      SinkKnown(s);
      GainsKeepGet(s, s', s.sink.value);
    } else {
      FirstWaitingStays(s, s', speaker);
    }
    hide Sane, NobodyWaits, FirstWaiting, Get;
  }

  lemma SinkKnown(s: Session)
    requires Sane(s)
    ensures s.sink.Some? ==> s.sink.value in s.speakers
  {
  }

  lemma BelongsStays(s: Session, s': Session, group: Group, turns: seq<Turn>, word: Word, previous: Option<Id>,
                     speaker: Id)
    requires Sane(s) && Sane(s') && Extends(s, s') && (previous.Some? ==> previous.value in s.speakers)
    requires BelongsTo(s, group, turns, word, previous, speaker)
    ensures BelongsTo(s', group, turns, word, previous, speaker)
  {
    hide Sane, Get, Default, Chosen, FirstOwner, Unclaimed;
    if group.speaker.Some? {
      GainsKeepGet(s, s', group.speaker.value);
    } else if group.isOverlap || Unclaimed(turns, word) {
      DefaultStays(s, s', speaker);
    } else {
      var cluster: string, most: nat :|
        Chosen(s, turns, word, previous, Some(cluster), most) && FirstOwner(s, cluster, speaker);
      ChosenStays(s, s', turns, word, previous, Some(cluster), most);
      FirstOwnerStays(s, s', cluster, speaker);
    }
  }

  lemma AllBelongStays(s: Session, s': Session, group: Group, turns: seq<Turn>, ws: seq<Attributed>)
    requires Sane(s) && Sane(s') && Extends(s, s') && AllActive(s, ws) && AllBelong(s, group, turns, ws)
    ensures AllBelong(s', group, turns, ws)
  {
    hide Sane, Extends, BelongsTo;
    forall i | 0 <= i < |ws|
      ensures BelongsTo(s', group, turns, ws[i].word, PreviousOf(ws[..i]), ws[i].speaker)
    {
      PreviousKnown(s, ws, i);
      BelongsStays(s, s', group, turns, ws[i].word, PreviousOf(ws[..i]), ws[i].speaker);
    }
  }

  lemma PreviousKnown(s: Session, ws: seq<Attributed>, i: nat)
    requires AllActive(s, ws) && i <= |ws|
    ensures PreviousOf(ws[..i]).Some? ==> PreviousOf(ws[..i]).value in s.speakers
  {
    if i > 0 {
      assert ws[..i][i - 1] == ws[i - 1];
      assert IsActive(s.speakers, ws[i - 1].speaker);
    }
  }

  // ---- Placing one word -------------------------------------------------------------------

  lemma CreateExtends(s: Session, cluster: string, other: Id)
    requires Sane(s) && |ActiveIds(s)| < s.cap && other !in s.speakers && Owner(s, cluster).None?
    ensures var s' := DoCreate(s, other, Some(cluster), None);
      Extends(s, s') && FirstOwner(s', cluster, other)
  {
    hide LinksOf, Forest, ActiveIds, SpeakerLabel;
    var s' := DoCreate(s, other, Some(cluster), None);
    assert s'.order == s.order + [other];
    assert s'.order[|s.order|] == other;
    forall n | 0 <= n < |s.order|
      ensures !Owns(s'.speakers, s'.order[n], cluster)
    {
      assert s'.order[n] == s.order[n] && s.order[n] in s.order;
    }
    assert s.order <= s'.order;
  }

  lemma EnsureBelongs(s: Session, cluster: string, other: Id)
    requires Sane(s) && EnsureCluster(s, cluster, other).Placed?
    ensures var p := EnsureCluster(s, cluster, other);
      Sane(p.session) && Extends(s, p.session) && FirstOwner(p.session, cluster, p.id)
      && p.id in p.session.speakers && Get(p.session, p.id) == p.id
  {
    EnsureGains(s, cluster, other);
    var p := EnsureCluster(s, cluster, other);
    if Owner(s, cluster).Some? {
      OwnerIsFirst(s, cluster, p.id);
      ExtendsSelf(s);
    } else {
      CreateExtends(s, cluster, other);
    }
    hide Sane, Get, Extends, DoCreate, ActiveIds;
    OwnerActive(p.session, cluster, p.id);
  }

  lemma OwnerActive(s: Session, cluster: string, id: Id)
    requires Sane(s) && FirstOwner(s, cluster, id)
    ensures id in s.speakers && Get(s, id) == id
  {
    hide Forest;
  }

  lemma UnattributedExtends(s: Session, other: Id)
    requires Sane(s) && s.sink.None? && other !in s.speakers
    ensures var s' := DoUnattributed(s, other);
      Extends(s, s') && s'.sink == Some(other)
  {
    hide LinksOf, Forest;
    var s' := DoUnattributed(s, other);
    assert s'.order == s.order + [other];
    assert s.order <= s'.order;
  }

  lemma FallbackBelongs(s: Session, other: Id)
    requires Sane(s) && Fallback(s, other).Placed?
    ensures var p := Fallback(s, other);
      Sane(p.session) && Extends(s, p.session) && p.id in p.session.speakers
      && Default(p.session, Get(p.session, p.id))
  {
    FallbackGains(s, other);
    var p := Fallback(s, other);
    FirstProvisionalIs(s.order, s.speakers);
    if FirstProvisional(s.order, s.speakers).Some? {
      WaitingIsRoot(s, p.id);
      ExtendsSelf(s);
    } else {
      if s.sink.None? {
        UnattributedExtends(s, other);
      } else {
        ExtendsSelf(s);
      }
      NobodyStays(s, p.session);
    }
    hide Sane, Get, Extends, DoUnattributed, FirstProvisional, Waiting;
  }

  lemma WaitingIsRoot(s: Session, id: Id)
    requires Sane(s) && Waiting(s.speakers, id)
    ensures Get(s, id) == id
  {
    hide Forest;
  }

  lemma NoTurnNoCluster(s: Session, turns: seq<Turn>, word: Word, previous: Option<Id>)
    ensures Best(s, turns, word, previous).0.None? <==> Unclaimed(turns, word)
  {
    BestIsChosen(s, turns, word, previous);
    var (cluster, most) := Best(s, turns, word, previous);
    hide Best, Owner, Overlap;
    if cluster.Some? && Unclaimed(turns, word) {
      MostOfSomeTurn(s, turns, word, previous, cluster, most);
    }
  }

  lemma MostOfSomeTurn(s: Session, turns: seq<Turn>, word: Word, previous: Option<Id>, cluster: Option<string>,
                       most: nat)
    requires Chosen(s, turns, word, previous, cluster, most) && cluster.Some?
    ensures most > 0 && exists i :: 0 <= i < |turns| && Overlap(turns[i], word) == most
  {
    hide Owner, Overlap;
  }

  lemma PlaceWordBelongs(s: Session, group: Group, word: Word, turns: seq<Turn>, previous: Option<Id>, other: Id)
    requires Sane(s) && PlaceWord(s, group, word, turns, previous, other).Placed?
    requires previous.Some? ==> previous.value in s.speakers
    ensures var p := PlaceWord(s, group, word, turns, previous, other);
      && Sane(p.session) && Extends(s, p.session) && p.id in p.session.speakers
      && BelongsTo(p.session, group, turns, word, previous, Get(p.session, p.id))
  {
    ExtendsSelf(s);
    NoTurnNoCluster(s, turns, word, previous);
    hide Sane, Get, Extends, Fallback, EnsureCluster, Best, Default, Unclaimed, OfClaimingCluster;
    if group.speaker.None? {
      if group.isOverlap || Unclaimed(turns, word) {
        FallbackBelongs(s, other);
      } else {
        ClaimedBelongs(s, word, turns, previous, other);
      }
    }
  }

  lemma ClaimedBelongs(s: Session, word: Word, turns: seq<Turn>, previous: Option<Id>, other: Id)
    requires Sane(s) && (previous.Some? ==> previous.value in s.speakers)
    requires Best(s, turns, word, previous).0.Some?
    requires EnsureCluster(s, Best(s, turns, word, previous).0.value, other).Placed?
    ensures var p := EnsureCluster(s, Best(s, turns, word, previous).0.value, other);
      && Sane(p.session) && Extends(s, p.session) && p.id in p.session.speakers
      && OfClaimingCluster(p.session, turns, word, previous, Get(p.session, p.id))
  {
    var (cluster, most) := Best(s, turns, word, previous);
    hide *;
    BestIsChosen(s, turns, word, previous);
    EnsureBelongs(s, cluster.value, other);
    var p := EnsureCluster(s, cluster.value, other);
    ChosenStays(s, p.session, turns, word, previous, cluster, most);
    MakeClaim(p.session, turns, word, previous, p.id, cluster.value, most);
  }

  lemma MakeClaim(s: Session, turns: seq<Turn>, word: Word, previous: Option<Id>, speaker: Id, cluster: string,
                  most: nat)
    requires Chosen(s, turns, word, previous, Some(cluster), most) && FirstOwner(s, cluster, speaker)
    ensures OfClaimingCluster(s, turns, word, previous, speaker)
  {
    hide Chosen, FirstOwner;
  }

  // ---- Groups and sessions ----------------------------------------------------------------

  lemma {:induction false} AttributedBelong(s: Session, group: Group, words: seq<Word>, turns: seq<Turn>,
                                            others: seq<Id>)
    requires Sane(s) && |others| >= |words|
    ensures var r := AttributeAll(s, group, words, turns, others);
      r.Done? ==> Sane(r.session) && Extends(s, r.session) && AllBelong(r.session, group, turns, r.words)
    decreases |words|
  {
    hide *;
    if words == [] {
      AttributeNone(s, group, turns, others);
      ExtendsSelf(s);
    } else if AttributeAll(s, group, words, turns, others).Done? {
      var k := |words| - 1;
      var before := AttributeAll(s, group, words[..k], turns, others);
      AttributeStep(s, group, words, turns, others);
      AttributedBelong(s, group, words[..k], turns, others);
      AttributedActive(s, group, words[..k], turns, others);
      var p := PlaceWord(before.session, group, words[k], turns, PreviousOf(before.words), others[k]);
      var next := Attributed(words[k], Get(p.session, p.id));
      assert before.words[..|before.words|] == before.words;
      PreviousKnown(before.session, before.words, |before.words|);
      PlaceWordBelongs(before.session, group, words[k], turns, PreviousOf(before.words), others[k]);
      AllBelongStays(before.session, p.session, group, turns, before.words);
      BelongSnoc(p.session, group, turns, before.words, next);
      ExtendsOn(s, before.session, p.session);
    }
  }

  lemma AttributeNone(s: Session, group: Group, turns: seq<Turn>, others: seq<Id>)
    requires Sane(s)
    ensures AttributeAll(s, group, [], turns, others) == Done(s, []) && AllBelong(s, group, turns, [])
  {
    hide Sane;
  }

  lemma AttributeStep(s: Session, group: Group, words: seq<Word>, turns: seq<Turn>, others: seq<Id>)
    requires Sane(s) && |others| >= |words| > 0 && AttributeAll(s, group, words, turns, others).Done?
    ensures var k := |words| - 1;
      var before := AttributeAll(s, group, words[..k], turns, others);
      && before.Done?
      && var p := PlaceWord(before.session, group, words[k], turns, PreviousOf(before.words), others[k]);
      && p.Placed? && Sane(p.session) && p.id in p.session.speakers
      && AttributeAll(s, group, words, turns, others)
         == Done(p.session, before.words + [Attributed(words[k], Get(p.session, p.id))])
  {
    var k := |words| - 1;
    var before := AttributeAll(s, group, words[..k], turns, others);
    if PlaceWord(before.session, group, words[k], turns, PreviousOf(before.words), others[k]).Placed? {
      PlaceWordGains(before.session, group, words[k], turns, PreviousOf(before.words), others[k]);
    }
    hide Sane, PlaceWord, Gains, Words, Get;
  }

  lemma BelongSnoc(s: Session, group: Group, turns: seq<Turn>, ws: seq<Attributed>, next: Attributed)
    requires Sane(s) && AllBelong(s, group, turns, ws)
    requires BelongsTo(s, group, turns, next.word, PreviousOf(ws), next.speaker)
    ensures AllBelong(s, group, turns, ws + [next])
  {
    hide Sane, BelongsTo;
    var all := ws + [next];
    forall i | 0 <= i < |all|
      ensures BelongsTo(s, group, turns, all[i].word, PreviousOf(all[..i]), all[i].speaker)
    {
      assert all[..i] == ws[..i];
      assert i == |ws| ==> all[..i] == ws;
    }
  }

  /** The words of a group's utterances, with who says them. */
  ghost predicate PartsBelong(s: Session, groups: seq<Group>, turns: seq<Turn>, parts: seq<seq<Utterance>>)
    requires Sane(s)
  {
    |parts| == |groups| && forall g :: 0 <= g < |groups| ==> AllBelong(s, groups[g], turns, AllSaid(parts[g]))
  }

  ghost predicate PartsSpeak(s: Session, parts: seq<seq<Utterance>>) {
    forall g :: 0 <= g < |parts| ==> AllActive(s, AllSaid(parts[g]))
  }

  lemma PartsStay(s: Session, s': Session, groups: seq<Group>, turns: seq<Turn>, parts: seq<seq<Utterance>>)
    requires Sane(s) && Sane(s') && Extends(s, s') && PartsSpeak(s, parts) && PartsBelong(s, groups, turns, parts)
    ensures PartsBelong(s', groups, turns, parts) && PartsSpeak(s', parts)
  {
    hide Sane, AllBelong, AllActive, AllSaid;
    forall g | 0 <= g < |groups|
      ensures AllBelong(s', groups[g], turns, AllSaid(parts[g])) && AllActive(s', AllSaid(parts[g]))
    {
      AllBelongStays(s, s', groups[g], turns, AllSaid(parts[g]));
      ActiveExtends(s, s', AllSaid(parts[g]));
    }
  }

  lemma ActiveExtends(s: Session, s': Session, ws: seq<Attributed>)
    requires Extends(s, s') && AllActive(s, ws)
    ensures AllActive(s', ws)
  {
    ActiveGains(s, s', ws);
  }

  lemma ChunkSays(ws: seq<Attributed>, maxPause: int)
    ensures AllSaid(Chunk(ws, maxPause)) == ws
  {
    ChunkLegal(ws, maxPause);
  }

  lemma PartsSnoc(s: Session, groups: seq<Group>, turns: seq<Turn>, parts: seq<seq<Utterance>>, group: Group,
                  part: seq<Utterance>)
    requires Sane(s) && PartsBelong(s, groups, turns, parts) && AllBelong(s, group, turns, AllSaid(part))
    requires PartsSpeak(s, parts) && AllActive(s, AllSaid(part))
    ensures PartsBelong(s, groups + [group], turns, parts + [part]) && PartsSpeak(s, parts + [part])
  {
    hide Sane, AllBelong, AllActive, AllSaid;
  }

  /** After fusion every word of every group is said by the speaker it belongs to in the final session. */
  lemma {:induction false} EveryWordBelongs(s: Session, groups: seq<Group>, turns: seq<Turn>, others: seq<seq<Id>>,
                                            maxPause: int)
    requires Sane(s) && Supplied(groups, others)
    ensures var r := CoalesceAll(s, groups, turns, others, maxPause);
      r.Coalesced? ==>
        && Sane(r.session) && Extends(s, r.session)
        && PartsBelong(r.session, groups, turns, r.parts) && PartsSpeak(r.session, r.parts)
    decreases |groups|
  {
    hide *;
    if groups == [] {
      CoalesceNone(s, turns, others, maxPause);
      ExtendsSelf(s);
    } else if CoalesceAll(s, groups, turns, others, maxPause).Coalesced? {
      var k := |groups| - 1;
      var before := BeforeLast(s, groups, turns, others, maxPause);
      CoalesceStep(s, groups, turns, others, maxPause);
      BeforeIs(s, groups, turns, others, maxPause);
      LastAre(before.session, groups, turns, others);
      EveryWordBelongs(s, groups[..k], turns, others[..k], maxPause);
      var a := LastGroup(before.session, groups, turns, others);
      AttributedBelong(before.session, groups[k], SortWords(groups[k].words), turns, others[k]);
      AttributedActive(before.session, groups[k], SortWords(groups[k].words), turns, others[k]);
      assert groups == groups[..k] + [groups[k]];
      ChunkSays(a.words, maxPause);
      ExtendsOn(s, before.session, a.session);
      PartsStay(before.session, a.session, groups[..k], turns, before.parts);
      PartsSnoc(a.session, groups[..k], turns, before.parts, groups[k], Chunk(a.words, maxPause));
    }
  }

  lemma CoalesceNone(s: Session, turns: seq<Turn>, others: seq<seq<Id>>, maxPause: int)
    requires Sane(s) && Supplied([], others)
    ensures CoalesceAll(s, [], turns, others, maxPause) == Coalesced(s, [])
    ensures PartsBelong(s, [], turns, []) && PartsSpeak(s, [])
  {
    hide Sane;
  }

  lemma LastAre(t: Session, groups: seq<Group>, turns: seq<Turn>, others: seq<seq<Id>>)
    requires Sane(t) && Supplied(groups, others) && groups != []
    ensures var k := |groups| - 1;
      && |others| == |groups| && |others[k]| >= |SortWords(groups[k].words)|
      && LastGroup(t, groups, turns, others)
         == AttributeAll(t, groups[k], SortWords(groups[k].words), turns, others[k])
  {
    hide Sane, CoalesceAll, AttributeAll, SortWords;
    assert |SortWords(groups[|groups| - 1].words)| == |groups[|groups| - 1].words|;
  }

  // ---- In particular ----------------------------------------------------------------------

  lemma {:induction false} UtteranceSays(us: seq<Utterance>, n: nat) returns (i: nat)
    requires n < |us| && us[n].words != []
    ensures i < |AllSaid(us)| && AllSaid(us)[i] == Attributed(us[n].words[0], us[n].speaker)
  {
    var init := us[..|us| - 1];
    if n == |us| - 1 {
      i := |AllSaid(init)|;
      assert Said(us[n])[0] == Attributed(us[n].words[0], us[n].speaker);
    } else {
      i := UtteranceSays(init, n);
    }
  }

  lemma {:induction false} PartsUnbroken(s: Session, groups: seq<Group>, turns: seq<Turn>, others: seq<seq<Id>>,
                                         maxPause: int)
    requires Sane(s) && Supplied(groups, others)
    ensures var r := CoalesceAll(s, groups, turns, others, maxPause);
      r.Coalesced? ==> forall g, n :: 0 <= g < |r.parts| && 0 <= n < |r.parts[g]| ==> r.parts[g][n].words != []
  {
    CoalesceIsFaithful(s, groups, turns, others, maxPause);
    hide Sane, CoalesceAll, AllWords, SortWords, Continues;
  }

  /** A group linked to a speaker is said by that speaker, from the first utterance to the last. */
  lemma LinkedGroupSpeaks(s: Session, groups: seq<Group>, turns: seq<Turn>, others: seq<seq<Id>>, maxPause: int,
                          g: nat, n: nat)
    requires Sane(s) && Supplied(groups, others) && CoalesceAll(s, groups, turns, others, maxPause).Coalesced?
    requires g < |groups| && groups[g].speaker.Some? && groups[g].speaker.value in s.speakers
    ensures var parts := CoalesceAll(s, groups, turns, others, maxPause).parts;
      |parts| == |groups| && (n < |parts[g]| ==> parts[g][n].speaker == Get(s, groups[g].speaker.value))
  {
    var r := CoalesceAll(s, groups, turns, others, maxPause);
    EveryWordBelongs(s, groups, turns, others, maxPause);
    PartsUnbroken(s, groups, turns, others, maxPause);
    GainsOf(s, r.session);
    hide Sane, CoalesceAll, AllSaid, Get, Extends;
    if n < |r.parts[g]| {
      var i := UtteranceSays(r.parts[g], n);
      assert AllBelong(r.session, groups[g], turns, AllSaid(r.parts[g]));
      GainsKeepGet(s, r.session, groups[g].speaker.value);
    }
  }

  lemma GainsOf(s: Session, s': Session)
    requires Extends(s, s')
    ensures Gains(s, s')
  {
    hide Gains;
  }

  /** Words of one cluster have one speaker, wherever they are. */
  lemma OneClusterOneSpeaker(s: Session, cluster: string, a: Id, b: Id)
    requires FirstOwner(s, cluster, a) && FirstOwner(s, cluster, b)
    ensures a == b
  {
    OwnerIsFirst(s, cluster, a);
    OwnerIsFirst(s, cluster, b);
  }

  /** The utterances of one group, in order. */
  function OfGroup(segments: seq<Segment>, g: nat): seq<Utterance> {
    if segments == [] then []
    else
      OfGroup(segments[..|segments| - 1], g)
      + (if segments[|segments| - 1].group == g then [segments[|segments| - 1].utterance] else [])
  }

  lemma {:induction false} OfGroupConcat(a: seq<Segment>, b: seq<Segment>, g: nat)
    ensures OfGroup(a + b, g) == OfGroup(a, g) + OfGroup(b, g)
  {
    if b == [] {
      assert a + b == a;
    } else {
      var all := a + b;
      assert all[..|all| - 1] == a + b[..|b| - 1];
      OfGroupConcat(a, b[..|b| - 1], g);
    }
  }

  lemma {:induction false} OfGroupTag(us: seq<Utterance>, h: nat, g: nat)
    ensures OfGroup(Tag(us, h), g) == if h == g then us else []
  {
    if us != [] {
      var t := Tag(us, h);
      assert t[..|t| - 1] == Tag(us[..|us| - 1], h);
      OfGroupTag(us[..|us| - 1], h, g);
    }
  }

  /** The segments that carry a group are the utterances of that group. */
  lemma {:induction false} SegmentsOfGroup(parts: seq<seq<Utterance>>, g: nat)
    ensures OfGroup(TagAll(parts), g) == if g < |parts| then parts[g] else []
  {
    if parts != [] {
      var k := |parts| - 1;
      SegmentsOfGroup(parts[..k], g);
      OfGroupConcat(TagAll(parts[..k]), Tag(parts[k], k), g);
      OfGroupTag(parts[k], k, g);
    }
  }
}
