/** When fusion raises: exactly when it comes to a word there is nobody to give to. */
module FusionFailures {
  import opened Fusion
  import opened FusionAttribution
  import opened FusionEngines
  import opened MergeForest
  import opened Options
  import opened SessionState
  import opened Speakers
  import opened Transcript
  import opened Utterances

  ghost predicate NobodyOwns(s: Session, cluster: string) {
    forall id :: id in s.order ==> !Owns(s.speakers, id, cluster)
  }

  /** The word's cluster has no speaker, and none can be made: the session is full, or the identifier is
  taken. */
  ghost predicate NoRoom(s: Session, turns: seq<Turn>, word: Word, previous: Option<Id>, other: Id) {
    && (|ActiveIds(s)| >= s.cap || other in s.speakers)
    && exists cluster: string, most: nat ::
         Chosen(s, turns, word, previous, Some(cluster), most) && NobodyOwns(s, cluster)
  }

  ghost predicate Stuck(s: Session, group: Group, turns: seq<Turn>, word: Word, previous: Option<Id>, other: Id) {
    if group.speaker.Some? then group.speaker.value !in s.speakers
    else if group.isOverlap || FusionAttribution.Unclaimed(turns, word) then
      NobodyWaits(s) && s.sink.None? && other in s.speakers
    else NoRoom(s, turns, word, previous, other)
  }

  lemma {:induction false} OwnerNone(order: seq<Id>, speakers: Roster, cluster: string)
    ensures ByCluster(order, speakers, cluster).None? <==> forall id :: id in order ==> !Owns(speakers, id, cluster)
  {
    if order != [] {
      OwnerNone(order[1..], speakers, cluster);
      assert order == [order[0]] + order[1..];
      assert order[0] in order;
      hide Owns;
    }
  }

  lemma OwnerNoneIff(s: Session, cluster: string)
    ensures Owner(s, cluster).None? <==> NobodyOwns(s, cluster)
  {
    OwnerNone(s.order, s.speakers, cluster);
    hide Owns, ByCluster;
  }

  /** An unowned cluster can only be chosen by the rule of the first largest overlap, which leaves one. */
  lemma UnownedChoice(s: Session, turns: seq<Turn>, word: Word, previous: Option<Id>, a: string, most: nat,
                      b: string, most': nat)
    requires Chosen(s, turns, word, previous, Some(a), most) && Chosen(s, turns, word, previous, Some(b), most')
    requires Owner(s, a).None?
    ensures a == b
  {
    hide Owner, Overlap;
    assert !PreviousTies(s, turns, word, previous, most);
    var i :| FirstLargest(turns, word, most, i) && turns[i].cluster == a;
    assert most <= most';
    assert !PreviousTies(s, turns, word, previous, most');
    var j :| FirstLargest(turns, word, most', j) && turns[j].cluster == b;
  }

  lemma ClaimedStuckIff(s: Session, turns: seq<Turn>, word: Word, previous: Option<Id>, other: Id)
    requires Best(s, turns, word, previous).0.Some?
    ensures EnsureCluster(s, Best(s, turns, word, previous).0.value, other).Refused?
       <==> NoRoom(s, turns, word, previous, other)
  {
    BestIsChosen(s, turns, word, previous);
    var (best, most) := Best(s, turns, word, previous);
    OwnerNoneIff(s, best.value);
    hide Best, Owner, Chosen, NobodyOwns, DoCreate, ActiveIds;
    if cluster: string, m: nat :| Chosen(s, turns, word, previous, Some(cluster), m) && NobodyOwns(s, cluster) {
      OwnerNoneIff(s, cluster);
      UnownedChoice(s, turns, word, previous, cluster, m, best.value, most);
    }
  }

  lemma FallbackStuckIff(s: Session, other: Id)
    ensures Fallback(s, other).Refused? <==> NobodyWaits(s) && s.sink.None? && other in s.speakers
  {
    FirstProvisionalIs(s.order, s.speakers);
    hide FirstProvisional, Waiting, DoUnattributed;
  }

  lemma PlaceWordStuckIff(s: Session, group: Group, turns: seq<Turn>, word: Word, previous: Option<Id>, other: Id)
    ensures PlaceWord(s, group, word, turns, previous, other).Refused?
       <==> Stuck(s, group, turns, word, previous, other)
  {
    NoTurnNoCluster(s, turns, word, previous);
    FallbackStuckIff(s, other);
    hide Best, Fallback, EnsureCluster, NobodyWaits, NoRoom, FusionAttribution.Unclaimed;
    if Best(s, turns, word, previous).0.Some? {
      ClaimedStuckIff(s, turns, word, previous, other);
    }
  }

  // ---- Words and groups -------------------------------------------------------------------

  /** The words before the `k`-th have their speakers, and it gets none. */
  ghost predicate StuckAtWord(s: Session, group: Group, words: seq<Word>, turns: seq<Turn>, others: seq<Id>, k: nat)
    requires Sane(s) && |others| >= |words|
  {
    && k < |words| && AttributeAll(s, group, words[..k], turns, others).Done?
    && var before := AttributeAll(s, group, words[..k], turns, others);
       Stuck(before.session, group, turns, words[k], PreviousOf(before.words), others[k])
  }

  ghost predicate StuckInGroup(s: Session, group: Group, words: seq<Word>, turns: seq<Turn>, others: seq<Id>)
    requires Sane(s) && |others| >= |words|
  {
    exists k: nat :: StuckAtWord(s, group, words, turns, others, k)
  }

  lemma AttributeEmpty(s: Session, group: Group, turns: seq<Turn>, others: seq<Id>)
    requires Sane(s)
    ensures AttributeAll(s, group, [], turns, others).Done? && !StuckInGroup(s, group, [], turns, others)
  {
  }

  lemma WordStuckIff(s: Session, group: Group, words: seq<Word>, turns: seq<Turn>, others: seq<Id>, k: nat)
    requires Sane(s) && |others| >= |words| && k < |words|
    requires AttributeAll(s, group, words[..k], turns, others).Done?
    ensures AttributeAll(s, group, words[..k + 1], turns, others).Failed?
       <==> StuckAtWord(s, group, words, turns, others, k)
  {
    var before := AttributeAll(s, group, words[..k], turns, others);
    AttributeNext(s, group, words, turns, others, k);
    PlaceWordStuckIff(before.session, group, turns, words[k], PreviousOf(before.words), others[k]);
    hide Sane, AttributeAll, PlaceWord, Stuck, Get;
  }

  lemma StuckBefore(s: Session, group: Group, words: seq<Word>, turns: seq<Turn>, others: seq<Id>)
    requires Sane(s) && |others| >= |words| && words != []
    ensures StuckInGroup(s, group, words[..|words| - 1], turns, others) ==> StuckInGroup(s, group, words, turns, others)
  {
    hide Sane, AttributeAll, Stuck;
    var init := words[..|words| - 1];
    if StuckInGroup(s, group, init, turns, others) {
      var k: nat :| StuckAtWord(s, group, init, turns, others, k);
      assert init[..k] == words[..k];
      assert StuckAtWord(s, group, words, turns, others, k);
    }
  }

  lemma WordStuckIs(s: Session, group: Group, words: seq<Word>, turns: seq<Turn>, others: seq<Id>, k: nat)
    requires Sane(s) && |others| >= |words| && StuckAtWord(s, group, words, turns, others, k)
    ensures k < |words| && AttributeAll(s, group, words[..k], turns, others).Done?
  {
    hide Sane, AttributeAll, Stuck;
  }

  lemma StuckFails(s: Session, group: Group, words: seq<Word>, turns: seq<Turn>, others: seq<Id>)
    requires Sane(s) && |others| >= |words| && StuckInGroup(s, group, words, turns, others)
    ensures AttributeAll(s, group, words, turns, others).Failed?
  {
    hide Sane, AttributeAll, StuckAtWord;
    var k: nat :| StuckAtWord(s, group, words, turns, others, k);
    hide *;
    WordStuckIs(s, group, words, turns, others, k);
    WordStuckIff(s, group, words, turns, others, k);
    AttributePrefix(s, group, words, turns, others, k + 1);
  }

  /** The words of a group cannot all be given a speaker exactly when one of them gets stuck. */
  lemma {:induction false} AttributionFailsIff(s: Session, group: Group, words: seq<Word>, turns: seq<Turn>,
                                               others: seq<Id>)
    requires Sane(s) && |others| >= |words|
    ensures AttributeAll(s, group, words, turns, others).Failed? <==> StuckInGroup(s, group, words, turns, others)
    decreases |words|
  {
    hide *;
    if words == [] {
      AttributeEmpty(s, group, turns, others);
    } else {
      var k := |words| - 1;
      AttributionFailsIff(s, group, words[..k], turns, others);
      StuckBefore(s, group, words, turns, others);
      if StuckInGroup(s, group, words, turns, others) {
        StuckFails(s, group, words, turns, others);
      } else {
        assert words[..k + 1] == words;
        WordStuckIff(s, group, words, turns, others, k);
        NotStuckAt(s, group, words, turns, others, k);
      }
    }
  }

  lemma NotStuckAt(s: Session, group: Group, words: seq<Word>, turns: seq<Turn>, others: seq<Id>, k: nat)
    requires Sane(s) && |others| >= |words| && !StuckInGroup(s, group, words, turns, others)
    ensures !StuckAtWord(s, group, words, turns, others, k)
  {
    hide Sane, StuckAtWord;
  }

  /** The groups before the `g`-th are fused, and one of its words gets stuck. */
  ghost predicate StuckAtGroup(s: Session, groups: seq<Group>, turns: seq<Turn>, others: seq<seq<Id>>, maxPause: int,
                               g: nat)
    requires Sane(s) && Supplied(groups, others)
  {
    && g < |groups| && CoalesceAll(s, groups[..g], turns, others[..g], maxPause).Coalesced?
    && StuckInGroup(CoalesceAll(s, groups[..g], turns, others[..g], maxPause).session, groups[g],
                    SortWords(groups[g].words), turns, others[g])
  }

  lemma GroupStuckIff(s: Session, groups: seq<Group>, turns: seq<Turn>, others: seq<seq<Id>>, maxPause: int, g: nat)
    requires Sane(s) && Supplied(groups, others) && g < |groups|
    requires CoalesceAll(s, groups[..g], turns, others[..g], maxPause).Coalesced?
    ensures CoalesceAll(s, groups[..g + 1], turns, others[..g + 1], maxPause).Raised?
       <==> StuckAtGroup(s, groups, turns, others, maxPause, g)
  {
    var before := CoalesceAll(s, groups[..g], turns, others[..g], maxPause);
    CoalesceNext(s, groups, turns, others, maxPause, g);
    hide Sane, CoalesceAll, AttributeAll, StuckInGroup, Chunk;
    AttributionFailsIff(before.session, groups[g], SortWords(groups[g].words), turns, others[g]);
  }

  /** Fusion goes through the groups up to some group and raises there, or gets through. */
  lemma {:induction false} FirstRaised(s: Session, groups: seq<Group>, turns: seq<Turn>, others: seq<seq<Id>>,
                                       maxPause: int, n: nat) returns (g: nat)
    requires Sane(s) && Supplied(groups, others) && n <= |groups|
    requires CoalesceAll(s, groups[..n], turns, others[..n], maxPause).Raised?
    ensures g < n && CoalesceAll(s, groups[..g], turns, others[..g], maxPause).Coalesced?
    ensures CoalesceAll(s, groups[..g + 1], turns, others[..g + 1], maxPause).Raised?
    decreases n
  {
    hide *;
    g := 0;
    NothingRaised(s, groups, turns, others, maxPause);
    if n > 0 {
      SuppliedPrefix(groups, others, n - 1);
      if CoalesceAll(s, groups[..n - 1], turns, others[..n - 1], maxPause).Raised? {
        g := FirstRaised(s, groups, turns, others, maxPause, n - 1);
      } else {
        g := n - 1;
      }
    }
  }

  lemma SuppliedPrefix(groups: seq<Group>, others: seq<seq<Id>>, n: nat)
    requires Supplied(groups, others) && n <= |groups|
    ensures |others| == |groups| && Supplied(groups[..n], others[..n])
  {
  }

  lemma NothingRaised(s: Session, groups: seq<Group>, turns: seq<Turn>, others: seq<seq<Id>>, maxPause: int)
    requires Sane(s) && Supplied(groups, others)
    ensures CoalesceAll(s, groups[..0], turns, others[..0], maxPause).Coalesced?
  {
    hide Sane;
  }

  /** Fusion raises exactly when, after the groups before it, some word of a group gets stuck. */
  lemma FusionRaisesIff(s: Session, groups: seq<Group>, turns: seq<Turn>, others: seq<seq<Id>>, maxPause: int)
    requires Sane(s) && Supplied(groups, others)
    ensures CoalesceAll(s, groups, turns, others, maxPause).Raised?
       <==> exists g: nat :: StuckAtGroup(s, groups, turns, others, maxPause, g)
  {
    var n := |groups|;
    assert groups[..n] == groups && others[..n] == others;
    if CoalesceAll(s, groups, turns, others, maxPause).Raised? {
      hide *;
      var g := FirstRaised(s, groups, turns, others, maxPause, n);
      GroupStuckIff(s, groups, turns, others, maxPause, g);
    } else if g: nat :| StuckAtGroup(s, groups, turns, others, maxPause, g) {
      StuckRaises(s, groups, turns, others, maxPause, g);
      assert false;
    }
  }

  lemma StuckRaises(s: Session, groups: seq<Group>, turns: seq<Turn>, others: seq<seq<Id>>, maxPause: int, g: nat)
    requires Sane(s) && Supplied(groups, others) && StuckAtGroup(s, groups, turns, others, maxPause, g)
    ensures CoalesceAll(s, groups, turns, others, maxPause).Raised?
  {
    StuckGroupIs(s, groups, turns, others, maxPause, g);
    hide *;
    GroupStuckIff(s, groups, turns, others, maxPause, g);
    CoalescePrefix(s, groups, turns, others, maxPause, g + 1);
  }

  lemma StuckGroupIs(s: Session, groups: seq<Group>, turns: seq<Turn>, others: seq<seq<Id>>, maxPause: int, g: nat)
    requires Sane(s) && Supplied(groups, others) && StuckAtGroup(s, groups, turns, others, maxPause, g)
    ensures g < |groups| && Supplied(groups[..g], others[..g])
    ensures CoalesceAll(s, groups[..g], turns, others[..g], maxPause).Coalesced?
  {
    hide Sane, CoalesceAll, StuckInGroup;
  }
}
