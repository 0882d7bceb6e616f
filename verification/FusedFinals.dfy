/** Finals as fusion makes them: two sentences said at once collapse into one event. */
module FusedFinals {
  import opened EventLog
  import opened Finals
  import opened Options
  import opened Publication
  import Timeline
  import opened Transcript
  import opened Utterances

  function FinalOf(u: Utterance, track: Option<nat>): Final
    requires u.words != []
  {
    assert u.words[0] in u.words;
    Final(Timeline.Interval(MinStart(u.words), MaxEnd(u.words)), u.speaker, track, Text(u.words))
  }

  /** Two words with the same times, the first of which ends a sentence, are two utterances, and so two
  finals with the same times, speaker and track: only the first is published. */
  lemma TwoSentencesCollapse(speaker: string, track: Option<nat>, maxPause: nat)
    ensures var a: Word, b: Word := Word("a.", 0, 1000), Word("b", 0, 1000);
      var us := Chunk([Attributed(a, speaker), Attributed(b, speaker)], maxPause);
      && SortWords([a, b]) == [a, b]
      && us == [Utterance(speaker, [a]), Utterance(speaker, [b])]
      && var finals := [FinalOf(us[0], track), FinalOf(us[1], track)];
         var after := Published(NewLog(1), [], FinalRequests(finals, ["x", "y"], [None, None]));
         |after| == 1 && after[0].body == "a."
  {
    var a: Word, b: Word := Word("a.", 0, 1000), Word("b", 0, 1000);
    InOrder(a, b);
    TwoUtterances(a, b, speaker, maxPause);
    hide *;
    OneWord(a, speaker, track);
    OneWord(b, speaker, track);
    SameSlotCollapses(FinalOf(Utterance(speaker, [a]), track), FinalOf(Utterance(speaker, [b]), track));
  }

  lemma InOrder(a: Word, b: Word)
    requires a.start == b.start && a.end == b.end
    ensures SortWords([a, b]) == [a, b]
  {
    assert [a, b][1..] == [b] && [b][1..] == [];
  }

  lemma TwoUtterances(a: Word, b: Word, speaker: string, maxPause: nat)
    requires EndsSentence(a.text)
    ensures Chunk([Attributed(a, speaker), Attributed(b, speaker)], maxPause)
         == [Utterance(speaker, [a]), Utterance(speaker, [b])]
  {
    var ws := [Attributed(a, speaker), Attributed(b, speaker)];
    assert ws[..1] == [ws[0]] && ws[..1][..0] == [];
    hide MaxEnd, EndsSentence;
    assert Chunk([ws[0]], maxPause) == [Utterance(speaker, [a])];
  }

  lemma OneWord(a: Word, speaker: string, track: Option<nat>)
    ensures FinalOf(Utterance(speaker, [a]), track)
         == Final(Timeline.Interval(a.start, a.end), speaker, track, a.text)
  {
  }
}
