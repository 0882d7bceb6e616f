/** Grouping attributed words into utterances.

`Chunk` walks the words in order and closes an utterance at a speaker change, a long pause or the end
of a sentence.  `Legal` says what such a grouping must look like, without saying how it is found, and
`ChunkIsTheOnlyLegal` that there is exactly one.
*/
module Utterances {
  import opened Sorting
  import Timeline
  import opened Transcript

  predicate Earlier(a: Word, b: Word) {
    a.start < b.start || (a.start == b.start && a.end <= b.end)
  }

  function SortWords(words: seq<Word>): (r: seq<Word>)
    ensures multiset(r) == multiset(words) && |r| == |words|
  {
    Sort(words, Earlier)
  }

  lemma SortWordsOrdered(words: seq<Word>)
    ensures SortedBy(SortWords(words), Earlier)
  {
    SortIsSorted(words, Earlier);
  }

  predicate EndsSentence(text: string) {
    text != [] && text[|text| - 1] in {'.', '?', '!', '\U{2026}'}
  }

  /** A word with the canonical speaker it was attributed to. */
  datatype Attributed = Attributed(word: Word, speaker: string)

  datatype Utterance = Utterance(speaker: string, words: seq<Word>)

  function MaxEnd(words: seq<Word>): (r: int)
    requires words != []
    ensures (forall w :: w in words ==> w.end <= r) && (exists w :: w in words && w.end == r)
  {
    var last := words[|words| - 1];
    if |words| == 1 then
      assert last in words;
      last.end
    else
      var rest := MaxEnd(words[..|words| - 1]);
      assert words == words[..|words| - 1] + [last];
      assert forall w :: w in words[..|words| - 1] ==> w in words;
      Timeline.Max(rest, last.end)
  }

  function MinStart(words: seq<Word>): (r: int)
    requires words != []
    ensures (forall w :: w in words ==> r <= w.start) && (exists w :: w in words && w.start == r)
  {
    var last := words[|words| - 1];
    if |words| == 1 then
      assert last in words;
      last.start
    else
      var rest := MinStart(words[..|words| - 1]);
      assert words == words[..|words| - 1] + [last];
      assert forall w :: w in words[..|words| - 1] ==> w in words;
      Timeline.Min(rest, last.start)
  }

  /** The words joined by blanks, for words without blanks at their ends. */
  function Text(words: seq<Word>): string
    requires words != []
  {
    var last := words[|words| - 1].text;
    if |words| == 1 then last else Text(words[..|words| - 1]) + " " + last
  }

  /** The words spoken so far by `speaker` can go on with `next`. */
  predicate Continues(speaker: string, words: seq<Word>, next: Attributed, maxPause: int) {
    && words != [] && speaker == next.speaker
    && next.word.start - MaxEnd(words) <= maxPause
    && !EndsSentence(words[|words| - 1].text)
  }

  function Place(us: seq<Utterance>, next: Attributed, maxPause: int): seq<Utterance> {
    if us != [] && Continues(us[|us| - 1].speaker, us[|us| - 1].words, next, maxPause) then
      us[..|us| - 1] + [Utterance(us[|us| - 1].speaker, us[|us| - 1].words + [next.word])]
    else
      us + [Utterance(next.speaker, [next.word])]
  }

  function Chunk(ws: seq<Attributed>, maxPause: int): seq<Utterance> {
    if ws == [] then [] else Place(Chunk(ws[..|ws| - 1], maxPause), ws[|ws| - 1], maxPause)
  }

  // ---- What a grouping must look like -----------------------------------------------------

  function Said(u: Utterance): seq<Attributed> {
    seq(|u.words|, i requires 0 <= i < |u.words| => Attributed(u.words[i], u.speaker))
  }

  function AllSaid(us: seq<Utterance>): seq<Attributed> {
    if us == [] then [] else AllSaid(us[..|us| - 1]) + Said(us[|us| - 1])
  }

  /** Within an utterance every word continues the ones before it. */
  predicate Unbroken(u: Utterance, maxPause: int) {
    && u.words != []
    && forall k :: 0 < k < |u.words| ==>
         Continues(u.speaker, u.words[..k], Attributed(u.words[k], u.speaker), maxPause)
  }

  /** The second utterance could not have been part of the first. */
  predicate Parted(a: Utterance, b: Utterance, maxPause: int) {
    b.words != [] ==> !Continues(a.speaker, a.words, Attributed(b.words[0], b.speaker), maxPause)
  }

  predicate Shaped(us: seq<Utterance>, maxPause: int) {
    && (forall i :: 0 <= i < |us| ==> Unbroken(us[i], maxPause))
    && (forall i :: 0 < i < |us| ==> Parted(us[i - 1], us[i], maxPause))
  }

  predicate Legal(us: seq<Utterance>, ws: seq<Attributed>, maxPause: int) {
    AllSaid(us) == ws && Shaped(us, maxPause)
  }

  lemma GrowUnbroken(u: Utterance, next: Attributed, maxPause: int)
    requires Unbroken(u, maxPause) && Continues(u.speaker, u.words, next, maxPause)
    ensures Unbroken(Utterance(u.speaker, u.words + [next.word]), maxPause)
    ensures Said(Utterance(u.speaker, u.words + [next.word])) == Said(u) + [next]
  {
    hide Continues;
    var words' := u.words + [next.word];
    forall k | 0 < k < |words'|
      ensures Continues(u.speaker, words'[..k], Attributed(words'[k], u.speaker), maxPause)
    {
      if k == |u.words| {
        assert words'[..k] == u.words;
        SameSpeaker(u, next, maxPause);
      } else {
        assert words'[..k] == u.words[..k];
      }
    }
    SameSpeaker(u, next, maxPause);
  }

  lemma SameSpeaker(u: Utterance, next: Attributed, maxPause: int)
    requires Continues(u.speaker, u.words, next, maxPause)
    ensures u.speaker == next.speaker && next == Attributed(next.word, u.speaker)
  {
  }

  lemma GrowParted(a: Utterance, u: Utterance, next: Attributed, maxPause: int)
    requires Unbroken(u, maxPause) && Parted(a, u, maxPause)
    ensures Parted(a, Utterance(u.speaker, u.words + [next.word]), maxPause)
  {
    hide Continues;
    assert (u.words + [next.word])[0] == u.words[0];
  }

  lemma PlaceLegal(us: seq<Utterance>, ws: seq<Attributed>, next: Attributed, maxPause: int)
    requires Legal(us, ws, maxPause)
    ensures Legal(Place(us, next, maxPause), ws + [next], maxPause)
  {
    hide Continues, MaxEnd, EndsSentence;
    var us' := Place(us, next, maxPause);
    if us != [] && Continues(us[|us| - 1].speaker, us[|us| - 1].words, next, maxPause) {
      var u := us[|us| - 1];
      assert us'[..|us'| - 1] == us[..|us| - 1];
      GrowUnbroken(u, next, maxPause);
      if |us| > 1 {
        GrowParted(us[|us| - 2], u, next, maxPause);
      }
      hide Unbroken, Parted, Said;
      assert AllSaid(us') == AllSaid(us[..|us| - 1]) + (Said(u) + [next]);
    } else {
      var u := Utterance(next.speaker, [next.word]);
      assert us' == us + [u] && us'[..|us|] == us;
      assert Said(u) == [next];
      assert Unbroken(u, maxPause);
    }
  }

  lemma {:induction false} ChunkLegal(ws: seq<Attributed>, maxPause: int)
    ensures Legal(Chunk(ws, maxPause), ws, maxPause)
  {
    hide Place, Legal;
    if ws == [] {
      EmptyLegal(maxPause);
    } else {
      ChunkLegal(ws[..|ws| - 1], maxPause);
      PlaceLegal(Chunk(ws[..|ws| - 1], maxPause), ws[..|ws| - 1], ws[|ws| - 1], maxPause);
      assert ws[..|ws| - 1] + [ws[|ws| - 1]] == ws;
    }
  }

  lemma EmptyLegal(maxPause: int)
    ensures Legal([], [], maxPause)
  {
  }

  /** Take the last word away from a grouping. */
  function Shorten(us: seq<Utterance>): seq<Utterance>
    requires us != [] && us[|us| - 1].words != []
  {
    var u := us[|us| - 1];
    if |u.words| == 1 then us[..|us| - 1]
    else us[..|us| - 1] + [Utterance(u.speaker, u.words[..|u.words| - 1])]
  }

  function LastSaid(us: seq<Utterance>): Attributed
    requires us != [] && us[|us| - 1].words != []
  {
    var u := us[|us| - 1];
    Attributed(u.words[|u.words| - 1], u.speaker)
  }

  /** The last utterance holds a single word: it goes. */
  lemma ShortenSingle(us: seq<Utterance>, ws: seq<Attributed>, maxPause: int)
    requires Legal(us, ws, maxPause) && us != [] && |us[|us| - 1].words| == 1
    ensures ws == ws[..|ws| - 1] + [LastSaid(us)]
    ensures Legal(us[..|us| - 1], ws[..|ws| - 1], maxPause)
    ensures Place(us[..|us| - 1], LastSaid(us), maxPause) == us
  {
    hide Continues, Unbroken, MaxEnd, EndsSentence;
    var u, init := us[|us| - 1], us[..|us| - 1];
    assert Said(u) == [LastSaid(us)];
    assert ws == AllSaid(init) + [LastSaid(us)];
    assert ws[..|ws| - 1] == AllSaid(init);
    assert u.words == [u.words[0]];
    assert init + [u] == us;
    assert init != [] ==> Parted(us[|us| - 2], us[|us| - 1], maxPause);
  }

  lemma SaidShorter(u: Utterance, v: Utterance)
    requires |u.words| > 1 && v == Utterance(u.speaker, u.words[..|u.words| - 1])
    ensures Said(u) == Said(v) + [Attributed(u.words[|u.words| - 1], u.speaker)]
    ensures v.words + [u.words[|u.words| - 1]] == u.words
  {
  }

  lemma SaidSnoc(init: seq<Utterance>, v: Utterance)
    ensures AllSaid(init + [v]) == AllSaid(init) + Said(v)
  {
    hide Said;
    assert (init + [v])[..|init|] == init;
  }

  lemma ShapedSnoc(init: seq<Utterance>, v: Utterance, maxPause: int)
    requires Shaped(init, maxPause) && Unbroken(v, maxPause)
    requires init != [] ==> Parted(init[|init| - 1], v, maxPause)
    ensures Shaped(init + [v], maxPause)
  {
    hide Unbroken, Parted;
  }

  lemma ReplaceLast(us: seq<Utterance>, ws: seq<Attributed>, v: Utterance, maxPause: int)
    requires Legal(us, ws, maxPause) && us != [] && Unbroken(v, maxPause)
    requires |us| > 1 ==> Parted(us[|us| - 2], v, maxPause)
    ensures Legal(us[..|us| - 1] + [v], AllSaid(us[..|us| - 1]) + Said(v), maxPause)
  {
    var init := us[..|us| - 1];
    assert Shaped(init, maxPause);
    hide Said, Unbroken, Parted, AllSaid;
    ShapedSnoc(init, v, maxPause);
    SaidSnoc(init, v);
  }

  /** The last utterance holds more words: it loses one. */
  lemma ShortenMany(us: seq<Utterance>, ws: seq<Attributed>, maxPause: int)
    requires Legal(us, ws, maxPause) && us != [] && |us[|us| - 1].words| > 1
    ensures ws == ws[..|ws| - 1] + [LastSaid(us)]
    ensures Legal(Shorten(us), ws[..|ws| - 1], maxPause)
    ensures Place(Shorten(us), LastSaid(us), maxPause) == us
  {
    var u, init := us[|us| - 1], us[..|us| - 1];
    var v := Utterance(u.speaker, u.words[..|u.words| - 1]);
    LastParts(us, ws, maxPause);
    hide Said, Unbroken, Continues, Legal, Parted, AllSaid, Place;
    SaidShorter(u, v);
    ShorterUnbroken(u, maxPause);
    SnocAssoc(AllSaid(init), Said(v), LastSaid(us));
    if |us| > 1 {
      ShorterParted(us[|us| - 2], u, maxPause);
    }
    ReplaceLast(us, ws, v, maxPause);
    PlaceBack(us, v, maxPause);
  }

  lemma LastParts(us: seq<Utterance>, ws: seq<Attributed>, maxPause: int)
    requires Legal(us, ws, maxPause) && us != []
    ensures ws == AllSaid(us[..|us| - 1]) + Said(us[|us| - 1])
    ensures Unbroken(us[|us| - 1], maxPause) && (|us| > 1 ==> Parted(us[|us| - 2], us[|us| - 1], maxPause))
  {
    hide Said, Unbroken, Parted;
  }

  lemma SnocAssoc(a: seq<Attributed>, b: seq<Attributed>, x: Attributed)
    ensures a + (b + [x]) == (a + b) + [x]
    ensures ((a + b) + [x])[..|(a + b) + [x]| - 1] == a + b
  {
  }

  lemma PlaceBack(us: seq<Utterance>, v: Utterance, maxPause: int)
    requires us != [] && us[|us| - 1].words != []
    requires var u := us[|us| - 1];
      v.speaker == u.speaker && v.words + [u.words[|u.words| - 1]] == u.words
      && Continues(v.speaker, v.words, LastSaid(us), maxPause)
    ensures Place(us[..|us| - 1] + [v], LastSaid(us), maxPause) == us
  {
    hide Continues;
    var init := us[..|us| - 1];
    assert (init + [v])[..|init|] == init && init + [us[|us| - 1]] == us;
  }

  lemma ShortenLegal(us: seq<Utterance>, ws: seq<Attributed>, maxPause: int)
    requires Legal(us, ws, maxPause) && us != [] && us[|us| - 1].words != []
    ensures ws == ws[..|ws| - 1] + [LastSaid(us)]
    ensures Legal(Shorten(us), ws[..|ws| - 1], maxPause)
    ensures Place(Shorten(us), LastSaid(us), maxPause) == us
  {
    hide Legal, Place, LastSaid;
    if |us[|us| - 1].words| == 1 {
      ShortenSingle(us, ws, maxPause);
    } else {
      ShortenMany(us, ws, maxPause);
    }
  }

  lemma ShorterUnbroken(u: Utterance, maxPause: int)
    requires Unbroken(u, maxPause) && |u.words| > 1
    ensures var v := Utterance(u.speaker, u.words[..|u.words| - 1]);
      Unbroken(v, maxPause) && Continues(v.speaker, v.words, Attributed(u.words[|u.words| - 1], u.speaker), maxPause)
  {
    hide Continues;
    var words := u.words[..|u.words| - 1];
    forall k | 0 < k < |words|
      ensures Continues(u.speaker, words[..k], Attributed(words[k], u.speaker), maxPause)
    {
      assert words[..k] == u.words[..k];
    }
  }

  lemma ShorterParted(a: Utterance, u: Utterance, maxPause: int)
    requires Parted(a, u, maxPause) && |u.words| > 1
    ensures Parted(a, Utterance(u.speaker, u.words[..|u.words| - 1]), maxPause)
  {
    hide Continues;
  }

  /** The rule leaves no choice: a grouping is legal exactly when it is the one `Chunk` finds. */
  lemma {:induction false} ChunkIsTheOnlyLegal(us: seq<Utterance>, ws: seq<Attributed>, maxPause: int)
    ensures Legal(us, ws, maxPause) <==> us == Chunk(ws, maxPause)
    decreases |ws|
  {
    ChunkLegal(ws, maxPause);
    if Legal(us, ws, maxPause) {
      if us == [] {
        assert ws == [];
      } else {
        assert Unbroken(us[|us| - 1], maxPause);
        ShortenLegal(us, ws, maxPause);
        ChunkIsTheOnlyLegal(Shorten(us), ws[..|ws| - 1], maxPause);
        assert ws != [] && ws[|ws| - 1] == LastSaid(us);
        hide Legal, Place, Shorten;
      }
    }
  }

  // ---- Consequences -----------------------------------------------------------------------

  function Words(ws: seq<Attributed>): seq<Word> {
    seq(|ws|, i requires 0 <= i < |ws| => ws[i].word)
  }

  function AllWords(us: seq<Utterance>): seq<Word> {
    if us == [] then [] else AllWords(us[..|us| - 1]) + us[|us| - 1].words
  }

  lemma {:induction false} AllWordsSaid(us: seq<Utterance>)
    ensures AllWords(us) == Words(AllSaid(us))
  {
    if us != [] {
      AllWordsSaid(us[..|us| - 1]);
      assert Words(AllSaid(us[..|us| - 1]) + Said(us[|us| - 1]))
          == Words(AllSaid(us[..|us| - 1])) + us[|us| - 1].words;
    }
  }

  /** Utterances concatenate to the words in order. */
  lemma ChunkKeepsWords(ws: seq<Attributed>, maxPause: int)
    ensures AllWords(Chunk(ws, maxPause)) == Words(ws)
  {
    ChunkLegal(ws, maxPause);
    AllWordsSaid(Chunk(ws, maxPause));
  }

  predicate FullStop(text: string) {
    |text| > 0 && (var c := text[|text| - 1]; c == '.' || c == '?' || c == '!' || c == '\U{2026}')
  }

  /** The words inside an utterance follow each other closely. */
  predicate Close(u: Utterance, k: nat, maxPause: int)
    requires 0 < k < |u.words|
  {
    && (exists m :: 0 <= m < k && u.words[k].start - u.words[m].end <= maxPause)
    && !FullStop(u.words[k - 1].text)
  }

  /** Two neighbours differ in the speaker, or are apart by more than the pause, or a sentence ends. */
  predicate Apart(a: Utterance, b: Utterance, maxPause: int)
    requires a.words != [] && b.words != []
  {
    || a.speaker != b.speaker
    || (forall m :: 0 <= m < |a.words| ==> b.words[0].start - a.words[m].end > maxPause)
    || FullStop(a.words[|a.words| - 1].text)
  }

  lemma PauseIs(words: seq<Word>, next: Word, maxPause: int)
    requires words != []
    ensures next.start - MaxEnd(words) <= maxPause
       <==> exists m :: 0 <= m < |words| && next.start - words[m].end <= maxPause
  {
    var top := MaxEnd(words);
    var w :| w in words && w.end == top;
    var k :| 0 <= k < |words| && words[k] == w;
    assert next.start - words[k].end == next.start - MaxEnd(words);
    assert forall m :: 0 <= m < |words| ==> words[m] in words;
  }

  /** Utterances break exactly at a change of speaker, a long pause, or the end of a sentence. */
  lemma ChunkBreaks(ws: seq<Attributed>, maxPause: int)
    ensures var us := Chunk(ws, maxPause);
      && (forall n :: 0 <= n < |us| ==> us[n].words != [])
      && (forall n, k :: 0 <= n < |us| && 0 < k < |us[n].words| ==> Close(us[n], k, maxPause))
      && (forall n :: 0 < n < |us| ==> Apart(us[n - 1], us[n], maxPause))
  {
    var us := Chunk(ws, maxPause);
    ChunkLegal(ws, maxPause);
    hide Chunk, AllSaid, MaxEnd, Unbroken, Parted, Close, Apart;
    forall n | 0 <= n < |us|
      ensures us[n].words != [] && forall k :: 0 < k < |us[n].words| ==> Close(us[n], k, maxPause)
    {
      UnbrokenIsClose(us[n], maxPause);
    }
    forall n | 0 < n < |us|
      ensures Apart(us[n - 1], us[n], maxPause)
    {
      UnbrokenIsClose(us[n - 1], maxPause);
      UnbrokenIsClose(us[n], maxPause);
      PartedIsApart(us[n - 1], us[n], maxPause);
    }
  }

  lemma UnbrokenIsClose(u: Utterance, maxPause: int)
    requires Unbroken(u, maxPause)
    ensures u.words != [] && forall k :: 0 < k < |u.words| ==> Close(u, k, maxPause)
  {
    hide Continues, Close;
    forall k | 0 < k < |u.words|
      ensures Close(u, k, maxPause)
    {
      CloseAt(u, k, maxPause);
    }
  }

  lemma CloseAt(u: Utterance, k: nat, maxPause: int)
    requires 0 < k < |u.words|
    requires Continues(u.speaker, u.words[..k], Attributed(u.words[k], u.speaker), maxPause)
    ensures Close(u, k, maxPause)
  {
    hide MaxEnd;
    PauseIs(u.words[..k], u.words[k], maxPause);
    var m :| 0 <= m < k && u.words[k].start - u.words[..k][m].end <= maxPause;
    assert u.words[..k][m] == u.words[m];
  }

  lemma PartedIsApart(a: Utterance, b: Utterance, maxPause: int)
    requires a.words != [] && b.words != [] && Parted(a, b, maxPause)
    ensures Apart(a, b, maxPause)
  {
    hide MaxEnd;
    PauseIs(a.words, b.words[0], maxPause);
  }
}
