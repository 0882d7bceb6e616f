/** What the linking of one crop answers, said on its scores.

Nothing here names how an answer is found: a source is linked, ambiguous or unknown by where its column
stands in its row of base scores, and by who else is drawn to the same speaker.
*/
module LinkingOutcome {
  import opened Assignment
  import opened Options
  import opened SourceLinking

  ghost predicate Greatest(row: seq<Score>, p: nat) {
    && p < |row| && row[p].Some?
    && forall k :: 0 <= k < |row| && row[k].Some? ==> row[k].value <= row[p].value
  }

  ghost predicate FirstGreatest(row: seq<Score>, p: nat) {
    Greatest(row, p) && forall k :: 0 <= k < p && row[k].Some? ==> row[k].value < row[p].value
  }

  ghost predicate Finite(row: seq<Score>, p: nat) {
    p < |row| && row[p].Some?
  }

  /** The greatest entry is ahead of every other one by at least the gap. */
  ghost predicate ClearBy(row: seq<Score>, gap: real) {
    forall p: nat, q: nat :: Greatest(row, p) && Finite(row, q) && p != q ==> row[p].value - row[q].value >= gap
  }

  /** The source's own first greatest entry is at `p`. */
  ghost predicate DrawnAt(base: Matrix, embeddings: seq<Option<Embedding>>, i: nat, p: nat)
    requires |base.rows| == |embeddings|
  {
    i < |embeddings| && embeddings[i].Some? && FirstGreatest(base.rows[i], p)
  }

  /** Another embedded source is drawn to the speaker this one is drawn to. */
  ghost predicate Contested(base: Matrix, embeddings: seq<Option<Embedding>>, i: nat)
    requires |base.rows| == |embeddings|
  {
    exists k: nat, p: nat :: k != i && DrawnAt(base, embeddings, i, p) && DrawnAt(base, embeddings, k, p)
  }

  lemma ArgMaxIsFirst(row: seq<Score>, p: nat)
    requires row != []
    ensures FirstGreatest(row, p) <==> p == ArgMax(row) && row[p].Some?
  {
    var j := ArgMax(row);
    assert row[j].Some? ==> Greatest(row, j);
  }

  lemma GapOfMargin(row: seq<Score>, gap: real, p: nat, q: nat)
    requires Margin(row).Some? ==> Margin(row).value >= gap
    requires Greatest(row, p) && Finite(row, q) && p != q
    ensures row[p].value - row[q].value >= gap
  {
    var r := TopTwo(row);
    assert !Below(r.0, row[p]) && !Below(r.0, row[q]);
    assert r.0 in row;
    var lo, hi := if p < q then p else q, if p < q then q else p;
    assert !Below(r.1, row[lo]) || !Below(r.1, row[hi]);
    assert r.1.Some?;
    assert TwoPlaces(row, r.0, r.1);
  }

  lemma MarginIsGap(row: seq<Score>, gap: real)
    ensures (Margin(row).Some? ==> Margin(row).value >= gap) <==> ClearBy(row, gap)
  {
    if Margin(row).Some? ==> Margin(row).value >= gap {
      forall p: nat, q: nat | Greatest(row, p) && Finite(row, q) && p != q
        ensures row[p].value - row[q].value >= gap
      {
        GapOfMargin(row, gap, p, q);
      }
    }
    if ClearBy(row, gap) && Margin(row).Some? {
      var p, q := TopPlaces(row);
      assert Finite(row, q);
    }
  }

  /** Where the two scores of the margin stand. */
  lemma TopPlaces(row: seq<Score>) returns (p: nat, q: nat)
    requires Margin(row).Some?
    ensures Greatest(row, p) && Finite(row, q) && p != q
    ensures Margin(row).value == row[p].value - row[q].value
    ensures forall k :: 0 <= k < |row| && k != p && row[k].Some? ==> row[k].value <= row[q].value
  {
    var r := TopTwo(row);
    var j, k :| 0 <= j < |row| && 0 <= k < |row| && j != k && row[j] == r.0 && row[k] == r.1;
    p, q := j, k;
    assert forall m :: 0 <= m < |row| ==> !Below(r.0, row[m]);
    forall m | 0 <= m < |row| && m != p && row[m].Some?
      ensures row[m].value <= row[q].value
    {
      var lo, hi := if m < p then m else p, if m < p then p else m;
      assert !Below(r.1, row[lo]) || !Below(r.1, row[hi]);
      assert !Below(r.0, row[m]);
    }
  }

  lemma MarginIffTwo(row: seq<Score>)
    ensures Margin(row).Some? <==> exists p: nat, q: nat :: p != q && Finite(row, p) && Finite(row, q)
  {
    if Margin(row).Some? {
      var p, q := TopPlaces(row);
      assert Finite(row, p) && Finite(row, q);
    }
    if exists p: nat, q: nat :: p != q && Finite(row, p) && Finite(row, q) {
      var p: nat, q: nat :| p != q && Finite(row, p) && Finite(row, q);
      var r := TopTwo(row);
      var lo, hi := if p < q then p else q, if p < q then q else p;
      assert !Below(r.1, row[lo]) || !Below(r.1, row[hi]);
    }
  }

  // ---- Who is drawn where -----------------------------------------------------------------

  ghost predicate Increasing(s: seq<nat>) {
    forall i, j :: 0 <= i < j < |s| ==> s[i] < s[j]
  }

  lemma DrawnToNext(base: Matrix, embeddings: seq<Option<Embedding>>, column: nat, i: nat)
    requires base.Valid() && base.width > 0 && |base.rows| == |embeddings| && i < |embeddings|
    ensures DrawnTo(base, embeddings, column, i + 1)
         == DrawnTo(base, embeddings, column, i) + (if DrawnAt(base, embeddings, i, column) then [i] else [])
  {
    ArgMaxIsFirst(base.rows[i], column);
    hide ArgMax, FirstGreatest;
  }

  lemma {:induction false} DrawnToMeans(base: Matrix, embeddings: seq<Option<Embedding>>, column: nat, n: nat)
    requires base.Valid() && base.width > 0 && |base.rows| == |embeddings| && n <= |embeddings|
    ensures forall i: nat ::
      i in DrawnTo(base, embeddings, column, n) <==> i < n && DrawnAt(base, embeddings, i, column)
    ensures Increasing(DrawnTo(base, embeddings, column, n))
  {
    if n > 0 {
      hide *;
      DrawnToMeans(base, embeddings, column, n - 1);
      DrawnToNext(base, embeddings, column, n - 1);
      IncreasingSnoc(DrawnTo(base, embeddings, column, n - 1), n - 1);
    }
  }

  lemma IncreasingSnoc(s: seq<nat>, x: nat)
    requires Increasing(s) && forall i :: i in s ==> i < x
    ensures Increasing(s + [x]) && Increasing(s + [])
    ensures forall i: nat :: i in s + [x] <==> i in s || i == x
  {
    assert s + [] == s && forall k :: 0 <= k < |s| ==> s[k] in s;
  }

  lemma MoreThanOne(s: seq<nat>, i: nat)
    requires Increasing(s) && i in s
    ensures |s| > 1 <==> exists k :: k in s && k != i
  {
    if |s| > 1 {
      assert s[0] in s && s[1] in s && s[0] != s[1];
    }
  }

  /** The source is drawn somewhere, and others are drawn there too. */
  lemma ContestedIff(base: Matrix, embeddings: seq<Option<Embedding>>, i: nat)
    requires base.Valid() && base.width > 0 && |base.rows| == |embeddings| && i < |embeddings|
    requires embeddings[i].Some? && base.rows[i][ArgMax(base.rows[i])].Some?
    ensures |DrawnTo(base, embeddings, ArgMax(base.rows[i]), |embeddings|)| > 1 <==> Contested(base, embeddings, i)
  {
    var p := ArgMax(base.rows[i]);
    var drawn := DrawnTo(base, embeddings, p, |embeddings|);
    forall q: nat
      ensures FirstGreatest(base.rows[i], q) <==> q == p
    {
      ArgMaxIsFirst(base.rows[i], q);
    }
    DrawnToMeans(base, embeddings, p, |embeddings|);
    hide ArgMax, FirstGreatest, DrawnTo;
    assert DrawnAt(base, embeddings, i, p);
    MoreThanOne(drawn, i);
    if k :| k in drawn && k != i {
      assert DrawnAt(base, embeddings, k, p);
    }
  }

  // ---- The answers ------------------------------------------------------------------------

  /** The source was awarded a speaker it scores at least the threshold with. */
  ghost predicate Awarded(call: Call, i: nat)
    requires call.Solved()
  {
    && call.prototypes != [] && Embedded(call, i) && call.cols[i] < |call.prototypes|
    && call.config.accept.Some?
    && Finite(call.Base().rows[i], call.cols[i])
    && call.Base().rows[i][call.cols[i]].value >= call.config.accept.value
  }

  /** Its best score is clear of the others, and the speaker awarded is the one it is drawn to or nobody
  else is drawn there. */
  ghost predicate Clear(call: Call, i: nat)
    requires call.Solved() && Awarded(call, i) && call.config.margin.Some?
  {
    && ClearBy(call.Base().rows[i], call.config.margin.value)
    && (FirstGreatest(call.Base().rows[i], call.cols[i]) || !Contested(call.Base(), call.embeddings, i))
  }

  lemma DecideIff(base: Matrix, embeddings: seq<Option<Embedding>>, keys: seq<string>, config: Config,
                  cols: seq<nat>, i: nat)
    requires base.Valid() && base.width == |keys| > 0 && |base.rows| == |embeddings| == |cols| && i < |cols|
    requires config.Calibrated() && embeddings[i].Some?
    requires cols[i] < |keys| && Finite(base.rows[i], cols[i]) && base.rows[i][cols[i]].value >= config.accept.value
    ensures var d := Decide(base, embeddings, keys, config, false, cols, i);
      var clear := ClearBy(base.rows[i], config.margin.value)
        && (FirstGreatest(base.rows[i], cols[i]) || !Contested(base, embeddings, i));
      && d.status == (if clear then Linked else Ambiguous)
      && d.speaker == (if clear then Some(keys[cols[i]]) else None)
      && d.reason == (if clear then LinkedFree
                      else if ClearBy(base.rows[i], config.margin.value) then ContestedIdentity else LowMargin)
  {
    var row, j := base.rows[i], cols[i];
    MarginIsGap(row, config.margin.value);
    assert row != [];
    assert !Below(row[ArgMax(row)], row[j]);
    ContestedIff(base, embeddings, i);
    ArgMaxIsFirst(row, j);
    hide ArgMax, TopTwo, Margin, DrawnTo, ClearBy, FirstGreatest, Contested;
  }

  lemma DecideOtherwise(base: Matrix, embeddings: seq<Option<Embedding>>, keys: seq<string>, config: Config,
                        cols: seq<nat>, i: nat)
    requires base.Valid() && base.width == |keys| > 0 && |base.rows| == |embeddings| == |cols| && i < |cols|
    requires config.Calibrated() && embeddings[i].Some?
    requires !(cols[i] < |keys| && Finite(base.rows[i], cols[i]) && base.rows[i][cols[i]].value >= config.accept.value)
    ensures var d := Decide(base, embeddings, keys, config, false, cols, i);
      && d.status == Unknown && d.speaker.None?
      && d.reason == if cols[i] >= |keys| then AssignedDummy else BelowAccept
  {
    hide ArgMax, TopTwo, Margin, DrawnTo;
  }

  /** In an open, calibrated call a source with an embedding is linked exactly when it was awarded a
  speaker above the threshold and is clear; it is ambiguous when it was awarded one and is not clear,
  and unknown otherwise. */
  lemma OpenAnswerIff(call: Call, i: nat)
    requires call.Solved() && i < |call.embeddings| && !call.constrained && call.config.Calibrated()
    ensures call.Result(i).status
         == if !Awarded(call, i) then Unknown else if Clear(call, i) then Linked else Ambiguous
    ensures call.Result(i).speaker
         == if Awarded(call, i) && Clear(call, i) then Some(call.Names()[call.cols[i]]) else None
    ensures call.Result(i).reason
         == if call.embeddings[i].None? then NoEmbedding
            else if call.prototypes == [] then NoPrototype
            else if call.cols[i] >= |call.prototypes| then AssignedDummy
            else if !Awarded(call, i) then BelowAccept
            else if Clear(call, i) then LinkedFree
            else if ClearBy(call.Base().rows[i], call.config.margin.value) then ContestedIdentity
            else LowMargin
  {
    if call.prototypes != [] {
      ResultIs(call, i);
      if Embedded(call, i) {
        if Awarded(call, i) {
          DecideIff(call.Base(), call.embeddings, call.Names(), call.config, call.cols, i);
        } else {
          DecideOtherwise(call.Base(), call.embeddings, call.Names(), call.config, call.cols, i);
        }
      }
    }
    hide Decide, Restrict, Boost, ClearBy, FirstGreatest, Contested, Finite;
  }

  /** In a constrained, calibrated call a source is linked exactly when it was awarded a speaker it can be
  compared with, to that speaker, and is unknown otherwise: nobody is ambiguous. */
  lemma ConstrainedAnswerIff(call: Call, i: nat)
    requires call.Solved() && i < |call.embeddings| && call.constrained && call.config.Calibrated()
    ensures var placed := call.prototypes != [] && call.cols[i] < |call.prototypes| && Embedded(call, i)
        && Finite(call.Base().rows[i], call.cols[i]);
      && call.Result(i).status == (if placed then Linked else Unknown)
      && call.Result(i).speaker == (if placed then Some(call.prototypes[call.cols[i]].key) else None)
  {
    if call.prototypes != [] {
      ResultIs(call, i);
      DecideConstrained(call.Base(), call.embeddings, call.Names(), call.config, call.cols, i);
    }
    hide Decide, Restrict, Boost;
  }

  lemma DecideConstrained(base: Matrix, embeddings: seq<Option<Embedding>>, keys: seq<string>, config: Config,
                          cols: seq<nat>, i: nat)
    requires base.Valid() && base.width == |keys| > 0 && |base.rows| == |embeddings| == |cols| && i < |cols|
    requires config.Calibrated()
    ensures var d := Decide(base, embeddings, keys, config, true, cols, i);
      var placed := cols[i] < |keys| && embeddings[i].Some? && Finite(base.rows[i], cols[i]);
      && d.status == (if placed then Linked else Unknown)
      && d.speaker == (if placed then Some(keys[cols[i]]) else None)
  {
    hide ArgMax, TopTwo, Margin, DrawnTo;
  }

  /** Without calibration every source that could be compared is answered as uncalibrated, and the others
  are unknown. */
  lemma UncalibratedAnswerIff(call: Call, i: nat)
    requires call.Solved() && i < |call.embeddings| && !call.config.Calibrated()
    ensures call.Result(i).status
         == if call.embeddings[i].Some? && call.prototypes != [] then Uncalibrated else Unknown
    ensures call.Result(i).speaker.None?
  {
    hide ArgMax, TopTwo, Margin, DrawnTo, Restrict, Boost;
  }

  lemma ResultIs(call: Call, i: nat)
    requires call.Solved() && i < |call.embeddings| && call.prototypes != []
    ensures |call.cols| == |call.embeddings|
    ensures call.Result(i)
         == Decide(call.Base(), call.embeddings, call.Names(), call.config, call.constrained, call.cols, i)
    ensures call.embeddings[i].None? ==>
      call.Result(i).status == Unknown && call.Result(i).speaker.None? && call.Result(i).reason == NoEmbedding
  {
    hide Restrict, Boost, TopTwo, ArgMax, DrawnTo;
  }

  /** The score reported is the base score of the column awarded, or else the greatest of the row. */
  lemma ReportedScore(call: Call, i: nat)
    requires call.Solved() && call.prototypes != [] && Embedded(call, i)
    ensures |call.cols| == |call.embeddings|
    ensures var row, score := call.Base().rows[i], call.Result(i).score;
      if call.config.Calibrated() && call.cols[i] < |call.prototypes| then score == row[call.cols[i]]
      else if exists p: nat :: Finite(row, p) then score.Some? && exists p: nat :: Greatest(row, p) && row[p] == score
      else score == None
  {
    hide *;
    EmbeddedIs(call, i);
    ResultIs(call, i);
    DecideReports(call.Base(), call.embeddings, call.Names(), call.config, call.constrained, call.cols, i);
    GreatestIsReported(call.Base().rows[i]);
  }

  lemma EmbeddedIs(call: Call, i: nat)
    requires Embedded(call, i)
    ensures i < |call.embeddings| && call.embeddings[i].Some?
  {
  }

  lemma DecideReports(base: Matrix, embeddings: seq<Option<Embedding>>, keys: seq<string>, config: Config,
                      constrained: bool, cols: seq<nat>, i: nat)
    requires base.Valid() && base.width == |keys| > 0 && |base.rows| == |embeddings| == |cols| && i < |cols|
    requires embeddings[i].Some?
    ensures var d, row := Decide(base, embeddings, keys, config, constrained, cols, i), base.rows[i];
      && d.margin == Margin(row)
      && d.score == if config.Calibrated() && cols[i] < |keys| then row[cols[i]] else TopTwo(row).0
  {
    hide ArgMax, TopTwo, Margin, DrawnTo;
  }

  lemma GreatestIsReported(row: seq<Score>)
    ensures if exists p: nat :: Finite(row, p)
            then TopTwo(row).0.Some? && exists p: nat :: Greatest(row, p) && row[p] == TopTwo(row).0
            else TopTwo(row).0 == None
  {
    var top := TopTwo(row).0;
    assert forall k :: 0 <= k < |row| ==> !Below(top, row[k]);
    if top.Some? {
      var q :| 0 <= q < |row| && row[q] == top;
      assert Finite(row, q) && Greatest(row, q);
    }
  }

  /** The margin reported is the lead of a greatest entry over the best of all others, and is there
  exactly when two entries are finite. */
  lemma ReportedMargin(call: Call, i: nat)
    requires call.Solved() && call.prototypes != [] && Embedded(call, i)
    ensures var row, margin := call.Base().rows[i], call.Result(i).margin;
      && (margin.Some? <==> exists p: nat, q: nat :: p != q && Finite(row, p) && Finite(row, q))
      && (margin.Some? ==> exists p: nat, q: nat :: Leads(row, p, q) && margin.value == row[p].value - row[q].value)
  {
    hide *;
    EmbeddedIs(call, i);
    ResultIs(call, i);
    DecideReports(call.Base(), call.embeddings, call.Names(), call.config, call.constrained, call.cols, i);
    MarginLeads(call.Base().rows[i]);
  }

  lemma MarginLeads(row: seq<Score>)
    ensures Margin(row).Some? <==> exists p: nat, q: nat :: p != q && Finite(row, p) && Finite(row, q)
    ensures Margin(row).Some? ==>
      exists p: nat, q: nat :: Leads(row, p, q) && Margin(row).value == row[p].value - row[q].value
  {
    MarginIffTwo(row);
    if Margin(row).Some? {
      var p, q := TopPlaces(row);
      assert Leads(row, p, q);
    }
  }

  ghost predicate Leads(row: seq<Score>, p: nat, q: nat) {
    && Greatest(row, p) && Finite(row, q) && p != q
    && forall k :: 0 <= k < |row| && k != p && row[k].Some? ==> row[k].value <= row[q].value
  }

  // ---- The scores -------------------------------------------------------------------------

  lemma {:induction false} DotSnoc(a: seq<real>, b: seq<real>, x: real, y: real)
    requires |a| == |b|
    ensures Dot(a + [x], b + [y]) == Dot(a, b) + x * y
  {
    if a == [] {
      assert [x][1..] == [] && a + [x] == [x] && b + [y] == [y];
    } else {
      DotSnoc(a[1..], b[1..], x, y);
      assert (a + [x])[1..] == a[1..] + [x] && (b + [y])[1..] == b[1..] + [y];
    }
  }

  /** A finite base score is the similarity of the source and the speaker of the column; the solver
  sees it with the bonus added in the column of the source's previous speaker, and as it is elsewhere. */
  lemma ScoresAre(call: Call, i: nat, j: nat)
    requires i < |call.embeddings| && j < |call.prototypes| && call.Base().rows[i][j].Some?
    ensures call.embeddings[i].Some?
    ensures call.Base().rows[i][j].value == Dot(call.prototypes[j].centroid, call.embeddings[i].value.vector)
    ensures call.Scored().rows[i][j].Some?
    ensures call.Scored().rows[i][j].value - call.Base().rows[i][j].value
         == if call.config.bonus > 0.0 && PreviousColumn(call, i, j) then call.config.bonus else 0.0
  {
    BaseFiniteIff(call, i, j);
    ScoredIs(call, i, j);
    if i in call.previous {
      KeyIndexIsLast(call.Names(), call.previous[i], j);
    }
    hide KeyIndex;
  }

  /** The column is the last one of the speaker that held this source before. */
  ghost predicate PreviousColumn(call: Call, i: nat, j: nat) {
    && i in call.previous && j < |call.prototypes| && call.prototypes[j].key == call.previous[i]
    && forall k :: j < k < |call.prototypes| ==> call.prototypes[k].key != call.previous[i]
  }

  lemma {:induction false} KeyIndexIsLast(keys: seq<string>, key: string, j: nat)
    ensures KeyIndex(keys, key) == Some(j) <==>
      j < |keys| && keys[j] == key && forall k :: j < k < |keys| ==> keys[k] != key
  {
    if keys != [] && keys[|keys| - 1] != key {
      KeyIndexIsLast(keys[..|keys| - 1], key, j);
    }
  }
}
