/** Linking separated sources to session speakers.

The score matrix is masked to the speakers the diarizer reports, boosted for continuity, extended by
dummy columns and handed to an optimal assignment; the gates then read the assignment.  The lemmas
say what the gates can see, for every optimal assignment a solver may return.
*/
module SourceLinking {
  import opened Assignment
  import opened Options

  datatype Embedding = Embedding(vector: seq<real>)

  datatype Prototype = Prototype(key: string, centroid: seq<real>)

  datatype Config = Config(accept: Score, margin: Score, bonus: real) {
    predicate Calibrated() {
      accept.Some? && margin.Some?
    }
  }

  datatype Status = Linked | Unknown | Ambiguous | Uncalibrated

  datatype Reason =
    | NoEmbedding | NoPrototype | UncalibratedThreshold | AssignedDummy | BelowAccept
    | LowMargin | ContestedIdentity | LinkedFree | LinkedConstrained

  datatype Decision = Decision(speaker: Option<string>, status: Status, score: Score, margin: Score, reason: Reason)

  // ---- Score matrix -----------------------------------------------------------------------

  function Dot(a: seq<real>, b: seq<real>): real {
    if a == [] || b == [] then 0.0 else a[0] * b[0] + Dot(a[1..], b[1..])
  }

  function ScoreRow(e: Option<Embedding>, prototypes: seq<Prototype>): (r: seq<Score>)
    ensures |r| == |prototypes|
    ensures forall j :: 0 <= j < |r| ==> (r[j].Some? <==> e.Some?)
  {
    seq(|prototypes|, j requires 0 <= j < |prototypes| =>
      if e.Some? then Some(Dot(prototypes[j].centroid, e.value.vector)) else None)
  }

  function ScoreMatrix(embeddings: seq<Option<Embedding>>, prototypes: seq<Prototype>): (m: Matrix)
    ensures m.Valid() && |m.rows| == |embeddings| && m.width == |prototypes|
    ensures forall i :: 0 <= i < |embeddings| ==> m.rows[i] == ScoreRow(embeddings[i], prototypes)
  {
    Matrix(seq(|embeddings|, i requires 0 <= i < |embeddings| => ScoreRow(embeddings[i], prototypes)), |prototypes|)
  }

  function Keys(prototypes: seq<Prototype>): (r: seq<string>)
    ensures |r| == |prototypes| && forall j :: 0 <= j < |r| ==> r[j] == prototypes[j].key
  {
    seq(|prototypes|, j requires 0 <= j < |prototypes| => prototypes[j].key)
  }

  function MaskRow(row: seq<Score>, keys: seq<string>, candidates: set<string>): (r: seq<Score>)
    requires |row| == |keys|
    ensures |r| == |row|
    ensures forall j :: 0 <= j < |r| ==> r[j] == if keys[j] in candidates then row[j] else None
  {
    seq(|row|, j requires 0 <= j < |row| => if keys[j] in candidates then row[j] else None)
  }

  function Mask(m: Matrix, keys: seq<string>, candidates: set<string>): (r: Matrix)
    requires m.Valid() && |keys| == m.width
    ensures r.Valid() && |r.rows| == |m.rows| && r.width == m.width
    ensures forall i :: 0 <= i < |m.rows| ==> r.rows[i] == MaskRow(m.rows[i], keys, candidates)
  {
    Matrix(seq(|m.rows|, i requires 0 <= i < |m.rows| => MaskRow(m.rows[i], keys, candidates)), m.width)
  }

  predicate BlankRow(row: seq<Score>) {
    forall j :: 0 <= j < |row| ==> row[j].None?
  }

  predicate Blank(m: Matrix) {
    forall i :: 0 <= i < |m.rows| ==> BlankRow(m.rows[i])
  }

  /** No candidates, or none that scores anywhere, is no opinion: the matrix stays as it is. */
  function Restrict(m: Matrix, keys: seq<string>, candidates: Option<set<string>>): (r: Matrix)
    requires m.Valid() && |keys| == m.width
    ensures r.Valid() && |r.rows| == |m.rows| && r.width == m.width
  {
    if candidates.None? || candidates.value == {} then m
    else
      var masked := Mask(m, keys, candidates.value);
      if Blank(masked) then m else masked
  }

  /** Index of the last column with this key. */
  function KeyIndex(keys: seq<string>, key: string): (r: Option<nat>)
    ensures r.Some? ==> r.value < |keys| && keys[r.value] == key
    ensures r.None? <==> key !in keys
  {
    if keys == [] then None
    else if keys[|keys| - 1] == key then Some(|keys| - 1)
    else KeyIndex(keys[..|keys| - 1], key)
  }

  function Bonus(keys: seq<string>, previous: map<nat, string>, bonus: real, i: nat, j: nat): real {
    if bonus > 0.0 && i in previous && KeyIndex(keys, previous[i]) == Some(j) then bonus else 0.0
  }

  function BoostRow(row: seq<Score>, keys: seq<string>, previous: map<nat, string>, bonus: real, i: nat)
    : (r: seq<Score>)
    requires |row| == |keys|
    ensures |r| == |row|
    ensures forall j :: 0 <= j < |r| ==>
      r[j] == if row[j].Some? then Some(row[j].value + Bonus(keys, previous, bonus, i, j)) else None
  {
    seq(|row|, j requires 0 <= j < |row| =>
      if row[j].Some? then Some(row[j].value + Bonus(keys, previous, bonus, i, j)) else None)
  }

  function Boost(m: Matrix, keys: seq<string>, previous: map<nat, string>, bonus: real): (r: Matrix)
    requires m.Valid() && |keys| == m.width
    ensures r.Valid() && |r.rows| == |m.rows| && r.width == m.width
    ensures forall i :: 0 <= i < |m.rows| ==> r.rows[i] == BoostRow(m.rows[i], keys, previous, bonus, i)
  {
    Matrix(seq(|m.rows|, i requires 0 <= i < |m.rows| => BoostRow(m.rows[i], keys, previous, bonus, i)), m.width)
  }

  // ---- Reading the assignment -------------------------------------------------------------

  predicate Below(a: Score, b: Score) {
    match (a, b)
    case (_, None) => false
    case (None, Some(_)) => true
    case (Some(x), Some(y)) => x < y
  }

  /** `np.argmax`: the first index of the greatest entry. */
  function ArgMax(row: seq<Score>): (j: nat)
    requires row != []
    ensures j < |row|
    ensures forall k :: 0 <= k < |row| ==> !Below(row[j], row[k])
    ensures forall k :: 0 <= k < j ==> Below(row[k], row[j])
  {
    if |row| == 1 then 0
    else
      var j := ArgMax(row[..|row| - 1]);
      if Below(row[j], row[|row| - 1]) then |row| - 1 else j
  }

  /** The two scores stand at two different places of the row. */
  predicate TwoPlaces(row: seq<Score>, a: Score, b: Score) {
    exists j, k :: 0 <= j < |row| && 0 <= k < |row| && j != k && row[j] == a && row[k] == b
  }

  lemma PlacesMore(row: seq<Score>, x: Score, a: Score, b: Score)
    ensures TwoPlaces(row, a, b) ==> TwoPlaces(row + [x], a, b)
    ensures a in row ==> TwoPlaces(row + [x], a, x) && TwoPlaces(row + [x], x, a)
  {
    var all := row + [x];
    assert all[|row|] == x;
    if TwoPlaces(row, a, b) {
      var j, k :| 0 <= j < |row| && 0 <= k < |row| && j != k && row[j] == a && row[k] == b;
      assert all[j] == a && all[k] == b;
    }
    if a in row {
      var j :| 0 <= j < |row| && row[j] == a;
      assert all[j] == a;
    }
  }

  /** The greatest finite entry and the next one, which may be equal; missing when the row has no such
  entries. */
  function TopTwo(row: seq<Score>): (r: (Score, Score))
    ensures r.0.None? ==> r.1.None?
    ensures r.0.Some? ==> r.0 in row
    ensures r.1.Some? ==> TwoPlaces(row, r.0, r.1)
    ensures forall j :: 0 <= j < |row| ==> !Below(r.0, row[j])
    ensures forall j, k :: 0 <= j < k < |row| ==> !Below(r.1, row[j]) || !Below(r.1, row[k])
  {
    if row == [] then (None, None)
    else
      var (a, b) := TopTwo(row[..|row| - 1]);
      var x := row[|row| - 1];
      PlacesMore(row[..|row| - 1], x, a, b);
      assert row[..|row| - 1] + [x] == row;
      if Below(a, x) then (x, a) else if Below(b, x) then (a, x) else (a, b)
  }

  function Margin(row: seq<Score>): Score {
    var (a, b) := TopTwo(row);
    if b.Some? then Some(a.value - b.value) else None
  }

  /** The embedded rows whose best column is `column`. */
  function DrawnTo(base: Matrix, embeddings: seq<Option<Embedding>>, column: nat, n: nat): seq<nat>
    requires base.Valid() && base.width > 0 && |base.rows| == |embeddings| && n <= |embeddings|
  {
    if n == 0 then []
    else
      var i := n - 1;
      var best := ArgMax(base.rows[i]);
      DrawnTo(base, embeddings, column, i)
      + (if embeddings[i].Some? && base.rows[i][best].Some? && best == column then [i] else [])
  }

  function Decide(base: Matrix, embeddings: seq<Option<Embedding>>, keys: seq<string>, config: Config,
                  constrained: bool, cols: seq<nat>, i: nat): Decision
    requires base.Valid() && base.width == |keys| > 0 && |base.rows| == |embeddings| == |cols| && i < |cols|
  {
    if embeddings[i].None? then Decision(None, Unknown, None, None, NoEmbedding)
    else
      var row, j := base.rows[i], cols[i];
      var top, margin := TopTwo(row).0, Margin(row);
      if !config.Calibrated() then Decision(None, Uncalibrated, top, margin, UncalibratedThreshold)
      else if j >= |keys| then Decision(None, Unknown, top, margin, AssignedDummy)
      else
        var score := row[j];
        if constrained && score.Some? then Decision(Some(keys[j]), Linked, score, margin, LinkedConstrained)
        else if Below(score, config.accept) then Decision(None, Unknown, score, margin, BelowAccept)
        else if margin.Some? && margin.value < config.margin.value then
          Decision(None, Ambiguous, score, margin, LowMargin)
        else
          var preferred := ArgMax(row);
          if |DrawnTo(base, embeddings, preferred, |cols|)| > 1 && j != preferred then
            Decision(None, Ambiguous, score, margin, ContestedIdentity)
          else Decision(Some(keys[j]), Linked, score, margin, LinkedFree)
  }

  function DummyScore(config: Config, constrained: bool): Score {
    if constrained then None else if config.accept.Some? then config.accept else Some(0.0)
  }

  /** One call: its inputs, and the assignment the solver returned. */
  datatype Call = Call(embeddings: seq<Option<Embedding>>, prototypes: seq<Prototype>, config: Config,
                       previous: map<nat, string>, candidates: Option<set<string>>, constrained: bool,
                       cols: seq<nat>)
  {
    function Names(): (r: seq<string>)
      ensures |r| == |prototypes|
    {
      Keys(prototypes)
    }

    function Base(): (m: Matrix)
      ensures m.Valid() && |m.rows| == |embeddings| && m.width == |prototypes|
    {
      Restrict(ScoreMatrix(embeddings, prototypes), Names(), candidates)
    }

    function Scored(): (m: Matrix)
      ensures m.Valid() && |m.rows| == |embeddings| && m.width == |prototypes|
    {
      Boost(Base(), Names(), previous, config.bonus)
    }

    ghost predicate Solved() {
      prototypes != [] ==> Optimal(Scored(), DummyScore(config, constrained), cols)
    }

    ghost function Result(i: nat): Decision
      requires Solved() && i < |embeddings|
    {
      if prototypes == [] then
        Decision(None, Unknown, None, None, if embeddings[i].Some? then NoPrototype else NoEmbedding)
      else Decide(Base(), embeddings, Names(), config, constrained, cols, i)
    }
  }

  method BuildScoreMatrix(embeddings: seq<Option<Embedding>>, prototypes: seq<Prototype>) returns (matrix: Matrix)
    ensures matrix == ScoreMatrix(embeddings, prototypes)
  {
    var rows: seq<seq<Score>> := [];
    for i := 0 to |embeddings|
      invariant |rows| == i && forall k :: 0 <= k < i ==> rows[k] == ScoreRow(embeddings[k], prototypes)
    {
      var row: seq<Score> := seq(|prototypes|, j => None);
      if embeddings[i].Some? {
        for j := 0 to |prototypes|
          invariant |row| == |prototypes|
          invariant forall k :: 0 <= k < j ==> row[k] == ScoreRow(embeddings[i], prototypes)[k]
        {
          row := row[j := Some(Dot(prototypes[j].centroid, embeddings[i].value.vector))];
        }
      }
      assert row == ScoreRow(embeddings[i], prototypes);
      rows := rows + [row];
    }
    matrix := Matrix(rows, |prototypes|);
    assert matrix.rows == ScoreMatrix(embeddings, prototypes).rows;
  }

  method RestrictToCandidates(matrix: Matrix, keys: seq<string>, candidates: Option<set<string>>)
    returns (restricted: Matrix)
    requires matrix.Valid() && |keys| == matrix.width
    ensures restricted == Restrict(matrix, keys, candidates)
  {
    if candidates.None? || candidates.value == {} {
      return matrix;
    }
    var rows := matrix.rows;
    for j := 0 to |keys|
      invariant |rows| == |matrix.rows|
      invariant forall i :: 0 <= i < |rows| ==> MaskedUpTo(rows[i], matrix.rows[i], keys, candidates.value, j)
    {
      if keys[j] !in candidates.value {
        rows := BlankColumn(rows, j);
      }
    }
    var masked := Matrix(rows, matrix.width);
    forall i | 0 <= i < |rows|
      ensures rows[i] == MaskRow(matrix.rows[i], keys, candidates.value)
    {
      assert MaskedUpTo(rows[i], matrix.rows[i], keys, candidates.value, |keys|);
    }
    assert masked.rows == Mask(matrix, keys, candidates.value).rows;
    restricted := if Blank(masked) then matrix else masked;
  }

  ghost predicate MaskedUpTo(row: seq<Score>, original: seq<Score>, keys: seq<string>,
                               candidates: set<string>, j: nat)
  {
    && |row| == |original| == |keys|
    && forall k :: 0 <= k < |row| ==> row[k] == if k < j && keys[k] !in candidates then None else original[k]
  }

  /** `restricted[:, j] = -inf`. */
  function BlankColumn(rows: seq<seq<Score>>, j: nat): (r: seq<seq<Score>>)
    requires forall i :: 0 <= i < |rows| ==> j < |rows[i]|
    ensures |r| == |rows| && forall i :: 0 <= i < |r| ==> r[i] == rows[i][j := None]
  {
    seq(|rows|, i requires 0 <= i < |rows| => rows[i][j := None])
  }

  method ApplyContinuityBonus(matrix: Matrix, keys: seq<string>, previous: map<nat, string>, bonus: real)
    returns (boosted: Matrix)
    requires matrix.Valid() && |keys| == matrix.width
    ensures boosted == Boost(matrix, keys, previous, bonus)
  {
    var rows := matrix.rows;
    if bonus > 0.0 {
      var remaining := previous.Keys;
      while remaining != {}
        invariant remaining <= previous.Keys && |rows| == |matrix.rows|
        invariant forall i :: 0 <= i < |rows| ==>
          rows[i] == if i in previous && i !in remaining
                     then BoostRow(matrix.rows[i], keys, previous, bonus, i) else matrix.rows[i]
        decreases remaining
      {
        var source :| source in remaining;
        remaining := remaining - {source};
        var column := KeyIndex(keys, previous[source]);
        if column.None? || source >= |rows| || rows[source][column.value].None? {
          assert source < |rows| ==> BoostRow(rows[source], keys, previous, bonus, source) == rows[source];
          continue;
        }
        var score := rows[source][column.value].value;
        rows := rows[source := rows[source][column.value := Some(score + bonus)]];
        assert rows[source] == BoostRow(matrix.rows[source], keys, previous, bonus, source);
      }
    }
    forall i | 0 <= i < |rows|
      ensures rows[i] == BoostRow(matrix.rows[i], keys, previous, bonus, i)
    {
    }
    boosted := Matrix(rows, matrix.width);
    assert boosted.rows == Boost(matrix, keys, previous, bonus).rows;
  }

  method LinkSources(call: Call) returns (decisions: seq<Decision>)
    requires call.Solved()
    ensures |decisions| == |call.embeddings|
    ensures forall i :: 0 <= i < |decisions| ==> decisions[i] == call.Result(i)
  {
    var embeddings, config := call.embeddings, call.config;
    decisions := [];
    if call.prototypes == [] {
      for i := 0 to |embeddings|
        invariant |decisions| == i && forall k :: 0 <= k < i ==> decisions[k] == call.Result(k)
      {
        decisions := decisions
          + [Decision(None, Unknown, None, None, if embeddings[i].Some? then NoPrototype else NoEmbedding)];
      }
      return;
    }
    var keys := call.Names();
    var matrix := BuildScoreMatrix(embeddings, call.prototypes);
    var base := RestrictToCandidates(matrix, keys, call.candidates);
    var scored := ApplyContinuityBonus(base, keys, call.previous, config.bonus);
    assert scored == call.Scored();  // extended by the dummies, this is what `call.cols` solves
    var owners := ArgMaxOwners(base, embeddings);
    for i := 0 to |embeddings|
      invariant |decisions| == i && forall k :: 0 <= k < i ==> decisions[k] == call.Result(k)
    {
      var d: Decision;
      var row, j := base.rows[i], call.cols[i];
      if embeddings[i].None? {
        d := Decision(None, Unknown, None, None, NoEmbedding);
      } else if !config.Calibrated() {
        d := Decision(None, Uncalibrated, TopTwo(row).0, Margin(row), UncalibratedThreshold);
      } else if j >= |keys| {
        d := Decision(None, Unknown, TopTwo(row).0, Margin(row), AssignedDummy);
      } else if call.constrained && row[j].Some? {
        d := Decision(Some(keys[j]), Linked, row[j], Margin(row), LinkedConstrained);
      } else if Below(row[j], config.accept) {
        d := Decision(None, Unknown, row[j], Margin(row), BelowAccept);
      } else if Margin(row).Some? && Margin(row).value < config.margin.value {
        d := Decision(None, Ambiguous, row[j], Margin(row), LowMargin);
      } else {
        var preferred := ArgMax(row);
        if |Owners(owners, preferred)| > 1 && j != preferred {
          d := Decision(None, Ambiguous, row[j], Margin(row), ContestedIdentity);
        } else {
          d := Decision(Some(keys[j]), Linked, row[j], Margin(row), LinkedFree);
        }
      }
      assert d == call.Result(i);
      decisions := decisions + [d];
    }
  }

  /** `argmax_owner`: which embedded rows are drawn to each column. */
  method ArgMaxOwners(base: Matrix, embeddings: seq<Option<Embedding>>) returns (owners: map<nat, seq<nat>>)
    requires base.Valid() && base.width > 0 && |base.rows| == |embeddings|
    ensures forall c: nat :: Owners(owners, c) == DrawnTo(base, embeddings, c, |embeddings|)
  {
    hide ArgMax, DrawnTo;
    owners := map[];
    assert forall c: nat :: DrawnTo(base, embeddings, c, 0) == [] by {
      DrawnToNone(base, embeddings);
    }
    for i := 0 to |embeddings|
      invariant forall c: nat :: Owners(owners, c) == DrawnTo(base, embeddings, c, i)
    {
      DrawnToStep(base, embeddings, i);
      if embeddings[i].None? {
        continue;
      }
      var best := ArgMax(base.rows[i]);
      if base.rows[i][best].Some? {
        owners := owners[best := Owners(owners, best) + [i]];
      }
    }
  }

  function Owners(owners: map<nat, seq<nat>>, column: nat): seq<nat> {
    if column in owners then owners[column] else []
  }

  lemma DrawnToNone(base: Matrix, embeddings: seq<Option<Embedding>>)
    requires base.Valid() && base.width > 0 && |base.rows| == |embeddings|
    ensures forall c: nat :: DrawnTo(base, embeddings, c, 0) == []
  {
  }

  lemma DrawnToStep(base: Matrix, embeddings: seq<Option<Embedding>>, i: nat)
    requires base.Valid() && base.width > 0 && |base.rows| == |embeddings| && i < |embeddings|
    ensures var best := ArgMax(base.rows[i]);
      var drawn := embeddings[i].Some? && base.rows[i][best].Some?;
      forall c: nat ::
        DrawnTo(base, embeddings, c, i + 1)
        == DrawnTo(base, embeddings, c, i) + (if drawn && best == c then [i] else [])
  {
  }

  // ---- What the gates can see -------------------------------------------------------------

  ghost predicate Embedded(call: Call, i: nat) {
    i < |call.embeddings| && call.embeddings[i].Some?
  }

  /** The column takes part: nothing is masked, or its speaker is a candidate. */
  ghost predicate Unmasked(call: Call, j: nat) {
    && j < |call.prototypes|
    && (|| call.candidates.None?
        || call.Names()[j] in call.candidates.value
        || forall k :: 0 <= k < |call.prototypes| ==> call.Names()[k] !in call.candidates.value)
  }

  /** A base score is finite exactly for an embedded source on an unmasked column. */
  lemma BaseFiniteIff(call: Call, i: nat, j: nat)
    requires i < |call.embeddings| && j < |call.prototypes|
    ensures call.Base().rows[i][j].Some? <==> Embedded(call, i) && Unmasked(call, j)
  {
    var m := ScoreMatrix(call.embeddings, call.prototypes);
    if call.candidates.Some? && call.candidates.value != {} {
      var masked := Mask(m, call.Names(), call.candidates.value);
      if Embedded(call, i) && call.Names()[j] in call.candidates.value {
        assert masked.rows[i][j].Some?;
      }
      if Embedded(call, i) && Blank(masked) {
        forall k | 0 <= k < |call.prototypes|
          ensures call.Names()[k] !in call.candidates.value
        {
          assert BlankRow(masked.rows[i]) && masked.rows[i][k].None?;
        }
      }
    }
  }

  lemma ScoredIs(call: Call, i: nat, j: nat)
    requires i < |call.embeddings| && j < |call.prototypes|
    ensures var base, scored := call.Base().rows[i][j], call.Scored().rows[i][j];
      && (scored.Some? <==> base.Some?)
      && (base.Some? ==> scored.value == base.value + Bonus(call.Names(), call.previous, call.config.bonus, i, j))
  {
  }

  /** The gate below the threshold can only see what the continuity bonus lifted over it. */
  lemma BelowAcceptOnlyByBonus(call: Call, i: nat)
    requires call.Solved() && i < |call.embeddings| && !call.constrained
    requires call.Result(i).reason == BelowAccept
    ensures call.config.Calibrated() && call.cols[i] < |call.prototypes|
    ensures var score := call.Base().rows[i][call.cols[i]];
      && score.Some?
      && call.config.accept.value - call.config.bonus <= score.value < call.config.accept.value
      && i in call.previous && call.previous[i] == call.Names()[call.cols[i]]
  {
    hide TopTwo, ArgMax, TwoPlaces, DrawnTo;
    var j := call.cols[i];
    NothingMisplaced(call.Scored(), call.config.accept.value, call.cols, i);
    ScoredIs(call, i, j);
  }

  /** In an open assignment a source without an embedding, or a masked speaker, is never assigned,
  and whatever is assigned to a speaker has a boosted score at the threshold or above. */
  lemma OpenAssignmentSupported(call: Call, i: nat)
    requires call.Solved() && call.prototypes != [] && i < |call.embeddings|
    requires !call.constrained && call.config.Calibrated() && call.cols[i] < |call.prototypes|
    ensures Embedded(call, i) && Unmasked(call, call.cols[i])
    ensures var scored := call.Scored().rows[i][call.cols[i]];
      scored.Some? && scored.value >= call.config.accept.value
  {
    NothingMisplaced(call.Scored(), call.config.accept.value, call.cols, i);
    ScoredIs(call, i, call.cols[i]);
    BaseFiniteIff(call, i, call.cols[i]);
  }

  /** A source is left to the dummy only if every speaker it scores above the threshold went to a
  source that scores there at least as well. */
  lemma UnknownMeansOutbid(call: Call, i: nat, j: nat)
    requires call.Solved() && i < |call.embeddings| && !call.constrained
    requires call.Result(i).reason == AssignedDummy && j < |call.prototypes|
    requires var s := call.Scored().rows[i][j]; s.Some? && s.value > call.config.accept.value
    ensures |call.cols| == |call.embeddings|
    ensures exists k :: 0 <= k < |call.cols| && k != i && Outbids(call.Scored(), call.cols, k, i, j)
  {
    OutbidOnly(call.Scored(), call.config.accept.value, call.cols, i, j);
  }

  ghost predicate IsLinked(call: Call, i: nat)
    requires call.Solved() && i < |call.embeddings|
  {
    call.Result(i).status == Linked
  }

  lemma GatesPassed(base: Matrix, embeddings: seq<Option<Embedding>>, keys: seq<string>, config: Config,
                    constrained: bool, cols: seq<nat>, i: nat)
    requires base.Valid() && base.width == |keys| > 0 && |base.rows| == |embeddings| == |cols| && i < |cols|
    requires Decide(base, embeddings, keys, config, constrained, cols, i).status == Linked
    ensures embeddings[i].Some? && config.Calibrated() && cols[i] < |keys| && base.rows[i][cols[i]].Some?
    ensures Decide(base, embeddings, keys, config, constrained, cols, i).speaker == Some(keys[cols[i]])
    ensures !constrained ==>
      var row := base.rows[i];
      && row[cols[i]].value >= config.accept.value
      && (Margin(row).Some? ==> Margin(row).value >= config.margin.value)
  {
    hide ArgMax, TopTwo, TwoPlaces, DrawnTo, Margin;
  }

  /** A link names the speaker of the assigned column, for an embedded source and an unmasked
  column; outside the constrained mode it also has score and margin above their thresholds. */
  lemma LinkIsSupported(call: Call, i: nat)
    requires call.Solved() && i < |call.embeddings| && IsLinked(call, i)
    ensures call.config.Calibrated() && call.prototypes != [] && call.cols[i] < |call.prototypes|
    ensures call.Result(i).speaker == Some(call.Names()[call.cols[i]])
    ensures Embedded(call, i) && Unmasked(call, call.cols[i])
    ensures !call.constrained ==>
      var row := call.Base().rows[i];
      && row[call.cols[i]].Some? && row[call.cols[i]].value >= call.config.accept.value
      && (Margin(row).Some? ==> Margin(row).value >= call.config.margin.value)
  {
    hide TopTwo, ArgMax, TwoPlaces, DrawnTo, Margin, Decide, Restrict, Boost, Unmasked;
    GatesPassed(call.Base(), call.embeddings, call.Names(), call.config, call.constrained, call.cols, i);
    BaseFiniteIff(call, i, call.cols[i]);
  }

  lemma UncalibratedLinksNobody(call: Call, i: nat)
    requires call.Solved() && i < |call.embeddings| && !call.config.Calibrated()
    ensures !IsLinked(call, i) && call.Result(i).speaker.None?
  {
  }

  /** Two links never share a column, so never a speaker when speakers have distinct keys. */
  lemma LinksAreInjective(call: Call, i: nat, k: nat)
    requires call.Solved() && i < k < |call.embeddings| && IsLinked(call, i) && IsLinked(call, k)
    ensures call.cols[i] != call.cols[k]
    ensures (forall a, b :: 0 <= a < b < |call.prototypes| ==> call.Names()[a] != call.Names()[b])
      ==> call.Result(i).speaker != call.Result(k).speaker
  {
    LinkIsSupported(call, i);
    LinkIsSupported(call, k);
    assert Distinct(call.cols);
    assert call.cols[i] != call.cols[k];
  }

  // ---- The constrained permutation --------------------------------------------------------

  ghost function EmbeddedRows(call: Call): set<nat> {
    set i: nat | i < |call.embeddings| && Embedded(call, i)
  }

  ghost function UnmaskedColumns(call: Call): set<nat> {
    set j: nat | j < |call.prototypes| && Unmasked(call, j)
  }

  lemma ScoredIsGrid(call: Call)
    ensures Grid(call.Scored(), EmbeddedRows(call), UnmaskedColumns(call))
  {
    forall i: nat, j: nat | i < |call.embeddings| && j < |call.prototypes|
      ensures call.Scored().rows[i][j].Some? <==> i in EmbeddedRows(call) && j in UnmaskedColumns(call)
    {
      ScoredIs(call, i, j);
      BaseFiniteIff(call, i, j);
    }
  }

  /** Under a constrained permutation a source is linked exactly when it is placed on a real score. */
  lemma ConstrainedLinkIff(call: Call, i: nat)
    requires call.Solved() && call.prototypes != [] && i < |call.embeddings|
    requires call.constrained && call.config.Calibrated()
    ensures IsLinked(call, i) <==> Placed(call.Scored(), call.cols, i)
  {
    if call.cols[i] < |call.prototypes| {
      ScoredIs(call, i, call.cols[i]);
      BaseFiniteIff(call, i, call.cols[i]);
    }
  }

  /** Every embedded source is linked exactly when there are speakers enough. */
  lemma ConstrainedLinksAllIff(call: Call)
    requires call.Solved() && call.prototypes != [] && call.constrained && call.config.Calibrated()
    ensures (forall i :: i in EmbeddedRows(call) ==> IsLinked(call, i))
      <==> |UnmaskedColumns(call)| >= |EmbeddedRows(call)|
  {
    ScoredIsGrid(call);
    AllPlacedIff(call.Scored(), EmbeddedRows(call), UnmaskedColumns(call), call.cols);
    forall i | i in EmbeddedRows(call)
      ensures IsLinked(call, i) <==> Placed(call.Scored(), call.cols, i)
    {
      ConstrainedLinkIff(call, i);
    }
  }

  /** For every call some assignment solves it, so the statements above are about something. */
  lemma EveryCallSolvable(call: Call)
    ensures exists cols :: call.(cols := cols).Solved()
  {
    OptimalExists(call.Scored(), DummyScore(call.config, call.constrained));
    var cols :| Optimal(call.Scored(), DummyScore(call.config, call.constrained), cols);
    assert call.(cols := cols).Scored() == call.Scored();
    assert call.(cols := cols).Solved();
  }
}
