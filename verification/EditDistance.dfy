/** Word error rate: a rolling-row table against the shortest edit script.

`Distance` is the table's recurrence.  Its meaning is independent of the table: it is the least
number of single-token insertions, deletions and replacements that turn one token list into the
other, and it is a metric.
*/
module EditDistance {
  import opened Options

  type Token = string

  function Least(a: nat, b: nat, c: nat): nat {
    if a <= b && a <= c then a else if b <= c then b else c
  }

  function Init(s: seq<Token>): seq<Token>
    requires s != []
  {
    s[..|s| - 1]
  }

  function Last(s: seq<Token>): Token
    requires s != []
  {
    s[|s| - 1]
  }

  function Mismatch(x: Token, y: Token): nat {
    if x != y then 1 else 0
  }

  function Distance(a: seq<Token>, b: seq<Token>): nat
    decreases |a| + |b|
  {
    if a == [] then |b|
    else if b == [] then |a|
    else Least(Distance(Init(a), b) + 1,
               Distance(a, Init(b)) + 1,
               Distance(Init(a), Init(b)) + Mismatch(Last(a), Last(b)))
  }

  /** The error rate of a token list against a reference; an empty reference has its own rule. */
  method WordErrorRate(expected: seq<Token>, actual: seq<Token>) returns (rate: real)
    ensures expected == [] ==> rate == if actual == [] then 0.0 else 1.0
    ensures expected != [] ==> rate == Distance(expected, actual) as real / |expected| as real
  {
    if expected == [] {
      return if actual == [] then 0.0 else 1.0;
    }
    var row := seq(|actual| + 1, (j: nat) => j);
    for i := 0 to |expected|
      invariant |row| == |actual| + 1
      invariant forall j :: 0 <= j <= |actual| ==> row[j] == Distance(expected[..i], actual[..j])
    {
      row := NextRow(expected[..i], expected[i], actual, row);
      assert expected[..i + 1] == expected[..i] + [expected[i]];
    }
    assert expected[..|expected|] == expected && actual[..|actual|] == actual;
    rate := row[|row| - 1] as real / |expected| as real;
  }

  /** One row of the table from the row above it. */
  method NextRow(above: seq<Token>, token: Token, actual: seq<Token>, row: seq<nat>)
    returns (nextRow: seq<nat>)
    requires |row| == |actual| + 1
    requires forall j :: 0 <= j <= |actual| ==> row[j] == Distance(above, actual[..j])
    ensures |nextRow| == |actual| + 1
    ensures forall j :: 0 <= j <= |actual| ==> nextRow[j] == Distance(above + [token], actual[..j])
  {
    hide Distance, Least, Mismatch;
    assert actual[..0] == [];
    AgainstEmpty(above + [token]);
    nextRow := [|above| + 1];
    for j := 0 to |actual|
      invariant |nextRow| == j + 1
      invariant forall k :: 0 <= k <= j ==> nextRow[k] == Distance(above + [token], actual[..k])
    {
      CellStep(above, token, actual[..j], actual[j]);
      assert actual[..j + 1] == actual[..j] + [actual[j]];
      nextRow := nextRow + [Least(row[j + 1] + 1, nextRow[j] + 1, row[j] + Mismatch(token, actual[j]))];
    }
  }

  lemma AgainstEmpty(a: seq<Token>)
    ensures Distance(a, []) == |a| && Distance([], a) == |a|
  {
  }

  lemma CellStep(a: seq<Token>, x: Token, b: seq<Token>, y: Token)
    ensures Distance(a + [x], b + [y])
         == Least(Distance(a, b + [y]) + 1, Distance(a + [x], b) + 1, Distance(a, b) + Mismatch(x, y))
  {
    assert Init(a + [x]) == a && Init(b + [y]) == b;
  }

  // ---- A metric ---------------------------------------------------------------------------

  /** The distance lies between the difference of the lengths and the longer length. */
  lemma {:induction false} DistanceBounds(a: seq<Token>, b: seq<Token>)
    ensures |a| - |b| <= Distance(a, b) && |b| - |a| <= Distance(a, b)
    ensures Distance(a, b) <= if |a| >= |b| then |a| else |b|
    decreases |a| + |b|
  {
    if a != [] && b != [] {
      DistanceBounds(Init(a), b);
      DistanceBounds(a, Init(b));
      DistanceBounds(Init(a), Init(b));
    }
  }

  lemma {:induction false} DistanceSymmetric(a: seq<Token>, b: seq<Token>)
    ensures Distance(a, b) == Distance(b, a)
    decreases |a| + |b|
  {
    if a != [] && b != [] {
      DistanceSymmetric(Init(a), b);
      DistanceSymmetric(a, Init(b));
      DistanceSymmetric(Init(a), Init(b));
    }
  }

  lemma {:induction false} DistanceZeroIff(a: seq<Token>, b: seq<Token>)
    ensures Distance(a, b) == 0 <==> a == b
    decreases |a| + |b|
  {
    if a != [] && b != [] {
      DistanceZeroIff(Init(a), Init(b));
      assert a == Init(a) + [Last(a)] && b == Init(b) + [Last(b)];
    }
  }

  lemma StepBounds(a: seq<Token>, b: seq<Token>)
    requires a != [] && b != []
    ensures Distance(a, b) <= Distance(Init(a), b) + 1
    ensures Distance(a, b) <= Distance(a, Init(b)) + 1
    ensures Distance(a, b) <= Distance(Init(a), Init(b)) + Mismatch(Last(a), Last(b))
  {
  }

  lemma {:induction false} Triangle(a: seq<Token>, b: seq<Token>, c: seq<Token>)
    ensures Distance(a, c) <= Distance(a, b) + Distance(b, c)
    decreases |a| + |b| + |c|
  {
    if a == [] || b == [] || c == [] {
      DistanceBounds(a, c);
      DistanceBounds(a, b);
      DistanceBounds(b, c);
    } else {
      Choice(a, b);
      Choice(b, c);
      StepBounds(a, c);
      hide Distance;
      Triangle(Init(a), b, c);
      Triangle(a, b, Init(c));
      Triangle(a, Init(b), c);
      Triangle(a, Init(b), Init(c));
      Triangle(Init(a), Init(b), c);
      Triangle(Init(a), Init(b), Init(c));
    }
  }

  // ---- Edit scripts -----------------------------------------------------------------------

  datatype Edit = Insert(at: nat, token: Token) | Delete(at: nat) | Replace(at: nat, token: Token)

  /** One edit; `None` when its position is outside the list. */
  function Apply(e: Edit, s: seq<Token>): Option<seq<Token>> {
    match e
    case Insert(i, t) => if i <= |s| then Some(s[..i] + [t] + s[i..]) else None
    case Delete(i) => if i < |s| then Some(s[..i] + s[i + 1..]) else None
    case Replace(i, t) => if i < |s| then Some(s[i := t]) else None
  }

  function Run(script: seq<Edit>, s: seq<Token>): Option<seq<Token>> {
    if script == [] then Some(s)
    else
      var next := Apply(script[0], s);
      if next.None? then None else Run(script[1..], next.value)
  }

  lemma {:induction false} CommonSuffix(a: seq<Token>, b: seq<Token>, v: seq<Token>)
    ensures Distance(a + v, b + v) <= Distance(a, b)
  {
    hide Distance;
    if v == [] {
      assert a + v == a && b + v == b;
    } else {
      CommonSuffix(a, b, Init(v));
      CellStep(a + Init(v), Last(v), b + Init(v), Last(v));
      assert a + v == a + Init(v) + [Last(v)] && b + v == b + Init(v) + [Last(v)];
    }
  }

  lemma OneEditIsNear(e: Edit, s: seq<Token>)
    requires Apply(e, s).Some?
    ensures Distance(s, Apply(e, s).value) <= 1
  {
    hide Distance;
    var i := e.at;
    var u := s[..i];
    DistanceZeroIff(u, u);
    match e
    case Insert(_, t) =>
      CommonSuffix(u, u + [t], s[i..]);
      GrowByOne(u, t);
      assert s == u + s[i..];
    case Delete(_) =>
      GrowByOne(u, s[i]);
      DistanceSymmetric(u, u + [s[i]]);
      CommonSuffix(u + [s[i]], u, s[i + 1..]);
      assert s == u + [s[i]] + s[i + 1..];
    case Replace(_, t) =>
      CellStep(u, s[i], u, t);
      CommonSuffix(u + [s[i]], u + [t], s[i + 1..]);
      assert s == u + [s[i]] + s[i + 1..];
      assert s[i := t] == u + [t] + s[i + 1..];
  }

  lemma GrowByOne(u: seq<Token>, t: Token)
    ensures Distance(u, u + [t]) <= 1
  {
    DistanceZeroIff(u, u);
    if u != [] {
      assert Init(u + [t]) == u;
    }
  }

  /** No script is shorter than the distance. */
  lemma {:induction false} ScriptAtLeastDistance(script: seq<Edit>, a: seq<Token>, b: seq<Token>)
    requires Run(script, a) == Some(b)
    ensures Distance(a, b) <= |script|
  {
    if script == [] {
      DistanceZeroIff(a, b);
    } else {
      var next := Apply(script[0], a).value;
      OneEditIsNear(script[0], a);
      ScriptAtLeastDistance(script[1..], next, b);
      Triangle(a, next, b);
    }
  }

  lemma {:induction false} RunConcat(p: seq<Edit>, q: seq<Edit>, s: seq<Token>)
    requires Run(p, s).Some?
    ensures Run(p + q, s) == Run(q, Run(p, s).value)
  {
    if p == [] {
      assert p + q == q;
    } else {
      RunConcat(p[1..], q, Apply(p[0], s).value);
      assert (p + q)[1..] == p[1..] + q;
    }
  }

  /** A script works the same with one more token at the end. */
  lemma {:induction false} RunWithTail(p: seq<Edit>, s: seq<Token>, t: Token)
    requires Run(p, s).Some?
    ensures Run(p, s + [t]) == Some(Run(p, s).value + [t])
  {
    if p != [] {
      var next := Apply(p[0], s).value;
      RunWithTail(p[1..], next, t);
      ApplyWithTail(p[0], s, t);
    }
  }

  lemma ApplyWithTail(e: Edit, s: seq<Token>, t: Token)
    requires Apply(e, s).Some?
    ensures Apply(e, s + [t]) == Some(Apply(e, s).value + [t])
  {
    var i := e.at;
    var long := s + [t];
    assert long[..i] == s[..i] && long[i..] == s[i..] + [t];
    match e
    case Insert(_, x) =>
      assert s[..i] + [x] + (s[i..] + [t]) == s[..i] + [x] + s[i..] + [t];
    case Delete(_) =>
      assert long[i + 1..] == s[i + 1..] + [t];
      assert s[..i] + (s[i + 1..] + [t]) == s[..i] + s[i + 1..] + [t];
    case Replace(_, x) =>
      assert long[i := x] == s[i := x] + [t];
  }

  lemma AppendEdit(p: seq<Edit>, e: Edit, s: seq<Token>, mid: seq<Token>, end: seq<Token>)
    requires Run(p, s) == Some(mid) && Apply(e, mid) == Some(end)
    ensures Run(p + [e], s) == Some(end)
  {
    RunConcat(p, [e], s);
    assert [e][1..] == [];
  }

  lemma EditLast(s: seq<Token>, x: Token)
    requires s != []
    ensures Apply(Delete(|s| - 1), s) == Some(Init(s))
    ensures Apply(Insert(|s| - 1, Last(s)), Init(s)) == Some(s)
    ensures Apply(Replace(|s| - 1, Last(s)), Init(s) + [x]) == Some(s)
  {
    assert s[..|s| - 1] + s[|s| - 1 + 1..] == Init(s);
    assert Init(s)[..|s| - 1] + [Last(s)] + Init(s)[|s| - 1..] == s;
    assert (Init(s) + [x])[|s| - 1 := Last(s)] == s;
  }

  /** Which of the three neighbours the table took. */
  lemma Choice(a: seq<Token>, b: seq<Token>)
    requires a != [] || b != []
    ensures || (a != [] && Distance(a, b) == Distance(Init(a), b) + 1)
            || (b != [] && Distance(a, b) == Distance(a, Init(b)) + 1)
            || (a != [] && b != [] &&
                Distance(a, b) == Distance(Init(a), Init(b)) + Mismatch(Last(a), Last(b)))
  {
    AgainstEmpty(if a == [] then [] else Init(a));
    AgainstEmpty(if b == [] then [] else Init(b));
  }

  lemma PrependEdit(e: Edit, p: seq<Edit>, s: seq<Token>, mid: seq<Token>, end: seq<Token>)
    requires Apply(e, s) == Some(mid) && Run(p, mid) == Some(end)
    ensures Run([e] + p, s) == Some(end)
  {
    assert ([e] + p)[1..] == p;
  }

  lemma ReplaceCase(p: seq<Edit>, a: seq<Token>, b: seq<Token>) returns (script: seq<Edit>)
    requires a != [] && b != [] && Run(p, Init(a)) == Some(Init(b))
    ensures Run(script, a) == Some(b) && |script| == |p| + Mismatch(Last(a), Last(b))
  {
    RunWithTail(p, Init(a), Last(a));
    assert Init(a) + [Last(a)] == a && Init(b) + [Last(b)] == b;
    if Last(a) == Last(b) {
      script := p;
    } else {
      script := p + [Replace(|b| - 1, Last(b))];
      EditLast(b, Last(a));
      AppendEdit(p, script[|p|], a, Init(b) + [Last(a)], b);
    }
  }

  /** Some script is exactly as long as the distance. */
  lemma {:induction false} ShortestScript(a: seq<Token>, b: seq<Token>) returns (script: seq<Edit>)
    ensures Run(script, a) == Some(b) && |script| == Distance(a, b)
    decreases |a| + |b|
  {
    if a == [] && b == [] {
      return [];
    }
    Choice(a, b);
    hide Distance, Apply, Run, Mismatch;
    if a != [] && Distance(a, b) == Distance(Init(a), b) + 1 {
      var rest := ShortestScript(Init(a), b);
      EditLast(a, Last(a));
      PrependEdit(Delete(|a| - 1), rest, a, Init(a), b);
      script := [Delete(|a| - 1)] + rest;
    } else if b != [] && Distance(a, b) == Distance(a, Init(b)) + 1 {
      var p := ShortestScript(a, Init(b));
      EditLast(b, Last(b));
      AppendEdit(p, Insert(|b| - 1, Last(b)), a, Init(b), b);
      script := p + [Insert(|b| - 1, Last(b))];
    } else {
      var p := ShortestScript(Init(a), Init(b));
      script := ReplaceCase(p, a, b);
    }
  }

  /** The distance is the minimum over all edit scripts. */
  lemma DistanceIsMinimum(a: seq<Token>, b: seq<Token>)
    ensures exists script :: Run(script, a) == Some(b) && |script| == Distance(a, b)
    ensures forall script :: Run(script, a) == Some(b) ==> Distance(a, b) <= |script|
  {
    var shortest := ShortestScript(a, b);
    forall script | Run(script, a) == Some(b)
      ensures Distance(a, b) <= |script|
    {
      ScriptAtLeastDistance(script, a, b);
    }
  }
}
