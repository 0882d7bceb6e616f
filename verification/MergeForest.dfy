/** Merged identities as a forest, and the pairs that must stay apart.

`Links` maps every identity to the one it was merged into.  A merge links one root under another, so
links never close a cycle and every identity resolves to an unmerged root.
*/
module MergeForest {
  import opened Options

  type Id = string

  type Links = map<Id, Option<Id>>

  /** Ranks fall along every link. */
  ghost predicate Ranked(l: Links, rank: map<Id, nat>) {
    && l.Keys <= rank.Keys
    && forall id :: id in l && l[id].Some? ==> l[id].value in l && rank[l[id].value] < rank[id]
  }

  ghost predicate Forest(l: Links) {
    exists rank :: Ranked(l, rank)
  }

  ghost function RankOf(l: Links): (rank: map<Id, nat>)
    requires Forest(l)
    ensures Ranked(l, rank)
  {
    var rank :| Ranked(l, rank);
    rank
  }

  /** Where following the links ends. */
  ghost function Root(l: Links, id: Id): (r: Id)
    requires Forest(l) && id in l
    ensures r in l && l[r].None?
    ensures l[id].None? ==> r == id
    decreases RankOf(l)[id]
  {
    if l[id].None? then id else Root(l, l[id].value)
  }

  /** A new identity is its own root and changes nobody else's. */
  lemma AddKeepsForest(l: Links, id: Id)
    requires Forest(l) && id !in l
    ensures Forest(l[id := None])
    ensures forall x :: x in l ==> Root(l[id := None], x) == Root(l, x)
  {
    var l' := l[id := None];
    assert Ranked(l', RankOf(l)[id := 0]);
    forall x | x in l
      ensures Root(l', x) == Root(l, x)
    {
      AddKeepsRoot(l, id, x);
    }
  }

  lemma {:induction false} AddKeepsRoot(l: Links, id: Id, x: Id)
    requires Forest(l) && id !in l && Forest(l[id := None]) && x in l
    ensures Root(l[id := None], x) == Root(l, x)
    decreases RankOf(l)[x]
  {
    if l[x].Some? {
      AddKeepsRoot(l, id, l[x].value);
    }
  }

  ghost predicate TwoRoots(l: Links, src: Id, tgt: Id) {
    src in l && tgt in l && src != tgt && l[src].None? && l[tgt].None?
  }

  /** Linking one root under another keeps the forest; exactly the source's tree moves. */
  lemma LinkKeepsForest(l: Links, src: Id, tgt: Id)
    requires Forest(l) && TwoRoots(l, src, tgt)
    ensures Forest(l[src := Some(tgt)])
    ensures forall x :: x in l ==>
      Root(l[src := Some(tgt)], x) == if Root(l, x) == src then tgt else Root(l, x)
  {
    var l', rank := l[src := Some(tgt)], RankOf(l);
    var rank' := map id | id in l :: if id == tgt then 0 else rank[id] + 1;
    assert Ranked(l', rank');
    forall x | x in l
      ensures Root(l', x) == if Root(l, x) == src then tgt else Root(l, x)
    {
      LinkMovesRoot(l, src, tgt, x);
    }
  }

  lemma {:induction false} LinkMovesRoot(l: Links, src: Id, tgt: Id, x: Id)
    requires Forest(l) && TwoRoots(l, src, tgt) && x in l
    requires Forest(l[src := Some(tgt)])
    ensures Root(l[src := Some(tgt)], x) == if Root(l, x) == src then tgt else Root(l, x)
    decreases RankOf(l)[x]
  {
    if x == src {
      assert Root(l[src := Some(tgt)], x) == Root(l[src := Some(tgt)], tgt);
    } else if l[x].Some? {
      LinkMovesRoot(l, src, tgt, l[x].value);
    }
  }

  // ---- Pairs that must stay apart ---------------------------------------------------------

  /** The identities stored with each identity as not to be merged with it. */
  type Stored = map<Id, set<Id>>

  /** Root `a` knows root `b` through some stored identity, once that is resolved. */
  ghost predicate Sees(l: Links, stored: Stored, a: Id, b: Id)
    requires Forest(l)
  {
    a in stored && exists x :: x in stored[a] && x in l && Root(l, x) == b
  }

  ghost predicate Pairs(l: Links, declared: set<(Id, Id)>) {
    forall p :: p in declared ==> p.0 in l && p.1 in l
  }

  /** Every declared pair with different roots is visible from both roots. */
  ghost predicate Complete(l: Links, stored: Stored, declared: set<(Id, Id)>)
    requires Forest(l) && Pairs(l, declared)
  {
    forall p :: p in declared && Root(l, p.0) != Root(l, p.1) ==>
      && Sees(l, stored, Root(l, p.0), Root(l, p.1))
      && Sees(l, stored, Root(l, p.1), Root(l, p.0))
  }

  /** Some declared pair has these two roots. */
  ghost predicate Declared(l: Links, declared: set<(Id, Id)>, a: Id, b: Id)
    requires Forest(l) && Pairs(l, declared)
  {
    exists p :: p in declared
      && ((Root(l, p.0) == a && Root(l, p.1) == b) || (Root(l, p.0) == b && Root(l, p.1) == a))
  }

  /** Whatever these stored identities resolve to was declared against `a`. */
  ghost predicate AllDeclared(l: Links, declared: set<(Id, Id)>, a: Id, xs: set<Id>)
    requires Forest(l) && Pairs(l, declared)
  {
    forall x :: x in xs ==> x in l && Declared(l, declared, a, Root(l, x))
  }

  /** Whatever a root sees was declared. */
  ghost predicate Sound(l: Links, stored: Stored, declared: set<(Id, Id)>)
    requires Forest(l) && Pairs(l, declared)
  {
    forall a :: a in stored && a in l && l[a].None? ==> AllDeclared(l, declared, a, stored[a])
  }

  /** No declared pair shares a root. */
  ghost predicate Apart(l: Links, declared: set<(Id, Id)>)
    requires Forest(l) && Pairs(l, declared)
  {
    forall p :: p in declared ==> Root(l, p.0) != Root(l, p.1)
  }

  ghost predicate Constraints(l: Links, stored: Stored, declared: set<(Id, Id)>) {
    Forest(l) && Pairs(l, declared) && stored.Keys == l.Keys
    && Complete(l, stored, declared) && Sound(l, stored, declared)
  }

  /** `add_cannot_link` on two different roots. */
  function Declare(stored: Stored, a: Id, b: Id): Stored
    requires a in stored && b in stored
  {
    stored[a := stored[a] + {b}][b := (if a == b then stored[a] + {b} else stored[b]) + {a}]
  }

  lemma DeclareKeepsConstraints(l: Links, stored: Stored, declared: set<(Id, Id)>, x: Id, y: Id)
    requires Constraints(l, stored, declared) && x in l && y in l && Root(l, x) != Root(l, y)
    ensures Constraints(l, Declare(stored, Root(l, x), Root(l, y)), declared + {(x, y)})
  {
    DeclareKeepsComplete(l, stored, declared, x, y);
    DeclareKeepsSound(l, stored, declared, x, y);
  }

  lemma DeclareKeepsComplete(l: Links, stored: Stored, declared: set<(Id, Id)>, x: Id, y: Id)
    requires Forest(l) && Pairs(l, declared) && stored.Keys == l.Keys && Complete(l, stored, declared)
    requires x in l && y in l && Root(l, x) != Root(l, y)
    ensures Complete(l, Declare(stored, Root(l, x), Root(l, y)), declared + {(x, y)})
  {
    var a, b := Root(l, x), Root(l, y);
    var stored' := Declare(stored, a, b);
    assert b in stored'[a] && a in stored'[b];
    assert Sees(l, stored', a, b) && Sees(l, stored', b, a);
    forall p | p in declared && Root(l, p.0) != Root(l, p.1)
      ensures Sees(l, stored', Root(l, p.0), Root(l, p.1)) && Sees(l, stored', Root(l, p.1), Root(l, p.0))
    {
      SeesMore(l, stored, stored', Root(l, p.0), Root(l, p.1));
      SeesMore(l, stored, stored', Root(l, p.1), Root(l, p.0));
    }
  }

  lemma DeclareKeepsSound(l: Links, stored: Stored, declared: set<(Id, Id)>, x: Id, y: Id)
    requires Forest(l) && Pairs(l, declared) && stored.Keys == l.Keys && Sound(l, stored, declared)
    requires x in l && y in l && Root(l, x) != Root(l, y)
    ensures Sound(l, Declare(stored, Root(l, x), Root(l, y)), declared + {(x, y)})
  {
    var a, b := Root(l, x), Root(l, y);
    var stored', declared' := Declare(stored, a, b), declared + {(x, y)};
    assert (x, y) in declared';
    assert AllDeclared(l, declared', a, {b}) && AllDeclared(l, declared', b, {a});
    forall r | r in stored' && r in l && l[r].None?
      ensures AllDeclared(l, declared', r, stored'[r])
    {
      AllDeclaredMore(l, declared, declared', r, stored[r]);
      AllDeclaredUnion(l, declared', r, stored[r], stored'[r] - stored[r]);
    }
  }

  lemma AllDeclaredUnion(l: Links, declared: set<(Id, Id)>, a: Id, xs: set<Id>, ys: set<Id>)
    requires Forest(l) && Pairs(l, declared)
    ensures AllDeclared(l, declared, a, xs + ys) <==> AllDeclared(l, declared, a, xs) && AllDeclared(l, declared, a, ys)
  {
    hide Declared, Forest;
    assert forall x :: x in xs || x in ys <==> x in xs + ys;
  }

  lemma AllDeclaredMore(l: Links, declared: set<(Id, Id)>, declared': set<(Id, Id)>, a: Id, xs: set<Id>)
    requires Forest(l) && Pairs(l, declared) && Pairs(l, declared') && declared <= declared'
    requires AllDeclared(l, declared, a, xs)
    ensures AllDeclared(l, declared', a, xs)
  {
    forall x | x in xs
      ensures Declared(l, declared', a, Root(l, x))
    {
      DeclaredMore(l, declared, declared', a, Root(l, x));
    }
  }

  /** A new identity stores nothing and is in no pair. */
  lemma AddKeepsConstraints(l: Links, stored: Stored, declared: set<(Id, Id)>, id: Id)
    requires Constraints(l, stored, declared) && id !in l
    ensures Constraints(l[id := None], stored[id := {}], declared)
    ensures Apart(l, declared) ==> Apart(l[id := None], declared)
  {
    var l', stored' := l[id := None], stored[id := {}];
    AddKeepsForest(l, id);
    forall a, b | Sees(l, stored, a, b)
      ensures Sees(l', stored', a, b)
    {
      var x :| x in stored[a] && x in l && Root(l, x) == b;
      assert x in stored'[a];
    }
    forall a | a in stored' && a in l' && l'[a].None?
      ensures AllDeclared(l', declared, a, stored'[a])
    {
      if a != id {
        AddKeepsDeclared(l, declared, id, a, stored[a]);
      }
    }
  }

  lemma AddKeepsDeclared(l: Links, declared: set<(Id, Id)>, id: Id, a: Id, xs: set<Id>)
    requires Forest(l) && Pairs(l, declared) && id !in l && Forest(l[id := None]) && AllDeclared(l, declared, a, xs)
    ensures AllDeclared(l[id := None], declared, a, xs)
  {
    AddKeepsForest(l, id);
    forall x | x in xs
      ensures Declared(l[id := None], declared, a, Root(l[id := None], x))
    {
      var p :| p in declared
        && ((Root(l, p.0) == a && Root(l, p.1) == Root(l, x)) || (Root(l, p.0) == Root(l, x) && Root(l, p.1) == a));
      assert p in declared;
    }
  }

  lemma SeesMore(l: Links, stored: Stored, stored': Stored, a: Id, b: Id)
    requires Forest(l) && Sees(l, stored, a, b)
    requires a in stored' && stored[a] <= stored'[a]
    ensures Sees(l, stored', a, b)
  {
    var x :| x in stored[a] && x in l && Root(l, x) == b;
    assert x in stored'[a];
  }

  lemma DeclaredMore(l: Links, declared: set<(Id, Id)>, declared': set<(Id, Id)>, a: Id, b: Id)
    requires Forest(l) && Pairs(l, declared) && Pairs(l, declared') && declared <= declared'
    requires Declared(l, declared, a, b)
    ensures Declared(l, declared', a, b)
  {
    var p :| p in declared
      && ((Root(l, p.0) == a && Root(l, p.1) == b) || (Root(l, p.0) == b && Root(l, p.1) == a));
    assert p in declared';
  }

  /** What a merge stores with its target. */
  function Absorb(stored: Stored, src: Id, tgt: Id): Stored
    requires src in stored && tgt in stored
  {
    stored[tgt := stored[tgt] + (stored[src] - {tgt})]
  }

  lemma MergeKeepsConstraints(l: Links, stored: Stored, declared: set<(Id, Id)>, src: Id, tgt: Id)
    requires Constraints(l, stored, declared) && TwoRoots(l, src, tgt)
    ensures Constraints(l[src := Some(tgt)], Absorb(stored, src, tgt), declared)
  {
    LinkKeepsForest(l, src, tgt);
    MergeKeepsComplete(l, stored, declared, src, tgt);
    MergeKeepsSound(l, stored, declared, src, tgt);
  }

  lemma MergeKeepsComplete(l: Links, stored: Stored, declared: set<(Id, Id)>, src: Id, tgt: Id)
    requires Forest(l) && Pairs(l, declared) && stored.Keys == l.Keys && Complete(l, stored, declared)
    requires TwoRoots(l, src, tgt) && Forest(l[src := Some(tgt)])
    ensures Complete(l[src := Some(tgt)], Absorb(stored, src, tgt), declared)
  {
    LinkKeepsForest(l, src, tgt);
    hide Sees, Ranked, Absorb;
    var l', stored' := l[src := Some(tgt)], Absorb(stored, src, tgt);
    forall p | p in declared && Root(l', p.0) != Root(l', p.1)
      ensures Sees(l', stored', Root(l', p.0), Root(l', p.1)) && Sees(l', stored', Root(l', p.1), Root(l', p.0))
    {
      SeesAfterMerge(l, stored, src, tgt, Root(l, p.0), Root(l, p.1));
      SeesAfterMerge(l, stored, src, tgt, Root(l, p.1), Root(l, p.0));
    }
  }

  lemma MergeKeepsSound(l: Links, stored: Stored, declared: set<(Id, Id)>, src: Id, tgt: Id)
    requires Forest(l) && Pairs(l, declared) && stored.Keys == l.Keys && Sound(l, stored, declared)
    requires TwoRoots(l, src, tgt) && Forest(l[src := Some(tgt)])
    ensures Sound(l[src := Some(tgt)], Absorb(stored, src, tgt), declared)
  {
    LinkKeepsForest(l, src, tgt);
    hide Declared, Ranked, AllDeclared;
    var l', stored' := l[src := Some(tgt)], Absorb(stored, src, tgt);
    forall r | r in stored' && r in l' && l'[r].None?
      ensures AllDeclared(l', declared, r, stored'[r])
    {
      AllDeclaredAfterMerge(l, declared, src, tgt, r, stored[r]);
      if r == tgt {
        AllDeclaredAfterMerge(l, declared, src, tgt, src, stored[src]);
        AllDeclaredUnion(l', declared, tgt, stored[src] - {tgt}, stored[src] * {tgt});
        assert stored[src] - {tgt} + stored[src] * {tgt} == stored[src];
        AllDeclaredUnion(l', declared, tgt, stored[tgt], stored[src] - {tgt});
      }
    }
  }

  lemma AllDeclaredAfterMerge(l: Links, declared: set<(Id, Id)>, src: Id, tgt: Id, a: Id, xs: set<Id>)
    requires Forest(l) && Pairs(l, declared) && AllDeclared(l, declared, a, xs)
    requires TwoRoots(l, src, tgt) && Forest(l[src := Some(tgt)])
    ensures AllDeclared(l[src := Some(tgt)], declared, if a == src then tgt else a, xs)
  {
    LinkKeepsForest(l, src, tgt);
    forall x | x in xs
      ensures Declared(l[src := Some(tgt)], declared, if a == src then tgt else a, Root(l[src := Some(tgt)], x))
    {
      DeclaredAfterMerge(l, declared, src, tgt, a, Root(l, x));
    }
  }

  lemma SeesAfterMerge(l: Links, stored: Stored, src: Id, tgt: Id, a: Id, b: Id)
    requires Forest(l) && stored.Keys == l.Keys && Sees(l, stored, a, b)
    requires TwoRoots(l, src, tgt) && Forest(l[src := Some(tgt)])
    requires (if a == src then tgt else a) != (if b == src then tgt else b)
    ensures Sees(l[src := Some(tgt)], Absorb(stored, src, tgt),
                 if a == src then tgt else a, if b == src then tgt else b)
  {
    LinkKeepsForest(l, src, tgt);
    var x :| x in stored[a] && x in l && Root(l, x) == b;
    var a' := if a == src then tgt else a;
    assert x in Absorb(stored, src, tgt)[a'];
  }

  lemma DeclaredAfterMerge(l: Links, declared: set<(Id, Id)>, src: Id, tgt: Id, a: Id, b: Id)
    requires Forest(l) && Pairs(l, declared) && Declared(l, declared, a, b)
    requires TwoRoots(l, src, tgt) && Forest(l[src := Some(tgt)])
    ensures Declared(l[src := Some(tgt)], declared, if a == src then tgt else a, if b == src then tgt else b)
  {
    LinkKeepsForest(l, src, tgt);
    var p :| p in declared
      && ((Root(l, p.0) == a && Root(l, p.1) == b) || (Root(l, p.0) == b && Root(l, p.1) == a));
    assert p in declared;
  }

  /** A merge keeps every declared pair apart exactly when nothing the source stores resolves to the
  target: the guard has to resolve what is stored. */
  lemma MergeKeepsApartIff(l: Links, stored: Stored, declared: set<(Id, Id)>, src: Id, tgt: Id)
    requires Constraints(l, stored, declared) && Apart(l, declared) && TwoRoots(l, src, tgt)
    ensures Constraints(l[src := Some(tgt)], Absorb(stored, src, tgt), declared)
    ensures Apart(l[src := Some(tgt)], declared) <==> !Sees(l, stored, src, tgt)
  {
    MergeKeepsConstraints(l, stored, declared, src, tgt);
    SeesIffDeclared(l, stored, declared, src, tgt);
    ApartIffNotDeclared(l, declared, src, tgt);
  }

  lemma ApartIffNotDeclared(l: Links, declared: set<(Id, Id)>, src: Id, tgt: Id)
    requires Forest(l) && Pairs(l, declared) && Apart(l, declared) && TwoRoots(l, src, tgt)
    requires Forest(l[src := Some(tgt)])
    ensures Apart(l[src := Some(tgt)], declared) <==> !Declared(l, declared, src, tgt)
  {
    LinkKeepsForest(l, src, tgt);
    hide Ranked, Forest;
    var l' := l[src := Some(tgt)];
    if Declared(l, declared, src, tgt) {
      var p :| p in declared
        && ((Root(l, p.0) == src && Root(l, p.1) == tgt) || (Root(l, p.0) == tgt && Root(l, p.1) == src));
      assert Root(l', p.0) == Root(l', p.1);
    }
  }

  /** What a root sees is exactly what was declared against it. */
  lemma SeesIffDeclared(l: Links, stored: Stored, declared: set<(Id, Id)>, a: Id, b: Id)
    requires Constraints(l, stored, declared) && TwoRoots(l, a, b)
    ensures Sees(l, stored, a, b) <==> Declared(l, declared, a, b)
  {
  }

  lemma AddKeepsApart(l: Links, declared: set<(Id, Id)>, id: Id)
    requires Forest(l) && Pairs(l, declared) && id !in l
    ensures Forest(l[id := None]) && Pairs(l[id := None], declared)
    ensures Apart(l[id := None], declared) <==> Apart(l, declared)
  {
    AddKeepsForest(l, id);
    hide Forest;
  }

  /** A pair may be declared as soon as its roots differ. */
  lemma DeclareKeepsApart(l: Links, declared: set<(Id, Id)>, a: Id, b: Id)
    requires Forest(l) && Pairs(l, declared) && a in l && b in l && Root(l, a) != Root(l, b)
    ensures Pairs(l, declared + {(a, b)})
    ensures Apart(l, declared + {(a, b)}) <==> Apart(l, declared)
  {
    hide Forest;
    assert forall p :: p in declared ==> p in declared + {(a, b)};
  }
}
