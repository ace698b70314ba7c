/** Dependency graphs, as the backlog stores them: every task id is mapped to the ids in its `dependsOn` list. */
module Graph {

  type Id = string
  type Deps = map<Id, seq<Id>>

  /** `a` is listed in the `dependsOn` of `b`. */
  predicate Edge(g: Deps, a: Id, b: Id) {
    b in g && a in g[b]
  }

  /** A chain of exactly `n` dependency edges leads from `x` to `y`. */
  ghost predicate Walk(g: Deps, x: Id, y: Id, n: nat)
    decreases n
  {
    if n == 0 then x == y
    else exists z :: Walk(g, x, z, n - 1) && Edge(g, z, y)
  }

  /** `x` must be finished, directly or transitively, before `y` may start. */
  ghost predicate Precedes(g: Deps, x: Id, y: Id) {
    exists n: nat :: n > 0 && Walk(g, x, y, n)
  }

  ghost predicate Reaches(g: Deps, x: Id, y: Id) {
    x == y || Precedes(g, x, y)
  }

  ghost predicate Acyclic(g: Deps) {
    forall x :: !Precedes(g, x, x)
  }

  /** Every dependency names a task that exists. */
  predicate Closed(g: Deps) {
    forall t, d | t in g && d in g[t] :: d in g
  }

  lemma EdgePrecedes(g: Deps, x: Id, y: Id)
    requires Edge(g, x, y)
    ensures Precedes(g, x, y)
  {
    assert Walk(g, x, x, 0);
    assert Walk(g, x, y, 1);
  }

  lemma {:induction false} WalkConcat(g: Deps, x: Id, y: Id, z: Id, n: nat, m: nat)
    requires Walk(g, x, y, n) && Walk(g, y, z, m)
    ensures Walk(g, x, z, n + m)
    decreases m
  {
    if m > 0 {
      var w :| Walk(g, y, w, m - 1) && Edge(g, w, z);
      WalkConcat(g, x, y, w, n, m - 1);
    }
  }

  lemma PrecedesTransitive(g: Deps, x: Id, y: Id, z: Id)
    requires Precedes(g, x, y) && Precedes(g, y, z)
    ensures Precedes(g, x, z)
  {
    var n: nat :| n > 0 && Walk(g, x, y, n);
    var m: nat :| m > 0 && Walk(g, y, z, m);
    WalkConcat(g, x, y, z, n, m);
  }

  lemma ReachesTransitive(g: Deps, x: Id, y: Id, z: Id)
    requires Reaches(g, x, y) && Reaches(g, y, z)
    ensures Reaches(g, x, z)
    ensures Precedes(g, x, y) || Precedes(g, y, z) ==> Precedes(g, x, z)
  {
    if x != y && y != z {
      PrecedesTransitive(g, x, y, z);
    }
  }

  /** The last edge of a chain. */
  lemma LastEdge(g: Deps, x: Id, y: Id) returns (z: Id)
    requires Precedes(g, x, y)
    ensures Reaches(g, x, z) && Edge(g, z, y)
  {
    var n: nat :| n > 0 && Walk(g, x, y, n);
    z :| Walk(g, x, z, n - 1) && Edge(g, z, y);
  }

  /** `t` waits for a task that cannot be ordered: one with a missing dependency, or one on a cycle. */
  ghost predicate Unorderable(g: Deps, u: Id) {
    (u in g && exists d :: d in g[u] && d !in g) || Precedes(g, u, u)
  }

  /** Inside `stuck` every task waits for another stuck task or for a missing id. */
  predicate AllWait(g: Deps, stuck: set<Id>) {
    forall t | t in stuck :: t in g && exists d :: d in g[t] && (d in stuck || d !in g)
  }

  /** Following such waits from any stuck task ends, in a finite graph, at a cycle or a missing id. */
  lemma StuckIsUnorderable(g: Deps, stuck: set<Id>, t: Id) returns (u: Id)
    requires t in stuck && AllWait(g, stuck)
    ensures u in stuck && Reaches(g, u, t) && Unorderable(g, u)
  {
    u := FollowWaits(g, stuck, t, {});
  }

  lemma FollowWaits(g: Deps, stuck: set<Id>, c: Id, seen: set<Id>) returns (u: Id)
    requires c in stuck && c !in seen && AllWait(g, stuck)
    requires forall v | v in seen :: Precedes(g, c, v)
    ensures u in stuck && Reaches(g, u, c) && Unorderable(g, u)
    decreases stuck - seen
  {
    var d :| d in g[c] && (d in stuck || d !in g);
    if d !in g {
      return c;
    }
    EdgePrecedes(g, d, c);
    forall v | v in seen + {c} ensures Precedes(g, d, v) {
      if v != c {
        PrecedesTransitive(g, d, c, v);
      }
    }
    if d in seen + {c} {
      u := d;
    } else {
      u := FollowWaits(g, stuck, d, seen + {c});
      ReachesTransitive(g, u, d, c);
    }
  }

  /** The edges left when node `p` is replaced by `first`, then `second`; `p` itself stays as a dead end. */
  ghost predicate ExpandedEdge(g: Deps, p: Id, first: Id, second: Id, a: Id, b: Id) {
    if b == first || b == p then Edge(g, a, p)
    else if b == second then a == first
    else if a == p then false
    else Edge(g, a, b) || (a == second && Edge(g, p, b))
  }

  ghost predicate Expands(g: Deps, g': Deps, p: Id, first: Id, second: Id) {
    && p != first && p != second && first != second
    && (forall b :: !Edge(g, first, b) && !Edge(g, second, b))
    && (forall a, b :: Edge(g', a, b) <==> ExpandedEdge(g, p, first, second, a, b))
  }

  /** A chain of dependencies before the expansion is still one afterwards, the parts standing in for `p`. */
  lemma {:induction false} ChainSurvives(g: Deps, g': Deps, p: Id, first: Id, second: Id, x: Id, y: Id, n: nat)
    requires Expands(g, g', p, first, second)
    requires x !in {first, second} && y !in {first, second} && n > 0 && Walk(g, x, y, n)
    ensures (x != p || y != p) ==> Precedes(g', if x == p then second else x, if y == p then first else y)
    decreases n
  {
    var z :| Walk(g, x, z, n - 1) && Edge(g, z, y);
    var x', z', y' := if x == p then second else x, if z == p then second else z, if y == p then first else y;
    if z != p || y != p {
      assert Edge(g', z', y');
      EdgePrecedes(g', z', y');
    }
    if n > 1 {
      ChainSurvives(g, g', p, first, second, x, z, n - 1);
      if z == p && x != p {
        assert Edge(g', first, second);
        EdgePrecedes(g', first, second);
        PrecedesTransitive(g', x, first, second);
      }
      if (x != p || z != p) && (z != p || y != p) {
        PrecedesTransitive(g', x', z', y');
      }
    }
  }

  function Origin(p: Id, first: Id, second: Id, x: Id): Id {
    if x == first || x == second then p else x
  }

  /** Conversely, a chain after the expansion comes from one before it, or stays inside the parts. */
  lemma {:induction false} ChainHasOrigin(g: Deps, g': Deps, p: Id, first: Id, second: Id, x: Id, y: Id, n: nat)
    requires Expands(g, g', p, first, second)
    requires n > 0 && Walk(g', x, y, n)
    ensures var x0, y0 := Origin(p, first, second, x), Origin(p, first, second, y);
            Precedes(g, x0, y0) || (x0 == p && y0 == p)
    decreases n
  {
    var z :| Walk(g', x, z, n - 1) && Edge(g', z, y);
    var x0, z0, y0 := Origin(p, first, second, x), Origin(p, first, second, z), Origin(p, first, second, y);
    assert ExpandedEdge(g, p, first, second, z, y);
    if !(z == first && y == second) {
      EdgePrecedes(g, z0, y0);
    }
    if n > 1 {
      ChainHasOrigin(g, g', p, first, second, x, z, n - 1);
      if Precedes(g, x0, z0) && Precedes(g, z0, y0) {
        PrecedesTransitive(g, x0, z0, y0);
      }
    }
  }

  lemma Forward(g: Deps, g': Deps, p: Id, first: Id, second: Id, x: Id, y: Id)
    requires Expands(g, g', p, first, second) && x !in {first, second} && y !in {first, second}
    requires Precedes(g, x, y) && (x != p || y != p)
    ensures Precedes(g', if x == p then second else x, if y == p then first else y)
  {
    var n: nat :| n > 0 && Walk(g, x, y, n);
    ChainSurvives(g, g', p, first, second, x, y, n);
  }

  lemma Backward(g: Deps, g': Deps, p: Id, first: Id, second: Id, x: Id, y: Id)
    requires Expands(g, g', p, first, second) && Precedes(g', x, y)
    ensures var x0, y0 := Origin(p, first, second, x), Origin(p, first, second, y);
            Precedes(g, x0, y0) || (x0 == p && y0 == p)
  {
    var n: nat :| n > 0 && Walk(g', x, y, n);
    ChainHasOrigin(g, g', p, first, second, x, y, n);
  }

  /**
   * The order before and after an expansion: other nodes precede each other as before, what preceded `p` precedes
   * both parts, and what `p` preceded is preceded by the second part.
   */
  ghost predicate SameOrder(g: Deps, g': Deps, p: Id, first: Id, second: Id) {
    && Precedes(g', first, second)
    && forall x, y | x !in {p, first, second} && y !in {p, first, second} ::
         && (Precedes(g', x, y) <==> Precedes(g, x, y))
         && (Precedes(g', x, first) <==> Precedes(g, x, p))
         && (Precedes(g', x, second) <==> Precedes(g, x, p))
         && (Precedes(g', second, y) <==> Precedes(g, p, y))
  }

  lemma ExpansionKeepsPrecedence(g: Deps, g': Deps, p: Id, first: Id, second: Id)
    requires Expands(g, g', p, first, second)
    ensures SameOrder(g, g', p, first, second)
  {
    assert Edge(g', first, second);
    EdgePrecedes(g', first, second);
    forall x, y | x !in {p, first, second} && y !in {p, first, second}
      ensures (Precedes(g', x, y) <==> Precedes(g, x, y))
      ensures (Precedes(g', x, first) <==> Precedes(g, x, p))
      ensures (Precedes(g', x, second) <==> Precedes(g, x, p))
      ensures (Precedes(g', second, y) <==> Precedes(g, p, y))
    {
      ExpansionKeepsPair(g, g', p, first, second, x, y);
    }
  }

  lemma ExpansionKeepsPair(g: Deps, g': Deps, p: Id, first: Id, second: Id, x: Id, y: Id)
    requires Expands(g, g', p, first, second) && Precedes(g', first, second)
    requires x !in {p, first, second} && y !in {p, first, second}
    ensures (Precedes(g', x, y) <==> Precedes(g, x, y))
    ensures (Precedes(g', x, first) <==> Precedes(g, x, p))
    ensures (Precedes(g', x, second) <==> Precedes(g, x, p))
    ensures (Precedes(g', second, y) <==> Precedes(g, p, y))
  {
    hide Precedes;
    if Precedes(g, x, y) { Forward(g, g', p, first, second, x, y); }
    if Precedes(g, x, p) {
      Forward(g, g', p, first, second, x, p);
      PrecedesTransitive(g', x, first, second);
    }
    if Precedes(g, p, y) { Forward(g, g', p, first, second, p, y); }
    if Precedes(g', x, y) { Backward(g, g', p, first, second, x, y); }
    if Precedes(g', x, first) { Backward(g, g', p, first, second, x, first); }
    if Precedes(g', x, second) { Backward(g, g', p, first, second, x, second); }
    if Precedes(g', second, y) { Backward(g, g', p, first, second, second, y); }
  }

  lemma ExpansionKeepsAcyclic(g: Deps, g': Deps, p: Id, first: Id, second: Id)
    requires Expands(g, g', p, first, second) && Acyclic(g)
    ensures Acyclic(g')
  {
    forall x ensures !Precedes(g', x, x) {
      if Precedes(g', x, x) {
        Backward(g, g', p, first, second, x, x);
        // The cycle can only run through the parts or `p`: step back from it to a task outside them.
        var y := if x == second then first else x;
        if x == second {
          var z := LastEdge(g', x, x);
          assert ExpandedEdge(g, p, first, second, z, x);
        }
        var z := LastEdge(g', x, y);
        assert ExpandedEdge(g, p, first, second, z, y);
        EdgePrecedes(g, z, p);
        Backward(g, g', p, first, second, x, z);
        PrecedesTransitive(g, p, z, p);
      }
    }
  }
}
