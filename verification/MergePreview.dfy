/** The layered merge preview that the planner builds from the backlog's dependency graph. */
module MergePreview {
  import opened Graph
  import opened Sorting

  datatype Batch = Batch(taskIds: seq<Id>, fallback: bool)

  /** The longest dependency chain that ends in `t` has exactly `n` edges. */
  ghost predicate Depth(g: Deps, t: Id, n: nat) {
    && (exists x :: Walk(g, x, t, n))
    && (forall x, m: nat :: Walk(g, x, t, m) ==> m <= n)
  }

  /** `t` reaches, backwards through its dependencies, a missing id or a cycle. */
  ghost predicate Hopeless(g: Deps, t: Id) {
    exists u :: Reaches(g, u, t) && Unorderable(g, u)
  }

  function Flatten(batches: seq<Batch>): seq<Id> {
    if batches == [] then []
    else Flatten(batches[..|batches| - 1]) + batches[|batches| - 1].taskIds
  }

  predicate Ready(g: Deps, completed: set<Id>, t: Id) {
    t in g && forall d | d in g[t] :: d in completed
  }

  function ReadyIds(g: Deps, completed: set<Id>, ids: seq<Id>): (r: seq<Id>)
    ensures forall t :: t in r <==> t in ids && Ready(g, completed, t)
  {
    if ids == [] then []
    else (if Ready(g, completed, ids[0]) then [ids[0]] else []) + ReadyIds(g, completed, ids[1..])
  }

  function Unready(g: Deps, completed: set<Id>, ids: seq<Id>): (r: seq<Id>)
    ensures forall t :: t in r <==> t in ids && !Ready(g, completed, t)
    ensures multiset(ids) == multiset(ReadyIds(g, completed, ids)) + multiset(r)
  {
    if ids == [] then []
    else
      assert ids == [ids[0]] + ids[1..];
      (if Ready(g, completed, ids[0]) then [] else [ids[0]]) + Unready(g, completed, ids[1..])
  }

  /** What holds of the tasks placed so far: `level` maps each to the index of its layer. */
  ghost predicate Layered(g: Deps, level: map<Id, nat>) {
    forall t | t in level :: t in g && Depth(g, t, level[t]) && !Hopeless(g, t)
  }

  ghost predicate LevelsOf(batches: seq<Batch>, level: map<Id, nat>) {
    && (forall t | t in level :: level[t] < |batches| && t in batches[level[t]].taskIds)
    && (forall i, t | 0 <= i < |batches| && t in batches[i].taskIds :: t in level && level[t] == i)
  }

  /** A task whose dependencies are all placed, the deepest of them in layer `n - 1`, has depth `n`. */
  lemma NextDepth(g: Deps, t: Id, n: nat, level: map<Id, nat>)
    requires t in g && forall d | d in g[t] :: d in level && level[d] < n && Depth(g, d, level[d])
    requires n > 0 ==> exists d :: d in g[t] && level[d] == n - 1
    ensures Depth(g, t, n)
  {
    if n == 0 {
      assert Walk(g, t, t, 0);
    } else {
      var d :| d in g[t] && level[d] == n - 1;
      var x :| Walk(g, x, d, n - 1);
      assert Edge(g, d, t);
      assert Walk(g, x, t, n);
    }
    forall x, m: nat | Walk(g, x, t, m) ensures m <= n {
      if m > 0 {
        var z :| Walk(g, x, z, m - 1) && Edge(g, z, t);
        assert Depth(g, z, level[z]);
      }
    }
  }

  lemma NotHopeless(g: Deps, t: Id)
    requires t in g && forall d | d in g[t] :: d in g && !Hopeless(g, d)
    ensures !Hopeless(g, t)
  {
    if Hopeless(g, t) {
      var u :| Reaches(g, u, t) && Unorderable(g, u);
      if Precedes(g, u, t) {
        var d := LastEdge(g, u, t);
        assert Hopeless(g, d);
      }
    }
  }

  /**
   * Every task lands in exactly one batch; a task outside the fallback batch sits as many layers
   * deep as its longest dependency chain; the fallback batch comes last and holds exactly the
   * tasks that wait for a cycle or for a missing id.
   */
  ghost predicate IsMergePreview(le: (Id, Id) -> bool, ids: seq<Id>, g: Deps, batches: seq<Batch>) {
    && multiset(Flatten(batches)) == multiset(ids)
    && (forall b | b in batches :: b.taskIds != [] && Sorted(le, b.taskIds))
    && (forall i | 0 <= i < |batches| :: batches[i].fallback ==> i == |batches| - 1)
    && (forall i, t | 0 <= i < |batches| && t in batches[i].taskIds ::
          if batches[i].fallback then Hopeless(g, t) else Depth(g, t, i) && !Hopeless(g, t))
  }

  /** The state between two layers. */
  ghost predicate Building(le: (Id, Id) -> bool, ids: seq<Id>, g: Deps, batches: seq<Batch>,
                           level: map<Id, nat>, remaining: seq<Id>) {
    && multiset(Flatten(batches)) + multiset(remaining) == multiset(ids)
    && (forall b | b in batches :: b.taskIds != [] && Sorted(le, b.taskIds) && !b.fallback)
    && LevelsOf(batches, level)
    && Layered(g, level)
    && Pending(g, level, remaining, |batches|)
  }

  ghost predicate Pending(g: Deps, level: map<Id, nat>, remaining: seq<Id>, n: nat) {
    && (forall t | t in remaining :: t in g && t !in level && Waited(g, level, t, n))
    && (forall t | t in g :: t in level || t in remaining)
  }

  method BuildMergePreview(le: (Id, Id) -> bool, ids: seq<Id>, g: Deps) returns (batches: seq<Batch>)
    requires Preorder(le) && forall t :: t in ids <==> t in g
    ensures IsMergePreview(le, ids, g, batches)
  {
    hide *;
    var remaining, completed := ids, {};
    batches := [];
    ghost var level: map<Id, nat> := map[];
    Start(le, ids, g);
    while remaining != []
      invariant Building(le, ids, g, batches, level, remaining) && completed == level.Keys
      decreases |remaining|
    {
      var ready := SortedIds(le, ReadyIds(g, completed, remaining));
      if ready == [] {
        var rest := SortedIds(le, remaining);
        FallBack(le, ids, g, batches, level, remaining);
        batches := batches + [Batch(rest, true)];
        return;
      }
      level := AddLayer(le, ids, g, batches, level, remaining);
      batches := batches + [Batch(ready, false)];
      remaining := Unready(g, completed, remaining);
      completed := completed + (set t | t in ready);
    }
    Finish(le, ids, g, batches, level);
  }

  lemma Start(le: (Id, Id) -> bool, ids: seq<Id>, g: Deps)
    requires forall t :: t in ids <==> t in g
    ensures Building(le, ids, g, [], map[], ids)
  {
  }

  lemma AddLayer(le: (Id, Id) -> bool, ids: seq<Id>, g: Deps, batches: seq<Batch>,
                 level: map<Id, nat>, remaining: seq<Id>) returns (grown: map<Id, nat>)
    requires Preorder(le) && Building(le, ids, g, batches, level, remaining)
    requires ReadyIds(g, level.Keys, remaining) != []
    ensures var layer := SortedIds(le, ReadyIds(g, level.Keys, remaining));
            var left := Unready(g, level.Keys, remaining);
            && Building(le, ids, g, batches + [Batch(layer, false)], grown, left)
            && grown.Keys == level.Keys + (set t | t in layer)
            && |left| < |remaining|
  {
    hide Depth, Hopeless, Waited, Preorder, Sorted, ReadyIds, Unready, SortedIds, Sort, Ready, Flatten;
    var ready := ReadyIds(g, level.Keys, remaining);
    var layer := SortedIds(le, ready);
    var left := Unready(g, level.Keys, remaining);
    assert |multiset(remaining)| == |multiset(ready)| + |multiset(left)|;
    FlattenSnoc(batches, Batch(layer, false));
    assert forall t | t in layer :: t in remaining;
    grown := Grow(g, level, batches, layer);
    assert Pending(g, grown, left, |batches| + 1);
  }

  lemma FallBack(le: (Id, Id) -> bool, ids: seq<Id>, g: Deps, batches: seq<Batch>,
                 level: map<Id, nat>, remaining: seq<Id>)
    requires Preorder(le) && Building(le, ids, g, batches, level, remaining) && remaining != []
    requires ReadyIds(g, level.Keys, remaining) == []
    ensures IsMergePreview(le, ids, g, batches + [Batch(SortedIds(le, remaining), true)])
  {
    hide Depth, Hopeless, Waited, Preorder, Sorted, ReadyIds, Unready, SortedIds, Sort;
    AllRemainingHopeless(g, level.Keys, remaining);
    FlattenSnoc(batches, Batch(SortedIds(le, remaining), true));
    forall i, t | 0 <= i < |batches| && t in batches[i].taskIds ensures Depth(g, t, i) && !Hopeless(g, t) {
      assert Depth(g, t, level[t]);
    }
  }

  lemma Finish(le: (Id, Id) -> bool, ids: seq<Id>, g: Deps, batches: seq<Batch>, level: map<Id, nat>)
    requires Building(le, ids, g, batches, level, [])
    ensures IsMergePreview(le, ids, g, batches)
  {
    hide Depth, Hopeless, Waited, Preorder, Sorted, ReadyIds, Unready, SortedIds, Sort;
    forall i, t | 0 <= i < |batches| && t in batches[i].taskIds ensures Depth(g, t, i) && !Hopeless(g, t) {
      assert Depth(g, t, level[t]);
    }
  }

  /** `t` was not ready when layer `n - 1` was formed. */
  ghost predicate Waited(g: Deps, level: map<Id, nat>, t: Id, n: nat)
    requires t in g
  {
    n > 0 ==> exists d :: d in g[t] && (d in level ==> level[d] == n - 1)
  }

  lemma Grow(g: Deps, level: map<Id, nat>, batches: seq<Batch>, layer: seq<Id>) returns (grown: map<Id, nat>)
    requires LevelsOf(batches, level) && Layered(g, level)
    requires forall t | t in layer :: t !in level && Ready(g, level.Keys, t) && Waited(g, level, t, |batches|)
    ensures grown.Keys == level.Keys + (set t | t in layer)
    ensures LevelsOf(batches + [Batch(layer, false)], grown) && Layered(g, grown)
    ensures forall t | t in g && !Ready(g, level.Keys, t) :: Waited(g, grown, t, |batches| + 1)
  {
    var n := |batches|;
    grown := map t | t in level.Keys + (set u | u in layer) :: if t in level then level[t] else n;
    forall t | t in layer ensures Depth(g, t, n) && !Hopeless(g, t) {
      NextDepth(g, t, n, level);
      NotHopeless(g, t);
    }
  }

  function SortedIds(le: (Id, Id) -> bool, ids: seq<Id>): (r: seq<Id>)
    ensures multiset(r) == multiset(ids) && |r| == |ids|
    ensures forall t :: t in r <==> t in ids
    ensures Preorder(le) ==> Sorted(le, r)
  {
    SortPermutes(le, ids);
    assert Preorder(le) ==> Sorted(le, Sort(le, ids)) by {
      if Preorder(le) { SortSorts(le, ids); }
    }
    Sort(le, ids)
  }

  lemma FlattenSnoc(batches: seq<Batch>, b: Batch)
    ensures Flatten(batches + [b]) == Flatten(batches) + b.taskIds
  {
    assert (batches + [b])[..|batches|] == batches;
  }

  lemma AllRemainingHopeless(g: Deps, completed: set<Id>, remaining: seq<Id>)
    requires forall t | t in remaining :: t in g && !Ready(g, completed, t)
    requires forall t | t in g :: t in completed || t in remaining
    ensures forall t | t in remaining :: Hopeless(g, t)
  {
    var stuck := set t | t in remaining;
    forall t | t in stuck ensures exists d :: d in g[t] && (d in stuck || d !in g) {
      var d :| d in g[t] && d !in completed;
    }
    forall t | t in remaining ensures Hopeless(g, t) {
      var u := StuckIsUnorderable(g, stuck, t);
    }
  }

  /**
   * No layering of the tasks that can be ordered places one of them earlier than its chain length: only edges into
   * such tasks have to be respected, so a backlog with cycles or missing ids is covered too.
   */
  lemma {:induction false} NoLayeringIsShallower(g: Deps, layer: Id -> nat, x: Id, t: Id, n: nat)
    requires forall a, b | Edge(g, a, b) && !Hopeless(g, b) :: layer(a) < layer(b)
    requires Walk(g, x, t, n) && !Hopeless(g, t)
    ensures layer(t) >= n
    decreases n
  {
    if n > 0 {
      var z :| Walk(g, x, z, n - 1) && Edge(g, z, t);
      HopeGoesBack(g, z, t);
      NoLayeringIsShallower(g, layer, x, z, n - 1);
    }
  }

  lemma HopeGoesBack(g: Deps, z: Id, t: Id)
    requires Edge(g, z, t) && !Hopeless(g, t)
    ensures !Hopeless(g, z)
  {
    if u :| Reaches(g, u, z) && Unorderable(g, u) {
      EdgePrecedes(g, z, t);
      ReachesTransitive(g, u, z, t);
    }
  }

  /** The task is in the i-th batch. */
  predicate InBatch(batches: seq<seq<Id>>, i: nat, t: Id) {
    i < |batches| && t in batches[i]
  }

  /** A list of batches that holds every task that can be ordered, each after all its dependencies. */
  ghost predicate Respects(g: Deps, batches: seq<seq<Id>>) {
    && (forall t | t in g && !Hopeless(g, t) :: exists i: nat :: InBatch(batches, i, t))
    && (forall a, b, j: nat | Edge(g, a, b) && !Hopeless(g, b) && InBatch(batches, j, b) ::
          exists i: nat :: i < j && InBatch(batches, i, a))
  }

  lemma {:induction false} ChainNeedsBatches(g: Deps, batches: seq<seq<Id>>, x: Id, t: Id, n: nat, j: nat)
    requires Respects(g, batches) && Walk(g, x, t, n) && !Hopeless(g, t) && InBatch(batches, j, t)
    ensures j >= n
    decreases n
  {
    hide Hopeless;
    if n > 0 {
      var z :| Walk(g, x, z, n - 1) && Edge(g, z, t);
      HopeGoesBack(g, z, t);
      var i: nat :| i < j && InBatch(batches, i, z);
      ChainNeedsBatches(g, batches, x, z, n - 1, i);
    }
  }

  /** The batches of a preview apart from the fallback. */
  function Proper(batches: seq<Batch>): nat {
    if batches != [] && batches[|batches| - 1].fallback then |batches| - 1 else |batches|
  }

  /** Whatever the backlog, no list of batches that respects the dependencies is shorter than the preview. */
  lemma NoPreviewIsShorter(le: (Id, Id) -> bool, ids: seq<Id>, g: Deps, batches: seq<Batch>, other: seq<seq<Id>>)
    requires IsMergePreview(le, ids, g, batches) && (forall t :: t in ids <==> t in g) && Respects(g, other)
    ensures |other| >= Proper(batches)
  {
    var n := Proper(batches);
    if n > 0 {
      hide Hopeless, Respects;
      assert batches[n - 1] in batches && !batches[n - 1].fallback;
      var t := batches[n - 1].taskIds[0];
      assert Depth(g, t, n - 1) && !Hopeless(g, t);
      TaskOfPreview(le, ids, g, batches, n - 1, t);
      var x :| Walk(g, x, t, n - 1);
      LastBatch(g, other, x, t, n - 1);
    }
  }

  lemma LastBatch(g: Deps, batches: seq<seq<Id>>, x: Id, t: Id, n: nat)
    requires Respects(g, batches) && Walk(g, x, t, n) && !Hopeless(g, t) && t in g
    ensures |batches| > n
  {
    var j: nat :| InBatch(batches, j, t);
    ChainNeedsBatches(g, batches, x, t, n, j);
  }

  lemma TaskOfPreview(le: (Id, Id) -> bool, ids: seq<Id>, g: Deps, batches: seq<Batch>, i: nat, t: Id)
    requires IsMergePreview(le, ids, g, batches) && (forall x :: x in ids <==> x in g)
    requires i < |batches| && t in batches[i].taskIds
    ensures t in g
  {
    hide Hopeless, Depth, Sorted;
    FlattenHolds(batches, i, t);
    assert t in multiset(Flatten(batches)) && t in multiset(ids);
  }

  lemma {:induction false} FlattenHolds(batches: seq<Batch>, i: nat, t: Id)
    requires i < |batches| && t in batches[i].taskIds
    ensures t in Flatten(batches)
    decreases |batches|
  {
    var k := |batches| - 1;
    if i < k {
      FlattenHolds(batches[..k], i, t);
    }
  }
}
