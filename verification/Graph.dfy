/** Directed graphs on `0..n`: a topological order exists exactly when no path returns to its start. */
module Graph {
  type Edges = seq<(nat, nat)>

  predicate InBounds(n: nat, edges: Edges) {
    forall i | 0 <= i < |edges| :: edges[i].0 < n && edges[i].1 < n
  }

  ghost predicate IsWalk(edges: Edges, p: seq<nat>) {
    p != [] && forall i | 0 <= i < |p| - 1 :: (p[i], p[i + 1]) in edges
  }

  /** A path of at least one edge that returns to its start. */
  ghost predicate IsCycle(edges: Edges, p: seq<nat>) {
    |p| >= 2 && IsWalk(edges, p) && p[0] == p[|p| - 1]
  }

  ghost predicate HasCycle(edges: Edges) {
    exists p :: IsCycle(edges, p)
  }

  ghost predicate NoDuplicates(p: seq<nat>) {
    forall i, j | 0 <= i < j < |p| :: p[i] != p[j]
  }

  /** `order` starts a topological order: each entry comes after all its predecessors. */
  ghost predicate PartialOrder(n: nat, edges: Edges, order: seq<nat>) {
    && NoDuplicates(order)
    && (forall v | v in order :: v < n)
    && (forall a, j | 0 <= j < |order| && (a, order[j]) in edges :: a in order[..j])
  }

  ghost predicate IsTopological(n: nat, edges: Edges, order: seq<nat>) {
    && |order| == n && NoDuplicates(order)
    && (forall v | v in order :: v < n)
    && (forall i, j | 0 <= i < n && 0 <= j < n && (order[i], order[j]) in edges :: i < j)
  }

  lemma {:induction false} EdgeInBounds(n: nat, edges: Edges, a: nat, b: nat)
    requires InBounds(n, edges) && (a, b) in edges
    ensures a < n && b < n
  {
  }

  // -------------------------------------------------------------------------
  // Pigeonhole
  // -------------------------------------------------------------------------

  function Below(n: nat): (s: set<nat>)
    ensures |s| == n && forall v: nat :: v in s <==> v < n
  {
    if n == 0 then {} else Below(n - 1) + {n - 1}
  }

  function Elements(p: seq<nat>): (s: set<nat>)
    ensures forall v :: v in s <==> v in p
  {
    if p == [] then {} else {p[0]} + Elements(p[1..])
  }

  lemma {:induction false} CountElements(p: seq<nat>)
    requires NoDuplicates(p)
    ensures |Elements(p)| == |p|
  {
    if p != [] {
      CountElements(p[1..]);
      assert p[0] !in p[1..];
    }
  }

  lemma {:induction false} SubsetSize(a: set<nat>, b: set<nat>)
    requires a <= b
    ensures |a| <= |b|
    ensures |a| == |b| ==> a == b
  {
    assert b == a + (b - a);
  }

  lemma {:induction false} ElementsBelow(p: seq<nat>, n: nat)
    requires NoDuplicates(p) && forall v | v in p :: v < n
    ensures |p| <= n
    ensures |p| == n ==> forall v: nat | v < n :: v in p
  {
    CountElements(p);
    SubsetSize(Elements(p), Below(n));
    if |p| == n {
      assert forall v: nat | v < n :: v in Below(n);
    }
  }

  lemma {:induction false} Repeats(p: seq<nat>, n: nat) returns (i: nat, j: nat)
    requires |p| > n && forall v | v in p :: v < n
    ensures i < j < |p| && p[i] == p[j]
  {
    if NoDuplicates(p) {
      ElementsBelow(p, n);
    }
    i, j :| 0 <= i < j < |p| && p[i] == p[j];
  }

  // -------------------------------------------------------------------------
  // No way to go on means a cycle
  // -------------------------------------------------------------------------

  /** `v` can be placed next. */
  ghost predicate Source(n: nat, edges: Edges, placed: seq<nat>, v: nat) {
    v < n && v !in placed && forall a | (a, v) in edges :: a in placed
  }

  /** If every remaining vertex has a remaining predecessor, walks back through them can be as long as one likes. */
  lemma {:induction false} WalkBack(n: nat, edges: Edges, placed: seq<nat>, v: nat, k: nat) returns (p: seq<nat>)
    requires InBounds(n, edges) && v < n && v !in placed
    requires forall u :: !Source(n, edges, placed, u)
    ensures |p| == k + 1 && IsWalk(edges, p) && p[k] == v && forall u | u in p :: u < n
    decreases k
  {
    if k == 0 {
      p := [v];
    } else {
      assert !Source(n, edges, placed, v);
      var a :| (a, v) in edges && a !in placed;
      EdgeInBounds(n, edges, a, v);
      var q := WalkBack(n, edges, placed, a, k - 1);
      p := q + [v];
    }
  }

  lemma {:induction false} SubWalk(edges: Edges, p: seq<nat>, i: nat, j: nat)
    requires IsWalk(edges, p) && i < j <= |p|
    ensures IsWalk(edges, p[i..j])
  {
    var c := p[i..j];
    forall k | 0 <= k < |c| - 1
      ensures (c[k], c[k + 1]) in edges
    {
      assert (p[i + k], p[i + k + 1]) in edges;
    }
  }

  lemma {:induction false} StuckMeansCycle(n: nat, edges: Edges, placed: seq<nat>, v: nat)
    requires InBounds(n, edges) && v < n && v !in placed
    requires forall u :: !Source(n, edges, placed, u)
    ensures HasCycle(edges)
  {
    var p := WalkBack(n, edges, placed, v, n);
    var i, j := Repeats(p, n);
    SubWalk(edges, p, i, j + 1);
    assert IsCycle(edges, p[i..j + 1]);
  }

  // -------------------------------------------------------------------------
  // Orders rule out cycles, and the absence of cycles yields an order
  // -------------------------------------------------------------------------

  lemma {:induction false} PlaceSource(n: nat, edges: Edges, order: seq<nat>, v: nat)
    requires PartialOrder(n, edges, order) && Source(n, edges, order, v)
    ensures PartialOrder(n, edges, order + [v])
  {
    var next := order + [v];
    forall a, j | 0 <= j < |next| && (a, next[j]) in edges
      ensures a in next[..j]
    {
      if j < |order| {
        assert next[..j] == order[..j];
      } else {
        assert next[..j] == order;
      }
    }
  }

  lemma {:induction false} FullPartialOrder(n: nat, edges: Edges, order: seq<nat>)
    requires PartialOrder(n, edges, order) && |order| == n
    ensures IsTopological(n, edges, order)
  {
    forall i, j | 0 <= i < n && 0 <= j < n && (order[i], order[j]) in edges
      ensures i < j
    {
      assert order[i] in order[..j];
    }
  }

  lemma {:induction false} CompleteOrder(n: nat, edges: Edges, order: seq<nat>) returns (full: seq<nat>)
    requires InBounds(n, edges) && !HasCycle(edges) && PartialOrder(n, edges, order)
    ensures IsTopological(n, edges, full)
    decreases n - |order|
  {
    ElementsBelow(order, n);
    if |order| == n {
      full := order;
      FullPartialOrder(n, edges, order);
    } else {
      var v := Missing(n, order);
      if forall u :: !Source(n, edges, order, u) {
        StuckMeansCycle(n, edges, order, v);
      }
      var u :| Source(n, edges, order, u);
      PlaceSource(n, edges, order, u);
      full := CompleteOrder(n, edges, order + [u]);
    }
  }

  lemma {:induction false} Missing(n: nat, p: seq<nat>) returns (v: nat)
    requires NoDuplicates(p) && |p| < n
    ensures v < n && v !in p
  {
    if forall v | v in Below(n) :: v in p {
      CountElements(p);
      SubsetSize(Below(n), Elements(p));
    }
    v :| v in Below(n) && v !in p;
  }

  lemma {:induction false} WalkRises(n: nat, edges: Edges, order: seq<nat>, p: seq<nat>, i: nat, j: nat)
    requires InBounds(n, edges) && IsTopological(n, edges, order) && IsWalk(edges, p) && |p| >= 2
    requires i < n && j < n && order[i] == p[0] && order[j] == p[|p| - 1]
    ensures i < j
    decreases |p|
  {
    assert (p[0], p[1]) in edges;
    EdgeInBounds(n, edges, p[0], p[1]);
    ElementsBelow(order, n);
    assert p[1] in order;
    var k :| 0 <= k < n && order[k] == p[1];
    if |p| > 2 {
      SubWalk(edges, p, 1, |p|);
      WalkRises(n, edges, order, p[1..], k, j);
    }
  }

  lemma {:induction false} OrderedMeansAcyclic(n: nat, edges: Edges, order: seq<nat>)
    requires InBounds(n, edges) && IsTopological(n, edges, order)
    ensures !HasCycle(edges)
  {
    if p :| IsCycle(edges, p) {
      assert (p[0], p[1]) in edges;
      EdgeInBounds(n, edges, p[0], p[1]);
      ElementsBelow(order, n);
      assert p[0] in order;
      var i :| 0 <= i < n && order[i] == p[0];
      WalkRises(n, edges, order, p, i, i);
    }
  }

  /** A graph has a topological order exactly when no path returns to its start. */
  lemma {:induction false} AcyclicIffOrdered(n: nat, edges: Edges)
    requires InBounds(n, edges)
    ensures !HasCycle(edges) <==> exists order :: IsTopological(n, edges, order)
  {
    if !HasCycle(edges) {
      var order := CompleteOrder(n, edges, []);
    }
    if order :| IsTopological(n, edges, order) {
      OrderedMeansAcyclic(n, edges, order);
    }
  }

  /**
    Topological sort: an order, or nothing when there is a cycle. Vertices whose predecessors are all
    placed are placed one at a time.
  */
  method Toposort(n: nat, edges: Edges) returns (sorted: bool, order: seq<nat>)
    requires InBounds(n, edges)
    ensures sorted <==> !HasCycle(edges)
    ensures sorted ==> IsTopological(n, edges, order)
  {
    order := [];
    while |order| < n
      invariant |order| <= n && PartialOrder(n, edges, order)
      decreases n - |order|
    {
      var found, v := FindSource(n, edges, order);
      if !found {
        var missing := Missing(n, order);
        StuckMeansCycle(n, edges, order, missing);
        return false, order;
      }
      PlaceSource(n, edges, order, v);
      order := order + [v];
      ElementsBelow(order, n);
    }
    FullPartialOrder(n, edges, order);
    OrderedMeansAcyclic(n, edges, order);
    sorted := true;
  }

  method FindSource(n: nat, edges: Edges, placed: seq<nat>) returns (found: bool, v: nat)
    requires InBounds(n, edges)
    ensures found ==> Source(n, edges, placed, v)
    ensures !found ==> forall u :: !Source(n, edges, placed, u)
  {
    v := 0;
    while v < n
      invariant v <= n
      invariant forall u | 0 <= u < v :: !Source(n, edges, placed, u)
    {
      if v !in placed {
        var free := true;
        for k := 0 to |edges|
          invariant free <==> forall i | 0 <= i < k && edges[i].1 == v :: edges[i].0 in placed
        {
          if edges[k].1 == v && edges[k].0 !in placed {
            free := false;
          }
        }
        if free {
          return true, v;
        }
      }
      v := v + 1;
    }
    found := false;
  }
}
