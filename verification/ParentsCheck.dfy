/** `ParentsCheck`: the search for held nodes whose parent is not their holder. The containment
    graph may be anything, cycles included; only the parent pointers must be a forest. */
module ParentsChecks {
  import opened Wrappers
  import opened Worlds
  import opened Boxes

  // `held[h]` lists the nodes that h holds, in iteration order.
  datatype Graph = Graph(held: map<Id, seq<Id>>, parent: Parents)

  ghost predicate Valid(g: Graph) {
    && g.held.Keys == g.parent.Keys
    && Acyclic(g.parent)
    && forall h, c | h in g.held && c in g.held[h] :: c in g.held
  }

  // ----- reachability along the containers -----

  ghost predicate ReachedIn(g: Graph, from: Id, to: Id, k: nat)
    decreases k
  {
    if k == 0 then from == to
    else exists m :: m in g.held && to in g.held[m] && ReachedIn(g, from, m, k - 1)
  }

  ghost predicate Reachable(g: Graph, from: Id, to: Id) {
    exists k: nat :: ReachedIn(g, from, to, k)
  }

  lemma ReachableStep(g: Graph, from: Id, m: Id, to: Id)
    requires Reachable(g, from, m) && m in g.held && to in g.held[m]
    ensures Reachable(g, from, to)
  {
    var k: nat :| ReachedIn(g, from, m, k);
    assert ReachedIn(g, from, to, k + 1);
  }

  lemma {:induction false} ReachedInClosed(g: Graph, from: Id, to: Id, k: nat, s: set<Id>)
    requires from in s && ReachedIn(g, from, to, k)
    requires forall h, c | h in s && h in g.held && c in g.held[h] :: c in s
    ensures to in s
    decreases k
  {
    if k > 0 {
      var m :| m in g.held && to in g.held[m] && ReachedIn(g, from, m, k - 1);
      ReachedInClosed(g, from, m, k - 1, s);
    }
  }

  // ----- the search -----

  // A node that is held by somebody else than its parent.
  ghost predicate Misplaced(g: Graph, h: Id, c: Id) {
    h in g.held && c in g.held[h] && c in g.parent && g.parent[c] != Some(h)
  }

  // The record only grows, by misplaced nodes with a holder that the search reached.
  ghost predicate Sound(g: Graph, root: Id, before: map<Id, Id>, after: map<Id, Id>) {
    && (forall c | c in before :: c in after && after[c] == before[c])
    && (forall c | c in after && c !in before :: Reachable(g, root, after[c]) && Misplaced(g, after[c], c))
  }

  // Every node the search went through has been dealt with: each node it holds is in its place or
  // recorded, and was gone through as well unless it had been recorded before.
  ghost predicate Complete(g: Graph, before: map<Id, Id>, after: map<Id, Id>, visited: set<Id>) {
    && (forall h, c | h in visited && h in g.held && c in g.held[h] ::
          (Misplaced(g, h, c) ==> c in after) && (c in visited || c in before))
    && (forall c | c in after && c !in before :: c in visited)
  }

  // Part of the loop over root's children is done.
  ghost predicate Partly(g: Graph, root: Id, before: map<Id, Id>, after: map<Id, Id>, visited: set<Id>, done: seq<Id>) {
    && Sound(g, root, before, after)
    && root in visited && (forall h | h in visited :: Reachable(g, root, h))
    && (forall c | c in after && c !in before :: c in visited)
    && (forall h, c | h in visited && h != root && h in g.held && c in g.held[h] ::
          Handled(g, h, c, before, after, visited))
    && (forall c | c in done :: Handled(g, root, c, before, after, visited))
  }

  ghost predicate Handled(g: Graph, h: Id, c: Id, before: map<Id, Id>, after: map<Id, Id>, visited: set<Id>) {
    (Misplaced(g, h, c) ==> c in after) && (c in visited || c in before)
  }

  lemma SearchedChild(g: Graph, root: Id, before: map<Id, Id>, mid: map<Id, Id>, recorded: map<Id, Id>,
                      after: map<Id, Id>, visited: set<Id>, more: set<Id>, done: seq<Id>, c: Id)
    requires Partly(g, root, before, mid, visited, done)
    requires root in g.held && c in g.held[root] && c in g.parent && c !in mid
    requires recorded == if g.parent[c] != Some(root) then mid[c := root] else mid
    requires Sound(g, c, recorded, after) && Complete(g, recorded, after, more)
    requires c in more && forall h | h in more :: Reachable(g, c, h)
    ensures Partly(g, root, before, after, visited + more, done + [c])
  {
    assert ReachedIn(g, root, root, 0);
    ReachableStep(g, root, root, c);
    ReachFurther(g, root, c, more, recorded, after);
    var all := visited + more;
    forall h, d | h in all && h != root && h in g.held && d in g.held[h] ensures Handled(g, h, d, before, after, all) {
      if h in visited { assert Handled(g, h, d, before, mid, visited); }
    }
    forall d | d in done + [c] ensures Handled(g, root, d, before, after, all) {
      if d in done { assert Handled(g, root, d, before, mid, visited); }
    }
  }

  lemma RecordedChild(g: Graph, root: Id, before: map<Id, Id>, after: map<Id, Id>, visited: set<Id>, done: seq<Id>,
                      c: Id)
    requires Partly(g, root, before, after, visited, done) && c in after
    ensures Partly(g, root, before, after, visited, done + [c])
  {
  }

  lemma NothingSearched(g: Graph, root: Id, before: map<Id, Id>)
    ensures Partly(g, root, before, before, {root}, [])
  {
    assert ReachedIn(g, root, root, 0);
  }

  lemma AllSearched(g: Graph, root: Id, before: map<Id, Id>, after: map<Id, Id>, visited: set<Id>)
    requires root in g.held && Partly(g, root, before, after, visited, g.held[root])
    ensures Sound(g, root, before, after) && Complete(g, before, after, visited)
    ensures root in visited && forall h | h in visited :: Reachable(g, root, h)
  {
    hide Sound, Misplaced, Reachable;
    forall h, c | h in visited && h in g.held && c in g.held[h]
      ensures (Misplaced(g, h, c) ==> c in after) && (c in visited || c in before)
    {
      assert Handled(g, h, c, before, after, visited);
    }
  }

  lemma LessLeft(all: set<Id>, before: set<Id>, after: set<Id>)
    requires before <= after <= all
    ensures after == before || all - after < all - before
  {
    if after - before == {} {
      forall x | x in after ensures x in before { assert x !in after - before; }
    } else {
      var x :| x in after - before;
      assert x in all - before && x !in all - after;
    }
  }

  /** One call. It terminates whatever the containers look like: a call either is for a newly recorded
      node, or goes down to a node whose parent is the caller's. */
  method Search(g: Graph, root: Id, before: map<Id, Id>, ghost rank: map<Id, nat>, ghost bound: nat)
    returns (after: map<Id, Id>, ghost visited: set<Id>)
    requires Valid(g) && root in g.held && before.Keys <= g.held.Keys
    requires Ranked(g.parent, rank) && forall n | n in g.parent :: rank[n] <= bound
    ensures after.Keys <= g.held.Keys && before.Keys <= after.Keys
    ensures Sound(g, root, before, after)
    ensures root in visited && Complete(g, before, after, visited)
    ensures forall h | h in visited :: Reachable(g, root, h)
    decreases g.held.Keys - before.Keys, bound - rank[root]
  {
    hide Partly, Sound, Complete, Misplaced, Reachable;
    after, visited := before, {root};
    NothingSearched(g, root, before);
    var childs := g.held[root];
    for i := 0 to |childs|
      invariant after.Keys <= g.held.Keys && before.Keys <= after.Keys
      invariant Partly(g, root, before, after, visited, childs[..i])
    {
      var c := childs[i];
      assert childs[..i + 1] == childs[..i] + [c] && c in childs;
      if c !in after {
        ghost var mid := after;
        if g.parent[c] != Some(root) { after := after[c := root]; }
        ghost var recorded := after;
        ghost var more;
        LessLeft(g.held.Keys, before.Keys, after.Keys);
        assert after.Keys == before.Keys ==> rank[root] < rank[c];
        after, more := Search(g, c, after, rank, bound);
        SearchedChild(g, root, before, mid, recorded, after, visited, more, childs[..i], c);
        visited := visited + more;
      } else {
        RecordedChild(g, root, before, after, visited, childs[..i], c);
      }
    }
    assert childs[..|childs|] == childs;
    AllSearched(g, root, before, after, visited);
  }

  lemma ReachFurther(g: Graph, root: Id, c: Id, more: set<Id>, before: map<Id, Id>, after: map<Id, Id>)
    requires Reachable(g, root, c)
    requires Sound(g, c, before, after) && forall h | h in more :: Reachable(g, c, h)
    ensures Sound(g, root, before, after) && forall h | h in more :: Reachable(g, root, h)
  {
    forall h | Reachable(g, c, h) ensures Reachable(g, root, h) { ReachableTransitive(g, root, c, h); }
  }

  lemma ReachableTransitive(g: Graph, a: Id, b: Id, c: Id)
    requires Reachable(g, a, b) && Reachable(g, b, c)
    ensures Reachable(g, a, c)
  {
    var k: nat :| ReachedIn(g, b, c, k);
    ReachableExtends(g, a, b, c, k);
  }

  lemma {:induction false} ReachableExtends(g: Graph, a: Id, b: Id, c: Id, k: nat)
    requires Reachable(g, a, b) && ReachedIn(g, b, c, k)
    ensures Reachable(g, a, c)
    decreases k
  {
    if k > 0 {
      var m :| m in g.held && c in g.held[m] && ReachedIn(g, b, m, k - 1);
      ReachableExtends(g, a, b, m, k - 1);
      ReachableStep(g, a, m, c);
    }
  }

  // Some holder that the search reaches holds the node although it is not its parent.
  ghost predicate Improper(g: Graph, root: Id, c: Id) {
    exists h :: Reachable(g, root, h) && Misplaced(g, h, c)
  }

  lemma RecordIsRight(g: Graph, root: Id, improper: map<Id, Id>, visited: set<Id>)
    requires Sound(g, root, map[], improper) && root in visited && Complete(g, map[], improper, visited)
    ensures forall c :: c in improper <==> Improper(g, root, c)
    ensures forall c | c in improper :: Reachable(g, root, improper[c]) && Misplaced(g, improper[c], c)
  {
    forall h, c | Reachable(g, root, h) && Misplaced(g, h, c) ensures c in improper {
      VisitedAreReached(g, root, improper, visited, h);
    }
  }

  lemma VisitedAreReached(g: Graph, root: Id, improper: map<Id, Id>, visited: set<Id>, h: Id)
    requires root in visited && Complete(g, map[], improper, visited) && Reachable(g, root, h)
    ensures h in visited
  {
    hide Misplaced;
    var k: nat :| ReachedIn(g, root, h, k);
    ReachedInClosed(g, root, h, k, visited);
  }

  /** The whole check, from an empty record: it records exactly the nodes that some reachable holder
      holds although it is not their parent, each with such a holder. So an empty result means that
      every reachable held node has its holder as parent. */
  method ParentsCheck(g: Graph, root: Id) returns (improper: map<Id, Id>)
    requires Valid(g) && root in g.held
    ensures forall c :: c in improper <==> Improper(g, root, c)
    ensures forall c | c in improper :: Reachable(g, root, improper[c]) && Misplaced(g, improper[c], c)
  {
    ghost var rank :| Ranked(g.parent, rank);
    ghost var bound := Bound(g.parent.Keys, rank);
    ghost var visited;
    improper, visited := Search(g, root, map[], rank, bound);
    hide Sound, Complete, Reachable, Misplaced, Improper;
    RecordIsRight(g, root, improper, visited);
  }

  ghost function Bound(s: set<Id>, rank: map<Id, nat>): (b: nat)
    requires s <= rank.Keys
    ensures forall n | n in s :: rank[n] <= b
  {
    if s == {} then 0
    else
      var x :| x in s;
      var b := Bound(s - {x}, rank);
      assert forall n | n in s :: n == x || n in s - {x};
      if rank[x] > b then rank[x] else b
  }
}
