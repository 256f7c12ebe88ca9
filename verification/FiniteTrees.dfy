/** What agreement and the forest give together: below every node there is a finite tree, and
    `ParentsCheck` finds nothing. */
module FiniteTrees {
  import opened Wrappers
  import opened XValues
  import opened Boxes
  import opened Worlds
  import opened Agreement
  import opened TreeOps
  import opened TreeRuns
  import opened Trees
  import Checks = ParentsChecks

  lemma {:induction false} RankBound(rank: map<Id, nat>, ids: set<Id>) returns (top: nat)
    requires ids <= rank.Keys
    ensures forall n | n in ids :: rank[n] <= top
  {
    if ids == {} {
      top := 0;
    } else {
      var n :| n in ids;
      top := RankBound(rank, ids - {n});
      if top < rank[n] { top := rank[n]; }
    }
  }

  // A node held by p is one step further down.
  lemma HeldIsLower(w: World, rank: map<Id, nat>, p: Id, c: Id)
    requires Agree(w) && Ranked(w.parent, rank) && p in w.parent && RefersTo(w.box[p], c)
    ensures c in w.parent && rank[p] < rank[c]
  {
    assert Fits(w, p, c);
  }

  lemma {:induction false} TreesOfValues(w: World, rank: map<Id, nat>, top: nat, p: Id,
                                         vs: seq<XValue>) returns (ts: seq<Tree>)
    requires Agree(w) && Ranked(w.parent, rank) && p in w.parent && forall n | n in w.parent :: rank[n] <= top
    requires forall i | 0 <= i < |vs| :: !vs[i].ConstObject? && (vs[i].Object? ==> RefersTo(w.box[p], vs[i].addr))
    ensures |ts| == |vs| && forall i | 0 <= i < |vs| :: Represents(w.box, vs[i], ts[i])
    decreases top - rank[p], 0, |vs|
  {
    if vs == [] {
      ts := [];
    } else {
      var rest := TreesOfValues(w, rank, top, p, vs[1..]);
      var t := Leaf(vs[0]);
      if vs[0].Object? {
        HeldIsLower(w, rank, p, vs[0].addr);
        t := TreeOfNode(w, rank, top, vs[0].addr);
      }
      ts := [t] + rest;
      assert forall i | 0 < i < |vs| :: vs[i] == vs[1..][i - 1] && ts[i] == rest[i - 1];
    }
  }

  lemma {:induction false} TreeOfNode(w: World, rank: map<Id, nat>, top: nat, p: Id) returns (t: Tree)
    requires Agree(w) && Ranked(w.parent, rank) && p in w.parent && forall n | n in w.parent :: rank[n] <= top
    ensures Represents(w.box, Object(p), t)
    decreases top - rank[p], 1, 0
  {
    var b := w.box[p];
    var vs := Values(b);
    forall i | 0 <= i < |vs| ensures !vs[i].ConstObject? && (vs[i].Object? ==> RefersTo(b, vs[i].addr)) {
      if b.MapBox? { assert LiveKeys(b.m)[i] in LiveKeys(b.m); }
      if vs[i].Object? { ValuesAreStored(b, vs[i].addr); }
    }
    var ts := TreesOfValues(w, rank, top, p, vs);
    if b.MapBox? {
      forall i | 0 <= i < |ts| ensures LiveKeys(b.m)[i] in b.m && b.m[LiveKeys(b.m)[i]] == vs[i] {
        assert LiveKeys(b.m)[i] in LiveKeys(b.m);
      }
    }
    t := if b.MapBox? then MapTree(p, LiveKeys(b.m), ts) else ArrayTree(p, ts);
  }

  /** In every state that a run of safe calls leads to, each node is the root of one finite tree. */
  lemma EveryNodeHasATree(calls: seq<Call>, w: World, p: Id)
    requires Runs(NO_NODES, calls, w, true) && p in w.parent
    ensures exists t :: Represents(w.box, Object(p), t) && forall u | Represents(w.box, Object(p), u) :: u == t
  {
    EverySafeRunAgrees(calls, w);
    var rank :| Ranked(w.parent, rank);
    var top := RankBound(rank, w.parent.Keys);
    var t := TreeOfNode(w, rank, top, p);
    forall u | Represents(w.box, Object(p), u) ensures u == t { TreeIsUnique(w.box, Object(p), t, u); }
  }

  // ----- the check of parents -----

  // What `ParentsCheck` sees of the nodes: the nodes held by each, in iteration order, and the parents.
  function GraphOf(w: World): Checks.Graph {
    Checks.Graph(map n | n in w.box :: NodesOf(Values(w.box[n])), w.parent)
  }

  lemma HeldIsKnown(w: World, h: Id, c: Id)
    requires Agree(w) && h in w.box && c in NodesOf(Values(w.box[h]))
    ensures c in w.parent && w.parent[c] == Some(h)
  {
    ValuesAreStored(w.box[h], c);
    assert Fits(w, h, c);
  }

  /** Where everything agrees the check has nothing to record. */
  lemma AgreeingHasNothingImproper(w: World, h: Id, c: Id)
    requires Agree(w) && Acyclic(w.parent)
    ensures Checks.Valid(GraphOf(w)) && !Checks.Misplaced(GraphOf(w), h, c)
  {
    forall n, d | n in GraphOf(w).held && d in GraphOf(w).held[n] ensures d in GraphOf(w).held { HeldIsKnown(w, n, d); }
    if h in w.box && c in NodesOf(Values(w.box[h])) { HeldIsKnown(w, h, c); }
  }
}
