/** The nodes of all trees together: parent pointers, names and containers are three separate
    pieces of state, as in `XNode`. This module holds the walks along parent pointers and the
    private steps (`INodePrivate`) out of which every public operation is made. */
module Worlds {
  import opened Wrappers
  import opened XValues
  import opened Boxes

  type Parents = map<Id, Option<Id>>

  // A name of "" is the absence of a name.
  datatype World = World(parent: Parents, name: map<Id, string>, box: map<Id, Box>)

  ghost predicate Closed(parent: Parents) {
    forall n | n in parent && parent[n].Some? :: parent[n].value in parent
  }

  ghost predicate Shaped(w: World) {
    w.parent.Keys == w.name.Keys == w.box.Keys && Closed(w.parent)
  }

  ghost predicate Valid(w: World) {
    && Shaped(w)
    && (forall p | p in w.box :: Owning(w.box[p]))
    && (forall p, c {:trigger RefersTo(w.box[p], c)} | p in w.box && RefersTo(w.box[p], c) :: c in w.parent)
  }

  // ----- walking up -----

  // a is reached from n by k steps along parent pointers
  ghost predicate Up(parent: Parents, n: Id, a: Id, k: nat)
    decreases k
  {
    if k == 0 then n == a
    else n in parent && parent[n].Some? && Up(parent, parent[n].value, a, k - 1)
  }

  // a is n or one of its ancestors
  ghost predicate Below(parent: Parents, n: Id, a: Id) {
    exists k: nat :: Up(parent, n, a, k)
  }

  ghost predicate Ranked(parent: Parents, rank: map<Id, nat>) {
    && parent.Keys <= rank.Keys
    && forall n | n in parent && parent[n].Some? ::
         parent[n].value in parent && rank[parent[n].value] < rank[n]
  }

  // The parent pointers form a forest: every step up descends in some ranking.
  ghost predicate Acyclic(parent: Parents) {
    exists rank :: Ranked(parent, rank)
  }

  lemma BelowSelf(parent: Parents, n: Id)
    ensures Below(parent, n, n)
  {
    assert Up(parent, n, n, 0);
  }

  lemma BelowStep(parent: Parents, n: Id, a: Id)
    requires n in parent
    ensures Below(parent, n, a) <==> n == a || (parent[n].Some? && Below(parent, parent[n].value, a))
  {
    if Below(parent, n, a) {
      var k: nat :| Up(parent, n, a, k);
      if k > 0 { assert Up(parent, parent[n].value, a, k - 1); }
    }
    if n == a { BelowSelf(parent, n); }
    if parent[n].Some? && Below(parent, parent[n].value, a) {
      var k: nat :| Up(parent, parent[n].value, a, k);
      assert Up(parent, n, a, k + 1);
    }
  }

  lemma {:induction false} UpDescends(parent: Parents, rank: map<Id, nat>, n: Id, a: Id, k: nat)
    requires Ranked(parent, rank) && n in parent && Up(parent, n, a, k)
    ensures a in parent && rank[a] + k <= rank[n]
    decreases k
  {
    if k > 0 { UpDescends(parent, rank, parent[n].value, a, k - 1); }
  }

  /** No node is its own proper ancestor. */
  lemma NoCycle(parent: Parents, n: Id, k: nat)
    requires Acyclic(parent) && n in parent && Up(parent, n, n, k)
    ensures k == 0
  {
    var rank :| Ranked(parent, rank);
    UpDescends(parent, rank, n, n, k);
  }

  lemma {:induction false} UpExtends(parent: Parents, n: Id, a: Id, k: nat)
    requires a in parent && parent[a].Some? && Up(parent, n, a, k)
    ensures Up(parent, n, parent[a].value, k + 1)
    decreases k
  {
    if k > 0 { UpExtends(parent, parent[n].value, a, k - 1); }
  }

  lemma {:induction false} UpThen(parent: Parents, n: Id, a: Id, b: Id, i: nat, j: nat)
    requires Up(parent, n, a, i) && Up(parent, a, b, j)
    ensures Up(parent, n, b, i + j)
    decreases i
  {
    if i > 0 { UpThen(parent, parent[n].value, a, b, i - 1, j); }
  }

  lemma BelowTransitive(parent: Parents, n: Id, a: Id, b: Id)
    requires Below(parent, n, a) && Below(parent, a, b)
    ensures Below(parent, n, b)
  {
    var i: nat :| Up(parent, n, a, i);
    var j: nat :| Up(parent, a, b, j);
    UpThen(parent, n, a, b, i, j);
  }

  lemma BelowBothWays(parent: Parents, n: Id, a: Id)
    requires Acyclic(parent) && n in parent && Below(parent, n, a) && Below(parent, a, n)
    ensures n == a
  {
    var i: nat :| Up(parent, n, a, i);
    var j: nat :| Up(parent, a, n, j);
    UpThen(parent, n, a, n, i, j);
    NoCycle(parent, n, i + j);
  }

  // What is above n depends on the parents of the nodes above n only.
  lemma {:induction false} UpDependsAbove(parent: Parents, after: Parents, n: Id, a: Id, k: nat)
    requires Up(parent, n, a, k) && forall x | x in parent && Below(parent, n, x) :: x in after && after[x] == parent[x]
    ensures Up(after, n, a, k)
    decreases k
  {
    if k > 0 {
      BelowSelf(parent, n);
      forall x | x in parent && Below(parent, parent[n].value, x) ensures x in after && after[x] == parent[x] {
        BelowStep(parent, n, x);
      }
      UpDependsAbove(parent, after, parent[n].value, a, k - 1);
    }
  }

  /** Giving c the parent p keeps the forest when p is not c and not below c. */
  lemma ReparentKeepsForest(parent: Parents, c: Id, p: Id)
    requires Acyclic(parent) && c in parent && p in parent && !Below(parent, p, c)
    ensures Acyclic(parent[c := Some(p)])
  {
    var rank :| Ranked(parent, rank);
    var up := rank[p] + 1;
    var lifted := map n | n in parent :: if Below(parent, n, c) then rank[n] + up else rank[n];
    forall n | n in parent && parent[c := Some(p)][n].Some?
      ensures lifted[parent[c := Some(p)][n].value] < lifted[n]
    {
      BelowStep(parent, n, c);
    }
    assert Ranked(parent[c := Some(p)], lifted);
  }

  lemma DetachKeepsForest(parent: Parents, c: Id)
    requires Acyclic(parent) && c in parent
    ensures Acyclic(parent[c := None])
  {
    var rank :| Ranked(parent, rank);
    assert Ranked(parent[c := None], rank);
  }

  lemma {:induction false} DetachShrinks(parent: Parents, d: Id, n: Id, a: Id, k: nat)
    requires Up(parent[d := None], n, a, k)
    ensures Up(parent, n, a, k)
    decreases k
  {
    if k > 0 { DetachShrinks(parent, d, parent[n].value, a, k - 1); }
  }

  lemma NotBelowAfterDetach(parent: Parents, d: Id, n: Id, a: Id)
    requires !Below(parent, n, a)
    ensures !Below(parent[d := None], n, a)
  {
    if Below(parent[d := None], n, a) {
      var k: nat :| Up(parent[d := None], n, a, k);
      DetachShrinks(parent, d, n, a, k);
    }
  }

  lemma {:induction false} UpAvoids(parent: Parents, c: Id, q: Id, n: Id, a: Id, k: nat)
    requires Up(parent[c := Some(q)], n, a, k) && !Below(parent, n, c) && n in parent && Closed(parent)
    ensures Up(parent, n, a, k)
    decreases k
  {
    if k > 0 {
      BelowStep(parent, n, c);
      UpAvoids(parent, c, q, parent[n].value, a, k - 1);
    }
  }

  lemma NotBelowAfterReparent(parent: Parents, c: Id, q: Id, n: Id, a: Id)
    requires !Below(parent, n, c) && !Below(parent, n, a) && n in parent && Closed(parent)
    ensures !Below(parent[c := Some(q)], n, a)
  {
    if Below(parent[c := Some(q)], n, a) {
      var k: nat :| Up(parent[c := Some(q)], n, a, k);
      UpAvoids(parent, c, q, n, a, k);
    }
  }

  lemma {:induction false} FreshIsNotAbove(parent: Parents, n: Id, c: Id, k: nat)
    requires Closed(parent) && n in parent && c !in parent
    ensures !Up(parent[c := None], n, c, k)
    decreases k
  {
    if k > 0 && parent[n].Some? { FreshIsNotAbove(parent, parent[n].value, c, k - 1); }
  }

  // ----- the private steps -----

  datatype ParentSetRes = ParentSetRes(w: World, ok: bool, prev: Option<Id>)

  // Whether c may get the parent p (`IsValidParent_`).
  ghost predicate ValidParent(w: World, c: Id, p: Option<Id>) {
    p.Some? ==> !Below(w.parent, p.value, c)
  }

  // `PrivateParentSet`: the parent pointer and the name only.
  ghost function PrivateParentSet(w: World, c: Id, p: Option<Id>, rename: Option<string>): ParentSetRes
    requires c in w.parent && c in w.name && (p.Some? ==> p.value in w.box)
  {
    if !ValidParent(w, c, p) then ParentSetRes(w, false, p)
    else if w.parent[c] == p then ParentSetRes(w, false, p)
    else
      var name := rename.GetOr(w.name[c]);
      if p.Some? && w.box[p.value].MapBox? && name == "" then ParentSetRes(w, false, None)
      else ParentSetRes(w.(parent := w.parent[c := p], name := w.name[c := name]), true, w.parent[c])
  }

  // `PrivateErase`: by the name the node carries now, else by searching for it.
  function ErasedBox(b: Box, c: Id, name: string): Box {
    var byName := if name == "" then EraseRes(b, None) else Erase(b, Name(name));
    if byName.erased.Some? then byName.box else RemoveFirst(b, c)
  }

  function PrivateErase(w: World, q: Id, c: Id): World
    requires q in w.box && c in w.name
  {
    w.(box := w.box[q := ErasedBox(w.box[q], c, w.name[c])])
  }

  // `SetAsChild_`: new parent, then out of the previous one.
  ghost function SetAsChild(w: World, p: Id, c: Id, rename: Option<string>): World
    requires Shaped(w) && c in w.parent && p in w.parent
  {
    var r := PrivateParentSet(w, c, Some(p), rename);
    if r.ok && r.prev.Some? then PrivateErase(r.w, r.prev.value, c) else r.w
  }

  // `ParentDetach`
  ghost function ParentDetach(w: World, c: Id): World
    requires Shaped(w) && c in w.parent
  {
    var r := PrivateParentSet(w, c, None, None);
    if r.ok && r.prev.Some? then PrivateErase(r.w, r.prev.value, c) else r.w
  }
}
