/** `xnode::Clone` with cloning of nodes and without a callback. */
module Clones {
  import opened Wrappers
  import opened XValues
  import opened Boxes
  import opened Holding
  import opened Worlds
  import opened Agreement
  import opened TreeOps
  import opened Forest
  import opened BulkInserts
  import opened TreeRuns
  import opened Trees
  import C = Compares
  import Order
  import NodeMethods

  // Everything about the nodes of w is the same in v.
  ghost predicate Extends(w: World, v: World) {
    && w.parent.Keys <= v.parent.Keys && (forall n | n in w.parent :: v.parent[n] == w.parent[n])
    && w.name.Keys <= v.name.Keys && (forall n | n in w.name :: v.name[n] == w.name[n])
    && StaysIn(w.box, v.box)
  }

  // ----- adopting roots -----

  lemma RootIsBelowItself(parent: Parents, p: Id, c: Id)
    requires p in parent && parent[p].None?
    ensures Worlds.Below(parent, p, c) <==> p == c
  {
    BelowStep(parent, p, c);
  }

  ghost predicate AllRoots(w: World, p: Id, todo: map<Id, Option<string>>)
    requires Shaped(w)
  {
    && p in w.parent && w.parent[p].None?
    && forall c | c in todo ::
         && c in w.parent && c != p && w.parent[c].None?
         && (w.box[p].MapBox? ==> todo[c].Some? && todo[c].value != "")
  }

  // Adopting a node without parent changes its parent and its name only.
  lemma AdoptRoot(w: World, p: Id, c: Id, rename: Option<string>)
    requires Shaped(w) && AllRoots(w, p, map[c := rename])
    ensures Adopt(w, p, c, rename) == w.(parent := w.parent[c := Some(p)], name := w.name[c := rename.GetOr(w.name[c])])
  {
    assert c in map[c := rename];
    RootIsBelowItself(w.parent, p, c);
    assert ParentDetach(w, c) == w;
  }

  lemma {:induction false} AdoptRoots(w: World, p: Id, todo: map<Id, Option<string>>)
    requires Shaped(w) && AllRoots(w, p, todo)
    ensures var v := AdoptAll(w, p, todo);
            && Shaped(v) && v.box == w.box && v.parent.Keys == w.parent.Keys
            && (forall n | n in w.parent && n !in todo :: v.parent[n] == w.parent[n] && v.name[n] == w.name[n])
            && forall c | c in todo :: v.name[c] == todo[c].GetOr(w.name[c])
    decreases todo.Keys
  {
    if todo != map[] {
      var c := Order.Least(todo.Keys);
      AdoptRoot(w, p, c, todo[c]);
      AdoptRoots(Adopt(w, p, c, todo[c]), p, todo - {c});
    }
  }

  // ----- filling an empty node -----

  // The pairs of a tree's children: distinct non-empty names, or the indices from 0 on.
  ghost predicate Listed(t: Tree, kvs: seq<(Key, XValue)>) {
    && WellFormed(t) && !t.Leaf? && |kvs| == |t.subs|
    && forall i | 0 <= i < |kvs| :: kvs[i].0 == if t.MapTree? then Name(t.keys[i]) else At(i)
  }

  // The nodes among the values are different, have no parent, and are not p.
  ghost predicate RootValues(w: World, p: Id, kvs: seq<(Key, XValue)>) {
    && (forall i | 0 <= i < |kvs| ::
         && !kvs[i].1.ConstObject?
         && (kvs[i].1.Object? ==> kvs[i].1.addr in w.parent && kvs[i].1.addr != p && w.parent[kvs[i].1.addr].None?))
    && forall i, j | 0 <= i < j < |kvs| && kvs[i].1.Object? && kvs[j].1.Object? :: kvs[i].1.addr != kvs[j].1.addr
  }

  // The first n pairs are in the box, and nothing else.
  ghost predicate Holds(b: Box, t: Tree, kvs: seq<(Key, XValue)>, n: nat)
    requires Listed(t, kvs) && n <= |kvs|
  {
    if t.MapTree? then
      && b.MapBox?
      && (forall i | 0 <= i < n :: t.keys[i] in b.m && b.m[t.keys[i]] == kvs[i].1)
      && b.m.Keys == FirstKeys(t.keys, n)
    else
      b.ArrayBox? && |b.a| == n && forall i | 0 <= i < n :: b.a[i] == kvs[i].1
  }

  // The nodes among the first n values.
  function NodesIn(kvs: seq<(Key, XValue)>, n: nat): set<Id>
    requires n <= |kvs|
  {
    if n == 0 then {}
    else NodesIn(kvs, n - 1) + if kvs[n - 1].1.Object? then {kvs[n - 1].1.addr} else {}
  }

  lemma {:induction false} NotAmongNodes(kvs: seq<(Key, XValue)>, n: nat, c: Id)
    requires n <= |kvs| && forall i | 0 <= i < n :: kvs[i].1 != Object(c)
    ensures c !in NodesIn(kvs, n)
  {
    if n > 0 { NotAmongNodes(kvs, n - 1, c); }
  }

  ghost predicate NewNodes(t: Tree, kvs: seq<(Key, XValue)>, n: nat, todo: map<Id, Option<string>>)
    requires Listed(t, kvs) && n <= |kvs|
  {
    && todo.Keys <= NodesIn(kvs, n)
    && (forall c | c in todo :: if t.MapTree? then todo[c].Some? && todo[c].value != "" else todo[c].None?)
  }

  // The key of an entry that was put in.
  predicate IsKeyOf(t: Tree, given: Key, key: Key) {
    if t.MapTree? then key == given else key.At?
  }

  lemma NextIsNotThere(t: Tree, kvs: seq<(Key, XValue)>, n: nat, b: Box)
    requires Listed(t, kvs) && n < |kvs| && Holds(b, t, kvs, n)
    ensures Emplace(b, kvs[n].0, kvs[n].1).ok && IsKeyOf(t, kvs[n].0, Emplace(b, kvs[n].0, kvs[n].1).key)
    ensures Holds(Emplace(b, kvs[n].0, kvs[n].1).box, t, kvs, n + 1)
  {
    if t.MapTree? {
      NextKeyIsNew(t, n);
    } else {
      assert InsertAt(b.a, |b.a|, kvs[n].1) == b.a + [kvs[n].1];
    }
  }

  lemma NotRefused(w: World, p: Id, t: Tree, kvs: seq<(Key, XValue)>, n: nat, b: Box, todo: map<Id, Option<string>>)
    requires Listed(t, kvs) && n < |kvs| && Holds(b, t, kvs, n) && NewNodes(t, kvs, n, todo)
    requires p in w.parent && w.parent[p].None? && RootValues(w, p, kvs)
    ensures !Refused(w, p, b, todo.Keys, kvs[n].1)
  {
    var v := kvs[n].1;
    if v.Object? {
      RootIsBelowItself(w.parent, p, v.addr);
      NotAmongNodes(kvs, n, v.addr);
    }
  }

  lemma {:induction false} FillFresh(w: World, p: Id, t: Tree, kvs: seq<(Key, XValue)>, n: nat, b: Box,
                                     todo: map<Id, Option<string>>)
    requires Listed(t, kvs) && n <= |kvs| && Holds(b, t, kvs, n) && NewNodes(t, kvs, n, todo)
    requires p in w.parent && w.parent[p].None? && RootValues(w, p, kvs)
    ensures Holds(Fill(w, p, b, todo, kvs[n..]).box, t, kvs, |kvs|)
    ensures NewNodes(t, kvs, |kvs|, Fill(w, p, b, todo, kvs[n..]).todo)
    decreases |kvs| - n
  {
    hide Fill, Emplace, Refused, Holds, NewNodes, Listed, RootValues;
    if n == |kvs| {
      FillNothing(w, p, b, todo, kvs[n..]);
    } else {
      assert kvs[n..][0] == kvs[n] && kvs[n..][1..] == kvs[n + 1..];
      var (k, v) := kvs[n];
      NotRefused(w, p, t, kvs, n, b, todo);
      NextIsNotThere(t, kvs, n, b);
      var e := Emplace(b, k, v);
      var more := if v.Object? then todo[v.addr := KeyName(e.key)] else todo;
      MoreNodes(t, kvs, n, todo, more, e.key);
      FillAccepts(w, p, b, todo, kvs[n..]);
      FillFresh(w, p, t, kvs, n + 1, e.box, more);
    }
  }

  lemma MoreNodes(t: Tree, kvs: seq<(Key, XValue)>, n: nat, todo: map<Id, Option<string>>,
                  more: map<Id, Option<string>>, key: Key)
    requires Listed(t, kvs) && n < |kvs| && NewNodes(t, kvs, n, todo)
    requires more == if kvs[n].1.Object? then todo[kvs[n].1.addr := KeyName(key)] else todo
    requires IsKeyOf(t, kvs[n].0, key)
    ensures NewNodes(t, kvs, n + 1, more)
  {
    if t.MapTree? { NextKeyIsNew(t, n); }
  }

  lemma ValidIsShaped(w: World)
    requires Valid(w)
    ensures Shaped(w)
  {
  }

  lemma {:induction false} NodesAreRoots(w: World, p: Id, kvs: seq<(Key, XValue)>, n: nat)
    requires RootValues(w, p, kvs) && n <= |kvs|
    ensures forall c | c in NodesIn(kvs, n) :: c in w.parent && c != p && w.parent[c].None?
  {
    if n > 0 { NodesAreRoots(w, p, kvs, n - 1); }
  }

  // Filling a new empty node with plain values and nodes that have no parent: nothing is refused,
  // and nothing else changes.
  lemma NothingHeld(t: Tree, kvs: seq<(Key, XValue)>)
    requires Listed(t, kvs)
    ensures Holds(EmptyBox(t.MapTree?), t, kvs, 0) && NewNodes(t, kvs, 0, map[])
  {
  }

  lemma FilledWithRoots(w: World, p: Id, b: Box, t: Tree, kvs: seq<(Key, XValue)>, todo: map<Id, Option<string>>)
    requires Shaped(w) && p in w.parent && w.parent[p].None? && Listed(t, kvs) && RootValues(w, p, kvs)
    requires Holds(b, t, kvs, |kvs|) && NewNodes(t, kvs, |kvs|, todo)
    ensures AllRoots(WithBox(w, p, b), p, todo)
    ensures t.ArrayTree? ==> forall c | c in todo :: todo[c].None?
  {
    NodesAreRoots(w, p, kvs, |kvs|);
  }

  lemma BulkInsertFresh(w: World, p: Id, t: Tree, kvs: seq<(Key, XValue)>)
    requires Valid(w) && p in w.parent && w.parent[p].None? && w.box[p] == EmptyBox(t.MapTree?)
    requires Listed(t, kvs) && RootValues(w, p, kvs) && AllStorable(w, kvs)
    ensures var v := BulkInsert(w, p, kvs);
            && Shaped(v) && v.parent.Keys == w.parent.Keys
            && (forall n | n in w.box && n != p :: v.box[n] == w.box[n])
            && Holds(v.box[p], t, kvs, |kvs|)
            && (forall n | n in w.parent && n !in NodesIn(kvs, |kvs|) ::
                 v.parent[n] == w.parent[n] && v.name[n] == w.name[n])
            && (t.ArrayTree? ==> forall n | n in w.parent :: v.name[n] == w.name[n])
  {
    hide Fill, AdoptAll, Valid, Holds, RootValues, Listed, AllRoots;
    assert Shaped(w) by { ValidIsShaped(w); }
    assert kvs[0..] == kvs;
    NothingHeld(t, kvs);
    FillFresh(w, p, t, kvs, 0, w.box[p], map[]);
    FillIsKnown(w, p, w.box[p], map[], kvs);
    var f := Fill(w, p, w.box[p], map[], kvs);
    FilledWithRoots(w, p, f.box, t, kvs, f.todo);
    AdoptRoots(WithBox(w, p, f.box), p, f.todo);
  }

  // ----- the copy -----

  // The same content: all leaves, keys and kinds of nodes.
  ghost predicate Copy(t: Tree, u: Tree)
    decreases t
  {
    match t
    case Leaf(_) => u == t
    case MapTree(_, keys, subs) =>
      u.MapTree? && u.keys == keys && |u.subs| == |subs| && forall i | 0 <= i < |subs| :: Copy(subs[i], u.subs[i])
    case ArrayTree(_, subs) =>
      u.ArrayTree? && |u.subs| == |subs| && forall i | 0 <= i < |subs| :: Copy(subs[i], u.subs[i])
  }

  // No node of the tree is among the given ones.
  ghost predicate Fresh(u: Tree, ids: set<Id>)
    decreases u
  {
    !u.Leaf? ==> u.addr !in ids && forall i | 0 <= i < |u.subs| :: Fresh(u.subs[i], ids)
  }

  lemma {:induction false} FreshFewer(u: Tree, ids: set<Id>, fewer: set<Id>)
    requires Fresh(u, ids) && fewer <= ids
    ensures Fresh(u, fewer)
    decreases u
  {
    if !u.Leaf? { forall i | 0 <= i < |u.subs| ensures Fresh(u.subs[i], fewer) { FreshFewer(u.subs[i], ids, fewer); } }
  }

  // The values of the pairs are the trees us, copies of the children of t made of new nodes.
  ghost predicate Copied(boxes: Heap, t: Tree, kvs: seq<(Key, XValue)>, us: seq<Tree>, known: set<Id>)
    requires !t.Leaf? && |kvs| == |t.subs|
  {
    && |us| <= |t.subs|
    && forall i | 0 <= i < |us| ::
         Represents(boxes, kvs[i].1, us[i]) && Copy(t.subs[i], us[i]) && Fresh(us[i], known)
  }

  function TreeOf(t: Tree, p: Id, us: seq<Tree>): Tree
    requires !t.Leaf?
  {
    if t.MapTree? then MapTree(p, t.keys, us) else ArrayTree(p, us)
  }

  lemma CopyKeys(boxes: Heap, t: Tree, kvs: seq<(Key, XValue)>, us: seq<Tree>, known: set<Id>, b: Box)
    requires Listed(t, kvs) && t.MapTree? && |us| == |t.subs| && Copied(boxes, t, kvs, us, known)
    requires Holds(b, t, kvs, |kvs|)
    ensures t.keys == LiveKeys(b.m)
  {
    forall k ensures k in t.keys <==> k in LiveKeys(b.m) {
      FirstKeysAre(t.keys, |t.keys|, k);
      assert t.keys[..|t.keys|] == t.keys;
      if k in t.keys {
        var i :| 0 <= i < |t.keys| && t.keys[i] == k;
        assert Copy(t.subs[i], us[i]) && Represents(boxes, kvs[i].1, us[i]);
        assert !kvs[i].1.IsEmpty();
      }
    }
    Order.SortedIsUnique(t.keys, LiveKeys(b.m));
  }

  lemma CopyIsBuilt(boxes: Heap, after: Heap, p: Id, t: Tree, kvs: seq<(Key, XValue)>, us: seq<Tree>, known: set<Id>)
    requires Listed(t, kvs) && |us| == |t.subs| && Copied(boxes, t, kvs, us, known)
    requires StaysIn(boxes, after) && p in after && p !in known && Holds(after[p], t, kvs, |kvs|)
    ensures var u := TreeOf(t, p, us); Represents(after, Object(p), u) && Copy(t, u) && Fresh(u, known)
  {
    forall i | 0 <= i < |us| ensures Represents(after, kvs[i].1, us[i]) {
      RepresentsStays(boxes, after, kvs[i].1, us[i]);
    }
    if t.MapTree? { CopyKeys(boxes, t, kvs, us, known, after[p]); }
  }

  // ----- the procedure -----

  // The node id of v is a clone of the tree t, made of nodes that w did not have; nothing that w had changed.
  ghost predicate IsClone(w: World, v: World, next: Id, after: Id, id: Id, t: Tree, u: Tree) {
    && Ready(v, after) && next <= after && Extends(w, v)
    && id !in w.parent && id in v.parent && v.parent[id].None?
    && Represents(v.box, Object(id), u) && Copy(t, u) && Fresh(u, w.parent.Keys) && Unnamed(w, v)
  }

  // What an array holds that w did not have has no name.
  ghost predicate Unnamed(w: World, v: World) {
    forall p, c {:trigger RefersTo(v.box[p], c)} |
      p in v.box && p !in w.box && v.box[p].ArrayBox? && RefersTo(v.box[p], c) :: c in v.name && v.name[c] == ""
  }

  // The nodes among the first n values have no name yet.
  ghost predicate UnnamedRoots(v: World, kvs: seq<(Key, XValue)>, n: nat)
    requires n <= |kvs|
  {
    forall i | 0 <= i < n && kvs[i].1.Object? :: kvs[i].1.addr in v.name && v.name[kvs[i].1.addr] == ""
  }

  // A world that goes on from v, in which the new arrays hold nodes without a name as well.
  lemma UnnamedThen(w: World, v: World, x: World)
    requires Unnamed(w, v) && Unnamed(v, x) && Extends(v, x) && Good(v)
    ensures Unnamed(w, x)
  {
    forall p, c | p in x.box && p !in w.box && x.box[p].ArrayBox? && RefersTo(x.box[p], c)
      ensures c in x.name && x.name[c] == ""
    {
      if p in v.box { assert RefersTo(v.box[p], c); }
    }
  }

  // The first n values have been replaced by clones.
  ghost predicate Replaced(w: World, v: World, next: Id, after: Id, t: Tree, kvs: seq<(Key, XValue)>, us: seq<Tree>)
    requires !t.Leaf? && |kvs| == |t.subs| && |us| <= |kvs|
  {
    && Ready(v, after) && next <= after && Extends(w, v) && Unnamed(w, v) && UnnamedRoots(v, kvs, |us|)
    && Copied(v.box, t, kvs, us, w.parent.Keys)
    && (forall i | 0 <= i < |us| ::
         && !kvs[i].1.ConstObject?
         && (kvs[i].1.Object? ==> kvs[i].1.addr !in w.parent && kvs[i].1.addr in v.parent
                                       && v.parent[kvs[i].1.addr].None?))
    && forall i, j | 0 <= i < j < |us| && kvs[i].1.Object? && kvs[j].1.Object? :: kvs[i].1.addr != kvs[j].1.addr
  }

  // The values as they were read.
  ghost predicate AsRead(boxes: Heap, t: Tree, kvs: seq<(Key, XValue)>, from: nat)
    requires !t.Leaf? && |kvs| == |t.subs|
  {
    forall i | from <= i < |kvs| :: !kvs[i].1.ConstObject? && Represents(boxes, kvs[i].1, t.subs[i])
  }

  lemma LeafReplaced(w: World, v: World, next: Id, after: Id, t: Tree, kvs: seq<(Key, XValue)>, us: seq<Tree>)
    requires !t.Leaf? && |kvs| == |t.subs| && |us| < |kvs| && Replaced(w, v, next, after, t, kvs, us)
    requires AsRead(w.box, t, kvs, |us|) && !kvs[|us|].1.Object?
    ensures Replaced(w, v, next, after, t, kvs, us + [t.subs[|us|]])
  {
    hide Ready, Extends, Copy, Fresh, Represents, Unnamed;
    var i := |us|;
    assert Represents(v.box, kvs[i].1, t.subs[i]) && Copy(t.subs[i], t.subs[i]) && Fresh(t.subs[i], w.parent.Keys) by {
      LeafIsCopy(w.box, v.box, kvs[i].1, t.subs[i], w.parent.Keys);
    }
  }

  lemma LeafIsCopy(b: Heap, c: Heap, v: XValue, t: Tree, ids: set<Id>)
    requires Represents(b, v, t) && !v.Object? && !v.ConstObject?
    ensures Represents(c, v, t) && Copy(t, t) && Fresh(t, ids)
  {
  }

  lemma NodeReplaced(w: World, v: World, x: World, next: Id, mid: Id, after: Id, t: Tree, kvs: seq<(Key, XValue)>,
                     us: seq<Tree>, id: Id, u: Tree)
    requires !t.Leaf? && |kvs| == |t.subs| && |us| < |kvs| && Replaced(w, v, next, mid, t, kvs, us)
    requires IsClone(v, x, mid, after, id, t.subs[|us|], u) && id in x.name && x.name[id] == ""
    ensures Replaced(w, x, next, after, t, kvs[|us| := (kvs[|us|].0, Object(id))], us + [u])
  {
    hide Represents, Copy, Fresh, Unnamed, Agree, Acyclic, Closed, Owning;
    UnnamedThen(w, v, x);
    hide Ready, Good;
    var ks := kvs[|us| := (kvs[|us|].0, Object(id))];
    FreshFewer(u, v.parent.Keys, w.parent.Keys);
    forall i | 0 <= i < |us| ensures Represents(x.box, ks[i].1, us[i]) {
      RepresentsStays(v.box, x.box, kvs[i].1, us[i]);
    }
  }

  lemma ReadyTree(w: World, next: Id, c: Id, t: Tree)
    requires Ready(w, next) && Represents(w.box, Object(c), t)
    ensures c in w.box && Owning(w.box[c]) && !t.Leaf? && (w.box[c].MapBox? <==> t.MapTree?) && WellFormed(t)
  {
    RepresentsWellFormed(w.box, Object(c), t);
  }

  /** `Clone`: the result is a copy of the tree made of new nodes only, nothing that was there before
      changes, and parents, names and containers still agree. */
  method Clone(nodes: NodeMethods.Nodes, c: Id, next: Id, newName: string, ghost t: Tree)
    returns (id: Id, after: Id, ghost u: Tree)
    requires Ready(nodes.W(), next) && Represents(nodes.box, Object(c), t)
    modifies nodes
    ensures IsClone(old(nodes.W()), nodes.W(), next, after, id, t, u)
    ensures id in nodes.name && nodes.name[id] == newName
    decreases t, 1
  {
    hide Represents, Agree, Replaced, BulkInsert, IsClone;
    ReadyTree(nodes.W(), next, c, t);
    var isMap := nodes.box[c].MapBox?;
    var kvs := ReadAll(nodes.box, c, t);
    ghost var us;
    kvs, id, us := CloneValues(nodes, kvs, next, t);
    ghost var w := nodes.W();
    CreatedIsFresh(old(nodes.W()), w, next, id, newName, t, kvs, us);
    nodes.Create(id, isMap, newName);
    var _ := nodes.BulkInsert(id, kvs);
    after, u := id + 1, TreeOf(t, id, us);
    CreatedClone(old(nodes.W()), w, next, id, newName, t, kvs, us);
  }

  method ReadAll(boxes: Heap, c: Id, ghost t: Tree) returns (kvs: seq<(Key, XValue)>)
    requires Represents(boxes, Object(c), t) && WellFormed(t)
    requires c in boxes && Owning(boxes[c])
    ensures Listed(t, kvs) && AsRead(boxes, t, kvs, 0)
  {
    if boxes[c].MapBox? {
      var keys := LiveKeys(boxes[c].m);
      kvs := seq(|keys|, i requires 0 <= i < |keys| && keys[i] in boxes[c].m => (Name(keys[i]), boxes[c].m[keys[i]]));
    } else {
      var a := boxes[c].a;
      kvs := seq(|a|, i requires 0 <= i < |a| => (At(i), a[i]));
    }
  }

  lemma NothingReplaced(w: World, next: Id, t: Tree, kvs: seq<(Key, XValue)>)
    requires Ready(w, next) && !t.Leaf? && |kvs| == |t.subs|
    ensures Replaced(w, w, next, next, t, kvs, [])
  {
    hide Ready;
  }

  method CloneValues(nodes: NodeMethods.Nodes, kvs: seq<(Key, XValue)>, next: Id, ghost t: Tree)
    returns (cloned: seq<(Key, XValue)>, after: Id, ghost us: seq<Tree>)
    requires Ready(nodes.W(), next) && !t.Leaf? && |kvs| == |t.subs| && AsRead(nodes.box, t, kvs, 0)
    modifies nodes
    ensures |cloned| == |us| == |kvs| && (forall i | 0 <= i < |kvs| :: cloned[i].0 == kvs[i].0)
    ensures Replaced(old(nodes.W()), nodes.W(), next, after, t, cloned, us)
    decreases t, 0
  {
    hide Represents, Ready, IsClone, Copied;
    cloned, after, us := kvs, next, [];
    ghost var w := nodes.W();
    NothingReplaced(w, next, t, kvs);
    for i := 0 to |kvs|
      invariant |cloned| == |kvs| && |us| == i && (forall j | 0 <= j < |kvs| :: cloned[j].0 == kvs[j].0)
      invariant AsRead(w.box, t, cloned, i)
      invariant Replaced(w, nodes.W(), next, after, t, cloned, us)
    {
      ghost var before, mid := nodes.W(), after;
      if cloned[i].1.Object? {
        RepresentsStays(w.box, nodes.box, cloned[i].1, t.subs[i]);
        var id;
        ghost var u;
        id, after, u := Clone(nodes, cloned[i].1.addr, after, "", t.subs[i]);
        NodeReplaced(w, before, nodes.W(), next, mid, after, t, cloned, us, id, u);
        cloned, us := cloned[i := (cloned[i].0, Object(id))], us + [u];
      } else {
        LeafReplaced(w, before, next, after, t, cloned, us);
        us := us + [t.subs[i]];
      }
    }
  }

  lemma CreatedIsFresh(w: World, v: World, next: Id, id: Id, newName: string, t: Tree, kvs: seq<(Key, XValue)>,
                       us: seq<Tree>)
    requires Listed(t, kvs) && |us| == |kvs| && Replaced(w, v, next, id, t, kvs, us)
    ensures id !in v.parent && Good(v)
    ensures var d := Create(v, id, t.MapTree?, newName);
            Good(d) && Agree(d) && AllStorable(d, kvs) && RootValues(d, id, kvs)
  {
    CreateGood(v, id, t.MapTree?, newName);
    CreateAgrees(v, id, t.MapTree?, newName);
  }

  // Nothing changed but the new node and the parents and names of the nodes put into it.
  ghost predicate OnlyPut(v: World, x: World, id: Id, kvs: seq<(Key, XValue)>) {
    && v.parent.Keys <= x.parent.Keys <= v.parent.Keys + {id} && v.name.Keys <= x.name.Keys && v.box.Keys <= x.box.Keys
    && (forall n | n in v.box :: x.box[n] == v.box[n])
    && forall n | n in v.parent && n in v.name && n !in NodesIn(kvs, |kvs|) ::
         x.parent[n] == v.parent[n] && x.name[n] == v.name[n]
  }

  lemma PutExtends(w: World, v: World, x: World, id: Id, kvs: seq<(Key, XValue)>)
    requires w.parent.Keys == w.name.Keys && v.parent.Keys == v.name.Keys
    requires Extends(w, v) && OnlyPut(v, x, id, kvs)
    requires forall i | 0 <= i < |kvs| && kvs[i].1.Object? :: kvs[i].1.addr !in w.parent
    ensures Extends(w, x)
  {
    forall n | n in w.parent ensures x.parent[n] == w.parent[n] && x.name[n] == w.name[n] {
      NotAmongNodes(kvs, |kvs|, n);
    }
  }

  lemma PutAfterCreate(v: World, d: World, x: World, id: Id, newName: string, b: Box, kvs: seq<(Key, XValue)>)
    requires Shaped(v) && id !in v.parent
    requires d == World(v.parent[id := None], v.name[id := newName], v.box[id := b])
    requires Shaped(x) && x.parent.Keys == d.parent.Keys && id !in NodesIn(kvs, |kvs|)
    requires forall n | n in d.box && n != id :: x.box[n] == d.box[n]
    requires forall n | n in d.parent && n !in NodesIn(kvs, |kvs|) ::
               x.parent[n] == d.parent[n] && x.name[n] == d.name[n]
    ensures OnlyPut(v, x, id, kvs) && id in x.parent && x.parent[id].None? && x.name[id] == newName && id in x.box
    ensures (forall n | n in d.parent :: x.name[n] == d.name[n]) ==> NamesStay(v, x)
  {
    hide Closed, NodesIn;
  }

  lemma CreatedPut(v: World, id: Id, newName: string, t: Tree, kvs: seq<(Key, XValue)>)
    requires Listed(t, kvs) && id !in v.parent && Shaped(v)
    requires var d := Create(v, id, t.MapTree?, newName);
             Good(d) && AllStorable(d, kvs) && RootValues(d, id, kvs)
    ensures var x := BulkInsert(Create(v, id, t.MapTree?, newName), id, kvs);
            && OnlyPut(v, x, id, kvs) && Shaped(x) && id in x.parent && x.parent[id].None? && x.name[id] == newName
            && id in x.box && Holds(x.box[id], t, kvs, |kvs|) && (t.ArrayTree? ==> NamesStay(v, x))
  {
    hide BulkInsert, Good, Valid, Holds, Listed, RootValues, AllStorable, NodesIn, OnlyPut, NamesStay;
    var d := Create(v, id, t.MapTree?, newName);
    GoodIsValid(d);
    NodesAreRoots(d, id, kvs, |kvs|);
    BulkInsertFresh(d, id, t, kvs);
    PutAfterCreate(v, d, BulkInsert(d, id, kvs), id, newName, EmptyBox(t.MapTree?), kvs);
  }

  lemma GoodIsValid(w: World)
    requires Good(w)
    ensures Valid(w)
  {
  }

  lemma CreatedReady(v: World, id: Id, newName: string, t: Tree, kvs: seq<(Key, XValue)>)
    requires Listed(t, kvs) && id !in v.parent && (forall n | n in v.parent :: n < id)
    requires var d := Create(v, id, t.MapTree?, newName);
             Good(d) && Agree(d) && AllStorable(d, kvs) && RootValues(d, id, kvs)
    requires OnlyPut(v, BulkInsert(Create(v, id, t.MapTree?, newName), id, kvs), id, kvs)
    ensures Ready(BulkInsert(Create(v, id, t.MapTree?, newName), id, kvs), id + 1)
  {
    hide Agree, Good, BulkInsert;
    var d := Create(v, id, t.MapTree?, newName);
    BulkInsertAgrees(d, id, kvs);
    BulkInsertGood(d, id, kvs);
  }

  // The nodes among the values are in no container yet.
  ghost predicate InTheAir(v: World, kvs: seq<(Key, XValue)>) {
    forall i | 0 <= i < |kvs| && kvs[i].1.Object? :: kvs[i].1.addr in v.parent && v.parent[kvs[i].1.addr].None?
  }

  // A new array holds the nodes with the names that they had.
  lemma PutUnnamed(w: World, v: World, x: World, id: Id, t: Tree, kvs: seq<(Key, XValue)>)
    requires Shaped(v) && Agree(v) && Shaped(x) && Listed(t, kvs) && InTheAir(v, kvs)
    requires Unnamed(w, v) && UnnamedRoots(v, kvs, |kvs|) && OnlyPut(v, x, id, kvs)
    requires id in x.box && Holds(x.box[id], t, kvs, |kvs|)
    requires t.ArrayTree? ==> NamesStay(v, x)
    ensures Unnamed(w, x)
  {
    hide Listed, Holds, OnlyPut, Agree, Shaped, RefersTo, InTheAir, UnnamedRoots, NamesStay;
    forall p, c | p in x.box && p !in w.box && x.box[p].ArrayBox? && RefersTo(x.box[p], c)
      ensures c in x.name && x.name[c] == ""
    {
      PutUnnamedAt(w, v, x, id, t, kvs, p, c);
    }
  }

  lemma PutUnnamedAt(w: World, v: World, x: World, id: Id, t: Tree, kvs: seq<(Key, XValue)>, p: Id, c: Id)
    requires Shaped(v) && Agree(v) && Shaped(x) && Listed(t, kvs) && InTheAir(v, kvs)
    requires Unnamed(w, v) && UnnamedRoots(v, kvs, |kvs|) && OnlyPut(v, x, id, kvs)
    requires id in x.box && Holds(x.box[id], t, kvs, |kvs|)
    requires t.ArrayTree? ==> NamesStay(v, x)
    requires p in x.box && p !in w.box && x.box[p].ArrayBox? && RefersTo(x.box[p], c)
    ensures c in x.name && x.name[c] == ""
  {
    hide Listed, Holds, OnlyPut, Agree, Shaped, RefersTo, InTheAir;
    if p == id { HeldIsGiven(x.box[id], t, kvs, c); } else { PutElsewhere(v, x, id, kvs, p, c); }
  }

  lemma HeldIsGiven(b: Box, t: Tree, kvs: seq<(Key, XValue)>, c: Id)
    requires Listed(t, kvs) && Holds(b, t, kvs, |kvs|) && b.ArrayBox? && RefersTo(b, c)
    ensures t.ArrayTree? && exists i :: 0 <= i < |kvs| && kvs[i].1 == Object(c)
  {
    var i :| 0 <= i < |b.a| && b.a[i] == Object(c);
    assert kvs[i].1 == Object(c);
  }

  lemma PutElsewhere(v: World, x: World, id: Id, kvs: seq<(Key, XValue)>, p: Id, c: Id)
    requires Shaped(v) && Agree(v) && OnlyPut(v, x, id, kvs) && Shaped(x) && p in x.box && p != id
    requires InTheAir(v, kvs) && RefersTo(x.box[p], c)
    ensures p in v.box && RefersTo(v.box[p], c) && v.box[p] == x.box[p]
    ensures c in v.name && c in x.name && x.name[c] == v.name[c]
  {
    assert RefersTo(v.box[p], c) && Fits(v, p, c);
    NotAmongNodes(kvs, |kvs|, c);
  }

  ghost predicate NamesStay(v: World, x: World) {
    forall n | n in v.name :: n in x.name && x.name[n] == v.name[n]
  }

  lemma CreatedClone(w: World, v: World, next: Id, id: Id, newName: string, t: Tree, kvs: seq<(Key, XValue)>,
                     us: seq<Tree>)
    requires Shaped(w) && Listed(t, kvs) && |us| == |kvs| && Replaced(w, v, next, id, t, kvs, us)
    requires var d := Create(v, id, t.MapTree?, newName);
             id !in v.parent && Good(d) && Agree(d) && AllStorable(d, kvs) && RootValues(d, id, kvs)
    ensures var x := BulkInsert(Create(v, id, t.MapTree?, newName), id, kvs);
            IsClone(w, x, next, id + 1, id, t, TreeOf(t, id, us)) && id in x.name && x.name[id] == newName
  {
    hide Represents, Copy, Fresh, Agree, BulkInsert, Holds, RootValues, Acyclic, Unnamed, UnnamedRoots, NamesStay;
    CreatedPut(v, id, newName, t, kvs);
    CreatedReady(v, id, newName, t, kvs);
    var x := BulkInsert(Create(v, id, t.MapTree?, newName), id, kvs);
    PutExtends(w, v, x, id, kvs);
    PutUnnamed(w, v, x, id, t, kvs);
    CopyIsBuilt(v.box, x.box, id, t, kvs, us, w.parent.Keys);
  }

  // ----- a copy compares as equal -----

  lemma {:induction false} CopyNoEmpty(t: Tree, u: Tree)
    requires Copy(t, u)
    ensures C.NoEmpty(u) <==> C.NoEmpty(t)
    decreases t
  {
    if !t.Leaf? {
      forall i | 0 <= i < |t.subs|
        ensures C.NoEmpty(u.subs[i]) <==> C.NoEmpty(t.subs[i])
        ensures u.subs[i] == Leaf(Empty) <==> t.subs[i] == Leaf(Empty)
      {
        CopyNoEmpty(t.subs[i], u.subs[i]);
      }
    }
  }

  lemma {:induction false} CopyIsDeepEqual(t: Tree, u: Tree)
    requires Copy(t, u)
    ensures C.DeepEqual(t, u)
    decreases t
  {
    if !t.Leaf? {
      forall i | 0 <= i < |t.subs| ensures C.DeepEqual(t.subs[i], u.subs[i]) { CopyIsDeepEqual(t.subs[i], u.subs[i]); }
    }
  }

  lemma {:induction false} CopyMatches(t: Tree, u: Tree)
    requires Copy(t, u) && !t.Leaf? && C.Well(t) && C.Well(u) && C.NoEmpty(t)
    ensures C.Matches(t, u)
    decreases t
  {
    CopyNoEmpty(t, u);
    C.KidsPresent(u);
    C.MatchesMeans(t, u);
    forall i | 0 <= i < |t.subs| ensures C.PlaceMatches(t, u, i) {
      if !t.subs[i].Leaf? { CopyMatches(t.subs[i], u.subs[i]); }
    }
  }

  /** A clone compares as 0 with its source when no array slot is empty, wherever the nodes lie. */
  lemma CloneComparesEqual(boxes: Heap, c: Id, t: Tree, id: Id, u: Tree)
    requires Represents(boxes, ConstObject(c), t) && Represents(boxes, ConstObject(id), u) && Copy(t, u)
    requires C.NoEmpty(t)
    ensures C.Well(t) && C.Well(u) && C.CompareNodes(t, u) == 0
  {
    C.RepresentsWell(boxes, ConstObject(c), t);
    C.RepresentsWell(boxes, ConstObject(id), u);
    CopyMatches(t, u);
    C.CompareZeroIffMatches(t, u);
  }

  // All nodes of the tree are among the given ones.
  ghost predicate Among(t: Tree, ids: set<Id>)
    decreases t
  {
    !t.Leaf? ==> t.addr in ids && forall i | 0 <= i < |t.subs| :: Among(t.subs[i], ids)
  }

  lemma EmptyNeverMatches(t: Tree, u: Tree, i: nat)
    requires Copy(t, u) && !t.Leaf? && C.Well(t) && C.Well(u) && i < |t.subs| && t.subs[i] == Leaf(Empty)
    ensures !C.Matches(t, u) && !C.NoEmpty(t)
  {
    assert Copy(t.subs[i], u.subs[i]) && C.Kids(u)[i].1 == Leaf(Empty);
    C.FewerPresent(C.Kids(u), i);
  }

  lemma NoEmptyHere(t: Tree, u: Tree)
    requires Copy(t, u) && !t.Leaf? && C.Well(u) && forall i | 0 <= i < |t.subs| :: t.subs[i] != Leaf(Empty)
    ensures C.Present(C.Kids(u)) == C.Kids(u) && |u.subs| == |t.subs| && C.SameKind(t, u)
    ensures C.Paired(t) ==> forall i | 0 <= i < |t.subs| :: C.Kids(t)[i].0 == C.Kids(u)[i].0
    ensures C.NoEmpty(t) <==> forall i | 0 <= i < |t.subs| :: C.NoEmpty(t.subs[i])
  {
    assert forall i | 0 <= i < |t.subs| :: Copy(t.subs[i], u.subs[i]);
    C.AllPresent(C.Kids(u));
  }

  lemma {:induction false} CopyMatchesIff(t: Tree, u: Tree, ids: set<Id>)
    requires Copy(t, u) && !t.Leaf? && C.Well(t) && C.Well(u) && C.Near(t, u)
    requires Among(t, ids) && Fresh(u, ids)
    ensures C.Matches(t, u) <==> C.NoEmpty(t)
    decreases t
  {
    assert C.Paired(t) && C.Paired(u);
    hide C.Matches, C.Well, C.Near, C.PlaceMatches, C.NoEmpty, Copy, Among, Fresh;
    if i :| 0 <= i < |t.subs| && t.subs[i] == Leaf(Empty) {
      EmptyNeverMatches(t, u, i);
    } else {
      NoEmptyHere(t, u);
      C.MatchesMeans(t, u);
      forall i | 0 <= i < |t.subs| ensures C.PlaceMatches(t, u, i) <==> C.NoEmpty(t.subs[i]) {
        PlaceMatchesIff(t, u, i, ids);
      }
    }
  }

  lemma {:induction false} PlaceMatchesIff(t: Tree, u: Tree, i: nat, ids: set<Id>)
    requires Copy(t, u) && !t.Leaf? && C.Well(t) && C.Well(u) && C.Near(t, u)
    requires Among(t, ids) && Fresh(u, ids) && i < |t.subs| && C.Present(C.Kids(u)) == C.Kids(u)
    ensures C.PlaceMatches(t, u, i) <==> C.NoEmpty(t.subs[i])
    decreases t, 0
  {
    var l, r := t.subs[i], u.subs[i];
    assert C.Kids(t)[i].0 == C.Kids(u)[i].0;
    if !l.Leaf? {
      C.CloseZeroIff(C.Value(l), C.Value(r));
      CopyMatchesIff(l, r, ids);
    }
  }

  /** A clone, which shares no node with its source, compares as 0 with it exactly when no array slot
      is empty, provided that the addresses that meet are less than 2^31 apart. */
  lemma CloneComparesEqualIff(boxes: Heap, c: Id, t: Tree, id: Id, u: Tree, ids: set<Id>)
    requires Represents(boxes, ConstObject(c), t) && Represents(boxes, ConstObject(id), u) && Copy(t, u)
    requires Among(t, ids) && Fresh(u, ids) && C.Near(t, u)
    ensures C.Well(t) && C.Well(u) && (C.CompareNodes(t, u) == 0 <==> C.NoEmpty(t))
  {
    C.RepresentsWell(boxes, ConstObject(c), t);
    C.RepresentsWell(boxes, ConstObject(id), u);
    CopyMatchesIff(t, u, ids);
    C.CompareZeroIffMatches(t, u);
  }
}
