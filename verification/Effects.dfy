/** What a successful call does, as seen by readers: the containers, parents and names after it. */
module Effects {
  import opened Wrappers
  import opened XValues
  import opened Boxes
  import opened Holding
  import opened Worlds
  import opened Agreement
  import opened TreeOps
  import opened Forest
  import opened TreeAgreement
  import opened Releases
  import opened Adoptions
  import opened KeyChanges
  import opened Exchanges

  // ----- reading a container after a change -----

  // The position that a write goes to.
  predicate Place(a: seq<XValue>, k: Key, i: nat) {
    k == At(i) || (k == Last && i == if a == [] then 0 else |a| - 1)
  }

  /** After a successful `Set` the key reads the value and everything else reads as before; the slots
      that an array gained read as empty. */
  lemma PutReads(b: Box, k: Key, v: XValue)
    requires Put(b, k, v).ok
    ensures Get(Put(b, k, v).box, k) == Some(v) && !Eq(Put(b, k, v).prev, v)
    ensures Put(b, k, v).prev == Get(b, k).GetOr(Empty)
    ensures b.MapBox? ==> forall s | Name(s) != k :: Get(Put(b, k, v).box, Name(s)) == Get(b, Name(s))
    ensures b.ArrayBox? ==> forall i: nat, j: nat | Place(b.a, k, i) && j != i ::
              Get(Put(b, k, v).box, At(j)) == if j < |b.a| then Get(b, At(j)) else if j < i then Some(Empty) else None
  {
    if b.ArrayBox? {
      var g := Grown(b.a, k);
      var p := Position(g, k).value;
      assert Put(b, k, v).box == ArrayBox(g[p := v]);
      forall i: nat, j: nat | Place(b.a, k, i) && j != i
        ensures Get(Put(b, k, v).box, At(j)) == if j < |b.a| then Get(b, At(j)) else if j < i then Some(Empty) else None
      {
        assert p == i && |g| == if i < |b.a| then |b.a| else i + 1;
        assert j < |b.a| ==> g[j] == b.a[j];
      }
    }
  }

  /** After a successful `Emplace` the key that it answers reads the value; other keys of a map read as
      before, and in an array everything from there on has moved up by one. */
  lemma EmplaceReads(b: Box, k: Key, v: XValue, s: string, j: nat)
    requires Emplace(b, k, v).ok
    ensures Get(Emplace(b, k, v).box, Emplace(b, k, v).key) == Some(v)
    ensures b.MapBox? ==> Get(b, k).None?
    ensures b.MapBox? && Name(s) != k ==> Get(Emplace(b, k, v).box, Name(s)) == Get(b, Name(s))
    ensures b.ArrayBox? ==> Emplace(b, k, v).key.At?
    ensures b.ArrayBox? && j < Emplace(b, k, v).key.i ==> Get(Emplace(b, k, v).box, At(j)) == Get(b, At(j))
    ensures b.ArrayBox? && j >= Emplace(b, k, v).key.i ==> Get(Emplace(b, k, v).box, At(j + 1)) == Get(b, At(j))
  {
    if b.ArrayBox? {
      var p, o := Emplace(b, k, v).key.i, Emplace(b, k, v).box.a;
      assert |o| == |b.a| + 1;
      if j < |b.a| { assert o[if j < p then j else j + 1] == b.a[j]; }
    }
  }

  /** After a successful `Erase` a map reads empty under the key and as before elsewhere; in an array the
      slot has gone and what was behind it has moved down by one. */
  lemma EraseReads(b: Box, k: Key, s: string, j: nat)
    requires Erase(b, k).erased.Some?
    ensures Erase(b, k).erased == Get(b, k)
    ensures b.MapBox? ==> Get(Erase(b, k).box, k) == Some(Empty)
    ensures b.MapBox? && Name(s) != k ==> Get(Erase(b, k).box, Name(s)) == Get(b, Name(s))
    ensures b.ArrayBox? ==> Position(b.a, k).Some?
    ensures b.ArrayBox? && j < Position(b.a, k).value ==> Get(Erase(b, k).box, At(j)) == Get(b, At(j))
    ensures b.ArrayBox? && j >= Position(b.a, k).value ==> Get(Erase(b, k).box, At(j)) == Get(b, At(j + 1))
  {
    if b.ArrayBox? {
      var p, o := Position(b.a, k).value, Erase(b, k).box.a;
      assert |o| == |b.a| - 1;
      if j < |o| { assert o[j] == b.a[if j < p then j else j + 1]; }
    }
  }

  // ----- a node that leaves its container -----

  // The container without the node: a map keeps an empty entry, an array loses the slot.
  ghost predicate Leaves(b: Box, o: Box, c: Id) {
    match b
    case MapBox(m) => exists s :: s in m && m[s] == Object(c) && o == MapBox(m[s := Empty])
    case ArrayBox(a) => exists i: nat :: OnlyAt(a, c, i) && o == ArrayBox(RemoveAt(a, i))
  }

  lemma RemoveFirstLeaves(b: Box, c: Id, name: string)
    requires Owning(b) && HoldsOnce(b, c, name)
    ensures Leaves(b, RemoveFirst(b, c), c)
  {
    match b
    case MapBox(m) =>
      assert KeysHolding(m, c) == {name};
    case ArrayBox(a) =>
      var i: nat :| OnlyAt(a, c, i);
      EqNode(a[i], c);
      var p := FindNode(a, c, NoKey).value;
      EqNode(a[p], c);
      assert p == i;
  }

  lemma ErasedLeaves(b: Box, c: Id, before: string, now: string)
    requires Owning(b) && HoldsOnce(b, c, before) && NameReaches(b, before, now)
    ensures Leaves(b, ErasedBox(b, c, now), c)
  {
    RemoveFirstLeaves(b, c, before);
    if b.MapBox? && now == before { assert ErasedBox(b, c, now) == MapBox(b.m[before := Empty]); }
  }

  // The node c has gone to its new parent: it has left the container of its former one, and all other
  // containers but the new parent's are the same, and so are the parents and names of all other nodes.
  ghost predicate Moved(w: World, u: World, c: Id, to: Option<Id>, name: string)
    requires Shaped(w) && c in w.parent
  {
    && u.parent == w.parent[c := to] && u.name == w.name[c := name] && u.box.Keys == w.box.Keys
    && forall q | q in w.box && to != Some(q) ::
         if w.parent[c] == Some(q) then Leaves(w.box[q], u.box[q], c) else u.box[q] == w.box[q]
  }

  lemma SetAsChildMoves(w: World, u: World, p: Id, c: Id, rename: Option<string>)
    requires Agree(w) && Shaped(u) && p in w.parent && c in w.parent
    requires u.parent.Keys == w.parent.Keys && u.parent[c] == w.parent[c] && u.name == w.name
    requires forall q | q in w.box && q != p :: q in u.box && u.box[q] == w.box[q]
    requires w.parent[c] != Some(p) && !Below(u.parent, p, c) && NameFree(w, c, rename.GetOr(w.name[c]))
    requires p in u.box && (u.box[p].MapBox? ==> rename.Some? && rename.value != "")
    ensures var v := SetAsChild(u, p, c, rename);
            && v.parent == u.parent[c := Some(p)] && v.name == w.name[c := rename.GetOr(w.name[c])]
            && v.box.Keys == u.box.Keys
            && v.box[p] == u.box[p]
            && forall q | q in w.box && q != p ::
                 if w.parent[c] == Some(q) then Leaves(w.box[q], v.box[q], c) else v.box[q] == w.box[q]
  {
    hide Below, ErasedBox, SetAsChild, Owning, HoldsOnce, HoldsNot, Leaves, NameReaches;
    SetAsChildEffect(u, p, c, rename);
    if w.parent[c].Some? {
      var q := w.parent[c].value;
      assert Fits(w, q, c);
      ErasedLeaves(w.box[q], c, w.name[c], rename.GetOr(w.name[c]));
    }
  }

  // ----- the operations -----

  lemma PrevIsChild(w: World, p: Id, k: Key, v: XValue)
    requires Agree(w) && p in w.parent && Storable(w, v) && Put(w.box[p], k, v).ok && Put(w.box[p], k, v).prev.Object?
    ensures var d := Put(w.box[p], k, v).prev.addr; d in w.parent && w.parent[d] == Some(p) && v != Object(d)
  {
    PutGone(w, p, k, v);
  }

  // The parents after a displaced node has lost its own.
  function Freed(parent: Parents, gone: XValue): Parents {
    if gone.Object? then parent[gone.addr := None] else parent
  }

  lemma OrphanFrees(u: World, gone: XValue)
    requires Shaped(u) && (gone.Object? ==> gone.addr in u.parent)
    ensures Orphan(u, gone) == u.(parent := Freed(u.parent, gone))
  {
    OrphanEffect(u, gone);
  }

  /** `Set` of a plain value: it is stored; a node that was there loses its parent; nothing else changes. */
  lemma PlainSetEffect(w: World, p: Id, key: Key, v: XValue)
    requires Agree(w) && p in w.parent && Storable(w, v) && !v.Object? && Set(w, p, key, v).ok
    ensures var r := Put(w.box[p], Resolve(w.box[p], key), v);
            r.ok && Set(w, p, key, v).w == World(Freed(w.parent, r.prev), w.name, w.box[p := r.box])
  {
    var k := Resolve(w.box[p], key);
    var r := Put(w.box[p], k, v);
    if r.prev.Object? { PrevIsChild(w, p, k, v); }
    OrphanFrees(WithBox(w, p, r.box), r.prev);
  }

  // The forest and everything else right before the node is adopted.
  ghost function BeforeAdoption(w: World, p: Id, k: Key, c: Id): World
    requires p in w.box
  {
    var r := Put(w.box[p], k, Object(c));
    World(Freed(w.parent, r.prev), w.name, w.box[p := r.box])
  }

  lemma SetOkMeans(w: World, p: Id, key: Key, c: Id)
    requires Agree(w) && p in w.parent && c in w.parent && Set(w, p, key, Object(c)).ok
    ensures var k := Resolve(w.box[p], key);
            var r := Put(w.box[p], k, Object(c));
            && r.ok && !Below(w.parent, p, c) && (r.prev.Object? ==> r.prev.addr in w.parent)
            && Set(w, p, key, Object(c)).w ==
               SetAsChild(Orphan(WithBox(w, p, RemoveDuplicate(r.box, c, k)), r.prev), p, c, KeyName(k))
  {
    var k := Resolve(w.box[p], key);
    if Put(w.box[p], k, Object(c)).prev.Object? { PutPrevIsKnown(w, p, k, Object(c)); }
  }

  lemma BeforeAdoptionFits(w: World, p: Id, k: Key, c: Id)
    requires Agree(w) && p in w.parent && c in w.parent && w.parent[c] != Some(p) && !Below(w.parent, p, c)
    requires Put(w.box[p], k, Object(c)).ok
    ensures var u := BeforeAdoption(w, p, k, c);
            && Shaped(u) && u.parent.Keys == w.parent.Keys && u.parent[c] == w.parent[c] && !Below(u.parent, p, c)
  {
    hide Put, Below, Acyclic, Fits, Owning, RefersTo, Closed;
    var r := Put(w.box[p], k, Object(c));
    if r.prev.Object? {
      PrevIsChild(w, p, k, Object(c));
      ReparentClosed(w.parent, r.prev.addr, None);
      NotBelowAfterDetach(w.parent, r.prev.addr, p, c);
    }
  }

  lemma NodeSetIsAdoption(w: World, p: Id, key: Key, c: Id)
    requires Agree(w) && p in w.parent && c in w.parent && w.parent[c] != Some(p)
    requires Set(w, p, key, Object(c)).ok && SetSafe(w, p, key, Object(c))
    ensures var k := Resolve(w.box[p], key);
            var u := BeforeAdoption(w, p, k, c);
            && Put(w.box[p], k, Object(c)).ok && Shaped(u) && c in u.parent && p in u.parent
            && u.parent[c] == w.parent[c]
            && u.parent.Keys == w.parent.Keys && !Below(u.parent, p, c)
            && Set(w, p, key, Object(c)).w == SetAsChild(u, p, c, KeyName(k))
  {
    var k := Resolve(w.box[p], key);
    var r := Put(w.box[p], k, Object(c));
    SetOkMeans(w, p, key, c);
    assert Shaped(w) && (w.box[p].ArrayBox? ==> k != Last);
    hide Agree, Valid, SetAsChild, SetSafe, Set, Below, Put, RemoveDuplicate;
    BeforeAdoptionFits(w, p, k, c);
    StoredOnce(w, p, k, c);
    OrphanFrees(WithBox(w, p, r.box), r.prev);
  }

  /** `Set` of a node that comes from elsewhere, where that is safe: it is stored, has p as parent and in
      a map the key as name, and has left its former container; a node that was there loses its parent;
      nothing else changes. */
  lemma NodeSetEffect(w: World, p: Id, key: Key, c: Id)
    requires Agree(w) && p in w.parent && c in w.parent && w.parent[c] != Some(p)
    requires Set(w, p, key, Object(c)).ok && SetSafe(w, p, key, Object(c))
    ensures var k := Resolve(w.box[p], key);
            var r := Put(w.box[p], k, Object(c));
            var u := Set(w, p, key, Object(c)).w;
            && r.ok && u.box.Keys == w.box.Keys && u.box[p] == r.box
            && (r.prev.Object? ==> r.prev.addr in w.parent)
            && u.parent == Freed(w.parent, r.prev)[c := Some(p)]
            && u.name == w.name[c := KeyName(k).GetOr(w.name[c])]
            && forall q | q in w.box && q != p ::
                 if w.parent[c] == Some(q) then Leaves(w.box[q], u.box[q], c) else u.box[q] == w.box[q]
  {
    hide SetAsChild, Set, Leaves, Put, Owning, RefersTo, Closed, Resolve;
    var k := Resolve(w.box[p], key);
    NodeSetIsAdoption(w, p, key, c);
    NoNameNeeded(w, p, k, c);
    assert Shaped(w);
    if Put(w.box[p], k, Object(c)).prev.Object? { PrevIsChild(w, p, k, Object(c)); }
    hide Agree;
    SetAsChildMoves(w, BeforeAdoption(w, p, k, c), p, c, KeyName(k));
  }

  lemma NoNameNeeded(w: World, p: Id, k: Key, c: Id)
    requires Agree(w) && p in w.parent && c in w.parent && Put(w.box[p], k, Object(c)).ok
    ensures w.box[p].MapBox? ==> k.Name? && k.s != ""
    ensures w.box[p].ArrayBox? ==> KeyName(k) == None && NameFree(w, c, w.name[c])
    ensures Put(w.box[p], k, Object(c)).box.MapBox? == w.box[p].MapBox?
  {
  }

  // Nothing is taken out again as a duplicate.
  lemma StoredOnce(w: World, p: Id, k: Key, c: Id)
    requires Agree(w) && p in w.parent && c in w.parent && w.parent[c] != Some(p)
    requires Put(w.box[p], k, Object(c)).ok && (w.box[p].ArrayBox? ==> k != Last)
    ensures RemoveDuplicate(Put(w.box[p], k, Object(c)).box, c, k) == Put(w.box[p], k, Object(c)).box
    ensures Put(w.box[p], k, Object(c)).box.MapBox? == w.box[p].MapBox?
  {
    assert Fits(w, p, c);
    if w.box[p].ArrayBox? { PutThenRemoveDuplicate(w.box[p], k, c); }
  }

  /** `Insert`, where that is safe: the value is stored; a node has p as parent and in a map the key as
      name, and has left its former container; nothing else changes. */
  lemma InsertEffect(w: World, p: Id, key: Key, v: XValue)
    requires Agree(w) && p in w.parent && Storable(w, v) && Insert(w, p, key, v).ok && InsertSafe(w, p, key, v)
    ensures var r := Emplace(w.box[p], key, v);
            var u := Insert(w, p, key, v).w;
            && r.ok
            && if v.Object? then
                 u.box.Keys == w.box.Keys && u.box[p] == r.box
                 && Moved(w, u, v.addr, Some(p), KeyName(r.key).GetOr(w.name[v.addr]))
               else u == w.(box := w.box[p := r.box])
  {
    hide SetAsChild;
    if v.Object? {
      var c, r := v.addr, Emplace(w.box[p], key, v);
      NotYetHeld(w, p, key, c);
      SetAsChildMoves(w, WithBox(w, p, r.box), p, c, KeyName(r.key));
    }
  }

  /** What `Insert` answers: after a success the key under which the value is read; otherwise the slot of the
      node in the array, or the key as given and what the map has there. */
  lemma InsertReplyReads(w: World, p: Id, key: Key, v: XValue)
    requires Agree(w) && p in w.parent && Storable(w, v)
    ensures var r, (at, existing) := Insert(w, p, key, v), InsertReply(w, p, key, v);
            && p in r.w.box
            && if r.ok then Get(r.w.box[p], at) == Some(v) && existing == Empty
               else if !ValidChild(w, p, v) then at == NoKey && existing == Empty
               else if w.box[p].ArrayBox? then at.At? && Get(w.box[p], at) == Some(v) && existing == Empty
               else at == key && existing == Get(w.box[p], key).GetOr(Empty)
  {
    hide SetAsChild, Fits, Below, Closed, InsertAt, RefersTo;
    var b := w.box[p];
    if ValidChild(w, p, v) {
      if v.Object? && HasDuplicate(b, v.addr) {
        EqNode(b.a[FindNode(b.a, v.addr, NoKey).value], v.addr);
      } else if Emplace(b, key, v).ok {
        EmplaceReads(b, key, v, "", 0);
        var r := Emplace(b, key, v);
        if v.Object? { ChildStaysPut(WithBox(w, p, r.box), p, v.addr, KeyName(r.key)); }
      }
    }
  }

  // Adopting a node leaves the container of its new parent as it is.
  lemma ChildStaysPut(u: World, p: Id, c: Id, rename: Option<string>)
    requires Shaped(u) && p in u.parent && c in u.parent
    ensures p in SetAsChild(u, p, c, rename).box && SetAsChild(u, p, c, rename).box[p] == u.box[p]
  {
  }

  lemma NotYetHeld(w: World, p: Id, key: Key, c: Id)
    requires Agree(w) && p in w.parent && c in w.parent && Emplace(w.box[p], key, Object(c)).ok
    requires !HasDuplicate(w.box[p], c) && InsertSafe(w, p, key, Object(c))
    ensures w.parent[c] != Some(p) && Emplace(w.box[p], key, Object(c)).box.MapBox? == w.box[p].MapBox?
    ensures var r := Emplace(w.box[p], key, Object(c));
            (w.box[p].MapBox? ==> r.key == key && key.Name? && key.s != "")
            && (w.box[p].ArrayBox? ==> KeyName(r.key) == None)
            && NameFree(w, c, KeyName(r.key).GetOr(w.name[c]))
  {
    assert Fits(w, p, c);
    if w.box[p].ArrayBox? { HasDuplicateIff(w.box[p], c); }
  }

  /** `Erase`: the entry goes, and a node that was there loses its parent but keeps its name; nothing
      else changes. */
  lemma EraseEffect(w: World, p: Id, key: Key)
    requires Agree(w) && p in w.parent && EraseKey(w, p, key).ok
    ensures var e := Erase(w.box[p], Resolve(w.box[p], key));
            e.erased.Some? && EraseKey(w, p, key).w == World(Freed(w.parent, e.erased.value), w.name, w.box[p := e.box])
  {
    var k := Resolve(w.box[p], key);
    var e := Erase(w.box[p], k);
    if e.erased.value.Object? {
      var c := e.erased.value.addr;
      ErasedIsKnown(w, p, k);
      ExtractSingle(w.box[p], k);
      ExtractReleases(w, p, [k]);
      assert Object(c) in [e.erased.value];
      assert c in (set d | d in NodesOf(Extract(w.box[p], [k]).vals));
      DetachReleased(WithBox(w, p, e.box), p, (set d | d in NodesOf(Extract(w.box[p], [k]).vals)), c);
    }
  }

  // The nodes of the list lose their parent; nothing else changes.
  ghost predicate Orphans(w: World, u: World, cs: seq<Id>) {
    && u.name == w.name && u.box == w.box && u.parent.Keys == w.parent.Keys
    && forall n | n in w.parent :: u.parent[n] == if n in cs then None else w.parent[n]
  }

  lemma {:induction false} DetachAllOrphans(w: World, p: Id, out: set<Id>, cs: seq<Id>)
    requires Released(w, p, out)
    requires forall c | c in cs :: c in w.parent && (c in out || w.parent[c].None?)
    ensures Orphans(w, DetachAll(w, cs), cs)
    decreases |cs|
  {
    if cs != [] {
      var c := cs[0];
      assert forall d :: d in cs <==> d == c || d in cs[1..];
      if c in out {
        DetachReleased(w, p, out, c);
        DetachAllOrphans(ParentDetach(w, c), p, out - {c}, cs[1..]);
      } else {
        assert ParentDetach(w, c) == w;
        DetachAllOrphans(w, p, out, cs[1..]);
      }
    }
  }

  /** `Clear`: the container is empty and exactly the children of p lose their parent; nothing else changes. */
  lemma ClearEffect(w: World, p: Id)
    requires Agree(w) && p in w.parent
    ensures var u := Clear(w, p);
            && u.name == w.name && u.box == w.box[p := Cleared(w.box[p])] && u.parent.Keys == w.parent.Keys
            && forall n | n in w.parent :: u.parent[n] == if w.parent[n] == Some(p) then None else w.parent[n]
  {
    var cs := NodesOf(Values(w.box[p]));
    var u := WithBox(w, p, Cleared(w.box[p]));
    forall c | c in w.parent ensures c in cs <==> w.parent[c] == Some(p) {
      assert Fits(w, p, c);
      if c in cs {
        ValuesAreStored(w.box[p], c);
      } else if w.parent[c] == Some(p) {
        ChildIsListed(w.box[p], c, w.name[c]);
      }
    }
    ClearReleases(w, p);
    DetachAllOrphans(u, p, (set c | c in cs), cs);
  }

  /** `BulkErase`: the container loses the entries, the nodes among them lose their parent; nothing else
      changes. */
  lemma BulkEraseEffect(w: World, p: Id, keys: seq<Key>)
    requires Agree(w) && p in w.parent
    ensures var x := Extract(w.box[p], ResolveAll(w.box[p], keys));
            Orphans(WithBox(w, p, x.box), BulkErase(w, p, keys), NodesOf(x.vals))
  {
    var ks := ResolveAll(w.box[p], keys);
    var x := Extract(w.box[p], ks);
    ExtractReleases(w, p, ks);
    DetachAllOrphans(WithBox(w, p, x.box), p, (set c | c in NodesOf(x.vals)), NodesOf(x.vals));
  }

  // The container with the node under its name, or at its end.
  function Received(b: Box, c: Id, name: string): Box {
    match b
    case MapBox(m) => MapBox(m[name := Object(c)])
    case ArrayBox(a) => ArrayBox(a + [Object(c)])
  }

  /** `ParentSet`, where that is safe: the node has the new parent and name, is held by it under its name
      or at its end, and has left its former container; nothing else changes. */
  lemma ParentSetEffect(w: World, c: Id, p: Option<Id>, rename: Option<string>)
    requires Agree(w) && c in w.parent && (p.Some? ==> p.value in w.parent)
    requires ParentSet(w, c, p, rename).ok && ParentSetSafe(w, c, p, rename)
    ensures var u, name := ParentSet(w, c, p, rename).w, rename.GetOr(w.name[c]);
            && Moved(w, u, c, p, name)
            && (p.Some? ==> p.value in u.box && u.box[p.value] == Received(w.box[p.value], c, name))
  {
    var name, q := rename.GetOr(w.name[c]), w.parent[c];
    var box := if q.None? then w.box else w.box[q.value := ErasedBox(w.box[q.value], c, name)];
    if q.Some? {
      assert Fits(w, q.value, c);
      ErasedLeaves(w.box[q.value], c, w.name[c], name);
    }
    if p.Some? { AdoptedReads(w, p.value, c, name); }
  }

  lemma AdoptedReads(w: World, p: Id, c: Id, name: string)
    requires Agree(w) && p in w.parent && c in w.parent && w.parent[c] != Some(p)
    requires w.box[p].MapBox? ==> name != "" && !Current(w.box[p].m, name).Object?
    ensures Adopted(w.box[p], c, name) == Received(w.box[p], c, name)
  {
    assert Fits(w, p, c);
    var b := w.box[p];
    if b.MapBox? {
      assert !Current(b.m, name).ConstObject?;
    } else {
      HasDuplicateIff(b, c);
      assert InsertAt(b.a, |b.a|, Object(c)) == b.a + [Object(c)];
    }
  }

  // ----- KeyChange -----

  // In an array the value leaves its slot, and behind the end, after empty slots, it stands at its new index.
  lemma MovedBehind(a: seq<XValue>, i: nat, j: nat, v: XValue)
    requires i < |a| <= j < |a| - 1 + MAX_SIZE_INCREASE && !Eq(Empty, v)
    ensures Put(ArrayBox(RemoveAt(a, i)), At(j), v).box ==
            ArrayBox(RemoveAt(a, i) + seq(j + 1 - |a|, _ => Empty) + [v])
  {
    var o := RemoveAt(a, i);
    var g := Grown(o, At(j));
    assert g == o + seq(j + 1 - |o|, _ => Empty);
    assert g[j := v] == o + seq(j + 1 - |a|, _ => Empty) + [v];
  }

  /** `KeyChange`, whatever the keys: parents and other containers stay, and a node under a string key gets
      it as name. In a map that accepts the key the new key reads the value, the old one reads empty and
      every other key as before; in an array the value has gone behind the end, after empty slots (an empty
      value only leaves its slot). A container that does not accept the key has lost the value. */
  lemma KeyChangeEffect(w: World, p: Id, from: Key, to: Key)
    requires Agree(w) && p in w.parent && KeyChange(w, p, from, to).ok
    ensures var u, b := KeyChange(w, p, from, to).w, w.box[p];
            var k := Resolve(b, from);
            var v := Get(b, k);
            && v.Some? && p in u.box && Get(b, to).None?
            && u.parent == w.parent && (forall q | q in w.box && q != p :: q in u.box && u.box[q] == w.box[q])
            && u.name == (if to.Name? && v.value.Object? then w.name[v.value.addr := to.s] else w.name)
            && if !Accepts(b, to) then u.box[p] == Erase(b, k).box
               else if b.MapBox? then MovedInMap(b, u.box[p], k, to.s, v.value)
               else MovedInArray(b.a, u.box[p], Position(b.a, k), to.i, v.value)
  {
    hide Put, Fits, Owning, RefersTo, Closed, MovedInMap, MovedInArray;
    var b, k := w.box[p], Resolve(w.box[p], from);
    EraseReads(b, k, "", 0);
    var v := Erase(b, k).erased.value;
    if Accepts(b, to) {
      if b.MapBox? { MapMoves(b, k, to.s, v); } else { ArrayMoves(b.a, k, to.i, v); }
    } else {
      NotAccepted(b, k, to, v);
    }
  }

  ghost predicate MovedInMap(b: Box, o: Box, k: Key, to: string, v: XValue) {
    && o.MapBox? && k.Name? && Get(o, Name(to)) == Some(v) && Get(o, k) == Some(Empty)
    && forall s | Name(s) != k && s != to :: Get(o, Name(s)) == Get(b, Name(s))
  }

  ghost predicate MovedInArray(a: seq<XValue>, o: Box, i: Option<nat>, j: nat, v: XValue) {
    && i.Some? && i.value < |a| <= j
    && o == ArrayBox(RemoveAt(a, i.value) + seq(j + 1 - |a|, _ => Empty) + [v])
  }

  lemma MapMoves(b: Box, k: Key, to: string, v: XValue)
    requires b.MapBox? && to != "" && Get(b, Name(to)).None? && Erase(b, k).erased == Some(v)
    ensures MovedInMap(b, Put(Erase(b, k).box, Name(to), v).box, k, to, v)
  {
    assert !Eq(Empty, v);
  }

  lemma ArrayMoves(a: seq<XValue>, k: Key, j: nat, v: XValue)
    requires Get(ArrayBox(a), At(j)).None? && Erase(ArrayBox(a), k).erased == Some(v) && j < |a| - 1 + MAX_SIZE_INCREASE
    ensures MovedInArray(a, Put(Erase(ArrayBox(a), k).box, At(j), v).box, Position(a, k), j, v)
  {
    var i := Position(a, k).value;
    if Eq(Empty, v) {
      var o := RemoveAt(a, i);
      assert v == Empty;
      assert Grown(o, At(j)) == o + seq(j + 1 - |o|, _ => Empty);
      assert Grown(o, At(j)) == o + seq(j + 1 - |a|, _ => Empty) + [v];
    } else {
      MovedBehind(a, i, j, v);
    }
  }

  lemma NotAccepted(b: Box, k: Key, to: Key, v: XValue)
    requires !Accepts(b, to) && Get(b, to).None? && Erase(b, k).erased == Some(v)
    ensures Put(Erase(b, k).box, to, v).box == Erase(b, k).box
  {
    if b.ArrayBox? { assert |Erase(b, k).box.a| == |b.a| - 1; }
  }

  // ----- CompareExchange -----

  /** `CompareExchange`, where that is safe: what is stored reads under the key, a stored node has p as
      parent and in a map the key as name and has left its former container, and nothing else changes; what
      is not stored changes nothing but the empty slots that an array gains. */
  lemma CompareExchangeEffect(w: World, p: Id, key: Key, expected: XValue, v: XValue)
    requires Agree(w) && p in w.parent && Storable(w, v)
    requires CompareExchange(w, p, key, expected, v).ok && CompareExchangeSafe(w, p, key, v)
    ensures var k := Resolve(w.box[p], key);
            var r, u := Put(w.box[p], k, v), CompareExchange(w, p, key, expected, v).w;
            if r.ok && v.Object? then
              u.box.Keys == w.box.Keys && u.box[p] == r.box
              && Moved(w, u, v.addr, Some(p), KeyName(k).GetOr(w.name[v.addr]))
            else u == w.(box := w.box[p := r.box])
  {
    hide SetAsChild, Agree, Put, Leaves;
    assert Shaped(w) by { AgreeingIsShaped(w); }
    var k := Resolve(w.box[p], key);
    var r := Put(w.box[p], k, v);
    if v.Object? {
      var o := WithBox(w, p, r.box);
      if r.ok {
        NoNameNeeded(w, p, k, v.addr);
        SafeToStore(w, p, key, v.addr);
        SetAsChildMoves(w, o, p, v.addr, KeyName(k));
      } else {
        NotStoredSame(w.box[p], k, v.addr);
        assert o == w;
        NotAdoptedStays(w, p, v.addr, KeyName(k));
      }
    }
  }

  lemma AgreeingIsShaped(w: World)
    requires Agree(w)
    ensures Shaped(w)
  {
  }

  lemma SafeToStore(w: World, p: Id, key: Key, c: Id)
    requires Agree(w) && p in w.parent && c in w.parent && CompareExchangeSafe(w, p, key, Object(c))
    requires Put(w.box[p], Resolve(w.box[p], key), Object(c)).ok
    ensures w.parent[c] != Some(p) && !Below(w.parent, p, c)
    ensures NameFree(w, c, KeyName(Resolve(w.box[p], key)).GetOr(w.name[c]))
  {
  }

  // ----- a node set within its own array -----

  /** `Set` of a node into the array that holds it already: it stands at the new place and no longer at the
      old one; a node that was there loses its parent; nothing else changes. */
  lemma ArraySetEffect(w: World, p: Id, key: Key, c: Id)
    requires Agree(w) && p in w.parent && c in w.parent && w.parent[c] == Some(p) && w.box[p].ArrayBox?
    requires Set(w, p, key, Object(c)).ok
    ensures var a, r, u := w.box[p].a, Put(w.box[p], key, Object(c)), Set(w, p, key, Object(c)).w;
            && (exists i: nat, j: nat ::
                  OnlyAt(a, c, i) && Place(a, key, j) && i != j && j < |Grown(a, key)| && i < |Grown(a, key)|
                  && u.box == w.box[p := ArrayBox(RemoveAt(Grown(a, key)[j := Object(c)], i))])
            && u.parent == Freed(w.parent, r.prev) && u.name == w.name
  {
    var a, r := w.box[p].a, Put(w.box[p], key, Object(c));
    assert Fits(w, p, c);
    var i: nat :| OnlyAt(a, c, i);
    SetOkMeans(w, p, key, c);
    var g := Grown(a, key);
    var j := Position(g, key).value;
    assert Owning(w.box[p]);
    MovedWithin(a, key, c, i);
    if r.prev.Object? { PrevIsChild(w, p, key, Object(c)); }
    OrphanFrees(WithBox(w, p, RemoveDuplicate(r.box, c, key)), r.prev);
    FreedKeepsChild(w, p, r.prev, c, RemoveDuplicate(r.box, c, key));
  }

  lemma MovedWithin(a: seq<XValue>, k: Key, c: Id, i: nat)
    requires OnlyAt(a, c, i) && Owning(ArrayBox(a)) && Put(ArrayBox(a), k, Object(c)).ok
    ensures var g := Grown(a, k);
            var p := Position(g, k);
            && p.Some? && i < |g| && Place(a, k, p.value) && i != p.value
            && RemoveDuplicate(Put(ArrayBox(a), k, Object(c)).box, c, k) ==
               ArrayBox(RemoveAt(g[p.value := Object(c)], i))
  {
    var g := Grown(a, k);
    var j := Position(g, k).value;
    var o := g[j := Object(c)];
    assert g[i] == Object(c) && i != j;
    assert forall l | 0 <= l < |o| :: Eq(o[l], Object(c)) <==> l == i || l == j;
    var d := FindNode(o, c, k);
    assert Eq(o[i], Object(c)) && k != At(i);
    assert d == Some(i) || d == Some(j);
    assert k == Last ==> i < j;
  }

  lemma FreedKeepsChild(w: World, p: Id, gone: XValue, c: Id, b: Box)
    requires Shaped(w) && p in w.parent && c in w.parent && w.parent[c] == Some(p) && gone != Object(c)
    requires gone.Object? ==> gone.addr in w.parent
    ensures var u := World(Freed(w.parent, gone), w.name, w.box[p := b]);
            forall rename :: SetAsChild(u, p, c, rename) == u
  {
  }
}
