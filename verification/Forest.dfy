/** Every public operation, successful or not, keeps the parent pointers a forest. */
module Forest {
  import opened Wrappers
  import opened XValues
  import opened Boxes
  import opened Holding
  import opened Worlds
  import Order
  import opened TreeOps

  ghost predicate Good(w: World) { Valid(w) && Acyclic(w.parent) }

  lemma GoodIsShaped(w: World)
    requires Good(w)
    ensures Shaped(w)
  {
  }

  lemma ReparentClosed(parent: Parents, c: Id, p: Option<Id>)
    requires Closed(parent) && c in parent && (p.Some? ==> p.value in parent)
    ensures Closed(parent[c := p])
  {
  }

  // The containers alone decide the rest.
  lemma SameBoxesValid(w: World, v: World)
    requires Valid(w) && v.box == w.box && v.parent.Keys == w.parent.Keys && v.name.Keys == w.name.Keys
    requires Closed(v.parent)
    ensures Valid(v)
  {
    hide Owning, RefersTo, Closed;
  }

  lemma PrivateParentSetGood(w: World, c: Id, p: Option<Id>, rename: Option<string>)
    requires Good(w) && c in w.parent && (p.Some? ==> p.value in w.parent)
    ensures Good(PrivateParentSet(w, c, p, rename).w)
    ensures PrivateParentSet(w, c, p, rename).w.parent.Keys == w.parent.Keys
  {
    hide Below, RefersTo, Owning, Acyclic, Closed;
    ReparentClosed(w.parent, c, p);
    SameBoxesValid(w, PrivateParentSet(w, c, p, rename).w);
    match p
    case None => DetachKeepsForest(w.parent, c);
    case Some(q) => if !Below(w.parent, q, c) { ReparentKeepsForest(w.parent, c, q); }
  }

  lemma PrivateEraseGood(w: World, q: Id, c: Id)
    requires Good(w) && q in w.parent && c in w.parent
    ensures Good(PrivateErase(w, q, c))
  {
    var v := PrivateErase(w, q, c);
    ErasedBoxOwning(w.box[q], c, w.name[c]);
    forall x, y | x in v.box && RefersTo(v.box[x], y) ensures y in v.parent {
      if x == q { ErasedBoxRefers(w.box[q], c, w.name[c], y); }
    }
  }

  lemma SetAsChildGood(w: World, p: Id, c: Id, rename: Option<string>)
    requires Good(w) && c in w.parent && p in w.parent
    ensures Good(SetAsChild(w, p, c, rename)) && SetAsChild(w, p, c, rename).parent.Keys == w.parent.Keys
  {
    var r := PrivateParentSet(w, c, Some(p), rename);
    PrivateParentSetGood(w, c, Some(p), rename);
    if r.ok && r.prev.Some? { PrivateEraseGood(r.w, r.prev.value, c); }
  }

  lemma ParentDetachGood(w: World, c: Id)
    requires Good(w) && c in w.parent
    ensures Good(ParentDetach(w, c)) && ParentDetach(w, c).parent.Keys == w.parent.Keys
  {
    var r := PrivateParentSet(w, c, None, None);
    PrivateParentSetGood(w, c, None, None);
    if r.ok && r.prev.Some? { PrivateEraseGood(r.w, r.prev.value, c); }
  }

  lemma WithBoxValid(w: World, p: Id, b: Box)
    requires Valid(w) && p in w.parent && Owning(b)
    requires forall c | RefersTo(b, c) :: c in w.parent
    ensures Valid(WithBox(w, p, b))
  {
    var u := WithBox(w, p, b);
    forall x, y | x in u.box && RefersTo(u.box[x], y) ensures y in u.parent {
      if x != p { assert RefersTo(w.box[x], y); }
    }
  }

  lemma {:induction false} DetachAllGood(w: World, cs: seq<Id>)
    requires Good(w) && forall c | c in cs :: c in w.parent
    ensures Good(DetachAll(w, cs))
    decreases |cs|
  {
    if cs != [] {
      ParentDetachGood(w, cs[0]);
      DetachAllGood(ParentDetach(w, cs[0]), cs[1..]);
    }
  }

  lemma {:induction false} AdoptAllGood(w: World, p: Id, todo: map<Id, Option<string>>)
    requires Good(w) && p in w.parent && todo.Keys <= w.parent.Keys
    ensures Good(AdoptAll(w, p, todo))
    decreases todo.Keys
  {
    if todo != map[] {
      var c := Order.Least(todo.Keys);
      ParentDetachGood(w, c);
      SetAsChildGood(ParentDetach(w, c), p, c, todo[c]);
      AdoptAllGood(Adopt(w, p, c, todo[c]), p, todo - {c});
    }
  }

  // ----- runs of container changes -----

  lemma {:induction false} ExtractGood(b: Box, ks: seq<Key>)
    requires Owning(b)
    ensures Owning(Extract(b, ks).box)
    ensures forall c | RefersTo(Extract(b, ks).box, c) :: RefersTo(b, c)
    decreases |ks|
  {
    if ks != [] {
      var e := Erase(b, ks[0]);
      EraseOwning(b, ks[0]);
      ExtractGood(e.box, ks[1..]);
      forall c | RefersTo(Extract(b, ks).box, c) ensures RefersTo(b, c) { EraseRefers(b, ks[0], c); }
    }
  }

  lemma {:induction false} FillGood(w: World, p: Id, b: Box, todo: map<Id, Option<string>>, kvs: seq<(Key, XValue)>)
    requires AllStorable(w, kvs) && Owning(b) && forall c | RefersTo(b, c) :: c in w.parent
    ensures Owning(Fill(w, p, b, todo, kvs).box)
    ensures forall c | RefersTo(Fill(w, p, b, todo, kvs).box, c) :: c in w.parent
    decreases |kvs|
  {
    if kvs != [] {
      var (k, v) := kvs[0];
      var e := Emplace(b, k, v);
      assert Storable(w, v) && AllStorable(w, kvs[1..]);
      if Refused(w, p, b, todo.Keys, v) || !e.ok {
        FillGood(w, p, b, todo, kvs[1..]);
      } else {
        EmplaceOwning(b, k, v);
        forall c | RefersTo(e.box, c) ensures c in w.parent { EmplaceRefers(b, k, v, c); }
        FillGood(w, p, e.box, if v.Object? then todo[v.addr := KeyName(e.key)] else todo, kvs[1..]);
      }
    }
  }

  // ----- the public operations -----

  lemma CreateKeepsForest(parent: Parents, id: Id)
    requires Acyclic(parent) && id !in parent
    ensures Acyclic(parent[id := None])
  {
    var rank :| Ranked(parent, rank);
    assert Ranked(parent[id := None], rank[id := 0]);
  }

  lemma CreateValid(w: World, id: Id, isMap: bool, name: string)
    requires Valid(w) && id !in w.parent
    ensures Valid(Create(w, id, isMap, name))
  {
    var v := Create(w, id, isMap, name);
    assert Shaped(v);
    forall x | x in v.box ensures Owning(v.box[x]) { if x != id { assert v.box[x] == w.box[x]; } }
    forall x, y | x in v.box && RefersTo(v.box[x], y) ensures y in v.parent {
      if x != id { assert RefersTo(w.box[x], y); }
    }
  }

  lemma CreateGood(w: World, id: Id, isMap: bool, name: string)
    requires Good(w) && id !in w.parent
    ensures Good(Create(w, id, isMap, name))
  {
    CreateKeepsForest(w.parent, id);
    CreateValid(w, id, isMap, name);
  }

  // The container change of `Set`: the value put in, a duplicate of the node taken out.
  lemma PlacedValid(w: World, p: Id, k: Key, v: XValue)
    requires Valid(w) && p in w.parent && Storable(w, v)
    ensures Valid(WithBox(w, p, Put(w.box[p], k, v).box))
    ensures v.Object? ==> Valid(WithBox(w, p, RemoveDuplicate(Put(w.box[p], k, v).box, v.addr, k)))
  {
    var o := Put(w.box[p], k, v).box;
    PutOwning(w.box[p], k, v);
    forall c | RefersTo(o, c) ensures c in w.parent { PutRefers(w.box[p], k, v, c); }
    WithBoxValid(w, p, o);
    if v.Object? {
      var b := RemoveDuplicate(o, v.addr, k);
      assert Owning(b) by { RemoveDuplicateSame(o, v.addr, k, v.addr + 1); }
      forall c | RefersTo(b, c) ensures c in w.parent { RemoveDuplicateRefers(o, v.addr, k, c); }
      WithBoxValid(w, p, b);
    }
  }

  lemma PlacedGood(w: World, p: Id, k: Key, v: XValue)
    requires Good(w) && p in w.parent && Storable(w, v)
    ensures Good(WithBox(w, p, Put(w.box[p], k, v).box))
    ensures v.Object? ==> Good(WithBox(w, p, RemoveDuplicate(Put(w.box[p], k, v).box, v.addr, k)))
  {
    PlacedValid(w, p, k, v);
  }

  lemma EmplacedGood(w: World, p: Id, k: Key, v: XValue)
    requires Good(w) && p in w.parent && Storable(w, v)
    ensures Good(WithBox(w, p, Emplace(w.box[p], k, v).box))
  {
    EmplaceOwning(w.box[p], k, v);
    forall c | RefersTo(Emplace(w.box[p], k, v).box, c) ensures c in w.parent { EmplaceRefers(w.box[p], k, v, c); }
    WithBoxValid(w, p, Emplace(w.box[p], k, v).box);
  }

  lemma ErasedGood(w: World, p: Id, k: Key)
    requires Good(w) && p in w.parent
    ensures Good(WithBox(w, p, Erase(w.box[p], k).box))
  {
    EraseOwning(w.box[p], k);
    forall c | RefersTo(Erase(w.box[p], k).box, c) ensures c in w.parent { EraseRefers(w.box[p], k, c); }
    WithBoxValid(w, p, Erase(w.box[p], k).box);
  }

  lemma SetGood(w: World, p: Id, key: Key, v: XValue)
    requires Good(w) && p in w.parent && Storable(w, v)
    ensures Good(Set(w, p, key, v).w)
  {
    var k := Resolve(w.box[p], key);
    var r := Put(w.box[p], k, v);
    PlacedValid(w, p, k, v);
    if ValidChild(w, p, v) && r.ok {
      var b := if v.Object? then RemoveDuplicate(r.box, v.addr, k) else r.box;
      if r.prev.Object? {
        PutPrevIsKnown(w, p, k, v);
        PrivateParentSetGood(WithBox(w, p, b), r.prev.addr, None, None);
      }
      if v.Object? { SetAsChildGood(Orphan(WithBox(w, p, b), r.prev), p, v.addr, KeyName(k)); }
    }
  }

  lemma CompareExchangeGood(w: World, p: Id, key: Key, expected: XValue, v: XValue)
    requires Good(w) && p in w.parent && Storable(w, v)
    ensures Good(CompareExchange(w, p, key, expected, v).w)
    ensures CompareExchange(w, p, key, expected, v).w.parent.Keys == w.parent.Keys
  {
    hide Put, Below, Acyclic, Owning, RefersTo, Closed;
    var k := Resolve(w.box[p], key);
    PlacedGood(w, p, k, v);
    if v.Object? { SetAsChildGood(WithBox(w, p, Put(w.box[p], k, v).box), p, v.addr, KeyName(k)); }
  }

  lemma InsertGood(w: World, p: Id, key: Key, v: XValue)
    requires Good(w) && p in w.parent && Storable(w, v)
    ensures Good(Insert(w, p, key, v).w)
  {
    var r := Emplace(w.box[p], key, v);
    EmplacedGood(w, p, key, v);
    if v.Object? { SetAsChildGood(WithBox(w, p, r.box), p, v.addr, KeyName(r.key)); }
  }

  lemma EraseKeyGood(w: World, p: Id, key: Key)
    requires Good(w) && p in w.parent
    ensures Good(EraseKey(w, p, key).w)
  {
    var k := Resolve(w.box[p], key);
    var e := Erase(w.box[p], k);
    ErasedGood(w, p, k);
    if e.erased.Some? && e.erased.value.Object? {
      ErasedIsKnown(w, p, k);
      ParentDetachGood(WithBox(w, p, e.box), e.erased.value.addr);
    }
  }

  lemma ParentSetGood(w: World, c: Id, p: Option<Id>, rename: Option<string>)
    requires Good(w) && c in w.parent && (p.Some? ==> p.value in w.parent)
    ensures Good(ParentSet(w, c, p, rename).w)
  {
    var r := PrivateParentSet(w, c, p, rename);
    PrivateParentSetGood(w, c, p, rename);
    if r.ok {
      var u := if r.prev.Some? then PrivateErase(r.w, r.prev.value, c) else r.w;
      if r.prev.Some? { PrivateEraseGood(r.w, r.prev.value, c); }
      if p.Some? {
        var b := u.box[p.value];
        if b.MapBox? {
          PutOwning(b, Name(u.name[c]), Object(c));
          forall x | RefersTo(Adopted(b, c, u.name[c]), x) ensures x in u.parent {
            PutRefers(b, Name(u.name[c]), Object(c), x);
          }
        } else if !HasDuplicate(b, c) {
          EmplaceOwning(b, End, Object(c));
          forall x | RefersTo(Adopted(b, c, u.name[c]), x) ensures x in u.parent {
            EmplaceRefers(b, End, Object(c), x);
          }
        }
        WithBoxValid(u, p.value, Adopted(b, c, u.name[c]));
      }
    }
  }

  lemma KeyChangeGood(w: World, p: Id, from: Key, to: Key)
    requires Good(w) && p in w.parent
    ensures Good(KeyChange(w, p, from, to).w)
  {
    hide Put, Erase, RefersTo, Owning, Acyclic;
    var b := w.box[p];
    var k := Resolve(b, from);
    var e := Erase(b, k);
    if e.erased.Some? {
      var v := e.erased.value;
      EraseOwning(b, k);
      if v.Object? { ErasedIsKnown(w, p, k); }
      PutOwning(e.box, to, v);
      forall c | RefersTo(Put(e.box, to, v).box, c) ensures c in w.parent {
        PutRefers(e.box, to, v, c);
        if RefersTo(e.box, c) { EraseRefers(b, k, c); }
      }
      WithBoxValid(w, p, Put(e.box, to, v).box);
    }
  }

  lemma AmendGood(w: World, p: Id, key: Key, change: XValue -> XValue, start: XValue)
    requires Good(w) && p in w.parent && GivesPlain(change) && Storable(w, start)
    ensures Good(Amend(w, p, key, change, start))
  {
    hide Put, Emplace, Found, Resolve, Owning, RefersTo, Acyclic, Closed;
    var k := Resolve(w.box[p], key);
    var x := Found(w.box[p], k);
    if x.Some? {
      assert IsPlain(change(x.value));
      PlacedGood(w, p, k, change(x.value));
    } else {
      EmplacedGood(w, p, key, start);
    }
  }

  lemma NameSetGood(w: World, c: Id, name: string, updateParent: bool)
    requires Good(w) && c in w.parent
    ensures Good(NameSet(w, c, name, updateParent).w)
  {
    hide KeyChange, Owning, RefersTo;
    if w.parent[c].Some? { KeyChangeGood(w, w.parent[c].value, Name(w.name[c]), Name(name)); }
  }

  lemma ClearGood(w: World, p: Id)
    requires Good(w) && p in w.parent
    ensures Good(Clear(w, p))
  {
    var cs := NodesOf(Values(w.box[p]));
    forall c | c in cs ensures c in w.parent { ValuesAreStored(w.box[p], c); }
    WithBoxValid(w, p, Cleared(w.box[p]));
    DetachAllGood(WithBox(w, p, Cleared(w.box[p])), cs);
  }

  lemma BulkEraseGood(w: World, p: Id, keys: seq<Key>)
    requires Good(w) && p in w.parent
    ensures Good(BulkErase(w, p, keys))
  {
    var ks := ResolveAll(w.box[p], keys);
    var x := Extract(w.box[p], ks);
    forall c | c in NodesOf(x.vals) ensures c in w.parent { ExtractedIsStored(w.box[p], ks, c); }
    ExtractGood(w.box[p], ks);
    WithBoxValid(w, p, x.box);
    DetachAllGood(WithBox(w, p, x.box), NodesOf(x.vals));
  }

  lemma BulkInsertGood(w: World, p: Id, kvs: seq<(Key, XValue)>)
    requires Good(w) && p in w.parent && AllStorable(w, kvs)
    ensures Good(BulkInsert(w, p, kvs))
  {
    var f := Fill(w, p, w.box[p], map[], kvs);
    FillIsKnown(w, p, w.box[p], map[], kvs);
    FillGood(w, p, w.box[p], map[], kvs);
    WithBoxValid(w, p, f.box);
    AdoptAllGood(WithBox(w, p, f.box), p, f.todo);
  }

  lemma {:induction false} FillArrayOwning(w: World, p: Id, a: seq<XValue>, pos: Key, vs: seq<XValue>)
    requires Owning(ArrayBox(a)) && forall v | v in vs :: !v.ConstObject?
    ensures Owning(ArrayBox(FillArray(w, p, a, pos, vs).a))
    ensures forall c | RefersTo(ArrayBox(FillArray(w, p, a, pos, vs).a), c) ::
              RefersTo(ArrayBox(a), c) || Object(c) in vs
    decreases |vs|
  {
    if vs != [] {
      if Refused(w, p, ArrayBox(a), {}, vs[0]) {
        FillArrayOwning(w, p, a, pos, vs[1..]);
      } else {
        EmplaceOwning(ArrayBox(a), pos, vs[0]);
        var a1 := Emplace(ArrayBox(a), pos, vs[0]).box.a;
        FillArrayOwning(w, p, a1, NextPosition(pos), vs[1..]);
        forall c | RefersTo(ArrayBox(FillArray(w, p, a, pos, vs).a), c)
          ensures RefersTo(ArrayBox(a), c) || Object(c) in vs
        {
          if RefersTo(ArrayBox(a1), c) { EmplaceRefers(ArrayBox(a), pos, vs[0], c); }
        }
      }
    }
  }

  lemma FilledIsValid(w: World, p: Id, pos: Key, vs: seq<XValue>)
    requires Valid(w) && p in w.parent && w.box[p].ArrayBox? && forall v | v in vs :: Storable(w, v)
    ensures Valid(WithBox(w, p, ArrayBox(FillArray(w, p, w.box[p].a, pos, vs).a)))
  {
    var o := ArrayBox(FillArray(w, p, w.box[p].a, pos, vs).a);
    FillArrayOwning(w, p, w.box[p].a, pos, vs);
    forall c | RefersTo(o, c) ensures c in w.parent {
      if Object(c) in vs { assert Storable(w, Object(c)); }
    }
    WithBoxValid(w, p, o);
  }

  lemma {:induction false} SetAllAsChildrenGood(w: World, p: Id, cs: seq<Id>)
    requires Good(w) && p in w.parent && forall c | c in cs :: c in w.parent
    ensures Good(SetAllAsChildren(w, p, cs))
    decreases |cs|
  {
    if cs != [] {
      SetAsChildGood(w, p, cs[0], None);
      SetAllAsChildrenGood(SetAsChild(w, p, cs[0], None), p, cs[1..]);
    }
  }

  lemma BulkInsertAtGood(w: World, p: Id, pos: Key, vs: seq<XValue>)
    requires Good(w) && p in w.parent && forall v | v in vs :: Storable(w, v)
    ensures Good(BulkInsertAt(w, p, pos, vs))
  {
    if !pos.Name? && w.box[p].ArrayBox? {
      var f := FillArray(w, p, w.box[p].a, InsertPosition(pos), vs);
      AcceptedAreKnown(w, p, w.box[p].a, InsertPosition(pos), vs);
      FilledIsValid(w, p, InsertPosition(pos), vs);
      SetAllAsChildrenGood(WithBox(w, p, ArrayBox(f.a)), p, NodesOf(f.accepted));
    }
  }
}
