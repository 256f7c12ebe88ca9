/** `Insert` and `ParentSet`: exactly the calls that keep the agreement. */
module Adoptions {
  import opened Wrappers
  import opened XValues
  import opened Boxes
  import opened Holding
  import opened Worlds
  import opened Agreement
  import opened TreeOps
  import opened Forest
  import opened TreeAgreement

  // ----- Insert -----

  lemma EmplaceIsPlaced(b: Box, k: Key, c: Id)
    requires Owning(b) && Emplace(b, k, Object(c)).ok
    ensures Placed(b, Emplace(b, k, Object(c)).box, c, Empty)
  {
    EmplaceOwning(b, k, Object(c));
    var o := Emplace(b, k, Object(c)).box;
    forall y | y != c ensures Same(b, o, y) { EmplaceSame(b, k, Object(c), y); }
    forall y | RefersTo(o, y) ensures RefersTo(b, y) || y == c { EmplaceRefers(b, k, Object(c), y); }
  }

  ghost predicate InsertSafe(w: World, p: Id, key: Key, v: XValue)
    requires Shaped(w) && p in w.parent && Storable(w, v)
  {
    v.Object? && w.box[p].MapBox? ==> w.parent[v.addr] != Some(p) && key.Name? && NameFree(w, v.addr, key.s)
  }

  lemma PlainInsertAgrees(w: World, p: Id, key: Key, v: XValue)
    requires Agree(w) && p in w.parent && !v.Object? && !v.ConstObject?
    ensures Agree(WithBox(w, p, Emplace(w.box[p], key, v).box))
  {
    var b := Emplace(w.box[p], key, v).box;
    EmplaceOwning(w.box[p], key, v);
    forall c | RefersTo(b, c) ensures c in w.parent { EmplaceRefers(w.box[p], key, v, c); }
    WithBoxValid(w, p, b);
    forall x, y | x in w.parent && y in w.parent ensures Fits(WithBox(w, p, b), x, y) {
      EmplaceSame(w.box[p], key, v, y);
      assert Fits(w, x, y);
    }
  }

  lemma EmplaceWithin(w: World, p: Id, key: Key, c: Id)
    requires Agree(w) && p in w.parent && c in w.parent && w.parent[c] == Some(p)
    requires Emplace(w.box[p], key, Object(c)).ok && w.box[p].MapBox?
    ensures !HoldsOnce(Emplace(w.box[p], key, Object(c)).box, c, w.name[c])
  {
    assert Fits(w, p, c);
    assert Emplace(w.box[p], key, Object(c)).box.m[key.s] == Object(c);
  }

  /** `Insert` of a plain value, and of a node into an array, always keeps the agreement. `Insert` of
      a node into a map keeps it exactly when the map does not hold the node already and the map it
      leaves has no other entry under its new key. */
  lemma InsertAgreesIff(w: World, p: Id, key: Key, v: XValue)
    requires Agree(w) && p in w.parent && Storable(w, v)
    ensures !Insert(w, p, key, v).ok ==> Insert(w, p, key, v).w == w
    ensures Insert(w, p, key, v).ok ==> (Agree(Insert(w, p, key, v).w) <==> InsertSafe(w, p, key, v))
  {
    if Insert(w, p, key, v).ok {
      var r := Emplace(w.box[p], key, v);
      if !v.Object? {
        PlainInsertAgrees(w, p, key, v);
      } else {
        var c := v.addr;
        var u := WithBox(w, p, r.box);
        assert Fits(w, p, c);
        EmplaceIsPlaced(w.box[p], key, c);
        NodePlaced(w, p, r.box, c, Empty);
        if w.box[p].ArrayBox? { HasDuplicateIff(w.box[p], c); }
        if w.parent[c] == Some(p) {
          WrittenAgreesIff(w, u, p, r.box, c);
          EmplaceWithin(w, p, key, c);
        } else {
          EmplacePlaces(w.box[p], key, c);
          PlacedAgreesIff(w, u, p, r.box, c, KeyName(r.key));
          assert NameFree(w, c, w.name[c]);
        }
      }
    }
  }

  // ----- ParentSet -----

  ghost predicate ParentSetSafe(w: World, c: Id, p: Option<Id>, rename: Option<string>)
    requires Shaped(w) && c in w.parent && (p.Some? ==> p.value in w.parent)
  {
    && NameFree(w, c, rename.GetOr(w.name[c]))
    && (p.Some? && w.box[p.value].MapBox? ==> !Current(w.box[p.value].m, rename.GetOr(w.name[c])).Object?)
  }

  // c has left its former parent's container and points to p, which does not hold it yet.
  ghost predicate Underway(w: World, c: Id) {
    && Valid(w) && c in w.parent
    && forall x, y {:trigger UnderwayAt(w, c, x, y)} | x in w.parent && y in w.parent :: UnderwayAt(w, c, x, y)
  }

  ghost predicate UnderwayAt(w: World, c: Id, x: Id, y: Id)
    requires x in w.box && y in w.parent && y in w.name
  {
    if y == c then HoldsNot(w.box[x], c) else Fits(w, x, y)
  }

  lemma LeaveRoot(w: World, u: World, c: Id, p: Option<Id>, name: string)
    requires Agree(w) && c in w.parent && w.parent[c].None? && (p.Some? ==> p.value in w.parent)
    requires u == World(w.parent[c := p], w.name[c := name], w.box)
    ensures Underway(u, c)
  {
    assert Valid(u);
    forall x, y | x in u.parent && y in u.parent ensures UnderwayAt(u, c, x, y) { assert Fits(w, x, y); }
  }

  lemma LeaveParent(w: World, u: World, c: Id, q: Id, p: Option<Id>, name: string)
    requires Agree(w) && c in w.parent && w.parent[c] == Some(q) && (p.Some? ==> p.value in w.parent)
    requires u == World(w.parent[c := p], w.name[c := name], w.box[q := ErasedBox(w.box[q], c, name)])
    ensures NameFree(w, c, name) ==> Underway(u, c)
    ensures !NameFree(w, c, name) ==> !HoldsNot(u.box[q], c)
  {
    assert Fits(w, q, c);
    ErasedBoxIff(w.box[q], c, w.name[c], name);
    ErasedKeepsValid(w, u, q, c, name);
    if NameFree(w, c, name) {
      forall x, y | x in u.parent && y in u.parent ensures UnderwayAt(u, c, x, y) {
        LeaveParentAt(w, u, c, q, p, name, x, y);
      }
    }
  }

  lemma LeaveParentAt(w: World, u: World, c: Id, q: Id, p: Option<Id>, name: string, x: Id, y: Id)
    requires Agree(w) && c in w.parent && w.parent[c] == Some(q) && x in w.parent && y in w.parent
    requires u == World(w.parent[c := p], w.name[c := name], w.box[q := ErasedBox(w.box[q], c, name)])
    requires NameReaches(w.box[q], w.name[c], name) && HoldsNot(u.box[q], c)
    ensures UnderwayAt(u, c, x, y)
  {
    assert Fits(w, x, y) && Fits(w, q, c);
    if x == q && y != c { ErasedBoxSame(w.box[x], c, w.name[c], name, y); }
  }

  lemma ArriveIff(u: World, c: Id, p: Id)
    requires Underway(u, c) && p in u.parent && u.parent[c] == Some(p)
    requires u.box[p].MapBox? ==> u.name[c] != ""
    ensures Agree(WithBox(u, p, Adopted(u.box[p], c, u.name[c]))) <==>
            (u.box[p].MapBox? ==> !Current(u.box[p].m, u.name[c]).Object?)
  {
    var b := u.box[p];
    assert UnderwayAt(u, c, p, c);
    if b.MapBox? && Current(b.m, u.name[c]).Object? {
      ArriveOnNode(u, c, p, Current(b.m, u.name[c]).addr);
    } else {
      AdoptedIsPlaced(b, c, u.name[c]);
      ArrivedAgrees(u, c, p, Adopted(b, c, u.name[c]), if b.MapBox? then Current(b.m, u.name[c]) else Empty);
    }
  }

  // A node that `PrivateSet` overwrites keeps its parent pointer although nobody holds it.
  lemma ArriveOnNode(u: World, c: Id, p: Id, d: Id)
    requires Underway(u, c) && p in u.parent && u.parent[c] == Some(p) && u.box[p].MapBox?
    requires u.name[c] != "" && Current(u.box[p].m, u.name[c]) == Object(d)
    ensures !Agree(WithBox(u, p, Adopted(u.box[p], c, u.name[c])))
  {
    var b := u.box[p];
    var o := Adopted(b, c, u.name[c]);
    assert RefersTo(b, d);
    assert UnderwayAt(u, c, p, d) && UnderwayAt(u, c, p, c);
    PutReplaces(b, Name(u.name[c]), Object(c), d, u.name[d]);
    assert !Fits(WithBox(u, p, o), p, d);
  }

  lemma AdoptedIsPlaced(b: Box, c: Id, name: string)
    requires Owning(b) && HoldsNot(b, c)
    requires b.MapBox? ==> name != "" && !Current(b.m, name).Object?
    ensures Placed(b, Adopted(b, c, name), c, if b.MapBox? then Current(b.m, name) else Empty)
    ensures HoldsOnce(Adopted(b, c, name), c, name)
  {
    if b.MapBox? {
      PutIsPlaced(b, Name(name), c);
      PutPlaces(b, Name(name), c);
    } else {
      HasDuplicateIff(b, c);
      EmplaceIsPlaced(b, End, c);
      EmplacePlaces(b, End, c);
    }
  }

  lemma ArrivedFits(u: World, c: Id, p: Id, o: Box, gone: XValue, x: Id, y: Id)
    requires Underway(u, c) && p in u.parent && u.parent[c] == Some(p) && x in u.parent && y in u.parent
    requires Placed(u.box[p], o, c, gone) && !gone.Object? && HoldsOnce(o, c, u.name[c])
    ensures Fits(WithBox(u, p, o), x, y)
  {
    assert UnderwayAt(u, c, x, y);
    hide Underway, Owning;
  }

  lemma ArrivedAgrees(u: World, c: Id, p: Id, o: Box, gone: XValue)
    requires Underway(u, c) && p in u.parent && u.parent[c] == Some(p)
    requires Placed(u.box[p], o, c, gone) && !gone.Object? && HoldsOnce(o, c, u.name[c])
    ensures Agree(WithBox(u, p, o))
  {
    var v := WithBox(u, p, o);
    PlacedIsValid(u, v, p, o, c, gone);
    forall x, y | x in v.parent && y in v.parent ensures Fits(v, x, y) {
      ArrivedFits(u, c, p, o, gone, x, y);
    }
  }

  /** `ParentSet` keeps the agreement exactly when the former parent, if a map, has no other entry
      under the new name, and the new parent, if a map, has no node under it. A failed `ParentSet`
      changes nothing. */
  lemma ParentSetAgreesIff(w: World, c: Id, p: Option<Id>, rename: Option<string>)
    requires Agree(w) && c in w.parent && (p.Some? ==> p.value in w.parent)
    ensures !ParentSet(w, c, p, rename).ok ==> ParentSet(w, c, p, rename).w == w
    ensures ParentSet(w, c, p, rename).ok ==>
              (Agree(ParentSet(w, c, p, rename).w) <==> ParentSetSafe(w, c, p, rename))
  {
    if ParentSet(w, c, p, rename).ok {
      var name := rename.GetOr(w.name[c]);
      var q := w.parent[c];
      var u := World(w.parent[c := p], w.name[c := name],
                     if q.None? then w.box else w.box[q.value := ErasedBox(w.box[q.value], c, name)]);
      if q.None? { LeaveRoot(w, u, c, p, name); } else { LeaveParent(w, u, c, q.value, p, name); }
      ParentSetIff(w, u, c, p, name);
    }
  }

  lemma ParentSetIff(w: World, u: World, c: Id, p: Option<Id>, name: string)
    requires Agree(w) && Shaped(u) && u.parent == w.parent[c := p] && u.name == w.name[c := name]
    requires c in w.parent && w.parent[c] != p && (p.Some? ==> p.value in w.parent)
    requires p.Some? ==> u.box[p.value] == w.box[p.value] && (w.box[p.value].MapBox? ==> name != "")
    requires NameFree(w, c, name) ==> Underway(u, c)
    requires !NameFree(w, c, name) ==> w.parent[c].Some? && !HoldsNot(u.box[w.parent[c].value], c)
    ensures Agree(if p.Some? then WithBox(u, p.value, Adopted(u.box[p.value], c, name)) else u) <==>
            NameFree(w, c, name) && (p.Some? && w.box[p.value].MapBox? ==> !Current(w.box[p.value].m, name).Object?)
  {
    var v := if p.Some? then WithBox(u, p.value, Adopted(u.box[p.value], c, name)) else u;
    if !NameFree(w, c, name) {
      assert !Fits(v, w.parent[c].value, c);
    } else if p.Some? {
      ArriveIff(u, c, p.value);
    } else {
      forall x, y | x in u.parent && y in u.parent ensures Fits(u, x, y) { assert UnderwayAt(u, c, x, y); }
    }
  }
}
