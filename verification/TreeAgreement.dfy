/** When the public operations keep the agreement: for each one, exactly the calls that do. */
module TreeAgreement {
  import opened Wrappers
  import opened XValues
  import opened Boxes
  import opened Holding
  import opened Worlds
  import opened Agreement
  import opened TreeOps
  import opened Forest

  lemma OrphanEffect(w: World, v: XValue)
    requires Shaped(w) && (v.Object? ==> v.addr in w.parent)
    ensures Orphan(w, v) == if v.Object? then w.(parent := w.parent[v.addr := None]) else w
  {
    if v.Object? {
      assert w.name[v.addr := w.name[v.addr]] == w.name;
      if w.parent[v.addr] == None { assert w.parent[v.addr := None] == w.parent; }
    }
  }

  // Replacing p's container by b, where `gone` went out and nothing else changed but for c.
  lemma ReplaceFits(w: World, p: Id, b: Box, gone: XValue, c: Option<Id>, x: Id, y: Id)
    requires Agree(w) && p in w.parent && x in w.parent && y in w.parent && c != Some(y)
    requires gone.Object? ==> gone.addr in w.parent && HoldsNot(b, gone.addr) && w.parent[gone.addr] == Some(p)
    requires gone != Object(y) ==> Same(w.box[p], b, y)
    ensures Fits(Orphan(WithBox(w, p, b), gone), x, y)
  {
    OrphanEffect(WithBox(w, p, b), gone);
    assert Fits(w, x, y);
  }

  lemma PutGone(w: World, p: Id, k: Key, v: XValue)
    requires Agree(w) && p in w.parent && Storable(w, v)
    requires Put(w.box[p], k, v).ok && Put(w.box[p], k, v).prev.Object?
    ensures var d := Put(w.box[p], k, v).prev.addr;
            d in w.parent && w.parent[d] == Some(p) && v != Object(d) && HoldsNot(Put(w.box[p], k, v).box, d)
  {
    var d := Put(w.box[p], k, v).prev.addr;
    assert RefersTo(w.box[p], d);
    assert Fits(w, p, d);
    PutReplaces(w.box[p], k, v, d, w.name[d]);
  }

  ghost predicate SetSafe(w: World, p: Id, key: Key, v: XValue)
    requires Shaped(w) && p in w.parent && Storable(w, v)
  {
    v.Object? ==>
      var k := Resolve(w.box[p], key);
      if w.box[p].MapBox? then w.parent[v.addr] != Some(p) && k.Name? && NameFree(w, v.addr, k.s)
      else k == Last ==> w.parent[v.addr] == Some(p)
  }

  lemma PlainSetAgrees(w: World, p: Id, k: Key, v: XValue)
    requires Agree(w) && p in w.parent && Storable(w, v)
    requires !v.Object? || !Put(w.box[p], k, v).ok
    ensures var r := Put(w.box[p], k, v);
            && (r.ok && r.prev.Object? ==> r.prev.addr in w.parent)
            && Agree(if r.ok then Orphan(WithBox(w, p, r.box), r.prev) else WithBox(w, p, r.box))
  {
    hide Put, Orphan, Fits, Owning;
    var r := Put(w.box[p], k, v);
    var gone := if r.ok then r.prev else Empty;
    PlacedValid(w, p, k, v);
    if gone.Object? { PutGone(w, p, k, v); }
    OrphanEffect(WithBox(w, p, r.box), gone);
    var u := Orphan(WithBox(w, p, r.box), gone);
    forall x, y | x in u.parent && y in u.parent ensures Fits(u, x, y) {
      if gone != Object(y) { PutSame(w.box[p], k, v, y); }
      ReplaceFits(w, p, r.box, gone, None, x, y);
    }
  }

  // The state right before `SetAsChild_`: p's container is written, a displaced node is detached, and
  // everything but c agrees.
  ghost predicate Written(w: World, u: World, p: Id, b: Box, c: Id) {
    && Valid(u)
    && p in w.parent && c in w.parent
    && u.parent.Keys == w.parent.Keys && u.parent[c] == w.parent[c]
    && u.name == w.name && u.box == w.box[p := b]
    && forall x, y {:trigger Fits(u, x, y)} | x in u.parent && y in u.parent && y != c :: Fits(u, x, y)
  }

  lemma NodePlaced(w: World, p: Id, b: Box, c: Id, gone: XValue)
    requires Agree(w) && p in w.parent && c in w.parent && Placed(w.box[p], b, c, gone)
    ensures gone.Object? ==> gone.addr in w.parent
    ensures Written(w, Orphan(WithBox(w, p, b), gone), p, b, c)
    ensures !Below(w.parent, p, c) ==> !Below(Orphan(WithBox(w, p, b), gone).parent, p, c)
  {
    hide Below, Orphan, Fits, Owning;
    GoneIsChild(w, p, b, c, gone);
    if gone.Object? && !Below(w.parent, p, c) { NotBelowAfterDetach(w.parent, gone.addr, p, c); }
    OrphanEffect(WithBox(w, p, b), gone);
    var u := Orphan(WithBox(w, p, b), gone);
    PlacedIsValid(w, u, p, b, c, gone);
    forall x, y | x in u.parent && y in u.parent && y != c ensures Fits(u, x, y) {
      PlacedFits(w, p, b, c, gone, x, y);
    }
  }

  lemma PlacedIsValid(w: World, u: World, p: Id, b: Box, c: Id, gone: XValue)
    requires Valid(w) && p in w.parent && c in w.parent && Placed(w.box[p], b, c, gone)
    requires Shaped(u) && u.parent.Keys == w.parent.Keys && u.box == w.box[p := b]
    ensures Valid(u)
  {
    WithBoxValid(w, p, b);
  }

  lemma PlacedFits(w: World, p: Id, b: Box, c: Id, gone: XValue, x: Id, y: Id)
    requires Agree(w) && p in w.parent && c in w.parent && Placed(w.box[p], b, c, gone)
    requires x in w.parent && y in w.parent && y != c
    requires gone.Object? ==> gone.addr in w.parent && w.parent[gone.addr] == Some(p) && HoldsNot(b, gone.addr)
    ensures Fits(Orphan(WithBox(w, p, b), gone), x, y)
  {
    ReplaceFits(w, p, b, gone, Some(c), x, y);
  }

  lemma GoneIsChild(w: World, p: Id, b: Box, c: Id, gone: XValue)
    requires Agree(w) && p in w.parent && Placed(w.box[p], b, c, gone)
    ensures gone.Object? ==> gone.addr in w.parent && w.parent[gone.addr] == Some(p) && HoldsNot(b, gone.addr)
  {
    if gone.Object? {
      assert RefersTo(w.box[p], gone.addr);
      assert Fits(w, p, gone.addr);
    }
  }

  /** `Set` of a plain value always keeps the agreement. `Set` of a node keeps it exactly when
      - into a map: the map does not hold the node already, and the map it leaves has no other entry
        under its new key;
      - into an array: the position is not given as kIdxLast, unless the array already holds it. */
  lemma SetAgreesIff(w: World, p: Id, key: Key, v: XValue)
    requires Agree(w) && p in w.parent && Storable(w, v)
    ensures !Set(w, p, key, v).ok ==> Agree(Set(w, p, key, v).w)
    ensures Set(w, p, key, v).ok ==> (Agree(Set(w, p, key, v).w) <==> SetSafe(w, p, key, v))
  {
    var k := Resolve(w.box[p], key);
    var r := Put(w.box[p], k, v);
    if !ValidChild(w, p, v) {
    } else if !v.Object? || !r.ok {
      PlainSetAgrees(w, p, k, v);
    } else if w.parent[v.addr] == Some(p) {
      SetWithinAgreesIff(w, p, key, v.addr);
    } else {
      SetMovesAgreesIff(w, p, key, v.addr);
    }
  }

  // The node is already a child of p, so that `SetAsChild_` does nothing.
  lemma WrittenAgreesIff(w: World, u: World, p: Id, b: Box, c: Id)
    requires Agree(w) && Written(w, u, p, b, c) && w.parent[c] == Some(p)
    ensures Agree(u) <==> HoldsOnce(b, c, w.name[c])
  {
    assert Fits(u, p, c) <==> HoldsOnce(b, c, w.name[c]);
    forall x | x in u.parent && x != p ensures Fits(u, x, c) { assert Fits(w, x, c); }
  }

  lemma SetWithinAgreesIff(w: World, p: Id, key: Key, c: Id)
    requires Agree(w) && p in w.parent && c in w.parent && w.parent[c] == Some(p)
    requires Set(w, p, key, Object(c)).ok
    ensures Agree(Set(w, p, key, Object(c)).w) <==> w.box[p].ArrayBox?
  {
    var k := Resolve(w.box[p], key);
    var r := Put(w.box[p], k, Object(c));
    var b := RemoveDuplicate(r.box, c, k);
    PutIsPlaced(w.box[p], k, c);
    PlacedWithoutDuplicate(w.box[p], r.box, k, c, r.prev);
    NodePlaced(w, p, b, c, r.prev);
    WrittenAgreesIff(w, Orphan(WithBox(w, p, b), r.prev), p, b, c);
    PutWithin(w, p, k, c);
  }

  // Set again by its own parent, an array keeps the node once, a map holds it under both keys.
  lemma PutWithin(w: World, p: Id, k: Key, c: Id)
    requires Agree(w) && p in w.parent && c in w.parent && w.parent[c] == Some(p)
    requires Put(w.box[p], k, Object(c)).ok
    ensures HoldsOnce(RemoveDuplicate(Put(w.box[p], k, Object(c)).box, c, k), c, w.name[c]) <==> w.box[p].ArrayBox?
  {
    assert Fits(w, p, c);
    if w.box[p].ArrayBox? {
      PutMovesWithin(w.box[p], k, c, w.name[c]);
    } else {
      assert Put(w.box[p], k, Object(c)).box.m[k.s] == Object(c);
    }
  }

  lemma WrittenIsPending(w: World, u: World, p: Id, b: Box, c: Id, name: string)
    requires Agree(w) && Written(w, u, p, b, c)
    requires w.parent[c] != Some(p) && HoldsOnce(b, c, name)
    ensures Pending(u, p, map[c := name])
  {
    forall x, y | x in u.parent && y in u.parent ensures PendingAt(u, p, map[c := name], x, y) {
      assert Fits(w, x, c);
      if y != c { assert Fits(u, x, y); }
    }
  }

  // p's container holds c, which still belongs to another parent: `SetAsChild_` follows.
  lemma PlacedAgreesIff(w: World, u: World, p: Id, b: Box, c: Id, rename: Option<string>)
    requires Agree(w) && Written(w, u, p, b, c)
    requires w.parent[c] != Some(p) && !Below(u.parent, p, c)
    requires HoldsOnce(b, c, rename.GetOr("")) && (b.MapBox? <==> rename.Some?) && rename != Some("")
    ensures Agree(SetAsChild(u, p, c, rename)) <==> NameFree(w, c, rename.GetOr(w.name[c]))
  {
    var todo := map[c := rename.GetOr("")];
    WrittenIsPending(w, u, p, b, c, rename.GetOr(""));
    SetAsChildSettles(u, p, todo, c, rename);
    assert todo - {c} == map[];
    PendingNothing(SetAsChild(u, p, c, rename), p);
  }

  // p's container lost c again before `SetAsChild_` made p its parent.
  lemma DroppedDisagrees(w: World, u: World, p: Id, b: Box, c: Id)
    requires Agree(w) && Written(w, u, p, b, c)
    requires w.parent[c] != Some(p) && !Below(u.parent, p, c)
    requires HoldsNot(b, c) && b.ArrayBox?
    ensures !Agree(SetAsChild(u, p, c, None))
  {
    SetAsChildEffect(u, p, c, None);
    assert !Fits(SetAsChild(u, p, c, None), p, c);
  }

  // The node comes from elsewhere.
  lemma SetMovesAgreesIff(w: World, p: Id, key: Key, c: Id)
    requires Agree(w) && p in w.parent && c in w.parent && w.parent[c] != Some(p)
    requires Set(w, p, key, Object(c)).ok
    ensures Agree(Set(w, p, key, Object(c)).w) <==> SetSafe(w, p, key, Object(c))
  {
    var k := Resolve(w.box[p], key);
    var r := Put(w.box[p], k, Object(c));
    var b := RemoveDuplicate(r.box, c, k);
    PutIsPlaced(w.box[p], k, c);
    PlacedWithoutDuplicate(w.box[p], r.box, k, c, r.prev);
    NodePlaced(w, p, b, c, r.prev);
    var u := Orphan(WithBox(w, p, b), r.prev);
    assert Fits(w, p, c);
    PutPlaces(w.box[p], k, c);
    if w.box[p].MapBox? {
      PlacedAgreesIff(w, u, p, b, c, KeyName(k));
    } else {
      PutThenRemoveDuplicate(w.box[p], k, c);
      if k == Last {
        DroppedDisagrees(w, u, p, b, c);
      } else {
        PlacedAgreesIff(w, u, p, b, c, None);
        assert NameFree(w, c, w.name[c]);
      }
    }
  }
}
