/** `CompareExchange`: exactly when it keeps the agreement. */
module Exchanges {
  import opened Wrappers
  import opened XValues
  import opened Boxes
  import opened Holding
  import opened Worlds
  import opened Agreement
  import opened TreeOps
  import opened Forest
  import opened TreeAgreement

  // A value that is stored must not replace a node, since that one would keep its parent; a node that
  // is stored must come from elsewhere and reach its former parent under its new name. A node that
  // is not stored must not get p as its parent: because it is above p, or has it already, or lacks
  // the name that a map asks for.
  ghost predicate CompareExchangeSafe(w: World, p: Id, key: Key, v: XValue)
    requires Shaped(w) && p in w.parent && Storable(w, v)
  {
    var k := Resolve(w.box[p], key);
    var r := Put(w.box[p], k, v);
    if r.ok then
      && !r.prev.Object?
      && (v.Object? ==>
           w.parent[v.addr] != Some(p) && !Below(w.parent, p, v.addr)
           && (w.box[p].MapBox? ==> k.Name? && NameFree(w, v.addr, k.s)))
    else
      v.Object? ==>
        Below(w.parent, p, v.addr) || w.parent[v.addr] == Some(p)
        || (w.box[p].MapBox? && KeyName(k).GetOr(w.name[v.addr]) == "")
  }

  // The box of p after the exchange holds the node d no more, but d still has the parent p.
  lemma LeftBehind(w: World, p: Id, k: Key, v: XValue)
    requires Agree(w) && p in w.parent && Storable(w, v)
    requires Put(w.box[p], k, v).ok && Put(w.box[p], k, v).prev.Object?
    ensures var d := Put(w.box[p], k, v).prev.addr;
            && d in w.parent && v != Object(d)
            && !Fits(WithBox(w, p, Put(w.box[p], k, v).box), p, d)
  {
    PutGone(w, p, k, v);
  }

  lemma SetAsChildOthers(u: World, p: Id, c: Id, rename: Option<string>, d: Id)
    requires Shaped(u) && p in u.parent && c in u.parent && d in u.parent && d != c
    requires u.parent[d] == Some(p) && HoldsNot(u.box[p], d) && u.parent[c] != Some(p)
    ensures !Fits(SetAsChild(u, p, c, rename), p, d)
  {
    var v := SetAsChild(u, p, c, rename);
    assert v.parent[d] == Some(p) && v.box[p] == u.box[p];
  }

  // c is held at p, and SetAsChild_ leaves it with another parent.
  lemma NotAdopted(w: World, p: Id, k: Key, c: Id)
    requires Agree(w) && p in w.parent && c in w.parent && Put(w.box[p], k, Object(c)).ok
    requires Below(w.parent, p, c) && w.parent[c] != Some(p)
    ensures var u := WithBox(w, p, Put(w.box[p], k, Object(c)).box);
            !Agree(SetAsChild(u, p, c, KeyName(k)))
  {
    var u := WithBox(w, p, Put(w.box[p], k, Object(c)).box);
    assert SetAsChild(u, p, c, KeyName(k)) == u;
    assert Fits(w, p, c);
    PutPlaces(w.box[p], k, c);
    assert !Fits(u, p, c);
  }

  // p's own child put under a further key stands there twice.
  lemma HeldTwice(w: World, p: Id, k: Key, c: Id)
    requires Agree(w) && p in w.parent && c in w.parent && w.parent[c] == Some(p)
    requires Put(w.box[p], k, Object(c)).ok && !Put(w.box[p], k, Object(c)).prev.Object?
    ensures !HoldsOnce(Put(w.box[p], k, Object(c)).box, c, w.name[c])
  {
    assert Fits(w, p, c);
    var b, o := w.box[p], Put(w.box[p], k, Object(c)).box;
    if b.ArrayBox? {
      var i: nat :| OnlyAt(b.a, c, i);
      var g := Grown(b.a, k);
      var j := Position(g, k).value;
      assert g[i] == b.a[i] && o.a[j] == Object(c) && i != j && o.a[i] == Object(c);
    } else {
      assert o.m[k.s] == Object(c);
    }
  }

  lemma StoredIff(w: World, p: Id, key: Key, c: Id)
    requires Agree(w) && p in w.parent && c in w.parent
    requires var r := Put(w.box[p], Resolve(w.box[p], key), Object(c)); r.ok && !r.prev.Object?
    ensures var k := Resolve(w.box[p], key);
            Agree(SetAsChild(WithBox(w, p, Put(w.box[p], k, Object(c)).box), p, c, KeyName(k)))
            <==> CompareExchangeSafe(w, p, key, Object(c))
  {
    var k := Resolve(w.box[p], key);
    var r := Put(w.box[p], k, Object(c));
    PutIsPlaced(w.box[p], k, c);
    NodePlaced(w, p, r.box, c, r.prev);
    var u := WithBox(w, p, r.box);
    assert u == Orphan(u, r.prev) && Written(w, u, p, r.box, c);
    if w.parent[c] == Some(p) {
      HeldTwice(w, p, k, c);
      WrittenAgreesIff(w, u, p, r.box, c);
    } else if Below(w.parent, p, c) {
      NotAdopted(w, p, k, c);
    } else {
      assert Fits(w, p, c);
      PutPlaces(w.box[p], k, c);
      PlacedAgreesIff(w, u, p, r.box, c, if w.box[p].MapBox? then KeyName(k) else None);
      ArrayHasNoName(w, u, p, k, c);
    }
  }

  // In an array a name that came with the key would become the node's name; nothing else depends on it.
  lemma ArrayHasNoName(w: World, u: World, p: Id, k: Key, c: Id)
    requires Agree(w) && p in w.parent && c in w.parent && Put(w.box[p], k, Object(c)).ok
    ensures w.box[p].ArrayBox? ==> KeyName(k) == None && NameFree(w, c, w.name[c])
  {
  }

  lemma NotStoredIff(w: World, p: Id, key: Key, c: Id)
    requires Agree(w) && p in w.parent && c in w.parent
    requires !Put(w.box[p], Resolve(w.box[p], key), Object(c)).ok
    ensures var k := Resolve(w.box[p], key);
            Agree(SetAsChild(WithBox(w, p, Put(w.box[p], k, Object(c)).box), p, c, KeyName(k)))
            <==> CompareExchangeSafe(w, p, key, Object(c))
  {
    var k := Resolve(w.box[p], key);
    var b := w.box[p];
    var r := Put(b, k, Object(c));
    assert r.box == b by { NotStoredSame(b, k, c); }
    assert WithBox(w, p, r.box) == w;
    var v := SetAsChild(w, p, c, KeyName(k));
    if CompareExchangeSafe(w, p, key, Object(c)) {
      assert v == w;
    } else {
      assert Fits(w, p, c);
      assert v.parent[c] == Some(p) && v.box[p] == b;
      assert !Fits(v, p, c) by { OnceNeedsOne(b, c, v.name[c]); }
    }
  }

  lemma NotStoredSame(b: Box, k: Key, c: Id)
    requires !Put(b, k, Object(c)).ok
    ensures Put(b, k, Object(c)).box == b
  {
  }

  lemma PlainIff(w: World, p: Id, key: Key, v: XValue)
    requires Agree(w) && p in w.parent && Storable(w, v) && !v.Object?
    ensures Agree(WithBox(w, p, Put(w.box[p], Resolve(w.box[p], key), v).box)) <==> CompareExchangeSafe(w, p, key, v)
  {
    var k := Resolve(w.box[p], key);
    var r := Put(w.box[p], k, v);
    if r.ok && r.prev.Object? {
      LeftBehind(w, p, k, v);
    } else {
      PlainSetAgrees(w, p, k, v);
    }
  }

  lemma OverNodeIsUnsafe(w: World, p: Id, key: Key, v: XValue)
    requires Shaped(w) && p in w.box && Storable(w, v)
    requires var r := Put(w.box[p], Resolve(w.box[p], key), v); r.ok && r.prev.Object?
    ensures !CompareExchangeSafe(w, p, key, v)
  {
    hide Put;
  }

  /** `CompareExchange` keeps the agreement exactly when it fails or is safe. */
  lemma CompareExchangeAgreesIff(w: World, p: Id, key: Key, expected: XValue, v: XValue)
    requires Agree(w) && p in w.parent && Storable(w, v)
    ensures var r := CompareExchange(w, p, key, expected, v);
            if r.ok then (Agree(r.w) <==> CompareExchangeSafe(w, p, key, v)) else r.w == w
  {
    hide CompareExchangeSafe, SetAsChild, Put, Fits, Below, Owning, RefersTo, Closed;
    var k := Resolve(w.box[p], key);
    var r := Put(w.box[p], k, v);
    if r.ok && r.prev.Object? { OverNodeIsUnsafe(w, p, key, v); }
    if !v.Object? {
      PlainIff(w, p, key, v);
    } else if !r.ok {
      NotStoredIff(w, p, key, v.addr);
    } else if r.prev.Object? {
      LeftBehind(w, p, k, v);
      PutGone(w, p, k, v);
      ReplacedBreaks(w, p, k, v.addr);
    } else {
      StoredIff(w, p, key, v.addr);
    }
  }

  lemma ReplacedBreaks(w: World, p: Id, k: Key, c: Id)
    requires Agree(w) && p in w.parent && c in w.parent
    requires Put(w.box[p], k, Object(c)).ok && Put(w.box[p], k, Object(c)).prev.Object?
    ensures !Agree(SetAsChild(WithBox(w, p, Put(w.box[p], k, Object(c)).box), p, c, KeyName(k)))
  {
    var u := WithBox(w, p, Put(w.box[p], k, Object(c)).box);
    var d := Put(w.box[p], k, Object(c)).prev.addr;
    PutGone(w, p, k, Object(c));
    if w.parent[c] == Some(p) {
      assert SetAsChild(u, p, c, KeyName(k)) == u;
      assert !Fits(u, p, d);
    } else {
      SetAsChildOthers(u, p, c, KeyName(k), d);
    }
  }
}
