/** `KeyChange`: the value leaves one key and goes in under another. */
module KeyChanges {
  import opened Wrappers
  import opened XValues
  import opened Boxes
  import opened Holding
  import opened Worlds
  import opened Agreement
  import opened TreeOps
  import opened Forest

  // The container takes a value under this key. `KeyChange` does not ask; it assumes so.
  predicate Accepts(b: Box, to: Key) {
    match b
    case MapBox(m) => to.Name? && to.s != ""
    case ArrayBox(a) => to.At? && to.i < |a| - 1 + MAX_SIZE_INCREASE
  }

  ghost predicate KeyChangeSafe(w: World, p: Id, from: Key, to: Key)
    requires p in w.box
  {
    var v := Erase(w.box[p], Resolve(w.box[p], from)).erased;
    v.Some? && v.value.Object? ==> Accepts(w.box[p], to)
  }

  // The destination is free: nothing stored there, not even a tombstone.
  lemma MovedOk(b: Box, k: Key, to: Key, c: Id)
    requires Owning(b) && Get(b, to).None? && Erase(b, k).erased == Some(Object(c))
    requires to.Name? ==> b.MapBox?
    ensures Put(Erase(b, k).box, to, Object(c)).ok <==> Accepts(b, to)
    ensures Put(Erase(b, k).box, to, Object(c)).ok ==> !Put(Erase(b, k).box, to, Object(c)).prev.Object?
    ensures !Put(Erase(b, k).box, to, Object(c)).ok ==> Put(Erase(b, k).box, to, Object(c)).box == Erase(b, k).box
  {
    if b.ArrayBox? {
      assert |Erase(b, k).box.a| == |b.a| - 1;
    }
  }

  lemma MovedHolds(b: Box, k: Key, to: Key, c: Id, name: string)
    requires Owning(b) && HoldsOnce(b, c, name) && Erase(b, k).erased == Some(Object(c))
    requires Put(Erase(b, k).box, to, Object(c)).ok
    ensures HoldsOnce(Put(Erase(b, k).box, to, Object(c)).box, c, if to.Name? then to.s else name)
  {
    EraseOwning(b, k);
    EraseRemoves(b, k, c, name);
    PutPlaces(Erase(b, k).box, to, c);
  }

  lemma MovedSame(b: Box, k: Key, to: Key, v: XValue, y: Id)
    requires Owning(b) && Erase(b, k).erased == Some(v) && v != Object(y)
    requires Put(Erase(b, k).box, to, v).ok ==> !Put(Erase(b, k).box, to, v).prev.Object?
    ensures Same(b, Put(Erase(b, k).box, to, v).box, y)
  {
    EraseSame(b, k, y);
    PutSame(Erase(b, k).box, to, v, y);
    SameTransitive(b, Erase(b, k).box, Put(Erase(b, k).box, to, v).box, y);
  }

  lemma PlainMoved(b: Box, k: Key, to: Key, v: XValue)
    requires Get(b, to).None? && Erase(b, k).erased == Some(v) && (to.Name? ==> b.MapBox?)
    ensures !Put(Erase(b, k).box, to, v).prev.Object?
  {
    if b.ArrayBox? { assert |Erase(b, k).box.a| == |b.a| - 1; }
  }

  lemma MovedValid(w: World, p: Id, k: Key, to: Key)
    requires Valid(w) && p in w.parent && Erase(w.box[p], k).erased.Some?
    ensures var v := Erase(w.box[p], k).erased.value;
            Valid(WithBox(w, p, Put(Erase(w.box[p], k).box, to, v).box))
  {
    var b := w.box[p];
    var e := Erase(b, k);
    var v := e.erased.value;
    EraseOwning(b, k);
    if v.Object? { ErasedIsKnown(w, p, k); }
    PutOwning(e.box, to, v);
    forall c | RefersTo(Put(e.box, to, v).box, c) ensures c in w.parent {
      PutRefers(e.box, to, v, c);
      if RefersTo(e.box, c) { EraseRefers(b, k, c); }
    }
    WithBoxValid(w, p, Put(e.box, to, v).box);
  }

  /** `KeyChange` keeps the agreement exactly when the container accepts the new key or the moved
      value is not a node. With a key that is not accepted (the empty string, an index into a map,
      kIdxEnd, an index out of reach) the value is lost, and with it a node. */
  lemma KeyChangeAgreesIff(w: World, p: Id, from: Key, to: Key)
    requires Agree(w) && p in w.parent
    ensures !KeyChange(w, p, from, to).ok ==> KeyChange(w, p, from, to).w == w
    ensures KeyChange(w, p, from, to).ok ==>
              (Agree(KeyChange(w, p, from, to).w) <==> KeyChangeSafe(w, p, from, to))
  {
    if KeyChange(w, p, from, to).ok {
      var k := Resolve(w.box[p], from);
      var v := Erase(w.box[p], k).erased.value;
      MovedValid(w, p, k, to);
      if v.Object? {
        ErasedIsKnown(w, p, k);
        NodeMovedIff(w, p, k, to, v.addr);
      } else {
        PlainMoved(w.box[p], k, to, v);
        PlainMovedAgrees(w, p, k, to, v);
      }
    }
  }

  lemma PlainMovedAgrees(w: World, p: Id, k: Key, to: Key, v: XValue)
    requires Agree(w) && p in w.parent && Erase(w.box[p], k).erased == Some(v) && !v.Object?
    requires !Put(Erase(w.box[p], k).box, to, v).prev.Object?
    requires Valid(WithBox(w, p, Put(Erase(w.box[p], k).box, to, v).box))
    ensures Agree(WithBox(w, p, Put(Erase(w.box[p], k).box, to, v).box))
  {
    var u := WithBox(w, p, Put(Erase(w.box[p], k).box, to, v).box);
    forall x, y | x in u.parent && y in u.parent ensures Fits(u, x, y) {
      MovedSame(w.box[p], k, to, v, y);
      assert Fits(w, x, y);
    }
  }

  lemma NodeMovedIff(w: World, p: Id, k: Key, to: Key, c: Id)
    requires Agree(w) && p in w.parent && c in w.parent && Erase(w.box[p], k).erased == Some(Object(c))
    requires Get(w.box[p], to).None? && (to.Name? ==> w.box[p].MapBox?)
    requires Valid(WithBox(w, p, Put(Erase(w.box[p], k).box, to, Object(c)).box))
    ensures var u := WithBox(w, p, Put(Erase(w.box[p], k).box, to, Object(c)).box);
            Agree(if to.Name? then u.(name := u.name[c := to.s]) else u) <==> Accepts(w.box[p], to)
  {
    hide Erase, Put, HoldsOnce, Accepts, Owning, RefersTo, Closed;
    var b := w.box[p];
    var o := Put(Erase(b, k).box, to, Object(c)).box;
    ErasedIsStored(b, k, c);
    assert Fits(w, p, c);
    MovedOk(b, k, to, c);
    EraseRemoves(b, k, c, w.name[c]);
    var u := WithBox(w, p, o);
    var v := if to.Name? then u.(name := u.name[c := to.s]) else u;
    if Accepts(b, to) {
      MovedHolds(b, k, to, c, w.name[c]);
      assert Valid(v);
      forall x, y | x in v.parent && y in v.parent ensures Fits(v, x, y) {
        if y != c { MovedSame(b, k, to, Object(c), y); }
        assert Fits(w, x, y);
      }
    } else {
      OnceNeedsOne(v.box[p], c, v.name[c]);
      assert !Fits(v, p, c);
    }
  }
}
