/** `Append`, `Increment` and `NameSet`: exactly when they keep the agreement. */
module Amends {
  import opened Wrappers
  import opened XValues
  import opened Boxes
  import opened Holding
  import opened Worlds
  import opened Agreement
  import opened TreeOps
  import opened Forest
  import opened TreeAgreement
  import opened Adoptions
  import opened KeyChanges
  import opened Exchanges

  // ----- Append and Increment -----

  // The entry that is amended is no node, and no node is started from.
  ghost predicate AmendSafe(w: World, p: Id, key: Key, start: XValue)
    requires p in w.box
  {
    var x := Found(w.box[p], Resolve(w.box[p], key));
    if x.Some? then !x.value.Object? else start.Object? ==> !Emplace(w.box[p], key, start).ok
  }

  // A plain value takes the place of whatever is found.
  lemma FoundGivesWay(b: Box, k: Key, v: XValue)
    requires Found(b, k).Some? && Owning(b) && IsPlain(v)
    ensures Found(b, k).value.Object? ==> Put(b, k, v).ok && Put(b, k, v).prev == Found(b, k).value
    ensures !Found(b, k).value.Object? ==> !Put(b, k, v).prev.Object?
  {
  }

  lemma InPlaceIff(w: World, p: Id, k: Key, v: XValue)
    requires Agree(w) && p in w.parent && Found(w.box[p], k).Some? && IsPlain(v)
    ensures Agree(WithBox(w, p, Put(w.box[p], k, v).box)) <==> !Found(w.box[p], k).value.Object?
  {
    hide Put, Found, Fits, RefersTo;
    FoundGivesWay(w.box[p], k, v);
    if Found(w.box[p], k).value.Object? {
      LeftBehind(w, p, k, v);
    } else {
      PlainSetAgrees(w, p, k, v);
    }
  }

  // A node that is emplaced and not adopted is held by a node that is not its parent, or held twice.
  lemma NotAdoptedBreaks(w: World, p: Id, key: Key, c: Id)
    requires Agree(w) && p in w.parent && c in w.parent && Emplace(w.box[p], key, Object(c)).ok
    ensures !Agree(WithBox(w, p, Emplace(w.box[p], key, Object(c)).box))
  {
    var b := w.box[p];
    var o := Emplace(b, key, Object(c)).box;
    assert Fits(w, p, c);
    if w.parent[c] != Some(p) {
      EmplacePlaces(b, key, c);
      if HoldsNot(o, c) { OnceNeedsOne(o, c, KeyName(key).GetOr("")); }
    } else if b.MapBox? {
      EmplaceWithin(w, p, key, c);
    } else {
      EmplacedTwice(b, key, c, w.name[c]);
    }
    assert !Fits(WithBox(w, p, o), p, c);
  }

  lemma EmplacedTwice(b: Box, key: Key, c: Id, name: string)
    requires b.ArrayBox? && HoldsOnce(b, c, name)
    ensures !HoldsOnce(Emplace(b, key, Object(c)).box, c, name)
  {
    var i: nat :| OnlyAt(b.a, c, i);
    var p := Position(b.a, key).GetOr(|b.a|);
    var o := InsertAt(b.a, p, Object(c));
    var j := if i < p then i else i + 1;
    assert o[p] == Object(c) && o[j] == Object(c) && p != j;
  }

  /** `Append` and `Increment` keep the agreement exactly when they do not replace a node, nor start from one: a
      node that they replace keeps a parent that holds it no more. */
  lemma AmendAgreesIff(w: World, p: Id, key: Key, change: XValue -> XValue, start: XValue)
    requires Agree(w) && p in w.parent && GivesPlain(change) && Storable(w, start)
    ensures Agree(Amend(w, p, key, change, start)) <==> AmendSafe(w, p, key, start)
  {
    hide Put, Emplace, Found, Resolve, Fits, Owning, RefersTo, Closed;
    var k := Resolve(w.box[p], key);
    var x := Found(w.box[p], k);
    if x.Some? {
      assert IsPlain(change(x.value));
      InPlaceIff(w, p, k, change(x.value));
    } else if !start.Object? {
      PlainInsertAgrees(w, p, key, start);
    } else if Emplace(w.box[p], key, start).ok {
      NotAdoptedBreaks(w, p, key, start.addr);
    } else {
      RefusedSame(w.box[p], key, start);
      assert WithBox(w, p, w.box[p]) == w;
    }
  }

  lemma RefusedSame(b: Box, key: Key, v: XValue)
    requires !Emplace(b, key, v).ok
    ensures Emplace(b, key, v).box == b
  {
  }

  /** Under a key of a map that reads empty, the value to start from is read afterwards exactly when the key was
      never used: an erased entry stays in the map, and nothing goes in over it. */
  lemma StartIsReadIff(m: map<string, XValue>, s: string, change: XValue -> XValue, start: XValue)
    requires s != "" && Found(MapBox(m), Name(s)).None? && !start.IsEmpty()
    ensures Found(AmendedBox(MapBox(m), Name(s), change, start), Name(s)) ==
            if s in m then None else Some(start)
  {
  }

  // ----- NameSet -----

  // The map that is to rename its child would lose it under the empty name.
  ghost predicate NameSetSafe(w: World, c: Id, name: string, updateParent: bool)
    requires Shaped(w) && c in w.parent
  {
    updateParent && w.parent[c].Some? && w.box[w.parent[c].value].MapBox? && name != w.name[c] ==> name != ""
  }

  // Outside of maps a name means nothing.
  lemma FreeNameAgrees(w: World, c: Id, name: string)
    requires Agree(w) && c in w.parent && (w.parent[c].Some? ==> w.box[w.parent[c].value].ArrayBox?)
    ensures Agree(w.(name := w.name[c := name]))
  {
    var v := w.(name := w.name[c := name]);
    assert Valid(v);
    forall x, y | x in v.parent && y in v.parent ensures Fits(v, x, y) { assert Fits(w, x, y); }
  }

  lemma ChildIsNamed(w: World, q: Id, c: Id)
    requires Agree(w) && c in w.parent && w.parent[c] == Some(q) && w.box[q].MapBox?
    ensures w.name[c] != "" && Erase(w.box[q], Resolve(w.box[q], Name(w.name[c]))).erased == Some(Object(c))
  {
    assert Fits(w, q, c);
  }

  /** `NameSet` that succeeds keeps the agreement exactly when it does not take the name of a child of a map. */
  lemma NameSetAgreesIff(w: World, c: Id, name: string, updateParent: bool)
    requires Agree(w) && c in w.parent
    ensures !NameSet(w, c, name, updateParent).ok ==> NameSet(w, c, name, updateParent).w == w
    ensures NameSet(w, c, name, updateParent).ok ==>
              (Agree(NameSet(w, c, name, updateParent).w) <==> NameSetSafe(w, c, name, updateParent))
  {
    hide KeyChange, Fits, Erase, Resolve, Owning, RefersTo;
    if w.parent[c].Some? && w.box[w.parent[c].value].MapBox? {
      var q := w.parent[c].value;
      ChildIsNamed(w, q, c);
      KeyChangeAgreesIff(w, q, Name(w.name[c]), Name(name));
    } else {
      FreeNameAgrees(w, c, name);
    }
  }
}
