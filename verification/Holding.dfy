/** What each container operation does to the way a container holds one given node. */
module Holding {
  import opened Wrappers
  import opened XValues
  import opened Boxes
  import opened Worlds
  import Order

  // The other box holds c no differently.
  ghost predicate Same(b: Box, o: Box, c: Id) {
    && (HoldsNot(b, c) ==> HoldsNot(o, c))
    && (forall n :: HoldsOnce(b, c, n) ==> HoldsOnce(o, c, n))
    && b.MapBox? == o.MapBox?
    && (RefersTo(o, c) ==> RefersTo(b, c))
  }

  function KeyName(k: Key): Option<string> {
    if k.Name? then Some(k.s) else None
  }

  lemma EqNode(v: XValue, c: Id)
    requires !v.ConstObject?
    ensures Eq(v, Object(c)) <==> v == Object(c)
  {
  }

  lemma InsertAtIndex(a: seq<XValue>, p: nat, v: XValue, j: nat)
    requires p <= |a| && j <= |a|
    ensures InsertAt(a, p, v)[j] == if j < p then a[j] else if j == p then v else a[j - 1]
    ensures |InsertAt(a, p, v)| == |a| + 1
  {
  }

  lemma InsertAtOnce(a: seq<XValue>, p: nat, v: XValue, c: Id, i: nat)
    requires p <= |a| && v != Object(c) && OnlyAt(a, c, i)
    ensures OnlyAt(InsertAt(a, p, v), c, if i < p then i else i + 1)
  {
    var o, k := InsertAt(a, p, v), if i < p then i else i + 1;
    hide InsertAt;
    InsertAtIndex(a, p, v, k);
    forall j | 0 <= j < |o| && j != k ensures o[j] != Object(c) { InsertAtIndex(a, p, v, j); }
  }

  lemma InsertAtNot(a: seq<XValue>, p: nat, v: XValue, c: Id)
    requires p <= |a| && v != Object(c)
    ensures HoldsNot(ArrayBox(a), c) ==> HoldsNot(ArrayBox(InsertAt(a, p, v)), c)
    ensures RefersTo(ArrayBox(InsertAt(a, p, v)), c) ==> RefersTo(ArrayBox(a), c)
  {
    var o := InsertAt(a, p, v);
    hide InsertAt;
    InsertAtIndex(a, p, v, 0);
    forall j | 0 <= j < |o| ensures o[j] == Object(c) ==> exists i :: 0 <= i < |a| && a[i] == Object(c) {
      InsertAtIndex(a, p, v, j);
      if o[j] == Object(c) { assert a[if j < p then j else j - 1] == Object(c); }
    }
  }

  lemma InsertAtSame(a: seq<XValue>, p: nat, v: XValue, c: Id)
    requires p <= |a| && v != Object(c)
    ensures Same(ArrayBox(a), ArrayBox(InsertAt(a, p, v)), c)
  {
    hide InsertAt, OnlyAt, HoldsNot, RefersTo;
    InsertAtNot(a, p, v, c);
    forall n | HoldsOnce(ArrayBox(a), c, n) ensures HoldsOnce(ArrayBox(InsertAt(a, p, v)), c, n) {
      var i: nat :| OnlyAt(a, c, i);
      InsertAtOnce(a, p, v, c, i);
    }
  }

  lemma RemoveAtSame(a: seq<XValue>, p: nat, c: Id)
    requires p < |a| && a[p] != Object(c)
    ensures Same(ArrayBox(a), ArrayBox(RemoveAt(a, p)), c)
  {
    var o := RemoveAt(a, p);
    assert forall j | 0 <= j < |o| :: o[j] == a[if j < p then j else j + 1];
    forall n | HoldsOnce(ArrayBox(a), c, n) ensures HoldsOnce(ArrayBox(o), c, n) {
      var i: nat :| OnlyAt(a, c, i);
      assert OnlyAt(o, c, if i < p then i else i - 1);
    }
  }

  lemma UpdateSame(a: seq<XValue>, p: nat, v: XValue, c: Id)
    requires p < |a| && a[p] != Object(c) && v != Object(c)
    ensures Same(ArrayBox(a), ArrayBox(a[p := v]), c)
  {
    var o := a[p := v];
    forall n | HoldsOnce(ArrayBox(a), c, n) ensures HoldsOnce(ArrayBox(o), c, n) {
      var i: nat :| OnlyAt(a, c, i);
      assert OnlyAt(o, c, i);
    }
  }

  lemma GrownSame(a: seq<XValue>, k: Key, c: Id)
    ensures Same(ArrayBox(a), ArrayBox(Grown(a, k)), c)
  {
    var o := Grown(a, k);
    forall n | HoldsOnce(ArrayBox(a), c, n) ensures HoldsOnce(ArrayBox(o), c, n) {
      var i: nat :| OnlyAt(a, c, i);
      assert OnlyAt(o, c, i);
    }
  }

  // ----- Put -----

  lemma PutOwning(b: Box, k: Key, v: XValue)
    requires Owning(b) && !v.ConstObject?
    ensures Owning(Put(b, k, v).box) && !Put(b, k, v).prev.ConstObject?
    ensures Put(b, k, v).box.MapBox? == b.MapBox?
  {
  }

  lemma PutSame(b: Box, k: Key, v: XValue, c: Id)
    requires !Put(b, k, v).ok || (v != Object(c) && Put(b, k, v).prev != Object(c))
    ensures Same(b, Put(b, k, v).box, c)
  {
    if b.ArrayBox? {
      GrownSame(b.a, k, c);
      var g := Grown(b.a, k);
      var p := Position(g, k);
      if Put(b, k, v).ok { UpdateSame(g, p.value, v, c); }
    }
  }

  lemma PutReplaces(b: Box, k: Key, v: XValue, c: Id, n: string)
    requires Put(b, k, v).ok && Put(b, k, v).prev == Object(c) && HoldsOnce(b, c, n)
    ensures HoldsNot(Put(b, k, v).box, c)
    ensures v != Object(c)
  {
    if b.ArrayBox? {
      var i: nat :| OnlyAt(b.a, c, i);
      var g := Grown(b.a, k);
      assert OnlyAt(g, c, i);
    }
  }

  lemma PutPlaces(b: Box, k: Key, c: Id)
    requires Put(b, k, Object(c)).ok && HoldsNot(b, c)
    ensures b.MapBox? ==> k.Name?
    ensures HoldsOnce(Put(b, k, Object(c)).box, c, KeyName(k).GetOr(""))
    ensures b.ArrayBox? ==> forall n :: HoldsOnce(Put(b, k, Object(c)).box, c, n)
  {
    if b.ArrayBox? {
      var g := Grown(b.a, k);
      assert OnlyAt(g[Position(g, k).value := Object(c)], c, Position(g, k).value);
    }
  }

  // A node set twice into an array stays once, where it was set, unless the position was given as
  // kIdxLast: then the first of the two copies goes.
  lemma PutMovesWithin(b: Box, k: Key, c: Id, n: string)
    requires b.ArrayBox? && Owning(b) && Put(b, k, Object(c)).ok && HoldsOnce(b, c, n)
    ensures HoldsOnce(RemoveDuplicate(Put(b, k, Object(c)).box, c, k), c, n)
  {
    var i: nat :| OnlyAt(b.a, c, i);
    var g := Grown(b.a, k);
    var p := Position(g, k).value;
    assert g[i] == Object(c) && p != i;
    TwoCopies(g[p := Object(c)], c, k, i, p);
  }

  lemma TwoCopies(a: seq<XValue>, c: Id, k: Key, i: nat, p: nat)
    requires i < |a| && p < |a| && i != p && k != At(i)
    requires forall j | 0 <= j < |a| :: Eq(a[j], Object(c)) <==> j == i || j == p
    requires a[i] == a[p] == Object(c)
    ensures HoldsOnce(RemoveDuplicate(ArrayBox(a), c, k), c, "")
    ensures RemoveDuplicate(ArrayBox(a), c, k).ArrayBox?
  {
    var d := FindNode(a, c, k);
    assert Eq(a[i], Object(c));
    assert d == Some(i) || d == Some(p);
    var left := if d.value == i then p else i;
    var o := RemoveAt(a, d.value);
    assert forall j | 0 <= j < |o| :: o[j] == a[if j < d.value then j else j + 1];
    assert OnlyAt(o, c, if left < d.value then left else left - 1);
  }

  // A node set once into an array stays, unless the position was given as kIdxLast.
  lemma PutThenRemoveDuplicate(b: Box, k: Key, c: Id)
    requires b.ArrayBox? && Owning(b) && Put(b, k, Object(c)).ok && HoldsNot(b, c)
    ensures k != Last ==> RemoveDuplicate(Put(b, k, Object(c)).box, c, k) == Put(b, k, Object(c)).box
    ensures k == Last ==> HoldsNot(RemoveDuplicate(Put(b, k, Object(c)).box, c, k), c)
  {
    var g := Grown(b.a, k);
    var p := Position(g, k).value;
    var a := g[p := Object(c)];
    assert forall j | 0 <= j < |a| :: Eq(a[j], Object(c)) <==> j == p;
    var d := FindNode(a, c, k);
    if k == Last {
      assert Eq(a[p], Object(c)) && k != At(p);
      assert d == Some(p);
      assert forall j | 0 <= j < |a| - 1 :: RemoveAt(a, p)[j] == a[if j < p then j else j + 1];
    }
  }

  lemma RemoveDuplicateSame(b: Box, c: Id, k: Key, x: Id)
    requires Owning(b) && x != c
    ensures Same(b, RemoveDuplicate(b, c, k), x)
    ensures Owning(RemoveDuplicate(b, c, k))
  {
    if b.ArrayBox? && FindNode(b.a, c, k).Some? { RemoveAtSame(b.a, FindNode(b.a, c, k).value, x); }
  }

  // ----- Emplace -----

  lemma EmplaceSame(b: Box, k: Key, v: XValue, c: Id)
    requires v != Object(c)
    ensures Same(b, Emplace(b, k, v).box, c)
  {
    if b.ArrayBox? { InsertAtSame(b.a, Position(b.a, k).GetOr(|b.a|), v, c); }
  }

  lemma EmplaceOwning(b: Box, k: Key, v: XValue)
    requires Owning(b) && !v.ConstObject?
    ensures Owning(Emplace(b, k, v).box)
    ensures Emplace(b, k, v).box.MapBox? == b.MapBox?
  {
  }

  lemma EmplacePlaces(b: Box, k: Key, c: Id)
    requires Emplace(b, k, Object(c)).ok && HoldsNot(b, c)
    ensures b.MapBox? ==> Emplace(b, k, Object(c)).key == k && k.Name? && k.s != ""
    ensures HoldsOnce(Emplace(b, k, Object(c)).box, c, KeyName(k).GetOr(""))
    ensures b.ArrayBox? ==> forall n :: HoldsOnce(Emplace(b, k, Object(c)).box, c, n)
  {
    if b.ArrayBox? {
      var p := Position(b.a, k).GetOr(|b.a|);
      var o := InsertAt(b.a, p, Object(c));
      assert forall j | 0 <= j < |o| && j != p :: o[j] == b.a[if j < p then j else j - 1];
      assert OnlyAt(o, c, p);
    }
  }

  lemma HasDuplicateIff(b: Box, c: Id)
    requires Owning(b) && b.ArrayBox?
    ensures HasDuplicate(b, c) <==> !HoldsNot(b, c)
  {
  }

  // ----- Erase -----

  lemma EraseOwning(b: Box, k: Key)
    requires Owning(b)
    ensures Owning(Erase(b, k).box)
    ensures Erase(b, k).box.MapBox? == b.MapBox?
    ensures Erase(b, k).erased.Some? ==> !Erase(b, k).erased.value.ConstObject?
  {
  }

  lemma EraseSame(b: Box, k: Key, c: Id)
    requires Erase(b, k).erased != Some(Object(c))
    ensures Same(b, Erase(b, k).box, c)
  {
    if b.ArrayBox? {
      if Position(b.a, k).Some? { RemoveAtSame(b.a, Position(b.a, k).value, c); }
    } else {
      PutSame(b, k, Empty, c);
    }
  }

  lemma EraseRemoves(b: Box, k: Key, c: Id, n: string)
    requires HoldsOnce(b, c, n) && Erase(b, k).erased == Some(Object(c))
    ensures HoldsNot(Erase(b, k).box, c)
  {
    if b.ArrayBox? {
      var p := Position(b.a, k).value;
      var o := RemoveAt(b.a, p);
      assert forall j | 0 <= j < |o| :: o[j] == b.a[if j < p then j else j + 1];
    }
  }

  // ----- PrivateErase -----

  lemma RemoveFirstRemoves(b: Box, c: Id, n: string)
    requires Owning(b) && HoldsOnce(b, c, n)
    ensures HoldsNot(RemoveFirst(b, c), c)
  {
    match b
    case MapBox(m) =>
      assert n in KeysHolding(m, c);
    case ArrayBox(a) =>
      var i: nat :| OnlyAt(a, c, i);
      EqNode(a[i], c);
      var p := FindNode(a, c, NoKey).value;
      EqNode(a[p], c);
      var o := RemoveAt(a, p);
      assert forall j | 0 <= j < |o| :: o[j] == a[if j < p then j else j + 1];
  }

  lemma RemoveFirstSame(b: Box, c: Id, x: Id)
    requires Owning(b) && x != c
    ensures Same(b, RemoveFirst(b, c), x)
    ensures Owning(RemoveFirst(b, c))
  {
    if b.ArrayBox? && FindNode(b.a, c, NoKey).Some? { RemoveAtSame(b.a, FindNode(b.a, c, NoKey).value, x); }
  }

  lemma RemoveFirstIdle(b: Box, c: Id)
    requires Owning(b) && HoldsNot(b, c)
    ensures RemoveFirst(b, c) == b
  {
  }

  // Whether erasing by the name `now` finds c, or falls through to the search, in a box that holds
  // c under the name `before`.
  ghost predicate NameReaches(b: Box, before: string, now: string) {
    b.MapBox? && now != before ==> Current(b.m, now) == Empty
  }

  lemma ErasedBoxOwning(b: Box, c: Id, name: string)
    requires Owning(b)
    ensures Owning(ErasedBox(b, c, name))
    ensures ErasedBox(b, c, name).MapBox? == b.MapBox?
  {
  }

  lemma ErasedBoxRefers(b: Box, c: Id, name: string, x: Id)
    requires Owning(b) && RefersTo(ErasedBox(b, c, name), x)
    ensures RefersTo(b, x)
  {
  }

  /** `PrivateErase` takes the node out exactly when its current name does not lead to another entry. */
  lemma ErasedBoxIff(b: Box, c: Id, before: string, now: string)
    requires Owning(b) && HoldsOnce(b, c, before)
    ensures HoldsNot(ErasedBox(b, c, now), c) <==> NameReaches(b, before, now)
  {
    RemoveFirstRemoves(b, c, before);
    if b.MapBox? && now != before && Current(b.m, now) != Empty {
      assert ErasedBox(b, c, now) == MapBox(b.m[now := Empty]);
      assert b.m[now := Empty][before] == Object(c);
    }
  }

  lemma ErasedBoxSame(b: Box, c: Id, before: string, now: string, x: Id)
    requires Owning(b) && HoldsOnce(b, c, before) && NameReaches(b, before, now) && x != c
    ensures Same(b, ErasedBox(b, c, now), x)
  {
    RemoveFirstSame(b, c, x);
  }

  // Erasing a node that is no longer there changes nothing, provided its name leads nowhere.
  lemma OnceNeedsOne(b: Box, c: Id, name: string)
    requires HoldsNot(b, c)
    ensures !HoldsOnce(b, c, name)
  {
  }

  lemma ErasedBoxIdle(b: Box, c: Id, name: string)
    requires Owning(b) && HoldsNot(b, c)
    requires b.MapBox? ==> Current(b.m, name) == Empty
    ensures ErasedBox(b, c, name) == b
  {
    RemoveFirstIdle(b, c);
  }

  // ----- what the container changes may refer to -----

  lemma PutRefers(b: Box, k: Key, v: XValue, c: Id)
    requires RefersTo(Put(b, k, v).box, c)
    ensures RefersTo(b, c) || v == Object(c)
  {
    if b.MapBox? {
      var s :| s in Put(b, k, v).box.m && Put(b, k, v).box.m[s] == Object(c);
    } else {
      var i :| 0 <= i < |Put(b, k, v).box.a| && Put(b, k, v).box.a[i] == Object(c);
      assert (i < |b.a| && b.a[i] == Object(c)) || v == Object(c);
    }
  }

  lemma EmplaceRefers(b: Box, k: Key, v: XValue, c: Id)
    requires RefersTo(Emplace(b, k, v).box, c)
    ensures RefersTo(b, c) || v == Object(c)
  {
    if v != Object(c) { EmplaceSame(b, k, v, c); }
  }

  lemma EraseRefers(b: Box, k: Key, c: Id)
    requires RefersTo(Erase(b, k).box, c)
    ensures RefersTo(b, c)
  {
    if b.MapBox? {
      PutRefers(b, k, Empty, c);
    } else if Position(b.a, k).Some? {
      var p := Position(b.a, k).value;
      var o := RemoveAt(b.a, p);
      var i :| 0 <= i < |o| && o[i] == Object(c);
      assert o[i] == b.a[if i < p then i else i + 1];
    }
  }

  lemma RemoveDuplicateRefers(b: Box, d: Id, k: Key, c: Id)
    requires RefersTo(RemoveDuplicate(b, d, k), c)
    ensures RefersTo(b, c)
  {
    if b.ArrayBox? && FindNode(b.a, d, k).Some? {
      var p := FindNode(b.a, d, k).value;
      var o := RemoveAt(b.a, p);
      var i :| 0 <= i < |o| && o[i] == Object(c);
      assert o[i] == b.a[if i < p then i else i + 1];
    }
  }

  // ----- a node put into a container -----

  // The container of p after `Set` put the node c in, which displaced `gone`.
  ghost predicate Placed(b: Box, o: Box, c: Id, gone: XValue) {
    && Owning(o) && !gone.ConstObject? && o.MapBox? == b.MapBox?
    && gone != Object(c)
    && (gone.Object? ==> RefersTo(b, gone.addr) && forall n :: HoldsOnce(b, gone.addr, n) ==> HoldsNot(o, gone.addr))
    && (forall y | y != c && gone != Object(y) :: Same(b, o, y))
    && (forall y | RefersTo(o, y) :: RefersTo(b, y) || y == c)
  }

  lemma PutIsPlaced(b: Box, k: Key, c: Id)
    requires Owning(b) && Put(b, k, Object(c)).ok
    ensures Placed(b, Put(b, k, Object(c)).box, c, Put(b, k, Object(c)).prev)
  {
    var r := Put(b, k, Object(c));
    PutOwning(b, k, Object(c));
    forall y | y != c && r.prev != Object(y) ensures Same(b, r.box, y) { PutSame(b, k, Object(c), y); }
    forall y | RefersTo(r.box, y) ensures RefersTo(b, y) || y == c { PutRefers(b, k, Object(c), y); }
    if r.prev.Object? {
      forall n | HoldsOnce(b, r.prev.addr, n) ensures HoldsNot(r.box, r.prev.addr) {
        PutReplaces(b, k, Object(c), r.prev.addr, n);
      }
    }
  }

  lemma SameTransitive(b: Box, o: Box, d: Box, c: Id)
    requires Same(b, o, c) && Same(o, d, c)
    ensures Same(b, d, c)
  {
  }

  lemma PlacedWithoutDuplicate(b: Box, o: Box, k: Key, c: Id, gone: XValue)
    requires Owning(b) && Placed(b, o, c, gone)
    ensures Placed(b, RemoveDuplicate(o, c, k), c, gone)
  {
    var d := RemoveDuplicate(o, c, k);
    RemoveDuplicateSame(o, c, k, c + 1);
    forall y | y != c ensures Same(o, d, y) { RemoveDuplicateSame(o, c, k, y); }
    forall y | y != c && gone != Object(y) ensures Same(b, d, y) { SameTransitive(b, o, d, y); }
    forall y | RefersTo(d, y) ensures RefersTo(b, y) || y == c { RemoveDuplicateRefers(o, c, k, y); }
  }
}
