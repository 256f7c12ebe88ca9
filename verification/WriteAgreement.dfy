/** Exactly when `BulkSet` and the mutating `ForEach` keep the agreement: every node that was put in or
    taken back must stand right in what is left of the container, and every adopted node must be able to
    leave its former parent. Everything else agrees by itself. */
module WriteAgreement {
  import opened Wrappers
  import opened XValues
  import opened Boxes
  import opened Holding
  import opened Worlds
  import opened Agreement
  import opened TreeOps
  import opened Forest
  import opened Writings
  import opened Settling

  // ----- one node, before and after the container part -----

  // If it was not touched, it has gone out of the container, or is held no differently.
  ghost predicate Tracked(b: Box, o: Box, gone: seq<Id>, touched: set<Id>, y: Id) {
    y !in touched ==> if y in gone then RefersTo(b, y) && HoldsNot(o, y) else Same(b, o, y)
  }

  ghost predicate HeldAtMostOnce(b: Box, y: Id, before: string) {
    HoldsOnce(b, y, before) || HoldsNot(b, y)
  }

  lemma TrackedOn(b: Box, o: Box, d: Box, gone: seq<Id>, touched: set<Id>, more: set<Id>, y: Id, before: string)
    requires Tracked(b, o, gone, touched, y) && (y !in more ==> Same(o, d, y)) && HeldAtMostOnce(b, y, before)
    ensures Tracked(b, d, gone, touched + more, y)
  {
    if y !in touched + more && y !in gone { SameTransitive(b, o, d, y); }
  }

  lemma TrackedGone(b: Box, o: Box, d: Box, gone: seq<Id>, touched: set<Id>, more: set<Id>, y: Id, before: string)
    requires Tracked(b, o, gone, touched, y) && HeldAtMostOnce(b, y, before) && RefersTo(o, y)
    requires HoldsOnce(o, y, before) ==> HoldsNot(d, y)
    ensures Tracked(b, d, gone + [y], touched + more, y)
  {
    NotReferred(o, y);
  }

  lemma TrackedOther(b: Box, o: Box, d: Box, gone: seq<Id>, c: Id, touched: set<Id>, more: set<Id>, y: Id,
                     before: string)
    requires Tracked(b, o, gone, touched, y) && (y !in more ==> Same(o, d, y)) && HeldAtMostOnce(b, y, before) && c != y
    ensures Tracked(b, d, gone + [c], touched + more, y)
  {
    TrackedOn(b, o, d, gone, touched, more, y, before);
  }

  // ----- the exact condition -----

  // Every touched node stands right once the displaced nodes are detached, and all that leave a former
  // parent take out one of them.
  ghost predicate WriteSafe(w: World, p: Id, x: Writing)
    requires Valid(w) && p in w.parent && Known(w, x)
  {
    DetachAllShaped(WithBox(w, p, Cleaned(x.box, x.placed)), x.gone);
    var u := Cut(w, p, x);
    && (forall c | c in x.touched && c in u.parent :: Stands(u, p, x.placed, c))
    && AllLeave(u, p, x.placed, Leaving(u, p, x.placed))
  }

  lemma {:induction false} CleanedSame(b: Box, placed: seq<(Id, Key)>, y: Id)
    requires Owning(b) && !Given(placed, y)
    ensures Same(b, Cleaned(b, placed), y)
    decreases |placed|
  {
    if placed == [] {
      SameSelf(b, y);
    } else {
      GivenStep(placed, y);
      var o := RemoveDuplicate(b, placed[0].0, placed[0].1);
      RemoveDuplicateSame(b, placed[0].0, placed[0].1, y);
      CleanedSame(o, placed[1..], y);
      SameTransitive(b, o, Cleaned(o, placed[1..]), y);
    }
  }

  // The container part of the call behaves.
  ghost predicate Behaves(w: World, p: Id, x: Writing)
    requires p in w.box
  {
    && Known(w, x) && x.box.MapBox? == w.box[p].MapBox? && KeysFit(w.box[p].MapBox?, x.placed)
    && (forall c | Given(x.placed, c) :: c in x.touched)
    && forall y | y in w.parent :: Tracked(w.box[p], x.box, x.gone, x.touched, y)
  }

  lemma CutOutside(w: World, p: Id, x: Writing)
    requires Agree(w) && p in w.parent && Behaves(w, p, x)
    ensures var u := Cut(w, p, x);
            && Outside(u, p) && u.parent == Thin(w.parent, x.gone) && u.name == w.name
            && u.box[p].MapBox? == w.box[p].MapBox? && PlacedKnown(u, x.placed) && Shaped(u)
            && Settle(w, p, x) == AdoptInTurn(u, p, x.placed)
  {
    var v := WithBox(w, p, Cleaned(x.box, x.placed));
    CleanedValid(w, p, x);
    CleanedRefers(x.box, x.placed, 0);
    forall y, z | y in v.parent && z in v.parent && y != p ensures Fits(v, y, z) { assert Fits(w, y, z); }
    DetachAllOutside(v, p, x.gone);
    DetachAllShaped(v, x.gone);
  }

  lemma NamesDiffer(w: World, p: Id, c: Id, d: Id)
    requires Agree(w) && p in w.parent && c in w.parent && d in w.parent && c != d && w.box[p].MapBox?
    requires w.parent[c] == Some(p) && w.parent[d] == Some(p)
    ensures w.name[c] != w.name[d]
  {
    assert Fits(w, p, c) && Fits(w, p, d);
  }

  // A node that was not touched stands right by itself.
  lemma UntouchedStands(w: World, p: Id, x: Writing, y: Id)
    requires Agree(w) && p in w.parent && Behaves(w, p, x) && y in w.parent && y !in x.touched
    ensures var u := Cut(w, p, x); p in u.box && y in u.parent && y in u.name && Stands(u, p, x.placed, y)
  {
    var v := WithBox(w, p, Cleaned(x.box, x.placed));
    assert Fits(w, p, y) && Tracked(w.box[p], x.box, x.gone, x.touched, y);
    CutOutside(w, p, x);
    CleanedValid(w, p, x);
    CleanedSame(x.box, x.placed, y);
    WrittenIsOutside(w, p, x);
    if w.parent[y] == Some(p) && y !in x.gone {
      forall d | d in w.parent && d != y && w.parent[d] == Some(p) && v.box[p].MapBox? ensures w.name[d] != w.name[y] {
        CleanedRefers(x.box, x.placed, 0);
        NamesDiffer(w, p, d, y);
      }
      DetachAllKeeps(v, p, x.gone, y);
    } else {
      GoneWasChild(w, p, x, y);
      DetachAllAddsNothing(v, p, x.gone, y);
    }
  }

  lemma WrittenIsOutside(w: World, p: Id, x: Writing)
    requires Agree(w) && p in w.parent && Known(w, x)
    ensures Outside(WithBox(w, p, Cleaned(x.box, x.placed)), p)
  {
    var v := WithBox(w, p, Cleaned(x.box, x.placed));
    CleanedValid(w, p, x);
    forall y, z | y in v.parent && z in v.parent && y != p ensures Fits(v, y, z) { assert Fits(w, y, z); }
  }

  lemma GoneWasChild(w: World, p: Id, x: Writing, y: Id)
    requires Agree(w) && p in w.parent && y in w.parent && y !in x.touched
    requires Tracked(w.box[p], x.box, x.gone, x.touched, y)
    ensures y in x.gone ==> w.parent[y] == Some(p)
    ensures y in x.gone || w.parent[y] != Some(p) ==> HoldsNot(x.box, y)
  {
    assert Fits(w, p, y);
    NotReferred(w.box[p], y);
  }

  lemma SettleAgreesIff(w: World, p: Id, x: Writing)
    requires Agree(w) && p in w.parent && Behaves(w, p, x)
    ensures Agree(Settle(w, p, x)) <==> WriteSafe(w, p, x)
  {
    hide Stands, Outside, AllLeave, Tracked, Known, KeysFit, PlacedKnown, AdoptInTurn, Leaving, Cut;
    var u := Cut(w, p, x);
    CutOutside(w, p, x);
    AdoptIff(u, p, x.placed);
    assert u.parent.Keys == u.name.Keys == u.box.Keys;
    forall y | y in u.parent && y !in x.touched ensures Stands(u, p, x.placed, y) { UntouchedStands(w, p, x, y); }
  }

  // ----- BulkSet -----

  // The Setting s comes from the container b.
  ghost predicate Follows(b: Box, s: Setting) {
    && Owning(s.box) && s.box.MapBox? == b.MapBox?
    && forall c | c in s.placed :: c in s.touched && KeyFits(b.MapBox?, s.placed[c])
  }

  lemma StoreFollows(b: Box, s: Setting, pair: (Key, XValue), node: Option<Id>)
    requires Follows(b, s) && !pair.1.ConstObject?
    requires node.Some? ==> node.value in s.placed || pair.1 == Object(node.value)
    ensures Follows(b, Store(s, pair, node))
  {
    PutOwning(s.box, Resolve(s.box, pair.0), pair.1);
  }

  lemma StoreTracked(b: Box, s: Setting, pair: (Key, XValue), node: Option<Id>, y: Id, before: string)
    requires Follows(b, s) && !pair.1.ConstObject?
    requires Tracked(b, s.box, s.gone, s.touched, y) && HeldAtMostOnce(b, y, before)
    ensures var n := Store(s, pair, node); Tracked(b, n.box, n.gone, n.touched, y)
  {
    var k, v := Resolve(s.box, pair.0), pair.1;
    var r := Put(s.box, k, v);
    hide Tracked, Same, HoldsOnce, HoldsNot, RefersTo, Put, Owning, Eq;
    if !r.ok {
      PutSame(s.box, k, v, y);
      TrackedOn(b, s.box, r.box, s.gone, s.touched, {}, y, before);
      assert s.touched + {} == s.touched;
    } else if r.prev == Object(y) {
      PutPrevIsHeld(s.box, k, v);
      ReplacedGoes(s.box, k, v, y, before);
      TrackedGone(b, s.box, r.box, s.gone, s.touched, NodeIn(v), y, before);
      assert NodesOf([r.prev]) == [y];
    } else {
      if v != Object(y) { PutSame(s.box, k, v, y); }
      if r.prev.Object? {
        TrackedOther(b, s.box, r.box, s.gone, r.prev.addr, s.touched, NodeIn(v), y, before);
        assert NodesOf([r.prev]) == [r.prev.addr];
      } else {
        TrackedOn(b, s.box, r.box, s.gone, s.touched, NodeIn(v), y, before);
        assert NodesOf([r.prev]) == [] && s.gone + [] == s.gone;
      }
    }
  }

  lemma ReplacedGoes(b: Box, k: Key, v: XValue, y: Id, before: string)
    requires Put(b, k, v).ok && Put(b, k, v).prev == Object(y)
    ensures HoldsOnce(b, y, before) ==> HoldsNot(Put(b, k, v).box, y)
  {
    if HoldsOnce(b, y, before) { PutReplaces(b, k, v, y, before); }
  }

  lemma TakeBackTracked(b: Box, s: Setting, c: Id, y: Id, before: string)
    requires Follows(b, s) && c in s.placed && Erase(s.box, s.placed[c]).erased.Some?
    requires Tracked(b, s.box, s.gone, s.touched, y) && HeldAtMostOnce(b, y, before)
    ensures var n := TakeBack(s, c, Erase(s.box, s.placed[c])); Tracked(b, n.box, n.gone, n.touched, y)
  {
    var e := Erase(s.box, s.placed[c]);
    if e.erased.value != Object(y) { EraseSame(s.box, s.placed[c], y); }
    TrackedOn(b, s.box, e.box, s.gone, s.touched, NodeIn(e.erased.value), y, before);
  }

  lemma TakeBackFollows(b: Box, s: Setting, c: Id)
    requires Follows(b, s) && c in s.placed && Erase(s.box, s.placed[c]).erased.Some?
    ensures Follows(b, TakeBack(s, c, Erase(s.box, s.placed[c])))
  {
    EraseOwning(s.box, s.placed[c]);
  }

  lemma TurnTracked(w: World, p: Id, b: Box, s: Setting, kvs: seq<(Key, XValue)>, y: Id, before: string)
    requires kvs != [] && AllStorable(w, kvs) && Follows(b, s)
    requires Tracked(b, s.box, s.gone, s.touched, y) && HeldAtMostOnce(b, y, before)
    ensures var (n, rest) := Turn(w, p, s, kvs);
            Follows(b, n) && AllStorable(w, rest) && Tracked(b, n.box, n.gone, n.touched, y)
  {
    hide Follows, Tracked, HeldAtMostOnce, Store, TakeBack, Erase, ValidChild;
    var v := kvs[0].1;
    assert Storable(w, v) && AllStorable(w, kvs[1..]);
    LeaveFollows(b, s, kvs[0]);
    if ValidChild(w, p, v) {
      if v.Object? && v.addr in s.placed {
        var e := Erase(s.box, s.placed[v.addr]);
        if e.erased.Some? {
          TakeBackTracked(b, s, v.addr, y, before);
          TakeBackFollows(b, s, v.addr);
          StoreFollows(b, TakeBack(s, v.addr, e), kvs[0], InHand(v));
          StoreTracked(b, TakeBack(s, v.addr, e), kvs[0], InHand(v), y, before);
        } else if |kvs| > 1 {
          assert Storable(w, kvs[1].1) && AllStorable(w, kvs[2..]);
          StoreFollows(b, Leave(s, kvs[0]), kvs[1], InHand(v));
          StoreTracked(b, Leave(s, kvs[0]), kvs[1], InHand(v), y, before);
        }
      } else {
        StoreFollows(b, s, kvs[0], InHand(v));
        StoreTracked(b, s, kvs[0], InHand(v), y, before);
      }
    }
  }

  lemma LeaveFollows(b: Box, s: Setting, pair: (Key, XValue))
    requires Follows(b, s)
    ensures Follows(b, Leave(s, pair)) && Follows(b, Leave(s, pair).(overrun := true))
  {
  }

  lemma {:induction false} SetEachTracked(w: World, p: Id, b: Box, s: Setting, kvs: seq<(Key, XValue)>, y: Id,
                                          before: string)
    requires AllStorable(w, kvs) && Follows(b, s)
    requires Tracked(b, s.box, s.gone, s.touched, y) && HeldAtMostOnce(b, y, before)
    ensures var n := SetEach(w, p, s, kvs); Follows(b, n) && Tracked(b, n.box, n.gone, n.touched, y)
    decreases |kvs|
  {
    if kvs != [] {
      hide Turn, Follows, Tracked, HeldAtMostOnce;
      var (n, rest) := Turn(w, p, s, kvs);
      TurnTracked(w, p, b, s, kvs, y, before);
      SetEachTracked(w, p, b, n, rest, y, before);
    }
  }

  lemma OnceOrNot(w: World, p: Id, y: Id)
    requires Agree(w) && p in w.parent && y in w.parent
    ensures y in w.name && HeldAtMostOnce(w.box[p], y, w.name[y])
  {
    assert Fits(w, p, y);
  }

  lemma BulkSetBehaves(w: World, p: Id, kvs: seq<(Key, XValue)>)
    requires Agree(w) && p in w.parent && AllStorable(w, kvs)
    ensures Behaves(w, p, BulkSetWriting(w, p, kvs))
  {
    var b := w.box[p];
    BulkSetKnown(w, p, kvs);
    SameSelf(b, p);
    OnceOrNot(w, p, p);
    SetEachTracked(w, p, b, Begin(b), kvs, p, w.name[p]);
    var x := BulkSetWriting(w, p, kvs);
    forall y | y in w.parent ensures Tracked(b, x.box, x.gone, x.touched, y) {
      SameSelf(b, y);
      OnceOrNot(w, p, y);
      SetEachTracked(w, p, b, Begin(b), kvs, y, w.name[y]);
    }
  }

  ghost predicate BulkSetSafe(w: World, p: Id, kvs: seq<(Key, XValue)>)
    requires Valid(w) && p in w.parent && AllStorable(w, kvs)
  {
    BulkSetKnown(w, p, kvs);
    WriteSafe(w, p, BulkSetWriting(w, p, kvs))
  }

  /** `BulkSet` keeps the agreement exactly when it is safe. */
  lemma BulkSetAgreesIff(w: World, p: Id, kvs: seq<(Key, XValue)>)
    requires Agree(w) && p in w.parent && AllStorable(w, kvs)
    ensures Agree(BulkSet(w, p, kvs)) <==> BulkSetSafe(w, p, kvs)
  {
    BulkSetBehaves(w, p, kvs);
    SettleAgreesIff(w, p, BulkSetWriting(w, p, kvs));
  }

  // ----- the mutating iteration -----

  lemma NotedTracked(b: Box, x: Writing, o: Box, k: Key, v: XValue, to: Option<XValue>, y: Id, before: string)
    requires Tracked(b, x.box, x.gone, x.touched, y) && HeldAtMostOnce(b, y, before)
    requires v.Object? ==> RefersTo(x.box, v.addr)
    requires to == Some(v) || (v != Object(y) && to != Some(Object(y))) ==> Same(x.box, o, y)
    requires v == Object(y) && to != Some(Object(y)) && HoldsOnce(x.box, y, before) ==> HoldsNot(o, y)
    ensures var n := Noted(x, o, k, v, to); Tracked(b, n.box, n.gone, n.touched, y)
  {
    var more := NodeIn(to.GetOr(Empty));
    hide Tracked, Same, HoldsOnce, HoldsNot, RefersTo, HeldAtMostOnce;
    if to == Some(v) {
      TrackedOn(b, x.box, o, x.gone, x.touched, {}, y, before);
      assert x.touched + {} == x.touched;
    } else if v == Object(y) {
      assert NodesOf([v]) == [y];
      TrackedGone(b, x.box, o, x.gone, x.touched, more, y, before);
    } else if v.Object? {
      assert NodesOf([v]) == [v.addr];
      TrackedOther(b, x.box, o, x.gone, v.addr, x.touched, more, y, before);
    } else {
      assert NodesOf([v]) == [] && x.gone + [] == x.gone;
      TrackedOn(b, x.box, o, x.gone, x.touched, more, y, before);
    }
  }

  lemma MapAfterSame(b: Box, key: string, to: Option<XValue>, y: Id, before: string)
    requires b.MapBox? && key in b.m
    ensures var o := MapAfter(b, key, to);
            && (to == Some(b.m[key]) || (b.m[key] != Object(y) && to != Some(Object(y))) ==> Same(b, o, y))
            && (b.m[key] == Object(y) && to != Some(Object(y)) && HoldsOnce(b, y, before) ==> HoldsNot(o, y))
  {
    if to == Some(b.m[key]) { assert MapAfter(b, key, to) == b; }
  }

  lemma SlotAfterSame(a: seq<XValue>, i: nat, to: Option<XValue>, y: Id, before: string)
    requires i < |a|
    ensures var o := SlotAfter(a, i, to);
            && (to == Some(a[i]) || (a[i] != Object(y) && to != Some(Object(y))) ==> Same(ArrayBox(a), ArrayBox(o), y))
            && (a[i] == Object(y) && to != Some(Object(y)) && HoldsOnce(ArrayBox(a), y, before) ==>
                  HoldsNot(ArrayBox(o), y))
  {
    var o := SlotAfter(a, i, to);
    if to == Some(a[i]) {
      assert o == a;
    } else if a[i] != Object(y) && to != Some(Object(y)) {
      if to.None? { RemoveAtSame(a, i, y); } else { UpdateSame(a, i, to.value, y); }
    } else if a[i] == Object(y) && to != Some(Object(y)) && HoldsOnce(ArrayBox(a), y, before) {
      var j: nat :| OnlyAt(a, y, j);
      assert j == i;
      assert forall l | 0 <= l < |o| ::
             o[l] == if to.None? then a[if l < i then l else l + 1] else if l == i then to.value else a[l];
    }
  }

  // Keys and touched nodes of a writing.
  ghost predicate Fitting(isMap: bool, x: Writing) {
    x.box.MapBox? == isMap && KeysFit(isMap, x.placed) && forall c | Given(x.placed, c) :: c in x.touched
  }

  lemma NotedFits(x: Writing, o: Box, k: Key, v: XValue, to: Option<XValue>)
    requires Fitting(x.box.MapBox?, x) && o.MapBox? == x.box.MapBox? && KeyFits(x.box.MapBox?, k)
    ensures Fitting(x.box.MapBox?, Noted(x, o, k, v, to))
  {
    var n := Noted(x, o, k, v, to);
    forall c | Given(n.placed, c) ensures c in n.touched {
      var i :| 0 <= i < |n.placed| && n.placed[i].0 == c;
      if i < |x.placed| { assert n.placed[i] == x.placed[i]; assert Given(x.placed, c); }
    }
  }

  lemma {:induction false} EachKeyTracked(w: World, b: Box, x: Writing, shown: seq<(Key, XValue)>, keys: seq<string>,
                                          f: OnEach, from: Option<string>, y: Id, before: string)
    requires x.box.MapBox? && Fitting(true, x) && "" !in keys && forall k | k in keys :: k in x.box.m
    requires Tracked(b, x.box, x.gone, x.touched, y) && HeldAtMostOnce(b, y, before)
    ensures var n := EachKey(x, shown, keys, f, from); Fitting(true, n) && Tracked(b, n.box, n.gone, n.touched, y)
    decreases |keys|
  {
    if keys != [] {
      var v := x.box.m[keys[0]];
      if v.IsEmpty() {
        EachKeyTracked(w, b, x, shown, keys[1..], f, from, y, before);
      } else {
        var (res, given) := f(shown, Name(keys[0]), v);
        var to := Outcome(v, res, given);
        var o := MapAfter(x.box, keys[0], to);
        var n := Noted(x, o, Name(keys[0]), v, to);
        MapAfterSame(x.box, keys[0], to, y, before);
        assert v.Object? ==> RefersTo(x.box, v.addr);
        hide Tracked, Same, HoldsOnce, HoldsNot, RefersTo, Fitting, HeldAtMostOnce;
        NotedTracked(b, x, o, Name(keys[0]), v, to, y, before);
        NotedFits(x, o, Name(keys[0]), v, to);
        if !Stops(res) { EachKeyTracked(w, b, n, shown + [(Name(keys[0]), v)], keys[1..], f, from, y, before); }
      }
    }
  }

  lemma {:induction false} EachSlotTracked(w: World, b: Box, x: Writing, shown: seq<(Key, XValue)>, i: nat, f: OnEach,
                                           y: Id, before: string)
    requires x.box.ArrayBox? && Fitting(false, x) && i <= |x.box.a|
    requires Tracked(b, x.box, x.gone, x.touched, y) && HeldAtMostOnce(b, y, before)
    ensures var n := EachSlot(x, shown, i, f); Fitting(false, n) && Tracked(b, n.box, n.gone, n.touched, y)
    decreases |x.box.a| - i
  {
    if i < |x.box.a| {
      var v := x.box.a[i];
      var (res, given) := f(shown, At(|shown|), v);
      var to := Outcome(v, res, given);
      var o := ArrayBox(SlotAfter(x.box.a, i, to));
      var n := Noted(x, o, At(|shown|), v, to);
      SlotAfterSame(x.box.a, i, to, y, before);
      assert v.Object? ==> RefersTo(x.box, v.addr);
      hide Tracked, Same, HoldsOnce, HoldsNot, RefersTo, Fitting, HeldAtMostOnce;
      NotedTracked(b, x, o, At(|shown|), v, to, y, before);
      NotedFits(x, o, At(|shown|), v, to);
      if !Stops(res) {
        EachSlotTracked(w, b, n, shown + [(At(|shown|), v)], if to.None? then i else i + 1, f, y, before);
      }
    }
  }

  lemma ForEachTracked(w: World, p: Id, f: OnEach, from: Key, y: Id)
    requires Agree(w) && p in w.parent && y in w.parent
    ensures var b, n := w.box[p], ForEachWriting(w.box[p], f, from);
            Fitting(b.MapBox?, n) && Tracked(b, n.box, n.gone, n.touched, y)
  {
    var b := w.box[p];
    var x := Writing(b, [], [], {});
    SameSelf(b, y);
    OnceOrNot(w, p, y);
    match b
    case MapBox(m) =>
      var keys := KeysFrom(m, FromKey(b, from));
      assert "" !in keys by { assert Owning(b); }
      EachKeyTracked(w, b, x, [], keys, f, FromKey(b, from), y, w.name[y]);
    case ArrayBox(a) =>
      EachSlotTracked(w, b, x, [], if from == NoKey then 0 else Position(a, from).GetOr(|a|), f, y, w.name[y]);
  }

  lemma ForEachBehaves(w: World, p: Id, f: OnEach, from: Key)
    requires Agree(w) && p in w.parent && GivesStorable(w, f)
    ensures Behaves(w, p, ForEachWriting(w.box[p], f, from))
  {
    hide ForEachWriting, Tracked, Fits;
    ForEachKnown(w, p, f, from);
    ForEachTracked(w, p, f, from, p);
    forall y | y in w.parent
      ensures var n := ForEachWriting(w.box[p], f, from); Tracked(w.box[p], n.box, n.gone, n.touched, y)
    {
      ForEachTracked(w, p, f, from, y);
    }
  }

  ghost predicate ForEachSafe(w: World, p: Id, f: OnEach, from: Key)
    requires Valid(w) && p in w.parent && GivesStorable(w, f)
  {
    ForEachKnown(w, p, f, from);
    WriteSafe(w, p, ForEachWriting(w.box[p], f, from))
  }

  /** The mutating `ForEach` keeps the agreement exactly when it is safe. */
  lemma ForEachAgreesIff(w: World, p: Id, f: OnEach, from: Key)
    requires Agree(w) && p in w.parent && GivesStorable(w, f)
    ensures Agree(ForEach(w, p, f, from)) <==> ForEachSafe(w, p, f, from)
  {
    ForEachBehaves(w, p, f, from);
    SettleAgreesIff(w, p, ForEachWriting(w.box[p], f, from));
  }

  // ----- what is safe -----

  lemma UntouchedIsSafe(w: World, p: Id, x: Writing)
    requires Agree(w) && p in w.parent && Behaves(w, p, x) && x.touched == {}
    ensures WriteSafe(w, p, x)
  {
    if x.placed != [] { assert Given(x.placed, x.placed[0].0); }
    CutOutside(w, p, x);
  }

  lemma {:induction false} NoNodesSet(w: World, p: Id, s: Setting, kvs: seq<(Key, XValue)>)
    requires s.touched == {} && s.placed == map[] && forall i | 0 <= i < |kvs| :: !kvs[i].1.Object?
    ensures SetEach(w, p, s, kvs).touched == {} && SetEach(w, p, s, kvs).overrun == s.overrun
    decreases |kvs|
  {
    if kvs != [] {
      assert !kvs[0].1.Object?;
      NoNodesSet(w, p, Store(s, kvs[0], None), kvs[1..]);
    }
  }

  /** A batch of plain values always keeps the agreement, though a value may be lost over a node. */
  lemma PlainBulkSetAgrees(w: World, p: Id, kvs: seq<(Key, XValue)>)
    requires Agree(w) && p in w.parent && AllStorable(w, kvs) && forall i | 0 <= i < |kvs| :: !kvs[i].1.Object?
    ensures Agree(BulkSet(w, p, kvs)) && StaysWithin(w, p, kvs)
  {
    NoNodesSet(w, p, Begin(w.box[p]), kvs);
    BulkSetBehaves(w, p, kvs);
    UntouchedIsSafe(w, p, BulkSetWriting(w, p, kvs));
    BulkSetAgreesIff(w, p, kvs);
  }

  lemma {:induction false} NoNodesInKeys(x: Writing, shown: seq<(Key, XValue)>, keys: seq<string>, f: OnEach,
                                         from: Option<string>)
    requires x.box.MapBox? && (forall k | k in keys :: k in x.box.m) && x.touched == {}
    requires forall h, k, v :: f(h, k, v).1.Object? ==> f(h, k, v).1 == v
    ensures EachKey(x, shown, keys, f, from).touched == {}
    decreases |keys|
  {
    if keys != [] {
      var v := x.box.m[keys[0]];
      if v.IsEmpty() {
        NoNodesInKeys(x, shown, keys[1..], f, from);
      } else {
        var (res, given) := f(shown, Name(keys[0]), v);
        assert f(shown, Name(keys[0]), v).1 == given;
        var to := Outcome(v, res, given);
        var y := Noted(x, MapAfter(x.box, keys[0], to), Name(keys[0]), v, to);
        if !Stops(res) { NoNodesInKeys(y, shown + [(Name(keys[0]), v)], keys[1..], f, from); }
      }
    }
  }

  lemma {:induction false} NoNodesInSlots(x: Writing, shown: seq<(Key, XValue)>, i: nat, f: OnEach)
    requires x.box.ArrayBox? && i <= |x.box.a| && x.touched == {}
    requires forall h, k, v :: f(h, k, v).1.Object? ==> f(h, k, v).1 == v
    ensures EachSlot(x, shown, i, f).touched == {}
    decreases |x.box.a| - i
  {
    if i < |x.box.a| {
      var v := x.box.a[i];
      var (res, given) := f(shown, At(|shown|), v);
      assert f(shown, At(|shown|), v).1 == given;
      var to := Outcome(v, res, given);
      var y := Noted(x, ArrayBox(SlotAfter(x.box.a, i, to)), At(|shown|), v, to);
      if !Stops(res) { NoNodesInSlots(y, shown + [(At(|shown|), v)], if to.None? then i else i + 1, f); }
    }
  }

  /** An iteration that erases, and that changes entries to plain values only, always keeps the agreement. */
  lemma PlainForEachAgrees(w: World, p: Id, f: OnEach, from: Key)
    requires Agree(w) && p in w.parent && GivesStorable(w, f)
    requires forall h, k, v :: f(h, k, v).1.Object? ==> f(h, k, v).1 == v
    ensures Agree(ForEach(w, p, f, from))
  {
    var b := w.box[p];
    var x := Writing(b, [], [], {});
    match b {
      case MapBox(m) => NoNodesInKeys(x, [], KeysFrom(m, FromKey(b, from)), f, FromKey(b, from));
      case ArrayBox(a) => NoNodesInSlots(x, [], if from == NoKey then 0 else Position(a, from).GetOr(|a|), f);
    }
    ForEachBehaves(w, p, f, from);
    UntouchedIsSafe(w, p, ForEachWriting(b, f, from));
    ForEachAgreesIff(w, p, f, from);
  }

  // The node will leave its former parent, which holds it and reaches it by its new name.
  ghost predicate LeavesFreely(u: World, p: Id, placed: seq<(Id, Key)>, c: Id)
    requires Shaped(u) && c in u.parent
  {
    LeavesNow(u, p, c) ==>
      && HoldsOnce(u.box[u.parent[c].value], c, u.name[c])
      && NameReaches(u.box[u.parent[c].value], u.name[c], NameGiven(placed, c, u.name[c]))
  }

  lemma FreelyTakesItself(b: Box, c: Id, before: string, name: string)
    requires Owning(b) && HoldsOnce(b, c, before) && NameReaches(b, before, name)
    ensures Taken(b, c, name) == Some(Object(c))
  {
    OnceIsReferred(b, c, before);
  }

  lemma StaysReachable(b: Box, c: Id, before: string, name: string, d: Id, own: string, now: string)
    requires Owning(b) && HoldsOnce(b, c, before) && NameReaches(b, before, name) && c != d
    requires HoldsOnce(b, d, own) && NameReaches(b, own, now)
    ensures HoldsOnce(ErasedBox(b, c, name), d, own) && NameReaches(ErasedBox(b, c, name), own, now)
  {
    ErasedBoxSame(b, c, before, name, d);
  }

  lemma FreelyStep(u: World, p: Id, placed: seq<(Id, Key)>, d: Id)
    requires Valid(u) && p in u.parent && PlacedKnown(u, placed) && placed != [] && Given(placed[1..], d)
    requires d in u.parent
    requires LeavesFreely(u, p, placed, placed[0].0) && LeavesFreely(u, p, placed, d)
    ensures var c := placed[0].0;
            var v := AfterOne(u, p, c, KeyName(placed[0].1).GetOr(u.name[c]));
            Shaped(v) && d in v.parent && LeavesFreely(v, p, placed[1..], d)
  {
    var c, name := placed[0].0, KeyName(placed[0].1).GetOr(u.name[placed[0].0]);
    var v := AfterOne(u, p, c, name);
    AdoptKeepsValid(u, p, c, name);
    if Joins(u, p, c) && c != d { JoinsStays(u, v, p, c, d); }
    if LeavesNow(u, p, c) && LeavesNow(u, p, d) && c != d && u.parent[c] == u.parent[d] {
      var b := u.box[u.parent[c].value];
      StaysReachable(b, c, u.name[c], name, d, u.name[d], NameGiven(placed, d, u.name[d]));
    }
  }

  lemma FirstNameGiven(placed: seq<(Id, Key)>, name: string)
    requires placed != []
    ensures NameGiven(placed, placed[0].0, name) == KeyName(placed[0].1).GetOr(name)
  {
  }

  /** If no former parent of the nodes has another entry under the name that one of its nodes gets, they
      all leave. */
  lemma {:induction false} FreeNamesLeave(u: World, p: Id, placed: seq<(Id, Key)>, leaving: set<Id>)
    requires Valid(u) && p in u.parent && PlacedKnown(u, placed) && KeysFit(u.box[p].MapBox?, placed)
    requires forall c | Given(placed, c) && c in u.parent ::
               LeavesFreely(u, p, placed, c) && (LeavesNow(u, p, c) ==> c in leaving)
    ensures AllLeave(u, p, placed, leaving)
    decreases |placed|
  {
    if placed != [] {
      hide Valid, Below, ErasedBox, Taken, HoldsOnce, KeysFit, Owning, NameGiven, SetAsChild;
      var c, k := placed[0].0, placed[0].1;
      ValidMeans(u, p);
      var name := KeyName(k).GetOr(u.name[c]);
      var v := AfterOne(u, p, c, name);
      assert Given(placed, c);
      FirstNameGiven(placed, u.name[c]);
      FirstAdoption(u, p, placed, p);
      if LeavesNow(u, p, c) { FreelyTakesItself(u.box[u.parent[c].value], c, u.name[c], name); }
      forall d | Given(placed[1..], d) && d in v.parent
        ensures LeavesFreely(v, p, placed[1..], d) && (LeavesNow(v, p, d) ==> d in leaving)
      {
        GivenStep(placed, d);
        FreelyStep(u, p, placed, d);
        if LeavesNow(v, p, d) { LaterLeaves(u, p, placed, name, d); }
      }
      FreeNamesLeave(v, p, placed[1..], leaving);
    }
  }
}
