/** `BulkInsert` at a position of an array: which values go in, where they end up, and that the
    tree agrees afterwards. */
module ArrayInserts {
  import opened Wrappers
  import opened XValues
  import opened Boxes
  import opened Holding
  import opened Worlds
  import opened Agreement
  import opened TreeOps
  import opened Forest

  // ----- which values go in -----

  // Value i stays behind: it is p or above p, or it is a node that the array holds already or that
  // occurs earlier in the batch.
  ghost predicate StaysBehind(w: World, p: Id, held: iset<Id>, vs: seq<XValue>, i: nat)
    requires i < |vs|
  {
    || !ValidChild(w, p, vs[i])
    || (vs[i].Object? && (vs[i].addr in held || exists j | 0 <= j < i :: vs[j] == vs[i]))
  }

  // The values whose flag is as wanted, in their order.
  function Selected(vs: seq<XValue>, flags: seq<bool>, want: bool): seq<XValue>
    requires |flags| == |vs|
  {
    if vs == [] then []
    else (if flags[0] == want then [vs[0]] else []) + Selected(vs[1..], flags[1..], want)
  }

  ghost function Flags(w: World, p: Id, held: iset<Id>, vs: seq<XValue>): (r: seq<bool>)
    ensures |r| == |vs| && forall i | 0 <= i < |vs| :: r[i] <==> StaysBehind(w, p, held, vs, i)
  {
    seq(|vs|, i requires 0 <= i < |vs| => StaysBehind(w, p, held, vs, i))
  }

  ghost function Held(a: seq<XValue>): iset<Id> {
    iset c | Object(c) in a
  }

  lemma FlagsStep(w: World, p: Id, held: iset<Id>, vs: seq<XValue>)
    requires vs != []
    ensures var next := if vs[0].Object? && ValidChild(w, p, vs[0]) then held + iset{vs[0].addr} else held;
            Flags(w, p, held, vs)[1..] == Flags(w, p, next, vs[1..])
  {
    var next := if vs[0].Object? && ValidChild(w, p, vs[0]) then held + iset{vs[0].addr} else held;
    forall i | 0 <= i < |vs| - 1
      ensures StaysBehind(w, p, held, vs, i + 1) <==> StaysBehind(w, p, next, vs[1..], i)
    {
      if vs[i + 1].Object? {
        if j :| 0 <= j < i + 1 && vs[j] == vs[i + 1] { if j > 0 { assert vs[1..][j - 1] == vs[1..][i]; } }
        if j :| 0 <= j < i && vs[1..][j] == vs[1..][i] { assert vs[j + 1] == vs[i + 1]; }
      }
    }
  }

  lemma InsertedHeld(a: seq<XValue>, at: nat, v: XValue)
    requires at <= |a|
    ensures Held(InsertAt(a, at, v)) == if v.Object? then Held(a) + iset{v.addr} else Held(a)
  {
    var o := InsertAt(a, at, v);
    assert o[at] == v;
    assert forall c :: Object(c) in o <==> Object(c) in a || v == Object(c) by {
      assert forall x :: x in o <==> x in a[..at] || x == v || x in a[at..];
      assert a == a[..at] + a[at..];
    }
  }

  lemma RefusedIff(w: World, p: Id, a: seq<XValue>, v: XValue)
    requires Owning(ArrayBox(a))
    ensures Refused(w, p, ArrayBox(a), {}, v) <==> !ValidChild(w, p, v) || (v.Object? && v.addr in Held(a))
  {
    if v.Object? { HasDuplicateIff(ArrayBox(a), v.addr); }
  }

  /** The accepted and the rejected values are the batch, split by `StaysBehind`, both in order. */
  lemma {:induction false} FillArraySplits(w: World, p: Id, a: seq<XValue>, pos: Key, vs: seq<XValue>)
    requires Owning(ArrayBox(a)) && forall v | v in vs :: !v.ConstObject?
    ensures var flags := Flags(w, p, Held(a), vs);
            && FillArray(w, p, a, pos, vs).accepted == Selected(vs, flags, false)
            && FillArray(w, p, a, pos, vs).rejected == Selected(vs, flags, true)
    decreases |vs|
  {
    if vs != [] {
      var v := vs[0];
      RefusedIff(w, p, a, v);
      FlagsStep(w, p, Held(a), vs);
      assert StaysBehind(w, p, Held(a), vs, 0) <==> Refused(w, p, ArrayBox(a), {}, v);
      if Refused(w, p, ArrayBox(a), {}, v) {
        if v.Object? && ValidChild(w, p, v) { assert Held(a) + iset{v.addr} == Held(a); }
        FillArraySplits(w, p, a, pos, vs[1..]);
      } else {
        var at := Position(a, pos).GetOr(|a|);
        EmplaceOwning(ArrayBox(a), pos, v);
        InsertedHeld(a, at, v);
        FillArraySplits(w, p, InsertAt(a, at, v), NextPosition(pos), vs[1..]);
      }
    }
  }

  lemma {:induction false} SelectedCounts(vs: seq<XValue>, flags: seq<bool>)
    requires |flags| == |vs|
    ensures |Selected(vs, flags, false)| + |Selected(vs, flags, true)| == |vs|
    ensures multiset(Selected(vs, flags, false)) + multiset(Selected(vs, flags, true)) == multiset(vs)
  {
    if vs != [] {
      SelectedCounts(vs[1..], flags[1..]);
      assert vs == [vs[0]] + vs[1..];
    }
  }

  // ----- where they end up -----

  /** At an ordinary position, or one behind the end, the accepted values stand there in order and
      the former content is around them. */
  lemma {:induction false} FillArrayAt(w: World, p: Id, a: seq<XValue>, i: nat, vs: seq<XValue>)
    ensures var f := FillArray(w, p, a, At(i), vs);
            var at := if i < |a| then i else |a|;
            f.a == a[..at] + f.accepted + a[at..]
    decreases |vs|
  {
    var at := if i < |a| then i else |a|;
    if vs == [] {
      assert a == a[..at] + [] + a[at..];
    } else if Refused(w, p, ArrayBox(a), {}, vs[0]) {
      FillArrayAt(w, p, a, i, vs[1..]);
    } else {
      var a1 := InsertAt(a, at, vs[0]);
      FillArrayAt(w, p, a1, i + 1, vs[1..]);
      assert a1[..at + 1] == a[..at] + [vs[0]] && a1[at + 1..] == a[at..];
    }
  }

  lemma {:induction false} FillArrayEnd(w: World, p: Id, a: seq<XValue>, vs: seq<XValue>)
    ensures FillArray(w, p, a, End, vs).a == a + FillArray(w, p, a, End, vs).accepted
    decreases |vs|
  {
    if vs != [] {
      if Refused(w, p, ArrayBox(a), {}, vs[0]) {
        FillArrayEnd(w, p, a, vs[1..]);
      } else {
        assert InsertAt(a, |a|, vs[0]) == a + [vs[0]];
        FillArrayEnd(w, p, a + [vs[0]], vs[1..]);
      }
    }
  }

  lemma {:induction false} FillArrayBeforeLast(w: World, p: Id, a: seq<XValue>, last: XValue, vs: seq<XValue>)
    ensures var f := FillArray(w, p, a + [last], Last, vs);
            f.a == a + f.accepted + [last]
    decreases |vs|
  {
    if vs != [] {
      var b := a + [last];
      if Refused(w, p, ArrayBox(b), {}, vs[0]) {
        FillArrayBeforeLast(w, p, a, last, vs[1..]);
      } else {
        assert InsertAt(b, |a|, vs[0]) == a + [vs[0]] + [last];
        FillArrayBeforeLast(w, p, a + [vs[0]], last, vs[1..]);
      }
    }
  }

  /** At kIdxLast they go in before the last value; into an empty array the first of them becomes
      that last value. */
  lemma {:induction false} FillArrayLast(w: World, p: Id, a: seq<XValue>, vs: seq<XValue>)
    ensures var f := FillArray(w, p, a, Last, vs);
            if a != [] then f.a == a[..|a| - 1] + f.accepted + [a[|a| - 1]]
            else if f.accepted == [] then f.a == []
            else f.a == f.accepted[1..] + [f.accepted[0]]
    decreases |vs|
  {
    if a != [] {
      assert a == a[..|a| - 1] + [a[|a| - 1]];
      FillArrayBeforeLast(w, p, a[..|a| - 1], a[|a| - 1], vs);
    } else if vs != [] {
      if Refused(w, p, ArrayBox(a), {}, vs[0]) {
        FillArrayLast(w, p, a, vs[1..]);
      } else {
        assert InsertAt(a, 0, vs[0]) == [] + [vs[0]];
        FillArrayBeforeLast(w, p, [], vs[0], vs[1..]);
      }
    }
  }

  // ----- the tree afterwards -----

  // One node, before and after the filling.
  lemma {:induction false} FillArrayNode(w: World, p: Id, a: seq<XValue>, pos: Key, vs: seq<XValue>, c: Id)
    requires Owning(ArrayBox(a)) && forall v | v in vs :: !v.ConstObject?
    ensures var f := FillArray(w, p, a, pos, vs);
            && (HoldsOnce(ArrayBox(a), c, "") ==> Object(c) !in f.accepted && HoldsOnce(ArrayBox(f.a), c, ""))
            && (HoldsNot(ArrayBox(a), c) ==>
                  if Object(c) in f.accepted then HoldsOnce(ArrayBox(f.a), c, "") && !Below(w.parent, p, c)
                                             else HoldsNot(ArrayBox(f.a), c))
    decreases |vs|
  {
    if vs != [] {
      var v := vs[0];
      if Refused(w, p, ArrayBox(a), {}, v) {
        FillArrayNode(w, p, a, pos, vs[1..], c);
      } else {
        EmplaceOwning(ArrayBox(a), pos, v);
        var a1 := Emplace(ArrayBox(a), pos, v).box.a;
        FillArrayNode(w, p, a1, NextPosition(pos), vs[1..], c);
        if v == Object(c) {
          HasDuplicateIff(ArrayBox(a), c);
          EmplacePlaces(ArrayBox(a), pos, c);
        } else {
          EmplaceSame(ArrayBox(a), pos, v, c);
        }
      }
    }
  }

  // One `SetAsChild_` for an array: the name stays, so it cannot mislead the former parent.
  lemma OneSettles(w: World, p: Id, todo: map<Id, string>, c: Id)
    requires Pending(w, p, todo) && w.box[p].ArrayBox? && c in todo
    requires forall d | d in todo :: !Below(w.parent, p, d)
    ensures var v := SetAsChild(w, p, c, None);
            && Pending(v, p, todo - {c})
            && v.parent == w.parent[c := Some(p)] && v.name == w.name
            && v.box[p] == w.box[p]
            && forall d | d in todo - {c} :: !Below(v.parent, p, d)
  {
    SetAsChildSettles(w, p, todo, c, None);
    SetAsChildEffect(w, p, c, None);
    assert NameFree(w, c, w.name[c]);
    assert w.name[c := w.name[c]] == w.name;
    forall d | d in todo - {c} ensures !Below(SetAsChild(w, p, c, None).parent, p, d) {
      NotBelowAfterReparent(w.parent, c, p, p, d);
    }
  }

  // All children of `todo` have become children of p.
  ghost predicate Settled(w: World, u: World, p: Id, todo: set<Id>)
    requires p in w.parent && p in w.box
  {
    && Agree(u)
    && u.parent.Keys == w.parent.Keys
    && u.box[p] == w.box[p]
    && (forall c | c in w.parent :: u.parent[c] == if c in todo then Some(p) else w.parent[c])
  }

  // The nodes of `todo` are all in the list, together at most with nodes that are settled already.
  ghost predicate Listed(w: World, p: Id, todo: set<Id>, cs: seq<Id>) {
    && (forall c | c in todo :: c in cs && !Below(w.parent, p, c))
    && forall c | c in cs :: c in w.parent && (c in todo || w.parent[c] == Some(p))
  }

  lemma SettledStep(w: World, v: World, u: World, p: Id, todo: set<Id>, c: Id)
    requires p in w.parent && p in w.box && c in todo && c in w.parent
    requires v.parent == w.parent[c := Some(p)] && p in v.box && v.box[p] == w.box[p]
    requires Settled(v, u, p, todo - {c})
    ensures Settled(w, u, p, todo)
  {
  }

  lemma NothingSettles(w: World, p: Id, todo: map<Id, string>)
    requires Pending(w, p, todo) && todo.Keys == {}
    ensures Settled(w, w, p, todo.Keys)
  {
    assert todo == map[];
    PendingNothing(w, p);
  }

  lemma FirstSettles(w: World, p: Id, todo: map<Id, string>, cs: seq<Id>)
    requires Pending(w, p, todo) && w.box[p].ArrayBox? && Listed(w, p, todo.Keys, cs) && cs != []
    ensures var c := cs[0];
            var v := SetAsChild(w, p, c, None);
            if c in todo then
              && Pending(v, p, todo - {c}) && (todo - {c}).Keys == todo.Keys - {c}
              && Listed(v, p, todo.Keys - {c}, cs[1..])
              && v.parent == w.parent[c := Some(p)] && p in v.box && v.box[p] == w.box[p]
            else v == w && Listed(w, p, todo.Keys, cs[1..])
  {
    hide SetAsChild, Below, PendingAt, Owning, RefersTo, Closed;
    var c := cs[0];
    assert forall d | d in cs :: d == c || d in cs[1..];
    if c in todo {
      hide Pending;
      OneSettles(w, p, todo, c);
    } else {
      NotAdoptedStays(w, p, c, None);
    }
  }

  lemma {:induction false} SetAllSettles(w: World, p: Id, todo: map<Id, string>, cs: seq<Id>)
    requires Pending(w, p, todo) && w.box[p].ArrayBox? && Listed(w, p, todo.Keys, cs)
    ensures Settled(w, SetAllAsChildren(w, p, cs), p, todo.Keys)
    decreases |cs|
  {
    hide SetAsChild, Settled, PendingAt, Owning, RefersTo, Closed;
    if cs == [] {
      NothingSettles(w, p, todo);
    } else {
      var c := cs[0];
      var v := SetAsChild(w, p, c, None);
      FirstSettles(w, p, todo, cs);
      if c in todo {
        SetAllSettles(v, p, todo - {c}, cs[1..]);
        SettledStep(w, v, SetAllAsChildren(w, p, cs), p, todo.Keys, c);
      } else {
        SetAllSettles(w, p, todo, cs[1..]);
      }
    }
  }

  /** `BulkInsert` at a position keeps the agreement. */
  lemma BulkInsertAtAgrees(w: World, p: Id, pos: Key, vs: seq<XValue>)
    requires Agree(w) && p in w.parent && forall v | v in vs :: Storable(w, v)
    ensures Agree(BulkInsertAt(w, p, pos, vs))
  {
    if !pos.Name? && w.box[p].ArrayBox? { AcceptedMove(w, p, pos, vs); }
  }

  /** Every accepted node is a child of p afterwards (so that, by the agreement, no other container
      holds it any more), and p's container is the filled one. */
  lemma AcceptedMove(w: World, p: Id, pos: Key, vs: seq<XValue>)
    requires Agree(w) && p in w.parent && w.box[p].ArrayBox? && !pos.Name?
    requires forall v | v in vs :: Storable(w, v)
    ensures var u := BulkInsertAt(w, p, pos, vs);
            var f := FillArray(w, p, w.box[p].a, InsertPosition(pos), vs);
            && Agree(u)
            && u.parent.Keys == w.parent.Keys
            && u.box[p] == ArrayBox(f.a)
            && forall c | c in w.parent :: u.parent[c] == if Object(c) in f.accepted then Some(p) else w.parent[c]
  {
    hide Below, Fits, Owning, RefersTo, FillArray, SetAsChild, PendingAt, Closed;
    var f := FillArray(w, p, w.box[p].a, InsertPosition(pos), vs);
    AcceptedAreKnown(w, p, w.box[p].a, InsertPosition(pos), vs);
    var todo := map c | c in NodesOf(f.accepted) :: "";
    FilledIsPending(w, p, InsertPosition(pos), vs, todo);
    SetAllSettles(WithBox(w, p, ArrayBox(f.a)), p, todo, NodesOf(f.accepted));
  }

  // The values stand in the array at the position: an index within it, the last slot, or else the end.
  function Inserted(a: seq<XValue>, pos: Key, vs: seq<XValue>): seq<XValue> {
    if pos.At? && pos.i < |a| then a[..pos.i] + vs + a[pos.i..]
    else if pos.Last? && a != [] then a[..|a| - 1] + vs + [a[|a| - 1]]
    else if pos.Last? && vs != [] then vs[1..] + [vs[0]]
    else a + vs
  }

  lemma FilledIsInserted(w: World, p: Id, a: seq<XValue>, pos: Key, vs: seq<XValue>)
    requires !pos.Name?
    ensures var f := FillArray(w, p, a, InsertPosition(pos), vs); f.a == Inserted(a, pos, f.accepted)
  {
    hide FillArray;
    match pos
    case At(i) => FillArrayAt(w, p, a, i, vs); assert a[..|a|] == a && a[|a|..] == [];
    case Last => FillArrayLast(w, p, a, vs);
    case _ => FillArrayEnd(w, p, a, vs);
  }

  /** What is read after `BulkInsert` at a position: the values of the batch that do not stay behind, in order and in
      one piece; a position that is none means the end. A name, or a map, is refused. */
  lemma BulkInsertAtReads(w: World, p: Id, pos: Key, vs: seq<XValue>)
    requires Agree(w) && p in w.parent && forall v | v in vs :: Storable(w, v)
    ensures var u, b := BulkInsertAt(w, p, pos, vs), w.box[p];
            if pos.Name? || b.MapBox? then u == w
            else p in u.box
                 && u.box[p] == ArrayBox(Inserted(b.a, pos, Selected(vs, Flags(w, p, Held(b.a), vs), false)))
  {
    if !pos.Name? && w.box[p].ArrayBox? {
      AcceptedMove(w, p, pos, vs);
      FilledIsInserted(w, p, w.box[p].a, pos, vs);
      assert Owning(w.box[p]);
      hide *;
      FillArraySplits(w, p, w.box[p].a, InsertPosition(pos), vs);
    }
  }

  lemma FilledIsPending(w: World, p: Id, pos: Key, vs: seq<XValue>, todo: map<Id, string>)
    requires Agree(w) && p in w.parent && w.box[p].ArrayBox? && forall v | v in vs :: Storable(w, v)
    requires forall c :: c in todo <==> Object(c) in FillArray(w, p, w.box[p].a, pos, vs).accepted
    requires todo.Keys <= w.parent.Keys
    ensures Pending(WithBox(w, p, ArrayBox(FillArray(w, p, w.box[p].a, pos, vs).a)), p, todo)
    ensures forall c | c in todo :: !Below(w.parent, p, c)
  {
    var o := ArrayBox(FillArray(w, p, w.box[p].a, pos, vs).a);
    FilledIsValid(w, p, pos, vs);
    forall y | y in w.parent
      ensures y in todo ==> w.parent[y] != Some(p) && !Below(w.parent, p, y)
      ensures forall x | x in w.parent :: PendingAt(WithBox(w, p, o), p, todo, x, y)
    {
      assert Fits(w, p, y);
      FillArrayNode(w, p, w.box[p].a, pos, vs, y);
      forall x | x in w.parent ensures PendingAt(WithBox(w, p, o), p, todo, x, y) { FilledAt(w, p, o, todo, x, y); }
    }
  }

  lemma FilledAt(w: World, p: Id, o: Box, todo: map<Id, string>, x: Id, y: Id)
    requires Agree(w) && p in w.parent && x in w.parent && y in w.parent && o.ArrayBox? && w.box[p].ArrayBox?
    requires w.parent[y] == Some(p) ==> y !in todo && HoldsOnce(o, y, "")
    requires w.parent[y] != Some(p) ==> if y in todo then HoldsOnce(o, y, "") else HoldsNot(o, y)
    ensures PendingAt(WithBox(w, p, o), p, todo, x, y)
  {
    assert Fits(w, x, y);
  }
}
