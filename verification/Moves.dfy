/** The single steps that calls are made of. Parent pointers are set by `PrivateParentSet` only, so that they stay a
    forest whatever the containers do in between: listeners may veto any container change, and the steps of
    different calls may be mixed. */
module Moves {
  import opened Wrappers
  import opened XValues
  import opened Boxes
  import opened Holding
  import opened Worlds
  import opened TreeOps
  import opened Forest
  import opened BulkInserts
  import opened ArrayInserts
  import opened Writings
  import opened TreeRuns
  import Order

  datatype Move =
    | Born(id: Id, isMap: bool, name: string)
    | Rewritten(p: Id, b: Box)
    | Renamed(c: Id, name: string)
    | Reparented(c: Id, newParent: Option<Id>, rename: Option<string>)

  ghost predicate Can(w: World, move: Move) {
    match move
    case Born(id, _, _) => id !in w.parent
    case Rewritten(p, _) => p in w.parent
    case Renamed(c, _) => c in w.parent
    case Reparented(c, p, _) => c in w.parent && (p.Some? ==> p.value in w.parent)
  }

  ghost function Moved(w: World, move: Move): World
    requires Shaped(w) && Can(w, move)
  {
    match move
    case Born(id, isMap, name) => Create(w, id, isMap, name)
    case Rewritten(p, b) => WithBox(w, p, b)
    case Renamed(c, name) => w.(name := w.name[c := name])
    case Reparented(c, p, rename) => PrivateParentSet(w, c, p, rename).w
  }

  ghost predicate MovesTo(w: World, moves: seq<Move>, v: World)
    decreases |moves|
  {
    if moves == [] then w == v
    else Shaped(w) && Can(w, moves[0]) && MovesTo(Moved(w, moves[0]), moves[1..], v)
  }

  lemma MoveKeepsForest(w: World, move: Move)
    requires Shaped(w) && Acyclic(w.parent) && Can(w, move)
    ensures Shaped(Moved(w, move)) && Acyclic(Moved(w, move).parent)
  {
    match move
    case Born(id, isMap, name) =>
      var rank :| Ranked(w.parent, rank);
      assert Ranked(w.parent[id := None], rank[id := 0]);
    case Rewritten(_, _) =>
    case Renamed(_, _) =>
    case Reparented(c, p, rename) =>
      ReparentClosed(w.parent, c, p);
      match p {
        case None => DetachKeepsForest(w.parent, c);
        case Some(q) => if !Below(w.parent, q, c) { ReparentKeepsForest(w.parent, c, q); }
      }
  }

  /** Whatever steps are made, in whatever order and with whatever containers, the parent pointers form a forest. */
  lemma {:induction false} EveryMoveKeepsForest(w: World, moves: seq<Move>, v: World)
    requires Shaped(w) && Acyclic(w.parent) && MovesTo(w, moves, v)
    ensures Shaped(v) && Acyclic(v.parent)
    decreases |moves|
  {
    if moves != [] {
      MoveKeepsForest(w, moves[0]);
      EveryMoveKeepsForest(Moved(w, moves[0]), moves[1..], v);
    }
  }

  // ----- every call is made of such steps -----

  ghost predicate Reaches(w: World, v: World) {
    exists moves :: MovesTo(w, moves, v)
  }

  lemma {:induction false} MovesOn(w: World, one: seq<Move>, u: World, two: seq<Move>, v: World)
    requires MovesTo(w, one, u) && MovesTo(u, two, v)
    ensures MovesTo(w, one + two, v)
    decreases |one|
  {
    if one == [] {
      assert one + two == two;
    } else {
      assert (one + two)[0] == one[0] && (one + two)[1..] == one[1..] + two;
      MovesOn(Moved(w, one[0]), one[1..], u, two, v);
    }
  }

  lemma ReachesOn(w: World, u: World, v: World)
    requires Reaches(w, u) && Reaches(u, v)
    ensures Reaches(w, v)
  {
    var one :| MovesTo(w, one, u);
    var two :| MovesTo(u, two, v);
    MovesOn(w, one, u, two, v);
  }

  lemma ReachesSelf(w: World)
    ensures Reaches(w, w)
  {
    assert MovesTo(w, [], w);
  }

  lemma OneMove(w: World, move: Move)
    requires Shaped(w) && Can(w, move)
    ensures Reaches(w, Moved(w, move))
  {
    hide Moved, Can;
    assert [move][1..] == [];
    assert MovesTo(Moved(w, move), [move][1..], Moved(w, move));
    assert MovesTo(w, [move], Moved(w, move));
  }

  lemma BoxMove(w: World, p: Id, b: Box)
    requires Shaped(w) && p in w.parent
    ensures Reaches(w, WithBox(w, p, b)) && Shaped(WithBox(w, p, b))
  {
    OneMove(w, Rewritten(p, b));
  }

  lemma ParentMove(w: World, c: Id, p: Option<Id>, rename: Option<string>)
    requires Shaped(w) && c in w.parent && (p.Some? ==> p.value in w.parent)
    ensures var v := PrivateParentSet(w, c, p, rename).w;
            Reaches(w, v) && Shaped(v) && v.parent.Keys == w.parent.Keys
  {
    OneMove(w, Reparented(c, p, rename));
    ReparentClosed(w.parent, c, p);
  }

  // Setting the parent and erasing the node from the container of the former one.
  lemma LeaveMoves(w: World, c: Id, p: Option<Id>, rename: Option<string>)
    requires Shaped(w) && c in w.parent && (p.Some? ==> p.value in w.parent)
    ensures var r := PrivateParentSet(w, c, p, rename);
            && (r.ok && r.prev.Some? ==> r.prev.value in r.w.box && c in r.w.name)
            && var v := if r.ok && r.prev.Some? then PrivateErase(r.w, r.prev.value, c) else r.w;
               Reaches(w, v) && Shaped(v) && v.parent.Keys == w.parent.Keys
  {
    hide ErasedBox, Below, Reaches;
    var r := PrivateParentSet(w, c, p, rename);
    ParentMove(w, c, p, rename);
    if r.ok && r.prev.Some? {
      BoxMove(r.w, r.prev.value, ErasedBox(r.w.box[r.prev.value], c, r.w.name[c]));
      ReachesOn(w, r.w, PrivateErase(r.w, r.prev.value, c));
    }
  }

  lemma DetachMoves(w: World, c: Id)
    requires Shaped(w) && c in w.parent
    ensures var v := ParentDetach(w, c); Reaches(w, v) && Shaped(v) && v.parent.Keys == w.parent.Keys
  {
    LeaveMoves(w, c, None, None);
  }

  lemma AdoptMoves(w: World, p: Id, c: Id, rename: Option<string>)
    requires Shaped(w) && c in w.parent && p in w.parent
    ensures var v := SetAsChild(w, p, c, rename); Reaches(w, v) && Shaped(v) && v.parent.Keys == w.parent.Keys
  {
    LeaveMoves(w, c, Some(p), rename);
  }

  lemma {:induction false} DetachAllMoves(w: World, cs: seq<Id>)
    requires Shaped(w) && forall c | c in cs :: c in w.parent
    ensures Reaches(w, DetachAll(w, cs))
    decreases |cs|
  {
    hide ParentDetach, Reaches;
    if cs == [] {
      ReachesSelf(w);
    } else {
      DetachMoves(w, cs[0]);
      DetachAllMoves(ParentDetach(w, cs[0]), cs[1..]);
      ReachesOn(w, ParentDetach(w, cs[0]), DetachAll(w, cs));
    }
  }

  lemma {:induction false} AdoptInTurnMoves(w: World, p: Id, placed: seq<(Id, Key)>)
    requires Shaped(w) && p in w.parent && PlacedKnown(w, placed)
    ensures Reaches(w, AdoptInTurn(w, p, placed))
    decreases |placed|
  {
    hide SetAsChild, Reaches;
    if placed == [] {
      ReachesSelf(w);
    } else {
      var v := SetAsChild(w, p, placed[0].0, KeyName(placed[0].1));
      AdoptMoves(w, p, placed[0].0, KeyName(placed[0].1));
      AdoptInTurnMoves(v, p, placed[1..]);
      ReachesOn(w, v, AdoptInTurn(w, p, placed));
    }
  }

  lemma {:induction false} SetAllMoves(w: World, p: Id, cs: seq<Id>)
    requires Shaped(w) && p in w.parent && forall c | c in cs :: c in w.parent
    ensures Reaches(w, SetAllAsChildren(w, p, cs))
    decreases |cs|
  {
    hide SetAsChild, Reaches;
    if cs == [] {
      ReachesSelf(w);
    } else {
      var v := SetAsChild(w, p, cs[0], None);
      AdoptMoves(w, p, cs[0], None);
      SetAllMoves(v, p, cs[1..]);
      ReachesOn(w, v, SetAllAsChildren(w, p, cs));
    }
  }

  lemma {:induction false} AdoptAllMoves(w: World, p: Id, todo: map<Id, Option<string>>)
    requires Shaped(w) && p in w.parent && todo.Keys <= w.parent.Keys
    ensures Reaches(w, AdoptAll(w, p, todo))
    decreases todo.Keys
  {
    hide SetAsChild, ParentDetach, Reaches;
    if todo == map[] {
      ReachesSelf(w);
    } else {
      var c := Order.Least(todo.Keys);
      var u := ParentDetach(w, c);
      DetachMoves(w, c);
      AdoptMoves(u, p, c, todo[c]);
      ReachesOn(w, u, Adopt(w, p, c, todo[c]));
      AdoptAllMoves(Adopt(w, p, c, todo[c]), p, todo - {c});
      ReachesOn(w, Adopt(w, p, c, todo[c]), AdoptAll(w, p, todo));
    }
  }

  lemma SettleMoves(w: World, p: Id, x: Writing)
    requires Shaped(w) && p in w.parent && Known(w, x)
    ensures Reaches(w, Settle(w, p, x))
  {
    hide Reaches, Cleaned, DetachAll, AdoptInTurn;
    var u := WithBox(w, p, Cleaned(x.box, x.placed));
    BoxMove(w, p, Cleaned(x.box, x.placed));
    DetachAllMoves(u, x.gone);
    DetachAllShaped(u, x.gone);
    AdoptInTurnMoves(Cut(w, p, x), p, x.placed);
    ReachesOn(w, u, Cut(w, p, x));
    ReachesOn(w, Cut(w, p, x), Settle(w, p, x));
  }

  // ----- call by call -----

  // A container change, a displaced node let go of, and a node adopted.
  lemma StoreMoves(w: World, p: Id, b: Box, prev: XValue, v: XValue, rename: Option<string>)
    requires Shaped(w) && p in w.parent
    requires (prev.Object? ==> prev.addr in w.parent) && (v.Object? ==> v.addr in w.parent)
    ensures var u := Orphan(WithBox(w, p, b), prev);
            && Shaped(u) && u.parent.Keys == w.parent.Keys
            && Reaches(w, if v.Object? then SetAsChild(u, p, v.addr, rename) else u)
  {
    hide Reaches, SetAsChild, PrivateParentSet, Shaped;
    var u := WithBox(w, p, b);
    BoxMove(w, p, b);
    if prev.Object? {
      ShapedKeys(u);
      ParentMove(u, prev.addr, None, None);
      ReachesOn(w, u, Orphan(u, prev));
    }
    if v.Object? {
      AdoptMoves(Orphan(u, prev), p, v.addr, rename);
      ReachesOn(w, Orphan(u, prev), SetAsChild(Orphan(u, prev), p, v.addr, rename));
    }
  }

  lemma ShapedKeys(w: World)
    requires Shaped(w)
    ensures w.parent.Keys == w.name.Keys == w.box.Keys
  {
  }

  lemma SetMoves(w: World, p: Id, key: Key, v: XValue)
    requires Valid(w) && p in w.parent && Storable(w, v)
    ensures Reaches(w, Set(w, p, key, v).w)
  {
    hide Reaches, SetAsChild, Orphan, Put, Resolve, RemoveDuplicate, ValidChild;
    ReachesSelf(w);
    var k := Resolve(w.box[p], key);
    var r := Put(w.box[p], k, v);
    var b := if v.Object? then RemoveDuplicate(r.box, v.addr, k) else r.box;
    if r.prev.Object? { PutPrevIsKnown(w, p, k, v); }
    BoxMove(w, p, r.box);
    StoreMoves(w, p, b, r.prev, v, KeyName(k));
  }

  lemma InsertMoves(w: World, p: Id, key: Key, v: XValue)
    requires Valid(w) && p in w.parent && Storable(w, v)
    ensures Reaches(w, Insert(w, p, key, v).w)
  {
    hide Reaches, SetAsChild, Emplace, ValidChild, HasDuplicate;
    ReachesSelf(w);
    var r := Emplace(w.box[p], key, v);
    StoreMoves(w, p, r.box, Empty, v, KeyName(r.key));
  }

  lemma CompareExchangeMoves(w: World, p: Id, key: Key, expected: XValue, v: XValue)
    requires Valid(w) && p in w.parent && Storable(w, v)
    ensures Reaches(w, CompareExchange(w, p, key, expected, v).w)
  {
    hide Reaches, SetAsChild, Put, Found, Eq, Resolve;
    ReachesSelf(w);
    var k := Resolve(w.box[p], key);
    StoreMoves(w, p, Put(w.box[p], k, v).box, Empty, v, KeyName(k));
  }

  lemma EraseKeyMoves(w: World, p: Id, key: Key)
    requires Valid(w) && p in w.parent
    ensures Reaches(w, EraseKey(w, p, key).w)
  {
    hide Reaches, ParentDetach, Erase, Resolve;
    var k := Resolve(w.box[p], key);
    var e := Erase(w.box[p], k);
    var u := WithBox(w, p, e.box);
    BoxMove(w, p, e.box);
    if e.erased.Some? && e.erased.value.Object? {
      ErasedIsKnown(w, p, k);
      DetachMoves(u, e.erased.value.addr);
      ReachesOn(w, u, ParentDetach(u, e.erased.value.addr));
    }
  }

  lemma ParentSetMoves(w: World, c: Id, p: Option<Id>, rename: Option<string>)
    requires Valid(w) && c in w.parent && (p.Some? ==> p.value in w.parent)
    ensures Reaches(w, ParentSet(w, c, p, rename).w)
  {
    hide Reaches, Adopted, ErasedBox, Below, Owning;
    ReachesSelf(w);
    LeaveMoves(w, c, p, rename);
    var r := PrivateParentSet(w, c, p, rename);
    var u := if r.ok && r.prev.Some? then PrivateErase(r.w, r.prev.value, c) else r.w;
    if r.ok && p.Some? {
      var b := Adopted(u.box[p.value], c, u.name[c]);
      BoxMove(u, p.value, b);
      ReachesOn(w, u, WithBox(u, p.value, b));
    }
  }

  lemma KeyChangeMoves(w: World, p: Id, from: Key, to: Key)
    requires Valid(w) && p in w.parent
    ensures Reaches(w, KeyChange(w, p, from, to).w)
  {
    hide Reaches, Put, Erase, Get, Resolve;
    ReachesSelf(w);
    var b := w.box[p];
    var k := Resolve(b, from);
    var e := Erase(b, k);
    if e.erased.Some? {
      var v := e.erased.value;
      var u := WithBox(w, p, Put(e.box, to, v).box);
      BoxMove(w, p, Put(e.box, to, v).box);
      if to.Name? && v.Object? {
        ErasedIsKnown(w, p, k);
        OneMove(u, Renamed(v.addr, to.s));
        ReachesOn(w, u, u.(name := u.name[v.addr := to.s]));
      }
    }
  }

  lemma ReleaseMoves(w: World, p: Id, b: Box, cs: seq<Id>)
    requires Shaped(w) && p in w.parent && forall c | c in cs :: c in w.parent
    ensures Reaches(w, DetachAll(WithBox(w, p, b), cs))
  {
    hide Reaches, DetachAll;
    BoxMove(w, p, b);
    DetachAllMoves(WithBox(w, p, b), cs);
    ReachesOn(w, WithBox(w, p, b), DetachAll(WithBox(w, p, b), cs));
  }

  lemma ClearMoves(w: World, p: Id)
    requires Valid(w) && p in w.parent
    ensures Reaches(w, Clear(w, p))
  {
    hide Reaches, DetachAll, Values;
    var cs := NodesOf(Values(w.box[p]));
    forall c | c in cs ensures c in w.parent { ValuesAreStored(w.box[p], c); }
    ReleaseMoves(w, p, Cleared(w.box[p]), cs);
  }

  lemma BulkEraseMoves(w: World, p: Id, keys: seq<Key>)
    requires Valid(w) && p in w.parent
    ensures Reaches(w, BulkErase(w, p, keys))
  {
    hide Reaches, DetachAll, Extract;
    var ks := ResolveAll(w.box[p], keys);
    var x := Extract(w.box[p], ks);
    forall c | c in NodesOf(x.vals) ensures c in w.parent { ExtractedIsStored(w.box[p], ks, c); }
    ReleaseMoves(w, p, x.box, NodesOf(x.vals));
  }

  lemma BulkInsertMoves(w: World, p: Id, kvs: seq<(Key, XValue)>)
    requires Valid(w) && p in w.parent && AllStorable(w, kvs)
    ensures Reaches(w, BulkInsert(w, p, kvs))
  {
    hide Reaches, AdoptAll, Fill;
    var f := Fill(w, p, w.box[p], map[], kvs);
    FillIsKnown(w, p, w.box[p], map[], kvs);
    var u := WithBox(w, p, f.box);
    BoxMove(w, p, f.box);
    AdoptAllMoves(u, p, f.todo);
    ReachesOn(w, u, AdoptAll(u, p, f.todo));
  }

  lemma BulkInsertAtMoves(w: World, p: Id, pos: Key, vs: seq<XValue>)
    requires Valid(w) && p in w.parent && forall v | v in vs :: Storable(w, v)
    ensures Reaches(w, BulkInsertAt(w, p, pos, vs))
  {
    hide Reaches, SetAllAsChildren, FillArray;
    ReachesSelf(w);
    if !pos.Name? && w.box[p].ArrayBox? {
      var f := FillArray(w, p, w.box[p].a, InsertPosition(pos), vs);
      AcceptedAreKnown(w, p, w.box[p].a, InsertPosition(pos), vs);
      var u := WithBox(w, p, ArrayBox(f.a));
      BoxMove(w, p, ArrayBox(f.a));
      SetAllMoves(u, p, NodesOf(f.accepted));
      ReachesOn(w, u, SetAllAsChildren(u, p, NodesOf(f.accepted)));
    }
  }

  lemma NameSetMoves(w: World, c: Id, name: string, updateParent: bool)
    requires Valid(w) && c in w.parent
    ensures Reaches(w, NameSet(w, c, name, updateParent).w)
  {
    hide Reaches, KeyChange;
    ReachesSelf(w);
    OneMove(w, Renamed(c, name));
    if w.parent[c].Some? { KeyChangeMoves(w, w.parent[c].value, Name(w.name[c]), Name(name)); }
  }

  /** Every call is made of such steps. A veto of a listener leaves some of them out, which is a list of steps
      again, and so is any mixture of the steps of several calls. */
  lemma StepIsMoves(w: World, call: Call)
    requires Valid(w) && Possible(w, call)
    ensures Reaches(w, Step(w, call))
  {
    hide Reaches, Set, Insert, CompareExchange, EraseKey, ParentSet, KeyChange, Clear, BulkErase, BulkInsert;
    hide BulkInsertAt, Settle, NameSet, AmendedBox;
    match call
    case CreateCall(id, isMap, name) => OneMove(w, Born(id, isMap, name));
    case SetCall(p, key, v) => SetMoves(w, p, key, v);
    case InsertCall(p, key, v) => InsertMoves(w, p, key, v);
    case CompareExchangeCall(p, key, expected, v) => CompareExchangeMoves(w, p, key, expected, v);
    case EraseCall(p, key) => EraseKeyMoves(w, p, key);
    case ParentSetCall(c, p, rename) => ParentSetMoves(w, c, p, rename);
    case KeyChangeCall(p, from, to) => KeyChangeMoves(w, p, from, to);
    case ClearCall(p) => ClearMoves(w, p);
    case BulkInsertCall(p, kvs) => BulkInsertMoves(w, p, kvs);
    case BulkInsertAtCall(p, key, vs) => BulkInsertAtMoves(w, p, key, vs);
    case BulkEraseCall(p, keys) => BulkEraseMoves(w, p, keys);
    case BulkSetCall(p, kvs) =>
      BulkSetKnown(w, p, kvs);
      SettleMoves(w, p, BulkSetWriting(w, p, kvs));
    case AmendCall(p, key, change, v) => BoxMove(w, p, AmendedBox(w.box[p], key, change, v));
    case NameSetCall(c, name, updateParent) => NameSetMoves(w, c, name, updateParent);
    case ForEachCall(p, f, begin) =>
      ForEachKnown(w, p, f, begin);
      SettleMoves(w, p, ForEachWriting(w.box[p], f, begin));
  }
}
