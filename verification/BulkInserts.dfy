/** `BulkInsert` of keyed values keeps the agreement, whatever values and keys are given. */
module BulkInserts {
  import opened Wrappers
  import opened XValues
  import opened Boxes
  import opened Holding
  import opened Worlds
  import Order
  import opened Agreement
  import opened TreeOps
  import opened Forest

  type Todo = map<Id, Option<string>>

  // ----- keyed values: filling the container -----

  ghost predicate HoldsTwice(b: Box, c: Id, one: string, two: string) {
    && b.MapBox? && one != two
    && one in b.m && two in b.m && b.m[one] == b.m[two] == Object(c)
    && forall s | s in b.m && s != one && s != two :: b.m[s] != Object(c)
  }

  // While p is being filled: its own child may stand in the map twice, under its old name and the
  // new one; a node from elsewhere stands there once.
  ghost predicate FilledAt(w: World, p: Id, b: Box, todo: Todo, y: Id)
    requires y in w.parent && y in w.name
  {
    if y in todo then
      && (b.MapBox? <==> todo[y].Some?) && todo[y] != Some("")
      && if w.parent[y] == Some(p) then b.MapBox? && HoldsTwice(b, y, w.name[y], todo[y].value)
         else HoldsOnce(b, y, todo[y].GetOr(""))
    else if w.parent[y] == Some(p) then HoldsOnce(b, y, w.name[y])
    else HoldsNot(b, y)
  }

  ghost predicate Fillable(w: World, p: Id, b: Box, todo: Todo) {
    && Owning(b)
    && todo.Keys <= w.parent.Keys
    && (forall c | c in todo :: !Below(w.parent, p, c))
    && forall y | y in w.parent && y in w.name :: FilledAt(w, p, b, todo, y)
  }

  lemma EmplaceTwice(b: Box, k: Key, v: XValue, c: Id, one: string, two: string)
    requires HoldsTwice(b, c, one, two) && v != Object(c)
    ensures HoldsTwice(Emplace(b, k, v).box, c, one, two)
  {
  }

  lemma EmplaceSecond(b: Box, k: Key, c: Id, name: string)
    requires b.MapBox? && HoldsOnce(b, c, name) && Emplace(b, k, Object(c)).ok
    ensures HoldsTwice(Emplace(b, k, Object(c)).box, c, name, k.s)
  {
  }

  lemma FillOther(w: World, p: Id, b: Box, todo: Todo, k: Key, v: XValue, next: Todo, y: Id)
    requires y in w.parent && y in w.name && FilledAt(w, p, b, todo, y) && v != Object(y)
    requires (y in next <==> y in todo) && (y in todo ==> next[y] == todo[y])
    ensures FilledAt(w, p, Emplace(b, k, v).box, next, y)
  {
    EmplaceSame(b, k, v, y);
    if y in todo && w.parent[y] == Some(p) { EmplaceTwice(b, k, v, y, w.name[y], todo[y].value); }
  }

  lemma FillNode(w: World, p: Id, b: Box, todo: Todo, k: Key, c: Id)
    requires c in w.parent && c in w.name && FilledAt(w, p, b, todo, c) && Owning(b)
    requires c !in todo && !HasDuplicate(b, c) && Emplace(b, k, Object(c)).ok
    ensures FilledAt(w, p, Emplace(b, k, Object(c)).box, todo[c := KeyName(Emplace(b, k, Object(c)).key)], c)
  {
    if b.ArrayBox? { HasDuplicateIff(b, c); }
    if w.parent[c] == Some(p) {
      EmplaceSecond(b, k, c, w.name[c]);
    } else {
      EmplacePlaces(b, k, c);
    }
  }

  lemma {:induction false} FillKeeps(w: World, p: Id, b: Box, todo: Todo, kvs: seq<(Key, XValue)>)
    requires Shaped(w) && AllStorable(w, kvs) && Fillable(w, p, b, todo)
    ensures Fillable(w, p, Fill(w, p, b, todo, kvs).box, Fill(w, p, b, todo, kvs).todo)
    ensures Fill(w, p, b, todo, kvs).box.MapBox? == b.MapBox?
    decreases |kvs|
  {
    if kvs != [] {
      var (k, v) := kvs[0];
      var e := Emplace(b, k, v);
      assert Storable(w, v) && AllStorable(w, kvs[1..]);
      if Refused(w, p, b, todo.Keys, v) || !e.ok {
        FillKeeps(w, p, b, todo, kvs[1..]);
      } else {
        var next := if v.Object? then todo[v.addr := KeyName(e.key)] else todo;
        EmplaceOwning(b, k, v);
        forall y | y in w.parent && y in w.name ensures FilledAt(w, p, e.box, next, y) {
          if v == Object(y) { FillNode(w, p, b, todo, k, y); } else { FillOther(w, p, b, todo, k, v, next, y); }
        }
        FillKeeps(w, p, e.box, next, kvs[1..]);
      }
    }
  }

  // ----- keyed values: adopting the nodes -----

  // p's container is filled; the nodes of `todo` still have their former parent and name.
  ghost predicate Filled(w: World, p: Id, todo: Todo) {
    && Valid(w)
    && p in w.parent
    && todo.Keys <= w.parent.Keys
    && (forall c | c in todo :: !Below(w.parent, p, c))
    && forall x, y {:trigger AdoptingAt(w, p, todo, x, y)} | x in w.parent && y in w.parent ::
         AdoptingAt(w, p, todo, x, y)
  }

  ghost predicate AdoptingAt(w: World, p: Id, todo: Todo, x: Id, y: Id)
    requires x in w.box && y in w.parent && y in w.name
  {
    if x == p then FilledAt(w, p, w.box[p], todo, y) else Fits(w, x, y)
  }

  lemma FilledNothing(w: World, p: Id)
    requires Filled(w, p, map[])
    ensures Agree(w)
  {
    forall x, y | x in w.parent && y in w.parent ensures Fits(w, x, y) { assert AdoptingAt(w, p, map[], x, y); }
  }

  lemma ErasedOneOfTwo(b: Box, c: Id, one: string, two: string)
    requires Owning(b) && HoldsTwice(b, c, one, two)
    ensures HoldsOnce(ErasedBox(b, c, one), c, two)
    ensures forall y | y != c :: Same(b, ErasedBox(b, c, one), y)
    ensures forall y, s, t | y != c && HoldsTwice(b, y, s, t) :: HoldsTwice(ErasedBox(b, c, one), y, s, t)
  {
    assert ErasedBox(b, c, one) == MapBox(b.m[one := Empty]);
  }

  // Detaching a node of `todo` takes its old entry away, be it in another container or in p's own.
  lemma DetachFilled(w: World, p: Id, todo: Todo, c: Id)
    requires Filled(w, p, todo) && c in todo
    ensures Filled(ParentDetach(w, c), p, todo)
    ensures ParentDetach(w, c).parent == w.parent[c := None] && ParentDetach(w, c).name == w.name
  {
    var v := ParentDetach(w, c);
    assert w.name[c := w.name[c]] == w.name;
    if w.parent[c].None? {
      assert w.parent[c := None] == w.parent;
    } else {
      var q := w.parent[c].value;
      assert AdoptingAt(w, p, todo, q, c) && AdoptingAt(w, p, todo, p, c);
      ErasedKeepsValid(w, v, q, c, w.name[c]);
      forall d | d in todo ensures !Below(v.parent, p, d) { NotBelowAfterDetach(w.parent, c, p, d); }
      forall x, y | x in v.parent && y in v.parent ensures AdoptingAt(v, p, todo, x, y) {
        assert AdoptingAt(w, p, todo, x, y);
        DetachFilledAt(w, v, p, todo, c, q, x, y);
      }
    }
  }

  lemma DetachFilledAt(w: World, v: World, p: Id, todo: Todo, c: Id, q: Id, x: Id, y: Id)
    requires Shaped(w) && p in w.parent && c in w.parent && q in w.parent && x in w.parent && y in w.parent
    requires c in todo && w.parent[c] == Some(q) && Owning(w.box[q])
    requires v == World(w.parent[c := None], w.name, w.box[q := ErasedBox(w.box[q], c, w.name[c])])
    requires AdoptingAt(w, p, todo, q, c) && AdoptingAt(w, p, todo, p, c) && AdoptingAt(w, p, todo, x, y)
    ensures AdoptingAt(v, p, todo, x, y)
  {
    hide Closed, Owning;
    if q == p {
      if x == p { ErasedOneOfTwo(w.box[p], c, w.name[c], todo[c].value); }
    } else if x == q {
      if y == c {
        ErasedBoxIff(w.box[q], c, w.name[c], w.name[c]);
      } else {
        ErasedBoxSame(w.box[q], c, w.name[c], w.name[c], y);
      }
    }
  }

  lemma AttachFilled(w: World, p: Id, todo: Todo, c: Id)
    requires Filled(w, p, todo) && c in todo && w.parent[c].None?
    ensures Filled(SetAsChild(w, p, c, todo[c]), p, todo - {c})
    ensures SetAsChild(w, p, c, todo[c]).parent.Keys == w.parent.Keys
  {
    assert AdoptingAt(w, p, todo, p, c);
    SetAsChildEffect(w, p, c, todo[c]);
    var v := SetAsChild(w, p, c, todo[c]);
    forall d | d in todo - {c} ensures !Below(v.parent, p, d) { NotBelowAfterReparent(w.parent, c, p, p, d); }
    assert Valid(v);
    forall x, y | x in v.parent && y in v.parent ensures AdoptingAt(v, p, todo - {c}, x, y) {
      assert AdoptingAt(w, p, todo, x, y);
      AttachFilledAt(w, v, p, todo, c, x, y);
    }
  }

  lemma AttachFilledAt(w: World, v: World, p: Id, todo: Todo, c: Id, x: Id, y: Id)
    requires Shaped(w) && p in w.parent && c in w.parent && x in w.parent && y in w.parent
    requires c in todo && w.parent[c].None?
    requires v == World(w.parent[c := Some(p)], w.name[c := todo[c].GetOr(w.name[c])], w.box)
    requires AdoptingAt(w, p, todo, p, c) && AdoptingAt(w, p, todo, x, y)
    ensures AdoptingAt(v, p, todo - {c}, x, y)
  {
  }

  lemma {:induction false} AdoptAllAgrees(w: World, p: Id, todo: Todo)
    requires Filled(w, p, todo)
    ensures Agree(AdoptAll(w, p, todo))
    decreases todo.Keys
  {
    if todo == map[] {
      FilledNothing(w, p);
    } else {
      var c := Order.Least(todo.Keys);
      DetachFilled(w, p, todo, c);
      AttachFilled(ParentDetach(w, c), p, todo, c);
      AdoptAllAgrees(Adopt(w, p, c, todo[c]), p, todo - {c});
    }
  }

  lemma FillIsFilled(w: World, p: Id, kvs: seq<(Key, XValue)>)
    requires Agree(w) && p in w.parent && AllStorable(w, kvs)
    ensures var f := Fill(w, p, w.box[p], map[], kvs); Filled(WithBox(w, p, f.box), p, f.todo)
  {
    forall y | y in w.parent ensures FilledAt(w, p, w.box[p], map[], y) { assert Fits(w, p, y); }
    FillIsKnown(w, p, w.box[p], map[], kvs);
    FillKeeps(w, p, w.box[p], map[], kvs);
    FillGood(w, p, w.box[p], map[], kvs);
    var f := Fill(w, p, w.box[p], map[], kvs);
    var u := WithBox(w, p, f.box);
    WithBoxValid(w, p, f.box);
    forall x, y | x in u.parent && y in u.parent ensures AdoptingAt(u, p, f.todo, x, y) {
      FilledIsAdopting(w, u, p, f.box, f.todo, x, y);
    }
  }

  /** `BulkInsert` of keyed values keeps the agreement, whatever the keys and values are: it
      detaches each node before it adopts it, so that no name can mislead. */
  lemma BulkInsertAgrees(w: World, p: Id, kvs: seq<(Key, XValue)>)
    requires Agree(w) && p in w.parent && AllStorable(w, kvs)
    ensures Agree(BulkInsert(w, p, kvs))
  {
    var f := Fill(w, p, w.box[p], map[], kvs);
    FillIsFilled(w, p, kvs);
    FillIsKnown(w, p, w.box[p], map[], kvs);
    AdoptAllAgrees(WithBox(w, p, f.box), p, f.todo);
  }

  lemma FilledIsAdopting(w: World, u: World, p: Id, b: Box, todo: Todo, x: Id, y: Id)
    requires Agree(w) && p in w.parent && x in w.parent && y in w.parent && u == WithBox(w, p, b)
    requires FilledAt(w, p, b, todo, y)
    ensures AdoptingAt(u, p, todo, x, y)
  {
    assert Fits(w, x, y);
  }
}
