/** What `BulkInsert` of keyed values leaves: where each adopted node is, and what its former container has
    become. */
module BulkEffects {
  import opened Wrappers
  import opened XValues
  import opened Boxes
  import opened Holding
  import opened Worlds
  import opened Agreement
  import opened TreeOps
  import opened Forest
  import opened BulkInserts
  import Order

  // A container without the nodes of a set: a map keeps empty entries, an array loses the slots.
  function Others(a: seq<XValue>, out: set<Id>): seq<XValue> {
    if a == [] then []
    else (if a[0].Object? && a[0].addr in out then [] else [a[0]]) + Others(a[1..], out)
  }

  function Without(b: Box, out: set<Id>): Box {
    match b
    case MapBox(m) => MapBox(map s | s in m :: if m[s].Object? && m[s].addr in out then Empty else m[s])
    case ArrayBox(a) => ArrayBox(Others(a, out))
  }

  // A map with the given keys emptied.
  function Vacated(b: Box, names: set<string>): Box {
    if b.ArrayBox? then b else MapBox(map s | s in b.m :: if s in names then Empty else b.m[s])
  }

  lemma {:induction false} OthersTwice(a: seq<XValue>, one: set<Id>, two: set<Id>)
    ensures Others(Others(a, one), two) == Others(a, one + two)
  {
    if a != [] {
      OthersTwice(a[1..], one, two);
      var rest := Others(a[1..], one);
      if a[0].Object? && a[0].addr in one {
        assert Others(a, one) == [] + rest == rest;
      } else {
        assert Others(a, one) == [a[0]] + rest && ([a[0]] + rest)[1..] == rest;
      }
    }
  }

  lemma WithoutTwice(b: Box, one: set<Id>, two: set<Id>)
    ensures Without(Without(b, one), two) == Without(b, one + two)
  {
    if b.ArrayBox? { OthersTwice(b.a, one, two); }
  }

  lemma {:induction false} OthersOfNone(a: seq<XValue>, c: Id, out: set<Id>)
    requires HoldsNot(ArrayBox(a), c)
    ensures Others(a, out + {c}) == Others(a, out)
  {
    if a != [] {
      assert forall i | 0 <= i < |a| - 1 :: a[1..][i] == a[i + 1];
      assert a[0] != Object(c);
      OthersOfNone(a[1..], c, out);
    }
  }

  lemma WithoutNone(b: Box, c: Id, out: set<Id>)
    requires HoldsNot(b, c)
    ensures Without(b, out + {c}) == Without(b, out)
  {
    if b.ArrayBox? { OthersOfNone(b.a, c, out); }
  }

  lemma {:induction false} OthersOfOne(a: seq<XValue>, c: Id, i: nat)
    requires OnlyAt(a, c, i)
    ensures Others(a, {c}) == RemoveAt(a, i)
  {
    if i == 0 {
      assert HoldsNot(ArrayBox(a[1..]), c);
      OthersOfNone(a[1..], c, {});
      NoneOut(a[1..]);
      assert {} + {c} == {c};
    } else {
      assert OnlyAt(a[1..], c, i - 1);
      OthersOfOne(a[1..], c, i - 1);
      assert RemoveAt(a, i) == [a[0]] + RemoveAt(a[1..], i - 1);
    }
  }

  lemma {:induction false} NoneOut(a: seq<XValue>)
    ensures Others(a, {}) == a
  {
    if a != [] { NoneOut(a[1..]); }
  }

  lemma ErasedIsWithout(b: Box, c: Id, name: string)
    requires Owning(b) && HoldsOnce(b, c, name)
    ensures ErasedBox(b, c, name) == Without(b, {c})
  {
    if b.MapBox? {
      assert ErasedBox(b, c, name) == MapBox(b.m[name := Empty]);
    } else {
      var i: nat :| OnlyAt(b.a, c, i);
      OthersOfOne(b.a, c, i);
      EqNode(b.a[i], c);
      var j := FindNode(b.a, c, NoKey).value;
      EqNode(b.a[j], c);
      assert i == j;
    }
  }

  lemma NoneWithout(b: Box)
    ensures Without(b, {}) == b && Vacated(b, {}) == b
  {
    if b.ArrayBox? { NoneOut(b.a); }
  }

  // ----- one adoption -----

  lemma DetachIs(w: World, c: Id)
    requires Shaped(w) && c in w.parent
    ensures ParentDetach(w, c) ==
            World(w.parent[c := None], w.name,
                  if w.parent[c].None? then w.box
                  else w.box[w.parent[c].value := ErasedBox(w.box[w.parent[c].value], c, w.name[c])])
  {
    assert w.name[c := w.name[c]] == w.name;
    if w.parent[c].None? { assert w.parent[c := None] == w.parent; }
  }

  lemma FilledMeans(w: World, p: Id, todo: Todo, c: Id)
    requires Filled(w, p, todo) && c in todo
    ensures Shaped(w) && p in w.parent && c in w.parent && !Below(w.parent, p, c)
    ensures w.box[p].MapBox? ==> todo[c].Some? && todo[c].value != ""
  {
    assert AdoptingAt(w, p, todo, p, c);
  }

  lemma AdoptEffect(w: World, p: Id, todo: Todo, c: Id)
    requires Filled(w, p, todo) && c in todo
    ensures var v, q := Adopt(w, p, c, todo[c]), w.parent[c];
            && v.parent == w.parent[c := Some(p)] && v.name == w.name[c := todo[c].GetOr(w.name[c])]
            && v.box == if q.None? then w.box else w.box[q.value := ErasedBox(w.box[q.value], c, w.name[c])]
    ensures Filled(Adopt(w, p, c, todo[c]), p, todo - {c})
  {
    hide Filled, ErasedBox, ParentDetach, SetAsChild, Below, Closed;
    FilledMeans(w, p, todo, c);
    DetachFilled(w, p, todo, c);
    DetachIs(w, c);
    var d := ParentDetach(w, c);
    FilledMeans(d, p, todo, c);
    AttachFilled(d, p, todo, c);
    SetAsChildEffect(d, p, c, todo[c]);
  }

  lemma ElsewhereOnce(w: World, p: Id, todo: Todo, c: Id, q: Id)
    requires Filled(w, p, todo) && c in todo && q in w.parent && q != p
    ensures c in w.parent && Owning(w.box[q])
    ensures if w.parent[c] == Some(q) then HoldsOnce(w.box[q], c, w.name[c]) else HoldsNot(w.box[q], c)
  {
    assert AdoptingAt(w, p, todo, q, c);
  }

  // The keys under which p itself held the nodes before.
  ghost function OldKeys(w: World, p: Id, todo: Todo): set<string> {
    set c | c in todo && c in w.parent && c in w.name && w.parent[c] == Some(p) :: w.name[c]
  }

  lemma OldKeysStep(w: World, v: World, p: Id, todo: Todo, c: Id)
    requires c in todo && c in w.parent && c in w.name
    requires v.parent == w.parent[c := Some(p)] && v.name == w.name[c := todo[c].GetOr(w.name[c])]
    ensures OldKeys(w, p, todo) == (if w.parent[c] == Some(p) then {w.name[c]} else {}) + OldKeys(v, p, todo - {c})
  {
    forall s | s in OldKeys(w, p, todo)
      ensures s in (if w.parent[c] == Some(p) then {w.name[c]} else {}) + OldKeys(v, p, todo - {c})
    {
      var d :| d in todo && d in w.parent && d in w.name && w.parent[d] == Some(p) && w.name[d] == s;
      if d != c { assert d in todo - {c} && v.name[d] == s; }
    }
    forall s | s in OldKeys(v, p, todo - {c}) ensures s in OldKeys(w, p, todo) {
      var d :| d in todo - {c} && d in v.parent && d in v.name && v.parent[d] == Some(p) && v.name[d] == s;
      assert d in todo && w.name[d] == s;
    }
  }

  lemma OwnBox(w: World, p: Id, todo: Todo, c: Id)
    requires Filled(w, p, todo) && c in todo && c in w.parent && w.parent[c] == Some(p)
    ensures w.box[p].MapBox? && ErasedBox(w.box[p], c, w.name[c]) == Vacated(w.box[p], {w.name[c]})
  {
    assert AdoptingAt(w, p, todo, p, c);
    assert ErasedBox(w.box[p], c, w.name[c]) == MapBox(w.box[p].m[w.name[c] := Empty]);
  }

  lemma VacatedTwice(b: Box, one: set<string>, two: set<string>)
    ensures Vacated(Vacated(b, one), two) == Vacated(b, one + two)
  {
  }

  // What becomes of the container of q.
  ghost function BoxAfter(w: World, p: Id, todo: Todo, q: Id): Box
    requires q in w.box
  {
    if q == p then Vacated(w.box[p], OldKeys(w, p, todo)) else Without(w.box[q], todo.Keys)
  }

  lemma BoxAfterStep(w: World, v: World, p: Id, todo: Todo, c: Id, q: Id)
    requires Filled(w, p, todo) && c in todo && q in w.box && v == Adopt(w, p, c, todo[c]) && q in v.box
    ensures BoxAfter(v, p, todo - {c}, q) == BoxAfter(w, p, todo, q)
  {
    hide Filled, ErasedBox, Adopt, Without, Vacated, Below, Shaped;
    AdoptEffect(w, p, todo, c);
    FilledMeans(w, p, todo, c);
    if q == p {
      var own := if w.parent[c] == Some(p) then {w.name[c]} else {};
      OldKeysStep(w, v, p, todo, c);
      if w.parent[c] == Some(p) {
        OwnBox(w, p, todo, c);
        VacatedTwice(w.box[p], {w.name[c]}, OldKeys(v, p, todo - {c}));
      } else {
        assert own + OldKeys(v, p, todo - {c}) == OldKeys(v, p, todo - {c});
      }
    } else {
      ElsewhereOnce(w, p, todo, c, q);
      assert (todo - {c}).Keys + {c} == {c} + (todo - {c}).Keys == todo.Keys;
      if w.parent[c] == Some(q) {
        ErasedIsWithout(w.box[q], c, w.name[c]);
        WithoutTwice(w.box[q], {c}, (todo - {c}).Keys);
      } else {
        WithoutNone(w.box[q], c, (todo - {c}).Keys);
      }
    }
  }

  // Parent and name of one node.
  ghost predicate ArrivedAt(w: World, v: World, p: Id, todo: Todo, c: Id)
    requires c in w.parent && c in w.name
  {
    && c in v.parent && v.parent[c] == (if c in todo then Some(p) else w.parent[c])
    && c in v.name && v.name[c] == (if c in todo then todo[c].GetOr(w.name[c]) else w.name[c])
  }

  // All nodes of `todo` have arrived at p.
  ghost predicate Arrived(w: World, v: World, p: Id, todo: Todo) {
    && v.parent.Keys == w.parent.Keys && v.name.Keys == w.name.Keys && v.box.Keys == w.box.Keys
    && (forall c | c in w.parent && c in w.name :: ArrivedAt(w, v, p, todo, c))
    && forall q | q in w.box :: v.box[q] == BoxAfter(w, p, todo, q)
  }

  lemma ArrivedStep(w: World, v: World, u: World, p: Id, todo: Todo, c: Id)
    requires Filled(w, p, todo) && c in todo && v == Adopt(w, p, c, todo[c])
    requires Arrived(v, u, p, todo - {c})
    ensures Arrived(w, u, p, todo)
  {
    hide Filled, Adopt, BoxAfter, ErasedBox, Below, ArrivedAt, Shaped;
    AdoptEffect(w, p, todo, c);
    FilledMeans(w, p, todo, c);
    KnownByName(w, c);
    forall d | d in w.parent && d in w.name ensures ArrivedAt(w, u, p, todo, d) {
      assert d in v.parent && d in v.name;
      OneArrives(w, v, u, p, todo, c, d);
    }
    forall q | q in w.box ensures q in u.box && u.box[q] == BoxAfter(w, p, todo, q) {
      BoxAfterStep(w, v, p, todo, c, q);
    }
  }

  lemma KnownByName(w: World, c: Id)
    requires Shaped(w) && c in w.parent
    ensures c in w.name && (w.parent[c].Some? ==> w.parent[c].value in w.box)
  {
  }

  lemma OneArrives(w: World, v: World, u: World, p: Id, todo: Todo, c: Id, d: Id)
    requires c in todo && c in w.parent && c in w.name && d in w.parent && d in w.name
    requires v.parent == w.parent[c := Some(p)] && v.name == w.name[c := todo[c].GetOr(w.name[c])]
    requires ArrivedAt(v, u, p, todo - {c}, d)
    ensures ArrivedAt(w, u, p, todo, d)
  {
  }

  lemma NoneArrives(w: World, p: Id)
    ensures Arrived(w, w, p, map[])
  {
    forall q | q in w.box ensures BoxAfter(w, p, map[], q) == w.box[q] {
      NoneWithout(w.box[q]);
      var none: Todo := map[];
      assert OldKeys(w, p, none) == {} && none.Keys == {};
    }
  }

  lemma {:induction false} AdoptAllArrives(w: World, p: Id, todo: Todo)
    requires Filled(w, p, todo)
    ensures Arrived(w, AdoptAll(w, p, todo), p, todo)
    decreases todo.Keys
  {
    if todo == map[] {
      NoneArrives(w, p);
    } else {
      var c := Order.Least(todo.Keys);
      AdoptEffect(w, p, todo, c);
      AdoptAllArrives(Adopt(w, p, c, todo[c]), p, todo - {c});
      ArrivedStep(w, Adopt(w, p, c, todo[c]), AdoptAll(w, p, todo), p, todo, c);
    }
  }

  /** `BulkInsert` of keyed values: every node that went in has p as parent and in a map its key as name; its
      former container is without it, and p itself has emptied the key it held it under before. Nothing else
      changes. */
  lemma BulkInsertEffect(w: World, p: Id, kvs: seq<(Key, XValue)>)
    requires Agree(w) && p in w.parent && AllStorable(w, kvs)
    ensures var f := Fill(w, p, w.box[p], map[], kvs);
            Arrived(WithBox(w, p, f.box), BulkInsert(w, p, kvs), p, f.todo)
  {
    FillIsFilled(w, p, kvs);
    var f := Fill(w, p, w.box[p], map[], kvs);
    FillIsKnown(w, p, w.box[p], map[], kvs);
    AdoptAllArrives(WithBox(w, p, f.box), p, f.todo);
  }
}
