/** The agreement between the three pieces of state: node p holds c exactly when c's parent is p,
    c is held in one place, and a map holds it under its name. */
module Agreement {
  import opened Wrappers
  import opened XValues
  import opened Boxes
  import opened Holding
  import opened Worlds

  ghost predicate Fits(w: World, p: Id, c: Id)
    requires p in w.box && c in w.parent && c in w.name
  {
    if w.parent[c] == Some(p) then HoldsOnce(w.box[p], c, w.name[c]) else HoldsNot(w.box[p], c)
  }

  ghost predicate Agree(w: World) {
    && Valid(w)
    && forall p, c {:trigger Fits(w, p, c)} | p in w.parent && c in w.parent :: Fits(w, p, c)
  }

  lemma GetOnce(b: Box, k: Key, c: Id, name: string)
    requires HoldsOnce(b, c, name) && Get(b, k) == Some(Object(c))
    ensures b.MapBox? ==> k == Name(name)
    ensures b.ArrayBox? ==> forall l | Get(b, l) == Some(Object(c)) && k.At? && l.At? :: k == l
  {
    if b.ArrayBox? { var i: nat :| OnlyAt(b.a, c, i); }
  }

  /** What agreement means for a reader of the tree: a held node knows its holder, and if the
      holder is a map also its key; a parent holds its child. */
  lemma AgreeMeans(w: World, p: Id, k: Key, c: Id)
    requires Agree(w) && p in w.box
    ensures Get(w.box[p], k) == Some(Object(c)) ==>
              c in w.parent && w.parent[c] == Some(p) && (w.box[p].MapBox? ==> k == Name(w.name[c]))
    ensures c in w.parent && w.parent[c] == Some(p) ==> RefersTo(w.box[p], c)
  {
    if Get(w.box[p], k) == Some(Object(c)) {
      assert RefersTo(w.box[p], c);
      assert Fits(w, p, c);
      GetOnce(w.box[p], k, c, w.name[c]);
    }
    if c in w.parent && w.parent[c] == Some(p) { assert Fits(w, p, c); }
  }

  /** A node is held at one place overall. */
  lemma HeldAtOnePlace(w: World, p: Id, k: Key, q: Id, l: Key, c: Id)
    requires Agree(w) && p in w.box && q in w.box
    requires Get(w.box[p], k) == Get(w.box[q], l) == Some(Object(c))
    ensures p == q && (w.box[p].MapBox? || (k.At? && l.At?) ==> k == l)
  {
    AgreeMeans(w, p, k, c);
    AgreeMeans(w, q, l, c);
    assert Fits(w, p, c);
    GetOnce(w.box[p], k, c, w.name[c]);
  }

  // Node p already holds the nodes of `todo`, each once and in a map under the name given there,
  // but they still have their former parent and name. Everything else agrees.
  ghost predicate Pending(w: World, p: Id, todo: map<Id, string>) {
    && Valid(w)
    && p in w.parent
    && todo.Keys <= w.parent.Keys
    && (forall c | c in todo :: w.parent[c] != Some(p))
    && forall x, y {:trigger PendingAt(w, p, todo, x, y)} | x in w.parent && y in w.parent ::
         PendingAt(w, p, todo, x, y)
  }

  ghost predicate PendingAt(w: World, p: Id, todo: map<Id, string>, x: Id, y: Id)
    requires x in w.box && y in w.parent && y in w.name
  {
    if x == p && y in todo then HoldsOnce(w.box[x], y, todo[y]) else Fits(w, x, y)
  }

  lemma PendingNothing(w: World, p: Id)
    requires p in w.parent
    ensures Pending(w, p, map[]) <==> Agree(w)
  {
    if Valid(w) {
      assert forall x, y | x in w.parent && y in w.parent :: PendingAt(w, p, map[], x, y) <==> Fits(w, x, y);
    }
  }

  // c can be renamed on its way out of its parent: the parent has no other entry under the new name.
  ghost predicate NameFree(w: World, c: Id, name: string)
    requires Shaped(w) && c in w.parent
  {
    w.parent[c].Some? ==> NameReaches(w.box[w.parent[c].value], w.name[c], name)
  }

  lemma SetAsChildEffect(w: World, p: Id, c: Id, rename: Option<string>)
    requires Shaped(w) && c in w.parent && p in w.parent
    requires w.parent[c] != Some(p) && !Below(w.parent, p, c)
    requires w.box[p].MapBox? ==> rename.Some? && rename.value != ""
    ensures var v := SetAsChild(w, p, c, rename);
            var name := rename.GetOr(w.name[c]);
            && v.parent == w.parent[c := Some(p)]
            && v.name == w.name[c := name]
            && v.box == if w.parent[c].None? then w.box
                        else w.box[w.parent[c].value := ErasedBox(w.box[w.parent[c].value], c, name)]
  {
  }

  lemma NotAdoptedStays(w: World, p: Id, c: Id, rename: Option<string>)
    requires Shaped(w) && p in w.parent && c in w.parent
    requires Below(w.parent, p, c) || w.parent[c] == Some(p) || (w.box[p].MapBox? && rename.GetOr(w.name[c]) == "")
    ensures SetAsChild(w, p, c, rename) == w
  {
  }

  lemma ErasedKeepsValid(w: World, v: World, q: Id, c: Id, name: string)
    requires Valid(w) && Shaped(v) && q in w.parent && v.parent.Keys == w.parent.Keys
    requires v.box == w.box[q := ErasedBox(w.box[q], c, name)]
    ensures Valid(v)
  {
    ErasedBoxOwning(w.box[q], c, name);
    forall x, y | x in v.box && RefersTo(v.box[x], y) ensures y in v.parent {
      if x == q { ErasedBoxRefers(w.box[q], c, name, y); }
    }
  }

  /** `SetAsChild_` settles one pending node, provided its new name does not lead its former parent
      to another entry; otherwise the former parent keeps holding it. */
  lemma SetAsChildSettles(w: World, p: Id, todo: map<Id, string>, c: Id, rename: Option<string>)
    requires Pending(w, p, todo) && c in todo && !Below(w.parent, p, c)
    requires if w.box[p].MapBox? then rename == Some(todo[c]) && todo[c] != "" else rename == None
    ensures NameFree(w, c, rename.GetOr(w.name[c])) ==> Pending(SetAsChild(w, p, c, rename), p, todo - {c})
    ensures !NameFree(w, c, rename.GetOr(w.name[c])) ==> !Agree(SetAsChild(w, p, c, rename))
  {
    SetAsChildEffect(w, p, c, rename);
    assert PendingAt(w, p, todo, p, c);
    if w.parent[c].None? {
      SettlesRoot(w, SetAsChild(w, p, c, rename), p, todo, c, rename.GetOr(w.name[c]));
    } else {
      SettlesMoved(w, SetAsChild(w, p, c, rename), p, todo, c, w.parent[c].value, rename.GetOr(w.name[c]));
    }
  }

  lemma SettlesRoot(w: World, v: World, p: Id, todo: map<Id, string>, c: Id, name: string)
    requires Pending(w, p, todo) && c in todo && w.parent[c].None?
    requires w.box[p].MapBox? ==> name == todo[c]
    requires v == World(w.parent[c := Some(p)], w.name[c := name], w.box)
    ensures Pending(v, p, todo - {c})
  {
    assert PendingAt(w, p, todo, p, c);
    assert Valid(v);
    forall x, y | x in v.parent && y in v.parent ensures PendingAt(v, p, todo - {c}, x, y) {
      assert PendingAt(w, p, todo, x, y);
      SettlesRootAt(w, v, p, todo, c, name, x, y);
    }
  }

  lemma SettlesRootAt(w: World, v: World, p: Id, todo: map<Id, string>, c: Id, name: string, x: Id, y: Id)
    requires Shaped(w) && p in w.parent && c in w.parent && x in w.parent && y in w.parent
    requires c in todo && w.parent[c].None?
    requires w.box[p].MapBox? ==> name == todo[c]
    requires v == World(w.parent[c := Some(p)], w.name[c := name], w.box)
    requires HoldsOnce(w.box[p], c, todo[c]) && PendingAt(w, p, todo, x, y)
    ensures PendingAt(v, p, todo - {c}, x, y)
  {
  }

  lemma SettlesMoved(w: World, v: World, p: Id, todo: map<Id, string>, c: Id, q: Id, name: string)
    requires Pending(w, p, todo) && c in todo && w.parent[c] == Some(q)
    requires w.box[p].MapBox? ==> name == todo[c]
    requires v == World(w.parent[c := Some(p)], w.name[c := name], w.box[q := ErasedBox(w.box[q], c, name)])
    ensures if NameReaches(w.box[q], w.name[c], name) then Pending(v, p, todo - {c}) else !Fits(v, q, c)
  {
    assert PendingAt(w, p, todo, p, c);
    assert PendingAt(w, p, todo, q, c);
    ErasedBoxIff(w.box[q], c, w.name[c], name);
    if NameReaches(w.box[q], w.name[c], name) {
      ErasedKeepsValid(w, v, q, c, name);
      forall x, y | x in v.parent && y in v.parent ensures PendingAt(v, p, todo - {c}, x, y) {
        assert PendingAt(w, p, todo, x, y);
        LeftFormerParent(w, v, p, todo, c, q, name, x, y);
      }
    }
  }

  lemma LeftFormerParent(w: World, v: World, p: Id, todo: map<Id, string>, c: Id, q: Id, name: string, x: Id, y: Id)
    requires Shaped(w) && p in w.parent && c in w.parent && q in w.parent && x in w.parent && y in w.parent
    requires p != q && w.parent[c] == Some(q) && c in todo
    requires w.box[p].MapBox? ==> name == todo[c]
    requires v.parent == w.parent[c := Some(p)] && v.name == w.name[c := name]
    requires v.box == w.box[q := ErasedBox(w.box[q], c, name)]
    requires Owning(w.box[q]) && HoldsOnce(w.box[q], c, w.name[c]) && NameReaches(w.box[q], w.name[c], name)
    requires HoldsNot(v.box[q], c)
    requires HoldsOnce(w.box[p], c, todo[c])
    requires PendingAt(w, p, todo, x, y)
    ensures PendingAt(v, p, todo - {c}, x, y)
  {
    if x == q {
      if y != c { ErasedBoxSame(w.box[q], c, w.name[c], name, y); }
    } else {
      assert v.box[x] == w.box[x];
    }
  }

  /** Detaching: the node leaves its parent's container and keeps its name. */
  lemma ParentDetachAgrees(w: World, c: Id)
    requires Agree(w) && c in w.parent
    ensures Agree(ParentDetach(w, c))
    ensures ParentDetach(w, c).parent == w.parent[c := None] && ParentDetach(w, c).name == w.name
  {
    var v := ParentDetach(w, c);
    var q := w.parent[c];
    assert w.name[c := w.name[c]] == w.name;
    if q.Some? {
      assert Fits(w, q.value, c);
      ErasedBoxIff(w.box[q.value], c, w.name[c], w.name[c]);
      ErasedKeepsValid(w, v, q.value, c, w.name[c]);
      forall x, y | x in v.parent && y in v.parent ensures Fits(v, x, y) {
        assert Fits(w, x, y);
        if y != c && x == q.value { ErasedBoxSame(w.box[x], c, w.name[c], w.name[c], y); }
      }
    } else {
      assert w.parent[c := None] == w.parent;
    }
  }
}
