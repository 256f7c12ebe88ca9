/** `Erase`, `Clear` and `BulkErase`: entries leave the container first, the nodes among them are
    detached afterwards. All calls keep the agreement. */
module Releases {
  import opened Wrappers
  import opened XValues
  import opened Boxes
  import opened Holding
  import opened Worlds
  import opened Agreement
  import opened TreeOps
  import opened Forest

  // The nodes of `out` left the container of their parent p, which remembers at most a tombstone
  // of them; everything else agrees.
  ghost predicate Released(w: World, p: Id, out: set<Id>) {
    && Valid(w)
    && p in w.parent
    && out <= w.parent.Keys
    && (forall y | y in out :: w.parent[y] == Some(p) && Forgotten(w.box[p], w.name[y]))
    && forall x, y {:trigger ReleasedAt(w, out, x, y)} | x in w.parent && y in w.parent :: ReleasedAt(w, out, x, y)
  }

  ghost predicate Forgotten(b: Box, name: string) {
    b.MapBox? ==> Current(b.m, name) == Empty
  }

  ghost predicate ReleasedAt(w: World, out: set<Id>, x: Id, y: Id)
    requires x in w.box && y in w.parent && y in w.name
  {
    if y in out then HoldsNot(w.box[x], y) else Fits(w, x, y)
  }

  lemma ReleasedNothing(w: World, p: Id)
    requires Released(w, p, {})
    ensures Agree(w)
  {
    forall x, y | x in w.parent && y in w.parent ensures Fits(w, x, y) { assert ReleasedAt(w, {}, x, y); }
  }

  // A node that its parent neither stores nor remembers only loses its parent.
  lemma DetachIdle(w: World, p: Id, c: Id)
    requires Shaped(w) && p in w.parent && c in w.parent && w.parent[c] == Some(p)
    requires Owning(w.box[p]) && HoldsNot(w.box[p], c) && Forgotten(w.box[p], w.name[c])
    ensures ParentDetach(w, c) == w.(parent := w.parent[c := None])
  {
    hide ErasedBox;
    ErasedBoxIdle(w.box[p], c, w.name[c]);
    assert w.name[c := w.name[c]] == w.name;
    assert w.box[p := w.box[p]] == w.box;
  }

  lemma DetachReleased(w: World, p: Id, out: set<Id>, c: Id)
    requires Released(w, p, out) && c in out
    ensures ParentDetach(w, c) == w.(parent := w.parent[c := None])
    ensures Released(ParentDetach(w, c), p, out - {c})
  {
    hide ParentDetach, HoldsOnce, HoldsNot, Forgotten, Owning, RefersTo;
    assert ReleasedAt(w, out, p, c);
    DetachIdle(w, p, c);
    var v := w.(parent := w.parent[c := None]);
    forall x, y | x in v.parent && y in v.parent ensures ReleasedAt(v, out - {c}, x, y) {
      assert ReleasedAt(w, out, x, y);
    }
  }

  lemma {:induction false} DetachAllReleased(w: World, p: Id, out: set<Id>, cs: seq<Id>)
    requires Released(w, p, out)
    requires forall c | c in out :: c in cs
    requires forall c | c in cs :: c in w.parent && (c in out || w.parent[c].None?)
    ensures Agree(DetachAll(w, cs))
    decreases |cs|
  {
    if cs == [] {
      assert out == {};
      ReleasedNothing(w, p);
    } else {
      var c := cs[0];
      assert forall d | d in cs :: d == c || d in cs[1..];
      if c in out {
        DetachReleased(w, p, out, c);
        DetachAllReleased(ParentDetach(w, c), p, out - {c}, cs[1..]);
      } else {
        assert ParentDetach(w, c) == w;
        DetachAllReleased(w, p, out, cs[1..]);
      }
    }
  }

  // What a run of container erasures does to one node.
  lemma {:induction false} ExtractOne(b: Box, ks: seq<Key>, c: Id, name: string)
    requires Owning(b) && HoldsOnce(b, c, name)
    ensures var x := Extract(b, ks);
            if Object(c) in x.vals then HoldsNot(x.box, c) && Forgotten(x.box, name) else HoldsOnce(x.box, c, name)
    decreases |ks|
  {
    if ks != [] {
      var e := Erase(b, ks[0]);
      EraseOwning(b, ks[0]);
      if e.erased == Some(Object(c)) {
        EraseRemoves(b, ks[0], c, name);
        ExtractNone(e.box, ks[1..], c, name);
      } else {
        EraseSame(b, ks[0], c);
        ExtractOne(e.box, ks[1..], c, name);
      }
    }
  }

  lemma {:induction false} ExtractNone(b: Box, ks: seq<Key>, c: Id, name: string)
    requires Owning(b) && HoldsNot(b, c)
    ensures Object(c) !in Extract(b, ks).vals && HoldsNot(Extract(b, ks).box, c)
    ensures Forgotten(b, name) ==> Forgotten(Extract(b, ks).box, name)
    decreases |ks|
  {
    if ks != [] {
      EraseOwning(b, ks[0]);
      EraseSame(b, ks[0], c);
      ExtractNone(Erase(b, ks[0]).box, ks[1..], c, name);
    }
  }

  lemma ExtractReleases(w: World, p: Id, ks: seq<Key>)
    requires Agree(w) && p in w.parent
    ensures var x := Extract(w.box[p], ks);
            (forall c | c in NodesOf(x.vals) :: c in w.parent)
            && Released(WithBox(w, p, x.box), p, (set c | c in NodesOf(x.vals)))
  {
    hide Extract, HoldsOnce, HoldsNot, Forgotten, Fits, Owning, RefersTo;
    var x := Extract(w.box[p], ks);
    var u := WithBox(w, p, x.box);
    var out := set c | c in NodesOf(x.vals);
    ExtractKnown(w, p, ks);
    forall y | y in u.parent
      ensures y in out ==> u.parent[y] == Some(p) && Forgotten(u.box[p], u.name[y])
      ensures forall z | z in u.parent :: ReleasedAt(u, out, z, y)
    {
      forall z | z in u.parent ensures ReleasedAt(u, out, z, y) { ExtractReleasesAt(w, p, ks, z, y); }
      ExtractReleasesOne(w, p, ks, y);
    }
  }

  lemma ExtractKnown(w: World, p: Id, ks: seq<Key>)
    requires Valid(w) && p in w.parent
    ensures forall c | c in NodesOf(Extract(w.box[p], ks).vals) :: c in w.parent
    ensures Shaped(w) && Valid(WithBox(w, p, Extract(w.box[p], ks).box))
  {
    hide Extract, Owning, RefersTo;
    ExtractGood(w.box[p], ks);
    forall c | c in NodesOf(Extract(w.box[p], ks).vals) ensures c in w.parent {
      ExtractedIsStored(w.box[p], ks, c);
    }
    WithBoxValid(w, p, Extract(w.box[p], ks).box);
  }

  lemma ExtractReleasesAt(w: World, p: Id, ks: seq<Key>, z: Id, y: Id)
    requires Agree(w) && p in w.parent && y in w.parent && z in w.parent
    ensures var x := Extract(w.box[p], ks);
            ReleasedAt(WithBox(w, p, x.box), (set c | c in NodesOf(x.vals)), z, y)
  {
    hide Extract, HoldsOnce, HoldsNot, Forgotten, NodesOf;
    ExtractReleasesOne(w, p, ks, y);
    assert Fits(w, z, y);
    assert w.parent[y] != Some(p) ==> Object(y) !in Extract(w.box[p], ks).vals;
  }

  lemma ExtractReleasesOne(w: World, p: Id, ks: seq<Key>, y: Id)
    requires Agree(w) && p in w.parent && y in w.parent
    ensures var x := Extract(w.box[p], ks);
            if Object(y) in x.vals
            then w.parent[y] == Some(p) && Forgotten(x.box, w.name[y]) && HoldsNot(x.box, y)
            else if w.parent[y] == Some(p) then HoldsOnce(x.box, y, w.name[y]) else HoldsNot(x.box, y)
  {
    hide Extract, HoldsOnce, HoldsNot, Forgotten;
    assert Fits(w, p, y);
    if w.parent[y] == Some(p) {
      ExtractOne(w.box[p], ks, y, w.name[y]);
    } else {
      ExtractNone(w.box[p], ks, y, w.name[y]);
    }
  }

  /** `BulkErase` keeps the agreement, whatever the keys. */
  lemma BulkEraseAgrees(w: World, p: Id, keys: seq<Key>)
    requires Agree(w) && p in w.parent
    ensures Agree(BulkErase(w, p, keys))
  {
    var ks := ResolveAll(w.box[p], keys);
    var x := Extract(w.box[p], ks);
    ExtractReleases(w, p, ks);
    DetachAllReleased(WithBox(w, p, x.box), p, (set c | c in NodesOf(x.vals)), NodesOf(x.vals));
  }

  lemma ExtractSingle(b: Box, k: Key)
    ensures var e := Erase(b, k);
            Extract(b, [k]) == Extraction(e.box, if e.erased.Some? then [e.erased.value] else [])
  {
    assert Extract(Erase(b, k).box, [k][1..]) == Extraction(Erase(b, k).box, []);
  }

  /** `Erase` keeps the agreement, whatever the key. */
  lemma EraseKeyAgrees(w: World, p: Id, key: Key)
    requires Agree(w) && p in w.parent
    ensures Agree(EraseKey(w, p, key).w)
  {
    assert Valid(w);
    hide Agree, Released, Extract, EraseKey, DetachAll, Valid;
    var k := Resolve(w.box[p], key);
    ExtractSingle(w.box[p], k);
    ExtractReleases(w, p, [k]);
    var cs := NodesOf(Extract(w.box[p], [k]).vals);
    var u := WithBox(w, p, Erase(w.box[p], k).box);
    DetachAllReleased(u, p, (set c | c in cs), cs);
    EraseIsDetach(w, p, key, cs);
  }

  lemma EraseIsDetach(w: World, p: Id, key: Key, cs: seq<Id>)
    requires Valid(w) && p in w.parent
    requires var e := Erase(w.box[p], Resolve(w.box[p], key));
             cs == NodesOf(if e.erased.Some? then [e.erased.value] else [])
    ensures var u := WithBox(w, p, Erase(w.box[p], Resolve(w.box[p], key)).box);
            && (forall c | c in cs :: c in u.parent)
            && EraseKey(w, p, key).w == DetachAll(u, cs)
  {
    hide Erase, Resolve, ParentDetach, Owning, RefersTo;
    var e := Erase(w.box[p], Resolve(w.box[p], key));
    var u := WithBox(w, p, e.box);
    if e.erased.Some? {
      assert NodesOf([e.erased.value][1..]) == [];
      if e.erased.value.Object? {
        ErasedIsKnown(w, p, Resolve(w.box[p], key));
        assert cs == [e.erased.value.addr];
        DetachOne(u, e.erased.value.addr);
      }
    }
  }

  lemma ChildIsListed(b: Box, c: Id, name: string)
    requires HoldsOnce(b, c, name)
    ensures c in NodesOf(Values(b))
  {
    match b
    case ArrayBox(a) =>
      var i: nat :| OnlyAt(a, c, i);
    case MapBox(m) =>
      assert name in LiveKeys(m);
      var i :| 0 <= i < |LiveKeys(m)| && LiveKeys(m)[i] == name;
      assert Values(b)[i] == Object(c);
  }

  lemma ListedIsChild(w: World, p: Id, c: Id)
    requires Agree(w) && p in w.parent && c in NodesOf(Values(w.box[p]))
    ensures c in w.parent && w.parent[c] == Some(p)
  {
    hide Values, HoldsOnce;
    ValuesAreStored(w.box[p], c);
    assert Fits(w, p, c);
  }

  lemma ClearReleasesAt(w: World, p: Id, x: Id, y: Id)
    requires Agree(w) && p in w.parent && x in w.parent && y in w.parent
    ensures ReleasedAt(WithBox(w, p, Cleared(w.box[p])), (set c | c in NodesOf(Values(w.box[p]))), x, y)
  {
    hide Values, HoldsOnce;
    assert Fits(w, x, y) && Fits(w, p, y);
    if w.parent[y] == Some(p) {
      ChildIsListed(w.box[p], y, w.name[y]);
    } else if y in NodesOf(Values(w.box[p])) {
      ListedIsChild(w, p, y);
    }
  }

  lemma ClearReleases(w: World, p: Id)
    requires Agree(w) && p in w.parent
    ensures var cs := NodesOf(Values(w.box[p]));
            && (forall c | c in cs :: c in w.parent)
            && Released(WithBox(w, p, Cleared(w.box[p])), p, (set c | c in cs))
  {
    hide Values, HoldsOnce, HoldsNot, ReleasedAt, Fits;
    var cs := NodesOf(Values(w.box[p]));
    forall c | c in cs ensures c in w.parent && w.parent[c] == Some(p) { ListedIsChild(w, p, c); }
    var u := WithBox(w, p, Cleared(w.box[p]));
    var out := set c | c in cs;
    WithBoxValid(w, p, Cleared(w.box[p]));
    forall x, y | x in u.parent && y in u.parent ensures ReleasedAt(u, out, x, y) { ClearReleasesAt(w, p, x, y); }
  }

  /** `Clear` keeps the agreement. */
  lemma ClearAgrees(w: World, p: Id)
    requires Agree(w) && p in w.parent
    ensures Agree(Clear(w, p))
  {
    var cs := NodesOf(Values(w.box[p]));
    ClearReleases(w, p);
    DetachAllReleased(WithBox(w, p, Cleared(w.box[p])), p, (set c | c in cs), cs);
  }
}
