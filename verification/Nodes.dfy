/** The tree operations carried out step by step on the three pieces of state, as `XNode` does. */
module NodeMethods {
  import opened Wrappers
  import opened XValues
  import opened Boxes
  import opened Holding
  import opened Worlds
  import ArrayInserts
  import Order
  import opened TreeOps
  import opened Forest
  import opened Outcomes
  import opened Writings

  class Nodes {
    var parent: map<Id, Option<Id>>
    var name: map<Id, string>
    var box: map<Id, Box>

    ghost function W(): World
      reads this
    {
      World(parent, name, box)
    }

    constructor ()
      ensures W() == World(map[], map[], map[])
    {
      parent, name, box := map[], map[], map[];
    }

    // ----- walks -----

    /** `IsValidParent_`: rejects exactly when the target is the node or below it. The exit for
        cyclic parents is never taken. */
    method IsValidParent(c: Id, target: Option<Id>) returns (ok: bool, cyclic: bool)
      requires Good(W()) && (target.Some? ==> target.value in parent)
      ensures ok <==> ValidParent(W(), c, target)
      ensures !cyclic
    {
      var check := target;
      ghost var rank :| Ranked(parent, rank);
      ghost var k: nat := 0;
      if target.Some? { assert Up(parent, target.value, target.value, 0); }
      cyclic := false;
      while check.Some?
        invariant check.Some? ==> target.Some? && check.value in parent && Up(parent, target.value, check.value, k)
        invariant target.Some? ==>
          (Below(parent, target.value, c) <==> check.Some? && Below(parent, check.value, c))
        invariant target.None? ==> check.None?
        decreases if check.Some? then rank[check.value] + 1 else 0
      {
        if check.value == c {
          BelowSelf(parent, c);
          return false, false;
        }
        BelowStep(parent, check.value, c);
        if parent[check.value].Some? { UpExtends(parent, target.value, check.value, k); }
        check, k := parent[check.value], k + 1;
        if check == target {
          NoCycle(parent, target.value, k);
          return false, true;
        }
      }
      ok := true;
    }

    /** `IsValidChild_`: rejects exactly when the value is p or an ancestor of p. */
    method IsValidChild(p: Id, v: XValue) returns (ok: bool, cyclic: bool)
      requires Good(W()) && p in parent
      ensures ok <==> ValidChild(W(), p, v)
      ensures !cyclic
    {
      cyclic := false;
      if !v.Object? { return true, false; }
      var check := Some(p);
      ghost var rank :| Ranked(parent, rank);
      ghost var k: nat := 0;
      assert Up(parent, p, p, 0);
      while check.Some?
        invariant check.Some? ==> check.value in parent && Up(parent, p, check.value, k)
        invariant Below(parent, p, v.addr) <==> check.Some? && Below(parent, check.value, v.addr)
        decreases if check.Some? then rank[check.value] + 1 else 0
      {
        if check.value == v.addr {
          BelowSelf(parent, v.addr);
          return false, false;
        }
        BelowStep(parent, check.value, v.addr);
        if parent[check.value].Some? { UpExtends(parent, p, check.value, k); }
        check, k := parent[check.value], k + 1;
        if check == Some(p) {
          NoCycle(parent, p, k);
          return false, true;
        }
      }
      ok := true;
    }

    // ----- private steps -----

    method PrivateParentSet(c: Id, p: Option<Id>, rename: Option<string>) returns (ok: bool, prev: Option<Id>)
      requires Good(W()) && c in parent && (p.Some? ==> p.value in parent)
      modifies this
      ensures Worlds.PrivateParentSet(old(W()), c, p, rename) == ParentSetRes(W(), ok, prev)
      ensures Good(W()) && parent.Keys == old(parent).Keys
    {
      PrivateParentSetGood(W(), c, p, rename);
      var valid, _ := IsValidParent(c, p);
      if !valid { return false, p; }
      prev := parent[c];
      if prev == p { return false, prev; }
      var nodeName := rename.GetOr(name[c]);
      if p.Some? && box[p.value].MapBox? && nodeName == "" { return false, None; }
      ghost var before := name;
      if rename.Some? { name := name[c := nodeName]; } else { assert before[c := before[c]] == before; }
      parent := parent[c := p];
      ok := true;
    }

    method PrivateErase(q: Id, c: Id)
      requires Good(W()) && q in parent && c in parent
      modifies this
      ensures W() == Worlds.PrivateErase(old(W()), q, c)
      ensures Good(W()) && parent == old(parent)
    {
      PrivateEraseGood(W(), q, c);
      if name[c] != "" {
        var e := Boxes.Erase(box[q], Name(name[c]));
        if e.erased.Some? {
          box := box[q := e.box];
          return;
        }
      }
      box := box[q := RemoveFirst(box[q], c)];
    }

    method SetAsChild(p: Id, c: Id, rename: Option<string>)
      requires Good(W()) && c in parent && p in parent
      modifies this
      ensures W() == Worlds.SetAsChild(old(W()), p, c, rename)
      ensures Good(W()) && parent.Keys == old(parent).Keys
    {
      var ok, prev := PrivateParentSet(c, Some(p), rename);
      if ok && prev.Some? { PrivateErase(prev.value, c); }
    }

    // ----- public operations -----

    method Create(id: Id, isMap: bool, newName: string)
      requires Good(W()) && id !in parent
      modifies this
      ensures W() == TreeOps.Create(old(W()), id, isMap, newName)
      ensures Good(W())
    {
      CreateGood(W(), id, isMap, newName);
      parent := parent[id := None];
      name := name[id := newName];
      box := box[id := EmptyBox(isMap)];
    }

    // `PrivateSet` into a map under the node's name, `PrivateInsert` at the end of an array.
    method TakeIn(p: Id, c: Id)
      requires p in box && c in name
      modifies this`box
      ensures W() == WithBox(old(W()), p, Adopted(old(box)[p], c, name[c]))
    {
      if box[p].MapBox? {
        box := box[p := Put(box[p], Name(name[c]), Object(c)).box];
      } else if !HasDuplicate(box[p], c) {
        box := box[p := Emplace(box[p], End, Object(c)).box];
      } else {
        assert box[p := box[p]] == box;
      }
    }

    method ParentSet(c: Id, p: Option<Id>, rename: Option<string>) returns (ok: bool, prev: Option<Id>)
      requires Good(W()) && c in parent && (p.Some? ==> p.value in parent)
      modifies this
      ensures TreeOps.ParentSet(old(W()), c, p, rename) == Res(W(), ok)
      ensures ok ==> prev == old(parent)[c]
      ensures !ok ==> prev == if ValidParent(old(W()), c, p) && old(parent)[c] != p then None else p
      ensures Good(W())
    {
      hide Adopted, ErasedBox, Below, Owning, RefersTo, Acyclic, Closed;
      ParentSetGood(W(), c, p, rename);
      ok, prev := PrivateParentSet(c, p, rename);
      if !ok { return; }
      if prev.Some? { PrivateErase(prev.value, c); }
      if p.Some? { TakeIn(p.value, c); }
    }

    method ParentDetach(c: Id)
      requires Good(W()) && c in parent
      modifies this
      ensures W() == Worlds.ParentDetach(old(W()), c)
      ensures Good(W()) && parent.Keys == old(parent).Keys
    {
      var ok, prev := PrivateParentSet(c, None, None);
      if ok && prev.Some? { PrivateErase(prev.value, c); }
    }

    // What follows the container change of `Set`.
    method SettleSet(p: Id, gone: XValue, v: XValue, rename: Option<string>)
      requires Good(W()) && p in parent
      requires v.Object? ==> v.addr in parent
      requires gone.Object? ==> gone.addr in parent
      modifies this
      ensures var u := Orphan(old(W()), gone);
              W() == if v.Object? then Worlds.SetAsChild(u, p, v.addr, rename) else u
      ensures Good(W())
    {
      if gone.Object? {
        var _, _ := PrivateParentSet(gone.addr, None, None);
      }
      if v.Object? { SetAsChild(p, v.addr, rename); }
    }

    method Set(p: Id, key: Key, v: XValue) returns (ok: bool, prev: XValue)
      requires Good(W()) && p in parent && Storable(W(), v)
      modifies this
      ensures TreeOps.Set(old(W()), p, key, v) == Res(W(), ok)
      ensures prev == if ValidChild(old(W()), p, v) then Read(old(box)[p], Resolve(old(box)[p], key)) else Empty
      ensures Good(W())
    {
      hide TreeOps.Set, RemoveDuplicate;
      var k := Resolve(box[p], key);
      SetSteps(W(), p, key, v);
      PutOkIff(box[p], k, v);
      var valid, _ := IsValidChild(p, v);
      if !valid { return false, Empty; }
      var r := Put(box[p], k, v);
      prev := r.prev;
      var b := r.box;
      if r.ok && v.Object? { b := RemoveDuplicate(b, v.addr, k); }
      box := box[p := b];
      if !r.ok { return false, prev; }
      SettleSet(p, r.prev, v, KeyName(k));
      ok := true;
    }

    method CompareExchange(p: Id, key: Key, expected: XValue, v: XValue) returns (ok: bool, was: XValue)
      requires Good(W()) && p in parent && Storable(W(), v)
      modifies this
      ensures TreeOps.CompareExchange(old(W()), p, key, expected, v) == Res(W(), ok)
      ensures var b, k := old(box)[p], Resolve(old(box)[p], key);
              && ok == (if IsThere(b, k) then Eq(Read(b, k), expected) else expected.IsEmpty())
              && was == if ok then expected else if IsThere(b, k) then Read(b, k) else Empty
      ensures Good(W())
    {
      hide Valid, Put, Found, Eq, Resolve, RemoveDuplicate, XValue.IsEmpty, Acyclic;
      CompareExchangeGood(W(), p, key, expected, v);
      ExchangeOkIff(W(), p, key, expected, v);
      GoodIsShaped(W());
      var k := Resolve(box[p], key);
      FoundIsThere(box[p], k);
      var current := Found(box[p], k);
      if current.Some? && !Eq(current.value, expected) { return false, current.value; }
      if current.None? && !expected.IsEmpty() { return false, Empty; }
      PlacedGood(W(), p, k, v);
      box := box[p := Put(box[p], k, v).box];
      if v.Object? { SetAsChild(p, v.addr, KeyName(k)); }
      ok, was := true, expected;
    }

    method Insert(p: Id, key: Key, v: XValue) returns (ok: bool, at: Key, existing: XValue)
      requires Good(W()) && p in parent && Storable(W(), v)
      modifies this
      ensures TreeOps.Insert(old(W()), p, key, v) == Res(W(), ok)
      ensures (at, existing) == InsertReply(old(W()), p, key, v)
      ensures Good(W())
    {
      InsertGood(W(), p, key, v);
      var valid, _ := IsValidChild(p, v);
      if !valid { return false, NoKey, Empty; }
      if v.Object? && HasDuplicate(box[p], v.addr) { return false, At(FindNode(box[p].a, v.addr, NoKey).value), Empty; }
      var r := Emplace(box[p], key, v);
      at := r.key;
      if !r.ok { return false, at, Get(box[p], key).GetOr(Empty); }
      EmplacedGood(W(), p, key, v);
      box := box[p := r.box];
      if v.Object? { SetAsChild(p, v.addr, KeyName(r.key)); }
      ok, existing := true, Empty;
    }

    // `Append` and `Increment`, with what they make of an entry and what they start from.
    method Amend(p: Id, key: Key, change: XValue -> XValue, start: XValue) returns (amended: XValue)
      requires Good(W()) && p in parent && GivesPlain(change) && Storable(W(), start)
      modifies this
      ensures W() == TreeOps.Amend(old(W()), p, key, change, start)
      ensures var b, k := old(box)[p], Resolve(old(box)[p], key);
              amended == if IsThere(b, k) then change(Read(b, k)) else Empty
      ensures Good(W())
    {
      AmendGood(W(), p, key, change, start);
      FoundIsThere(box[p], Resolve(box[p], key));
      var k := Resolve(box[p], key);
      var current := Found(box[p], k);
      if current.Some? {
        amended := change(current.value);
        box := box[p := Put(box[p], k, amended).box];
      } else {
        amended := Empty;
        box := box[p := Emplace(box[p], key, start).box];
      }
    }

    method Erase(p: Id, key: Key) returns (erased: Option<XValue>)
      requires Good(W()) && p in parent
      modifies this
      ensures TreeOps.EraseKey(old(W()), p, key) == Res(W(), erased.Some?)
      ensures erased == Boxes.Erase(old(box)[p], Resolve(old(box)[p], key)).erased
      ensures Good(W())
    {
      EraseKeyGood(W(), p, key);
      var k := Resolve(box[p], key);
      var e := Boxes.Erase(box[p], k);
      erased := e.erased;
      ErasedGood(W(), p, k);
      if erased.Some? && erased.value.Object? { ErasedIsKnown(W(), p, k); }
      box := box[p := e.box];
      if erased.Some? && erased.value.Object? { ParentDetach(erased.value.addr); }
    }

    method KeyChange(p: Id, from: Key, to: Key) returns (ok: bool)
      requires Good(W()) && p in parent
      modifies this
      ensures TreeOps.KeyChange(old(W()), p, from, to) == Res(W(), ok)
      ensures Good(W())
    {
      KeyChangeGood(W(), p, from, to);
      if from == NoKey || to == NoKey || from.Name? != to.Name? { return false; }
      if Get(box[p], to).Some? { return false; }
      var e := Boxes.Erase(box[p], Resolve(box[p], from));
      if e.erased.None? { return false; }
      var moved := e.erased.value;
      if moved.Object? { ErasedIsKnown(W(), p, Resolve(box[p], from)); }
      box := box[p := Put(e.box, to, moved).box];
      if to.Name? && moved.Object? { name := name[moved.addr := to.s]; }
      ok := true;
    }

    method NameSet(c: Id, newName: string, updateParent: bool) returns (ok: bool, former: string)
      requires Good(W()) && c in parent
      modifies this
      ensures TreeOps.NameSet(old(W()), c, newName, updateParent) == Res(W(), ok)
      ensures former == old(name)[c]
      ensures Good(W())
    {
      NameSetGood(W(), c, newName, updateParent);
      former := name[c];
      if newName == former { return true, former; }
      if former != "" && parent[c].Some? && box[parent[c].value].MapBox? {
        if !updateParent { return false, former; }
        ok := KeyChange(parent[c].value, Name(former), Name(newName));
        return;
      }
      name := name[c := newName];
      ok := true;
    }

    method DetachEach(cs: seq<Id>)
      requires Good(W()) && forall c | c in cs :: c in parent
      modifies this
      ensures W() == DetachAll(old(W()), cs)
      ensures Good(W())
    {
      DetachAllGood(W(), cs);
      for i := 0 to |cs|
        invariant Good(W()) && forall c | c in cs :: c in parent
        invariant DetachAll(W(), cs[i..]) == DetachAll(old(W()), cs)
      {
        assert cs[i..][0] == cs[i] && cs[i..][1..] == cs[i + 1..];
        ParentDetach(cs[i]);
      }
    }

    static method CollectNodes(values: seq<XValue>) returns (removed: seq<Id>)
      ensures removed == NodesOf(values)
    {
      removed := [];
      hide NodesOf;
      NodesOfNothing();
      for i := 0 to |values|
        invariant removed + NodesOf(values[i..]) == NodesOf(values)
      {
        NodesOfStep(values, i);
        if values[i].Object? { removed := removed + [values[i].addr]; }
      }
    }

    method Clear(p: Id)
      requires Good(W()) && p in parent
      modifies this
      ensures W() == TreeOps.Clear(old(W()), p)
      ensures Good(W())
    {
      var removed := CollectNodes(Values(box[p]));
      forall c | c in removed ensures c in parent { ValuesAreStored(box[p], c); }
      WithBoxValid(W(), p, Cleared(box[p]));
      box := box[p := Cleared(box[p])];
      DetachEach(removed);
    }

    method ExtractEach(b: Box, ks: seq<Key>) returns (left: Box, extracted: seq<XValue>)
      ensures Extract(b, ks) == Extraction(left, extracted)
    {
      left, extracted := b, [];
      for i := 0 to |ks|
        invariant Extract(b, ks).box == Extract(left, ks[i..]).box
        invariant Extract(b, ks).vals == extracted + Extract(left, ks[i..]).vals
      {
        assert ks[i..][0] == ks[i] && ks[i..][1..] == ks[i + 1..];
        var e := Boxes.Erase(left, ks[i]);
        left := e.box;
        if e.erased.Some? { extracted := extracted + [e.erased.value]; }
      }
    }

    method BulkErase(p: Id, keys: seq<Key>) returns (extracted: seq<XValue>)
      requires Good(W()) && p in parent
      modifies this
      ensures W() == TreeOps.BulkErase(old(W()), p, keys)
      ensures extracted == Extract(old(box)[p], ResolveAll(old(box)[p], keys)).vals
      ensures Good(W())
    {
      var ks := ResolveAll(box[p], keys);
      var left;
      left, extracted := ExtractEach(box[p], ks);
      forall c | c in NodesOf(extracted) ensures c in parent { ExtractedIsStored(box[p], ks, c); }
      ExtractGood(box[p], ks);
      WithBoxValid(W(), p, left);
      box := box[p := left];
      DetachEach(NodesOf(extracted));
    }

    // The first loop of the bulk insertions: the nodes that must not become children of p.
    method InvalidChildren(p: Id, vs: seq<XValue>) returns (invalid: set<Id>)
      requires Good(W()) && p in parent
      ensures forall v | v in vs :: !ValidChild(W(), p, v) <==> v.Object? && v.addr in invalid
    {
      invalid := {};
      for i := 0 to |vs|
        invariant forall c | c in invalid :: Below(parent, p, c)
        invariant forall v | v in vs[..i] :: !ValidChild(W(), p, v) ==> v.addr in invalid
      {
        var ok, _ := IsValidChild(p, vs[i]);
        if !ok { invalid := invalid + {vs[i].addr}; }
        assert vs[..i + 1] == vs[..i] + [vs[i]];
      }
      assert vs[..|vs|] == vs;
    }

    static method FillEach(ghost w: World, p: Id, b: Box, kvs: seq<(Key, XValue)>, invalid: set<Id>)
      returns (filled: Box, todo: map<Id, Option<string>>, rejected: seq<(Key, XValue)>)
      requires forall i | 0 <= i < |kvs| ::
        !ValidChild(w, p, kvs[i].1) <==> kvs[i].1.Object? && kvs[i].1.addr in invalid
      ensures Fill(w, p, b, map[], kvs) == Filling(filled, todo, rejected)
    {
      hide Fill, Emplace, FindNode, Get, ValidChild;
      filled, todo, rejected := b, map[], [];
      for i := 0 to |kvs|
        invariant Fill(w, p, b, map[], kvs) == RejectedFirst(rejected, Fill(w, p, filled, todo, kvs[i..]))
      {
        assert kvs[i..][0] == kvs[i] && kvs[i..][1..] == kvs[i + 1..];
        var (k, v) := kvs[i];
        var e := Emplace(filled, k, v);
        if v.Object? && (v.addr in invalid || v.addr in todo) {
          FillRejects(w, p, filled, todo, kvs[i..], rejected);
          rejected := rejected + [kvs[i]];
        } else if v.Object? && HasDuplicate(filled, v.addr) {
          FillRejects(w, p, filled, todo, kvs[i..], rejected);
          rejected := rejected + [(At(FindNode(filled.a, v.addr, NoKey).value), v)];
        } else if !e.ok {
          FillRejects(w, p, filled, todo, kvs[i..], rejected);
          rejected := rejected + [(k, Get(filled, k).GetOr(Empty))];
        } else {
          FillAccepts(w, p, filled, todo, kvs[i..]);
          filled := e.box;
          if v.Object? { todo := todo[v.addr := KeyName(e.key)]; }
        }
      }
      FillNothing(w, p, filled, todo, kvs[|kvs|..]);
    }

    method AdoptEach(p: Id, nodes: map<Id, Option<string>>)
      requires Good(W()) && p in parent && nodes.Keys <= parent.Keys
      modifies this
      ensures W() == AdoptAll(old(W()), p, nodes)
      ensures Good(W())
    {
      var todo := nodes;
      while todo != map[]
        invariant Good(W()) && p in parent && todo.Keys <= parent.Keys
        invariant AdoptAll(W(), p, todo) == AdoptAll(old(W()), p, nodes)
        decreases todo.Keys
      {
        var c := Order.Least(todo.Keys);
        ParentDetach(c);
        SetAsChild(p, c, todo[c]);
        todo := todo - {c};
      }
    }

    method BulkInsert(p: Id, kvs: seq<(Key, XValue)>) returns (rejected: seq<(Key, XValue)>)
      requires Good(W()) && p in parent && AllStorable(W(), kvs)
      modifies this
      ensures W() == TreeOps.BulkInsert(old(W()), p, kvs)
      ensures rejected == Fill(old(W()), p, old(box)[p], map[], kvs).rejected
      ensures Good(W())
    {
      ghost var w := W();
      var vs := seq(|kvs|, i requires 0 <= i < |kvs| => kvs[i].1);
      var invalid := InvalidChildren(p, vs);
      assert forall i | 0 <= i < |kvs| :: kvs[i].1 == vs[i] && vs[i] in vs;
      FillIsKnown(w, p, w.box[p], map[], kvs);
      FillGood(w, p, w.box[p], map[], kvs);
      WithBoxValid(w, p, Fill(w, p, w.box[p], map[], kvs).box);
      var filled, todo;
      filled, todo, rejected := FillEach(w, p, box[p], kvs, invalid);
      box := box[p := filled];
      AdoptEach(p, todo);
    }

    static method FillArrayEach(ghost w: World, p: Id, a: seq<XValue>, pos: Key, vs: seq<XValue>, invalid: set<Id>)
      returns (filled: seq<XValue>, inserted: seq<Id>, rejected: seq<XValue>, ghost accepted: seq<XValue>, last: Key)
      requires forall v | v in vs :: !ValidChild(w, p, v) <==> v.Object? && v.addr in invalid
      ensures FillArray(w, p, a, pos, vs) == ArrayFilling(filled, accepted, rejected)
      ensures inserted == NodesOf(accepted)
      ensures last == LastPlace(|a|, pos, |accepted|)
    {
      filled, inserted, rejected, accepted, last := a, [], [], [], NoKey;
      var at := pos;
      assert vs[0..] == vs;
      FillArrayNothing(w, p);
      NoPlace(|a|, pos);
      BehindNothing(FillArray(w, p, a, pos, vs));
      hide FillArray, Emplace, HasDuplicate, LastPlace, NextPosition, NodesOf, Behind, PlaceAfter, Below;
      for i := 0 to |vs|
        invariant FillArray(w, p, a, pos, vs) == Behind(accepted, rejected, FillArray(w, p, filled, at, vs[i..]))
        invariant inserted == NodesOf(accepted)
        invariant |filled| == |a| + |accepted| && last == LastPlace(|a|, pos, |accepted|)
        invariant at == PlaceAfter(pos, |accepted|)
      {
        FillArrayStep(w, p, filled, at, vs, i);
        if vs[i].Object? && (vs[i].addr in invalid || HasDuplicate(ArrayBox(filled), vs[i].addr)) {
          BehindRejected(accepted, rejected, vs[i], FillArray(w, p, filled, at, vs[i + 1..]));
          rejected := rejected + [vs[i]];
        } else {
          PlaceStep(a, pos, |accepted|, filled, vs[i]);
          last := Emplace(ArrayBox(filled), at, vs[i]).key;
          filled := Emplace(ArrayBox(filled), at, vs[i]).box.a;
          at := NextPosition(at);
          BehindAccepted(accepted, rejected, vs[i], FillArray(w, p, filled, at, vs[i + 1..]));
          NodesOfAppend(accepted, vs[i]);
          if vs[i].Object? { inserted := inserted + [vs[i].addr]; }
          accepted := accepted + [vs[i]];
        }
      }
      assert vs[|vs|..] == [];
      BehindAll(accepted, rejected, filled);
    }

    method SetEachAsChild(p: Id, cs: seq<Id>)
      requires Good(W()) && p in parent && forall c | c in cs :: c in parent
      modifies this
      ensures W() == SetAllAsChildren(old(W()), p, cs)
      ensures Good(W())
    {
      for i := 0 to |cs|
        invariant Good(W()) && p in parent && forall c | c in cs :: c in parent
        invariant SetAllAsChildren(W(), p, cs[i..]) == SetAllAsChildren(old(W()), p, cs)
      {
        assert cs[i..][0] == cs[i] && cs[i..][1..] == cs[i + 1..];
        SetAsChild(p, cs[i], None);
      }
    }

    method BulkInsertAt(p: Id, pos: Key, vs: seq<XValue>) returns (count: nat, last: Key, rejected: seq<XValue>)
      requires Good(W()) && p in parent && forall v | v in vs :: Storable(W(), v)
      modifies this
      ensures W() == TreeOps.BulkInsertAt(old(W()), p, pos, vs)
      ensures if pos.Name? || old(box)[p].MapBox? then
                count == 0 && rejected == vs && last == if pos.Name? then pos else NoKey
              else
                var f := FillArray(old(W()), p, old(box)[p].a, InsertPosition(pos), vs);
                && count == |f.accepted| && rejected == f.rejected
                && last == LastPlace(|old(box)[p].a|, InsertPosition(pos), count)
      ensures Good(W())
    {
      if pos.Name? || box[p].MapBox? { return 0, if pos.Name? then pos else NoKey, vs; }
      ghost var w := W();
      var invalid := InvalidChildren(p, vs);
      AcceptedAreKnown(w, p, w.box[p].a, InsertPosition(pos), vs);
      FilledIsValid(w, p, InsertPosition(pos), vs);
      FillCounts(w, p, w.box[p].a, InsertPosition(pos), vs);
      var filled, inserted;
      ghost var accepted;
      filled, inserted, rejected, accepted, last := FillArrayEach(w, p, box[p].a, InsertPosition(pos), vs, invalid);
      box := box[p := ArrayBox(filled)];
      SetEachAsChild(p, inserted);
      count := |vs| - |rejected|;
    }

    // ----- BulkSet and ForEach -----

    // One pair goes into the container, with a node in hand.
    static method StorePair(s: Setting, pair: (Key, XValue), node: Option<Id>) returns (n: Setting, stored: bool)
      ensures n == Store(s, pair, node)
      ensures n.left == if stored then s.left else s.left + [pair]
    {
      n := s;
      var k := Resolve(n.box, pair.0);
      var r := Put(n.box, k, pair.1);
      n := n.(box := r.box);
      if !r.ok { return n.(left := n.left + [pair]), false; }
      n := n.(gone := n.gone + NodesOf([r.prev]), touched := n.touched + NodeIn(pair.1));
      if node.Some? && node.value !in n.placed { n := n.(placed := n.placed[node.value := k]); }
      stored := true;
    }

    // The loop of `BulkSet`.
    static method SetPairs(ghost w: World, p: Id, b: Box, kvs: seq<(Key, XValue)>, invalid: set<Id>)
      returns (s: Setting, count: nat)
      requires forall i | 0 <= i < |kvs| ::
        !ValidChild(w, p, kvs[i].1) <==> kvs[i].1.Object? && kvs[i].1.addr in invalid
      requires !SetEach(w, p, Begin(b), kvs).overrun
      ensures s == SetEach(w, p, Begin(b), kvs)
      ensures count + |s.left| == |kvs|
    {
      hide SetEach, Store, Boxes.Erase, ValidChild;
      s, count := Begin(b), 0;
      var i := 0;
      assert kvs[0..] == kvs;
      while i < |kvs|
        invariant i <= |kvs| && SetEach(w, p, s, kvs[i..]) == SetEach(w, p, Begin(b), kvs)
        invariant count + |s.left| == i
      {
        OneTurn(w, p, s, kvs, i);
        var v := kvs[i].1;
        if v.Object? && v.addr in invalid {
          s := Leave(s, kvs[i]);
          i := i + 1;
          continue;
        }
        if v.Object? && v.addr in s.placed {
          var e := Boxes.Erase(s.box, s.placed[v.addr]);
          if e.erased.Some? {
            s := TakeBack(s, v.addr, e);
          } else {
            s := Leave(s, kvs[i]);
            i := i + 1;
          }
        }
        var stored;
        s, stored := StorePair(s, kvs[i], InHand(v));
        if stored { count := count + 1; }
        i := i + 1;
      }
      NoTurn(w, p, s, kvs[|kvs|..]);
    }

    static method CleanEach(b: Box, placed: seq<(Id, Key)>) returns (r: Box)
      ensures r == Cleaned(b, placed)
    {
      r := b;
      for i := 0 to |placed|
        invariant Cleaned(r, placed[i..]) == Cleaned(b, placed)
      {
        assert placed[i..][0] == placed[i] && placed[i..][1..] == placed[i + 1..];
        r := RemoveDuplicate(r, placed[i].0, placed[i].1);
      }
    }

    method AdoptEachInTurn(p: Id, placed: seq<(Id, Key)>)
      requires Good(W()) && p in parent && PlacedKnown(W(), placed)
      modifies this
      ensures W() == AdoptInTurn(old(W()), p, placed)
      ensures Good(W())
    {
      ghost var w := W();
      for i := 0 to |placed|
        invariant Good(W()) && p in parent && PlacedKnown(W(), placed[i..])
        invariant AdoptInTurn(W(), p, placed[i..]) == AdoptInTurn(w, p, placed)
      {
        assert placed[i..][0] == placed[i] && placed[i..][1..] == placed[i + 1..];
        SetAsChild(p, placed[i].0, KeyName(placed[i].1));
        RestKnown(W(), placed[i..]);
      }
    }

    // What follows the container part: duplicates go, displaced nodes are detached, placed ones adopted.
    method SettleWriting(p: Id, x: Writing)
      requires Good(W()) && p in parent && Known(W(), x)
      modifies this
      ensures W() == Settle(old(W()), p, x)
      ensures Good(W())
    {
      ghost var w := W();
      var b := CleanEach(x.box, x.placed);
      CleanedValid(w, p, x);
      DetachAllShaped(WithBox(w, p, b), x.gone);
      box := box[p := b];
      DetachEach(x.gone);
      AdoptEachInTurn(p, x.placed);
    }

    method BulkSet(p: Id, kvs: seq<(Key, XValue)>) returns (count: nat, left: seq<(Key, XValue)>)
      requires Good(W()) && p in parent && AllStorable(W(), kvs) && StaysWithin(W(), p, kvs)
      modifies this
      ensures W() == Writings.BulkSet(old(W()), p, kvs)
      ensures left == SetEach(old(W()), p, Begin(old(box)[p]), kvs).left && count + |left| == |kvs|
      ensures Good(W())
    {
      ghost var w := W();
      var vs := seq(|kvs|, i requires 0 <= i < |kvs| => kvs[i].1);
      var invalid := InvalidChildren(p, vs);
      assert forall i | 0 <= i < |kvs| :: kvs[i].1 == vs[i] && vs[i] in vs;
      BulkSetKnown(w, p, kvs);
      var s;
      s, count := SetPairs(w, p, box[p], kvs, invalid);
      left := s.left;
      SettleWriting(p, Writing(s.box, s.gone, ByAddress(s.placed), s.touched));
    }

    // The iteration over a map.
    static method VisitKeys(b: Box, keys: seq<string>, f: OnEach, from: Option<string>)
      returns (x: Writing, found: bool)
      requires b.MapBox? && forall k | k in keys :: k in b.m
      requires from.Some? && keys != [] ==> keys[0] == from.value
      ensures x == EachKey(Writing(b, [], [], {}), [], keys, f, from)
      ensures from.Some? ==> (found <==> keys != [] && !b.m[keys[0]].IsEmpty())
      ensures from.None? ==> (found <==> exists k | k in keys :: !b.m[k].IsEmpty())
    {
      hide EachKey, Outcome, Eq, XValue.IsEmpty;
      x, found := Writing(b, [], [], {}), false;
      var shown := [];
      assert keys[0..] == keys;
      for i := 0 to |keys|
        invariant (found <==> shown != []) && (i == 0 ==> !found)
        invariant !found ==> x.box == b && forall k | k in keys[..i] :: b.m[k].IsEmpty()
        invariant from.Some? && i > 0 ==> found && !b.m[keys[0]].IsEmpty()
        invariant found ==> exists k | k in keys :: !b.m[k].IsEmpty()
        invariant x.box.MapBox? && forall k | k in keys :: k in x.box.m
        invariant EachKey(x, shown, keys[i..], f, from) == EachKey(Writing(b, [], [], {}), [], keys, f, from)
      {
        assert keys[..i + 1] == keys[..i] + [keys[i]];
        EachKeyStep(x, shown, keys, i, f, from);
        var v := x.box.m[keys[i]];
        if v.IsEmpty() {
          if shown == [] && from == Some(keys[i]) { return; }
        } else {
          found := true;
          var (res, given) := f(shown, Name(keys[i]), v);
          var to := Outcome(v, res, given);
          x := Noted(x, MapAfter(x.box, keys[i], to), Name(keys[i]), v, to);
          if Stops(res) { return; }
          shown := shown + [(Name(keys[i]), v)];
        }
      }
      NoKeyLeft(x, shown, keys, f, from);
      assert keys[..|keys|] == keys;
    }

    // The iteration over an array, with erasure in place.
    static method VisitSlots(b: Box, begin: nat, f: OnEach) returns (x: Writing)
      requires b.ArrayBox? && begin <= |b.a|
      ensures x == EachSlot(Writing(b, [], [], {}), [], begin, f)
    {
      x := Writing(b, [], [], {});
      var i, shown := begin, [];
      while i < |x.box.a|
        invariant x.box.ArrayBox? && 0 <= i <= |x.box.a|
        invariant EachSlot(x, shown, i, f) == EachSlot(Writing(b, [], [], {}), [], begin, f)
        decreases |x.box.a| - i
      {
        var v, at := x.box.a[i], At(|shown|);
        var (res, given) := f(shown, at, v);
        var to := Outcome(v, res, given);
        x := Noted(x, ArrayBox(SlotAfter(x.box.a, i, to)), at, v, to);
        if Stops(res) { return; }
        if to.Some? { i := i + 1; }
        shown := shown + [(at, v)];
      }
    }

    method ForEach(p: Id, f: OnEach, from: Key) returns (found: bool)
      requires Good(W()) && p in parent && GivesStorable(W(), f)
      modifies this
      ensures W() == Writings.ForEach(old(W()), p, f, from)
      ensures found <==> FindsAny(old(box)[p], from)
      ensures Good(W())
    {
      ForEachKnown(W(), p, f, from);
      var b := box[p];
      var x;
      if b.MapBox? {
        KeysBegin(b.m, FromKey(b, from));
        x, found := VisitKeys(b, KeysFrom(b.m, FromKey(b, from)), f, FromKey(b, from));
      } else {
        found := if from == NoKey then b.a != [] else Position(b.a, from).Some?;
        x := VisitSlots(b, if from == NoKey then 0 else Position(b.a, from).GetOr(|b.a|), f);
      }
      SettleWriting(p, x);
    }
  }

  // The keys that an iteration walks begin with the one asked for, and they are all the keys when none is.
  lemma KeysBegin(m: map<string, XValue>, from: Option<string>)
    ensures from.Some? ==>
              var ks := KeysFrom(m, from);
              if from.value != "" && from.value in m then ks != [] && ks[0] == from.value else ks == []
    ensures from.None? ==>
              ((exists k | k in KeysFrom(m, from) :: !m[k].IsEmpty()) <==> LiveKeys(m) != [])
  {
    match from
    case Some(k) => if k in m { Order.SkipToIt(Order.SortedKeys(m.Keys), k); }
    case None =>
      if LiveKeys(m) != [] {
        assert LiveKeys(m)[0] in LiveKeys(m);
        assert LiveKeys(m)[0] in KeysFrom(m, from);
      }
  }

  lemma NoKeyLeft(x: Writing, shown: seq<(Key, XValue)>, keys: seq<string>, f: OnEach, from: Option<string>)
    requires x.box.MapBox?
    ensures EachKey(x, shown, keys[|keys|..], f, from) == x
  {
  }

  // One key of the iteration.
  lemma EachKeyStep(x: Writing, shown: seq<(Key, XValue)>, keys: seq<string>, i: nat, f: OnEach, from: Option<string>)
    requires i < |keys| && x.box.MapBox? && forall k | k in keys :: k in x.box.m
    ensures keys[i] in keys && forall k | k in keys[i..] :: k in x.box.m
    ensures var v := x.box.m[keys[i]];
            EachKey(x, shown, keys[i..], f, from) ==
            if v.IsEmpty() then
              if shown == [] && from == Some(keys[i]) then x else EachKey(x, shown, keys[i + 1..], f, from)
            else
              var (res, given) := f(shown, Name(keys[i]), v);
              var to := Outcome(v, res, given);
              var y := Noted(x, MapAfter(x.box, keys[i], to), Name(keys[i]), v, to);
              if Stops(res) then y else EachKey(y, shown + [(Name(keys[i]), v)], keys[i + 1..], f, from)
  {
    hide Outcome, XValue.IsEmpty;
    assert keys[i..][0] == keys[i] && keys[i..][1..] == keys[i + 1..] && keys[i] in keys;
  }

  // `Set` step by step.
  lemma SetSteps(w: World, p: Id, key: Key, v: XValue)
    requires Good(w) && p in w.parent && Storable(w, v)
    ensures var k := Resolve(w.box[p], key);
            var r := Put(w.box[p], k, v);
            var b := if r.ok && v.Object? then RemoveDuplicate(r.box, v.addr, k) else r.box;
            && Good(WithBox(w, p, b)) && (r.ok && r.prev.Object? ==> r.prev.addr in w.parent)
            && TreeOps.Set(w, p, key, v) ==
               if !ValidChild(w, p, v) then Res(w, false)
               else if !r.ok then Res(WithBox(w, p, b), false)
               else
                 var u := Orphan(WithBox(w, p, b), r.prev);
                 Res(if v.Object? then Worlds.SetAsChild(u, p, v.addr, KeyName(k)) else u, true)
  {
    var k := Resolve(w.box[p], key);
    PlacedGood(w, p, k, v);
    if Put(w.box[p], k, v).ok && Put(w.box[p], k, v).prev.Object? { PutPrevIsKnown(w, p, k, v); }
  }

  // Where the last of n values goes in, of an array of the given length, when the first one goes in at pos.
  function LastPlace(length: nat, pos: Key, n: nat): Key {
    if n == 0 then NoKey
    else match pos
      case At(i) => At((if i < length then i else length) + n - 1)
      case Last => At(if length + n > 1 then length + n - 2 else 0)
      case _ => At(length + n - 1)
  }

  /** The key that `BulkInsert` at a position answers is that of the value that went in last. */
  lemma LastPlaceReads(w: World, p: Id, a: seq<XValue>, pos: Key, vs: seq<XValue>)
    requires pos.At? || pos.Last? || pos.End?
    ensures var f := FillArray(w, p, a, pos, vs);
            var n, last := |f.accepted|, LastPlace(|a|, pos, |f.accepted|);
            if n == 0 then last == NoKey else Get(ArrayBox(f.a), last) == Some(f.accepted[n - 1])
  {
    hide FillArray;
    ArrayInserts.FilledIsInserted(w, p, a, pos, vs);
  }

  lemma NoPlace(length: nat, pos: Key)
    ensures LastPlace(length, pos, 0) == NoKey && PlaceAfter(pos, 0) == pos
  {
  }

  // The position at which the value after n others goes in.
  function PlaceAfter(pos: Key, n: nat): Key {
    if pos.At? then At(pos.i + n) else pos
  }

  lemma PlaceStep(a: seq<XValue>, pos: Key, n: nat, filled: seq<XValue>, v: XValue)
    requires |filled| == |a| + n
    ensures var e := Emplace(ArrayBox(filled), PlaceAfter(pos, n), v);
            e.box.ArrayBox? && |e.box.a| == |filled| + 1 && e.key == LastPlace(|a|, pos, n + 1)
    ensures PlaceAfter(pos, 0) == pos && NextPosition(PlaceAfter(pos, n)) == PlaceAfter(pos, n + 1)
  {
  }

  lemma FillArrayNothing(w: World, p: Id)
    ensures forall a, pos :: FillArray(w, p, a, pos, []) == ArrayFilling(a, [], [])
  {
  }

  lemma FillArrayStep(w: World, p: Id, a: seq<XValue>, pos: Key, vs: seq<XValue>, i: nat)
    requires i < |vs|
    ensures Emplace(ArrayBox(a), pos, vs[i]).box.ArrayBox?
    ensures FillArray(w, p, a, pos, vs[i..]) ==
            if !ValidChild(w, p, vs[i]) || (vs[i].Object? && HasDuplicate(ArrayBox(a), vs[i].addr)) then
              Behind([], [vs[i]], FillArray(w, p, a, pos, vs[i + 1..]))
            else
              Behind([vs[i]], [],
                     FillArray(w, p, Emplace(ArrayBox(a), pos, vs[i]).box.a, NextPosition(pos), vs[i + 1..]))
  {
    assert vs[i..][0] == vs[i] && vs[i..][1..] == vs[i + 1..];
  }

  // The result of the rest of the values, behind what was accepted and rejected before.
  function Behind(accepted: seq<XValue>, rejected: seq<XValue>, rest: ArrayFilling): ArrayFilling {
    ArrayFilling(rest.a, accepted + rest.accepted, rejected + rest.rejected)
  }

  lemma BehindNothing(rest: ArrayFilling)
    ensures Behind([], [], rest) == rest
  {
  }

  lemma BehindAll(accepted: seq<XValue>, rejected: seq<XValue>, a: seq<XValue>)
    ensures Behind(accepted, rejected, ArrayFilling(a, [], [])) == ArrayFilling(a, accepted, rejected)
  {
  }

  lemma BehindAccepted(accepted: seq<XValue>, rejected: seq<XValue>, v: XValue, rest: ArrayFilling)
    ensures Behind(accepted, rejected, Behind([v], [], rest)) == Behind(accepted + [v], rejected, rest)
  {
  }

  lemma BehindRejected(accepted: seq<XValue>, rejected: seq<XValue>, v: XValue, rest: ArrayFilling)
    ensures Behind(accepted, rejected, Behind([], [v], rest)) == Behind(accepted, rejected + [v], rest)
  {
  }

  lemma NodesOfNothing()
    ensures forall vs :: NodesOf(vs[0..]) == NodesOf(vs) && NodesOf(vs[|vs|..]) == []
  {
    assert forall vs: seq<XValue> :: vs[0..] == vs && vs[|vs|..] == [];
  }

  lemma NodesOfStep(vs: seq<XValue>, i: nat)
    requires i < |vs|
    ensures NodesOf(vs[i..]) == (if vs[i].Object? then [vs[i].addr] else []) + NodesOf(vs[i + 1..])
  {
    assert vs[i..][0] == vs[i] && vs[i..][1..] == vs[i + 1..];
  }

  lemma NodesOfFirst(vs: seq<XValue>)
    requires vs != []
    ensures NodesOf(vs) == (if vs[0].Object? then [vs[0].addr] else []) + NodesOf(vs[1..])
  {
  }

  lemma NodesOfNone()
    ensures NodesOf([]) == []
  {
  }

  lemma {:induction false} NodesOfAppend(vs: seq<XValue>, v: XValue)
    ensures NodesOf(vs + [v]) == NodesOf(vs) + if v.Object? then [v.addr] else []
  {
    hide NodesOf;
    NodesOfNone();
    var all := vs + [v];
    NodesOfFirst(all);
    if vs == [] {
      assert all == [v] && all[1..] == [];
    } else {
      assert all[0] == vs[0] && all[1..] == vs[1..] + [v];
      NodesOfAppend(vs[1..], v);
      NodesOfFirst(vs);
    }
  }

  lemma {:induction false} FillCounts(w: World, p: Id, a: seq<XValue>, pos: Key, vs: seq<XValue>)
    ensures |FillArray(w, p, a, pos, vs).accepted| + |FillArray(w, p, a, pos, vs).rejected| == |vs|
    decreases |vs|
  {
    if vs != [] {
      FillCounts(w, p, a, pos, vs[1..]);
      FillCounts(w, p, Emplace(ArrayBox(a), pos, vs[0]).box.a, NextPosition(pos), vs[1..]);
    }
  }
}
