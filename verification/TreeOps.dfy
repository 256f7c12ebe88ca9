/** The public operations of `XNode` as functions of the world: each is its sequence of container
    changes and private steps, without callbacks. The class `Nodes` carries them out. */
module TreeOps {
  import opened Wrappers
  import opened XValues
  import opened Boxes
  import opened Holding
  import opened Worlds
  import Order

  datatype Res = Res(w: World, ok: bool)

  // A value that may be stored: any plain value, or an owning link to an existing node.
  ghost predicate Storable(w: World, v: XValue) {
    !v.ConstObject? && (v.Object? ==> v.addr in w.parent)
  }

  // `IsValidChild_`: a value that is not a node, or a node that is neither p nor above p.
  ghost predicate ValidChild(w: World, p: Id, v: XValue) {
    v.Object? ==> !Below(w.parent, p, v.addr)
  }

  function WithBox(w: World, p: Id, b: Box): World {
    w.(box := w.box[p := b])
  }

  lemma PutPrevIsKnown(w: World, p: Id, k: Key, v: XValue)
    requires Valid(w) && p in w.box && Put(w.box[p], k, v).prev.Object?
    ensures Put(w.box[p], k, v).prev.addr in w.parent
  {
    assert RefersTo(w.box[p], Put(w.box[p], k, v).prev.addr);
  }

  lemma ErasedIsStored(b: Box, k: Key, c: Id)
    requires Erase(b, k).erased == Some(Object(c))
    ensures RefersTo(b, c)
  {
  }

  lemma ErasedIsKnown(w: World, p: Id, k: Key)
    requires Valid(w) && p in w.box && Erase(w.box[p], k).erased.Some? && Erase(w.box[p], k).erased.value.Object?
    ensures Erase(w.box[p], k).erased.value.addr in w.parent
  {
    ErasedIsStored(w.box[p], k, Erase(w.box[p], k).erased.value.addr);
  }

  ghost function Create(w: World, id: Id, isMap: bool, name: string): World {
    World(w.parent[id := None], w.name[id := name], w.box[id := EmptyBox(isMap)])
  }

  // The node that a write displaced loses its parent pointer, and nothing else.
  ghost function Orphan(w: World, v: XValue): World
    requires v.Object? ==> v.addr in w.parent && v.addr in w.name
  {
    if v.Object? then PrivateParentSet(w, v.addr, None, None).w else w
  }

  ghost function Set(w: World, p: Id, key: Key, v: XValue): Res
    requires Valid(w) && p in w.parent && Storable(w, v)
  {
    if !ValidChild(w, p, v) then Res(w, false)
    else
      var k := Resolve(w.box[p], key);
      var r := Put(w.box[p], k, v);
      if !r.ok then Res(WithBox(w, p, r.box), false)
      else
        var b := if v.Object? then RemoveDuplicate(r.box, v.addr, k) else r.box;
        assert r.prev.Object? ==> r.prev.addr in w.parent by {
          if r.prev.Object? { PutPrevIsKnown(w, p, k, v); }
        }
        var u := Orphan(WithBox(w, p, b), r.prev);
        Res(if v.Object? then SetAsChild(u, p, v.addr, KeyName(k)) else u, true)
  }

  ghost function Insert(w: World, p: Id, key: Key, v: XValue): Res
    requires Valid(w) && p in w.parent && Storable(w, v)
  {
    if !ValidChild(w, p, v) then Res(w, false)
    else if v.Object? && HasDuplicate(w.box[p], v.addr) then Res(w, false)
    else
      var r := Emplace(w.box[p], key, v);
      if !r.ok then Res(w, false)
      else
        var u := WithBox(w, p, r.box);
        Res(if v.Object? then SetAsChild(u, p, v.addr, KeyName(r.key)) else u, true)
  }

  // What `Insert` answers besides its success: the key, and what is in the way there. Of a node that the array
  // holds already, only the key of its slot is told.
  ghost function InsertReply(w: World, p: Id, key: Key, v: XValue): (Key, XValue)
    requires p in w.box
  {
    var b := w.box[p];
    if !ValidChild(w, p, v) then (NoKey, Empty)
    else if v.Object? && HasDuplicate(b, v.addr) then (At(FindNode(b.a, v.addr, NoKey).value), Empty)
    else
      var e := Emplace(b, key, v);
      (e.key, if e.ok then Empty else Get(b, key).GetOr(Empty))
  }

  ghost function EraseKey(w: World, p: Id, key: Key): Res
    requires Valid(w) && p in w.parent
  {
    var e := Erase(w.box[p], Resolve(w.box[p], key));
    var u := WithBox(w, p, e.box);
    assert e.erased.Some? && e.erased.value.Object? ==> e.erased.value.addr in w.parent by {
      if e.erased.Some? && e.erased.value.Object? { ErasedIsKnown(w, p, Resolve(w.box[p], key)); }
    }
    Res(if e.erased.Some? && e.erased.value.Object? then ParentDetach(u, e.erased.value.addr) else u, e.erased.Some?)
  }

  // `PrivateSet` for a map, `PrivateInsert` at the end for an array.
  function Adopted(b: Box, c: Id, name: string): Box {
    if b.MapBox? then Put(b, Name(name), Object(c)).box
    else if HasDuplicate(b, c) then b
    else Emplace(b, End, Object(c)).box
  }

  ghost function ParentSet(w: World, c: Id, p: Option<Id>, rename: Option<string>): Res
    requires Valid(w) && c in w.parent && (p.Some? ==> p.value in w.parent)
  {
    var r := PrivateParentSet(w, c, p, rename);
    if !r.ok then Res(w, false)
    else
      var u := if r.prev.Some? then PrivateErase(r.w, r.prev.value, c) else r.w;
      Res(if p.Some? then WithBox(u, p.value, Adopted(u.box[p.value], c, u.name[c])) else u, true)
  }

  ghost function KeyChange(w: World, p: Id, from: Key, to: Key): Res
    requires Valid(w) && p in w.parent
  {
    var b := w.box[p];
    if from == NoKey || to == NoKey || from.Name? != to.Name? then Res(w, false)
    else if Get(b, to).Some? then Res(w, false)
    else
      var e := Erase(b, Resolve(b, from));
      if e.erased.None? then Res(w, false)
      else
        var v := e.erased.value;
        var u := WithBox(w, p, Put(e.box, to, v).box);
        Res(if to.Name? && v.Object? then u.(name := u.name[v.addr := to.s]) else u, true)
  }

  // What the mutating iteration from a key finds first: the value of a position, or a live map entry.
  function Found(b: Box, k: Key): Option<XValue> {
    var x := Get(b, k);
    if b.MapBox? && x.Some? && x.value.IsEmpty() then None else x
  }

  // `CompareExchange`: whether the value was stored in the end is not looked at, nor is a node that
  // it replaces.
  ghost function CompareExchange(w: World, p: Id, key: Key, expected: XValue, v: XValue): Res
    requires Valid(w) && p in w.parent && Storable(w, v)
  {
    var b := w.box[p];
    var k := Resolve(b, key);
    var x := Found(b, k);
    if if x.Some? then !Eq(x.value, expected) else !expected.IsEmpty() then Res(w, false)
    else
      var u := WithBox(w, p, Put(b, k, v).box);
      Res(if v.Object? then SetAsChild(u, p, v.addr, KeyName(k)) else u, true)
  }

  predicate IsPlain(v: XValue) {
    !v.Object? && !v.ConstObject?
  }

  // `Append` and `Increment` at a key: an entry is replaced in place by what is made of it, and where there is
  // none a new one is put in under the key as given.
  function AmendedBox(b: Box, key: Key, change: XValue -> XValue, start: XValue): Box {
    var k := Resolve(b, key);
    var x := Found(b, k);
    if x.Some? then Put(b, k, change(x.value)).box else Emplace(b, key, start).box
  }

  // What is made of an entry is a string or a number. The entry is not looked at, and a node that
  // `Increment` was to start from is not adopted.
  ghost predicate GivesPlain(change: XValue -> XValue) {
    forall v :: IsPlain(change(v))
  }

  ghost function Amend(w: World, p: Id, key: Key, change: XValue -> XValue, start: XValue): World
    requires Valid(w) && p in w.parent && GivesPlain(change) && Storable(w, start)
  {
    WithBox(w, p, AmendedBox(w.box[p], key, change, start))
  }

  // `NameSet`: a child of a map is renamed by the map, if that may be updated.
  ghost function NameSet(w: World, c: Id, name: string, updateParent: bool): Res
    requires Valid(w) && c in w.parent
  {
    if name == w.name[c] then Res(w, true)
    else if w.name[c] != "" && w.parent[c].Some? && w.box[w.parent[c].value].MapBox? then
      if updateParent then KeyChange(w, w.parent[c].value, Name(w.name[c]), Name(name)) else Res(w, false)
    else Res(w.(name := w.name[c := name]), true)
  }

  // The nodes among the values, in order.
  function NodesOf(vs: seq<XValue>): (cs: seq<Id>)
    ensures forall c :: c in cs <==> Object(c) in vs
  {
    if vs == [] then []
    else (if vs[0].Object? then [vs[0].addr] else []) + NodesOf(vs[1..])
  }

  // The values that iteration shows.
  function Values(b: Box): seq<XValue> {
    match b
    case ArrayBox(a) => a
    case MapBox(m) =>
      assert forall i | 0 <= i < |LiveKeys(m)| :: LiveKeys(m)[i] in LiveKeys(m);
      seq(|LiveKeys(m)|, i requires 0 <= i < |LiveKeys(m)| => m[LiveKeys(m)[i]])
  }

  ghost function DetachAll(w: World, cs: seq<Id>): World
    requires Shaped(w) && forall c | c in cs :: c in w.parent
    decreases |cs|
  {
    if cs == [] then w else DetachAll(ParentDetach(w, cs[0]), cs[1..])
  }

  lemma DetachOne(v: World, d: Id)
    requires Shaped(v) && d in v.parent
    ensures DetachAll(v, [d]) == ParentDetach(v, d)
  {
    assert [d][1..] == [];
  }

  lemma ValuesAreStored(b: Box, c: Id)
    requires Object(c) in Values(b)
    ensures RefersTo(b, c)
  {
    var i :| 0 <= i < |Values(b)| && Values(b)[i] == Object(c);
    if b.MapBox? { assert LiveKeys(b.m)[i] in LiveKeys(b.m); }
  }

  ghost function Clear(w: World, p: Id): World
    requires Valid(w) && p in w.parent
  {
    var cs := NodesOf(Values(w.box[p]));
    assert forall c | c in cs :: c in w.parent by {
      forall c | c in cs ensures c in w.parent { ValuesAreStored(w.box[p], c); }
    }
    DetachAll(WithBox(w, p, Cleared(w.box[p])), cs)
  }

  // The container part of `BulkErase`, for keys that are already resolved.
  datatype Extraction = Extraction(box: Box, vals: seq<XValue>)

  function Extract(b: Box, ks: seq<Key>): Extraction
    decreases |ks|
  {
    if ks == [] then Extraction(b, [])
    else
      var e := Erase(b, ks[0]);
      var rest := Extract(e.box, ks[1..]);
      if e.erased.Some? then Extraction(rest.box, [e.erased.value] + rest.vals) else rest
  }

  lemma {:induction false} ExtractedIsStored(b: Box, ks: seq<Key>, c: Id)
    requires Object(c) in Extract(b, ks).vals
    ensures RefersTo(b, c)
    decreases |ks|
  {
    var e := Erase(b, ks[0]);
    var rest := Extract(e.box, ks[1..]);
    if e.erased != Some(Object(c)) {
      assert Object(c) in rest.vals;
      ExtractedIsStored(e.box, ks[1..], c);
      EraseSame(b, ks[0], c);
    }
  }

  function ResolveAll(b: Box, keys: seq<Key>): (r: seq<Key>)
    ensures |r| == |keys| && forall i | 0 <= i < |keys| :: r[i] == Resolve(b, keys[i])
  {
    seq(|keys|, i requires 0 <= i < |keys| => Resolve(b, keys[i]))
  }

  ghost function BulkErase(w: World, p: Id, keys: seq<Key>): World
    requires Valid(w) && p in w.parent
  {
    var ks := ResolveAll(w.box[p], keys);
    var x := Extract(w.box[p], ks);
    assert forall c | c in NodesOf(x.vals) :: c in w.parent by {
      forall c | c in NodesOf(x.vals) ensures c in w.parent { ExtractedIsStored(w.box[p], ks, c); }
    }
    DetachAll(WithBox(w, p, x.box), NodesOf(x.vals))
  }

  // The container part of `BulkInsert` for keyed values: `todo` collects the inserted nodes and the
  // name (if any) under which each went in.
  datatype Filling = Filling(box: Box, todo: map<Id, Option<string>>, rejected: seq<(Key, XValue)>)

  ghost predicate Refused(w: World, p: Id, b: Box, todo: set<Id>, v: XValue) {
    !ValidChild(w, p, v) || (v.Object? && (v.addr in todo || HasDuplicate(b, v.addr)))
  }

  // What a rejected pair is left as: with a node that the array holds already comes the key of its slot,
  // and the value that cannot go in gives way to the one that is there.
  ghost function RejectedPair(w: World, p: Id, b: Box, todo: set<Id>, kv: (Key, XValue)): (Key, XValue) {
    var (k, v) := kv;
    if !ValidChild(w, p, v) || (v.Object? && v.addr in todo) then kv
    else if v.Object? && HasDuplicate(b, v.addr) then (At(FindNode(b.a, v.addr, NoKey).value), v)
    else (k, Get(b, k).GetOr(Empty))
  }

  ghost function Fill(w: World, p: Id, b: Box, todo: map<Id, Option<string>>, kvs: seq<(Key, XValue)>): Filling
    decreases |kvs|
  {
    if kvs == [] then Filling(b, todo, [])
    else
      var (k, v) := kvs[0];
      var e := Emplace(b, k, v);
      if Refused(w, p, b, todo.Keys, v) || !e.ok then
        var rest := Fill(w, p, b, todo, kvs[1..]);
        rest.(rejected := [RejectedPair(w, p, b, todo.Keys, kvs[0])] + rest.rejected)
      else
        Fill(w, p, e.box, if v.Object? then todo[v.addr := KeyName(e.key)] else todo, kvs[1..])
  }

  // What is rejected first comes first.
  ghost function RejectedFirst(rejected: seq<(Key, XValue)>, rest: Filling): Filling {
    rest.(rejected := rejected + rest.rejected)
  }

  lemma FillNothing(w: World, p: Id, b: Box, todo: map<Id, Option<string>>, kvs: seq<(Key, XValue)>)
    requires kvs == []
    ensures Fill(w, p, b, todo, kvs) == Filling(b, todo, [])
  {
  }

  lemma FillRejects(w: World, p: Id, b: Box, todo: map<Id, Option<string>>, kvs: seq<(Key, XValue)>,
                    rejected: seq<(Key, XValue)>)
    requires kvs != [] && (Refused(w, p, b, todo.Keys, kvs[0].1) || !Emplace(b, kvs[0].0, kvs[0].1).ok)
    ensures RejectedFirst(rejected, Fill(w, p, b, todo, kvs)) ==
            RejectedFirst(rejected + [RejectedPair(w, p, b, todo.Keys, kvs[0])], Fill(w, p, b, todo, kvs[1..]))
  {
    hide Refused, Emplace, RejectedPair;
  }

  lemma FillAccepts(w: World, p: Id, b: Box, todo: map<Id, Option<string>>, kvs: seq<(Key, XValue)>)
    requires kvs != [] && !Refused(w, p, b, todo.Keys, kvs[0].1) && Emplace(b, kvs[0].0, kvs[0].1).ok
    ensures var (k, v) := kvs[0];
            var e := Emplace(b, k, v);
            Fill(w, p, b, todo, kvs) ==
            Fill(w, p, e.box, if v.Object? then todo[v.addr := KeyName(e.key)] else todo, kvs[1..])
  {
    hide Refused, Emplace, RejectedPair;
  }

  ghost function Adopt(w: World, p: Id, c: Id, rename: Option<string>): World
    requires Shaped(w) && p in w.parent && c in w.parent
  {
    SetAsChild(ParentDetach(w, c), p, c, rename)
  }

  // A map of nodes is walked in the order of their addresses.
  ghost function AdoptAll(w: World, p: Id, todo: map<Id, Option<string>>): World
    requires Shaped(w) && p in w.parent && todo.Keys <= w.parent.Keys
    decreases todo.Keys
  {
    if todo == map[] then w
    else
      var c := Order.Least(todo.Keys);
      AdoptAll(Adopt(w, p, c, todo[c]), p, todo - {c})
  }

  ghost predicate AllStorable(w: World, kvs: seq<(Key, XValue)>) {
    forall i | 0 <= i < |kvs| :: Storable(w, kvs[i].1)
  }

  lemma {:induction false} FillIsKnown(w: World, p: Id, b: Box, todo: map<Id, Option<string>>, kvs: seq<(Key, XValue)>)
    requires AllStorable(w, kvs) && todo.Keys <= w.parent.Keys
    ensures Fill(w, p, b, todo, kvs).todo.Keys <= w.parent.Keys
    decreases |kvs|
  {
    if kvs != [] {
      var (k, v) := kvs[0];
      var e := Emplace(b, k, v);
      assert Storable(w, v) && AllStorable(w, kvs[1..]);
      if Refused(w, p, b, todo.Keys, v) || !e.ok {
        FillIsKnown(w, p, b, todo, kvs[1..]);
      } else {
        FillIsKnown(w, p, e.box, if v.Object? then todo[v.addr := KeyName(e.key)] else todo, kvs[1..]);
      }
    }
  }

  ghost function BulkInsert(w: World, p: Id, kvs: seq<(Key, XValue)>): World
    requires Valid(w) && p in w.parent && AllStorable(w, kvs)
  {
    FillIsKnown(w, p, w.box[p], map[], kvs);
    var f := Fill(w, p, w.box[p], map[], kvs);
    AdoptAll(WithBox(w, p, f.box), p, f.todo)
  }

  // The container part of `BulkInsert` at a position, for arrays. An ordinary position moves on
  // behind each inserted value; kIdxEnd and kIdxLast stay what they are.
  datatype ArrayFilling = ArrayFilling(a: seq<XValue>, accepted: seq<XValue>, rejected: seq<XValue>)

  function NextPosition(pos: Key): Key {
    if pos.At? then At(pos.i + 1) else pos
  }

  ghost function FillArray(w: World, p: Id, a: seq<XValue>, pos: Key, vs: seq<XValue>): ArrayFilling
    decreases |vs|
  {
    if vs == [] then ArrayFilling(a, [], [])
    else if Refused(w, p, ArrayBox(a), {}, vs[0]) then
      var rest := FillArray(w, p, a, pos, vs[1..]);
      rest.(rejected := [vs[0]] + rest.rejected)
    else
      var rest := FillArray(w, p, Emplace(ArrayBox(a), pos, vs[0]).box.a, NextPosition(pos), vs[1..]);
      rest.(accepted := [vs[0]] + rest.accepted)
  }

  ghost function SetAllAsChildren(w: World, p: Id, cs: seq<Id>): World
    requires Shaped(w) && p in w.parent && forall c | c in cs :: c in w.parent
    decreases |cs|
  {
    if cs == [] then w else SetAllAsChildren(SetAsChild(w, p, cs[0], None), p, cs[1..])
  }

  // A position that is not an index means the end; a string position or a map is refused.
  function InsertPosition(pos: Key): Key {
    if pos == NoKey then End else pos
  }

  lemma {:induction false} AcceptedIsGiven(w: World, p: Id, a: seq<XValue>, pos: Key, vs: seq<XValue>, v: XValue)
    requires v in FillArray(w, p, a, pos, vs).accepted
    ensures v in vs && ValidChild(w, p, v)
    decreases |vs|
  {
    if Refused(w, p, ArrayBox(a), {}, vs[0]) {
      AcceptedIsGiven(w, p, a, pos, vs[1..], v);
    } else if v != vs[0] {
      AcceptedIsGiven(w, p, Emplace(ArrayBox(a), pos, vs[0]).box.a, NextPosition(pos), vs[1..], v);
    }
  }

  lemma AcceptedAreKnown(w: World, p: Id, a: seq<XValue>, pos: Key, vs: seq<XValue>)
    requires forall v | v in vs :: Storable(w, v)
    ensures forall c | c in NodesOf(FillArray(w, p, a, pos, vs).accepted) :: c in w.parent
  {
    forall c | c in NodesOf(FillArray(w, p, a, pos, vs).accepted) ensures c in w.parent {
      AcceptedIsGiven(w, p, a, pos, vs, Object(c));
      assert Storable(w, Object(c));
    }
  }

  ghost function BulkInsertAt(w: World, p: Id, pos: Key, vs: seq<XValue>): World
    requires Valid(w) && p in w.parent && forall v | v in vs :: Storable(w, v)
  {
    if pos.Name? || w.box[p].MapBox? then w
    else
      var f := FillArray(w, p, w.box[p].a, InsertPosition(pos), vs);
      AcceptedAreKnown(w, p, w.box[p].a, InsertPosition(pos), vs);
      SetAllAsChildren(WithBox(w, p, ArrayBox(f.a)), p, NodesOf(f.accepted))
  }
}
