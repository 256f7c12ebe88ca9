/** Exactly when the operations of a node succeed, what they answer and what they put into the container, in terms of
    what is read there before. */
module Outcomes {
  import opened Wrappers
  import opened XValues
  import opened Boxes
  import opened Holding
  import opened Worlds
  import opened TreeOps
  import C = CreateOnce

  // What `At` reads.
  function Read(b: Box, k: Key): XValue {
    Get(b, k).GetOr(Empty)
  }

  // The container has a place for the key: any name that is not empty, or an index less than 1000 behind the end.
  predicate HasPlace(b: Box, k: Key) {
    match b
    case MapBox(_) => k.Name? && k.s != ""
    case ArrayBox(a) => k == Last || (k.At? && k.i < |a| + MAX_SIZE_INCREASE)
  }

  // There is something: a slot of an array, or an entry of a map that is not empty.
  predicate IsThere(b: Box, k: Key) {
    Get(b, k).Some? && (b.ArrayBox? || !Read(b, k).IsEmpty())
  }

  // ----- Set, Insert and Erase -----

  /** `Set` succeeds exactly when the value may be a child, its key has a place, and another value is read there. A
      `Set` that fails leaves all as it was, but for the slots that an array has gained. */
  lemma SetOkIff(w: World, p: Id, key: Key, v: XValue)
    requires Valid(w) && p in w.parent && Storable(w, v)
    ensures var b, k, r := w.box[p], Resolve(w.box[p], key), Set(w, p, key, v);
            && (r.ok <==> ValidChild(w, p, v) && HasPlace(b, k) && !Eq(Read(b, k), v))
            && (!r.ok ==> r.w == w || (b.ArrayBox? && r.w == w.(box := w.box[p := ArrayBox(Grown(b.a, k))])))
  {
    hide Orphan, SetAsChild, Below, Resolve, Closed, Owning, RefersTo, Eq;
    var b, k := w.box[p], Resolve(w.box[p], key);
    PutOkIff(b, k, v);
    assert WithBox(w, p, b) == w;
  }

  lemma PutOkIff(b: Box, k: Key, v: XValue)
    ensures Put(b, k, v).ok <==> HasPlace(b, k) && !Eq(Read(b, k), v)
    ensures !Put(b, k, v).ok ==> Put(b, k, v).box == if b.MapBox? then b else ArrayBox(Grown(b.a, k))
    ensures Put(b, k, v).prev == Read(b, k)
  {
    hide Eq;
    if b.ArrayBox? {
      var g := Grown(b.a, k);
      if k.At? && k.i < |b.a| { assert g[k.i] == b.a[k.i]; }
    }
  }

  /** `Insert` succeeds exactly when the value may be a child and an array does not hold that node, or a map has no
      entry under the key, not even an erased one. */
  lemma InsertOkIff(w: World, p: Id, key: Key, v: XValue)
    requires Valid(w) && p in w.parent && Storable(w, v)
    ensures var b, r := w.box[p], Insert(w, p, key, v);
            && (r.ok <==>
                  ValidChild(w, p, v)
                  && if b.MapBox? then HasPlace(b, key) && Get(b, key).None? else v.Object? ==> HoldsNot(b, v.addr))
            && (!r.ok ==> r.w == w)
  {
    hide SetAsChild, Below, Closed, RefersTo;
    if w.box[p].ArrayBox? && v.Object? { HasDuplicateIff(w.box[p], v.addr); }
  }

  /** `Erase` succeeds exactly when a value is read under the key, in a map one that is not the empty value. */
  lemma EraseOkIff(w: World, p: Id, key: Key)
    requires Valid(w) && p in w.parent
    ensures var b, k, r := w.box[p], Resolve(w.box[p], key), EraseKey(w, p, key);
            && (r.ok <==> Get(b, k).Some? && (b.MapBox? ==> Read(b, k) != Empty))
            && (!r.ok ==> r.w == w)
  {
    hide ParentDetach, Resolve, Closed, Owning, RefersTo;
    assert w.box[p := w.box[p]] == w.box;
  }

  // ----- ParentSet, KeyChange and NameSet -----

  /** `ParentSet` succeeds exactly when the new parent is neither the node nor below it nor its parent already, and, if
      it is a map, the node has a name to go with. */
  lemma ParentSetOkIff(w: World, c: Id, p: Option<Id>, rename: Option<string>)
    requires Valid(w) && c in w.parent && (p.Some? ==> p.value in w.parent)
    ensures ParentSet(w, c, p, rename).ok <==>
              && w.parent[c] != p
              && (p.Some? ==> !Below(w.parent, p.value, c))
              && (p.Some? && w.box[p.value].MapBox? ==> rename.GetOr(w.name[c]) != "")
  {
    hide PrivateErase, Adopted, Below, Owning, RefersTo, Closed;
  }

  /** `KeyChange` succeeds exactly when both keys are given and of one kind, nothing is stored under the new one, not
      even an erased entry, and `Erase` would succeed at the old one. */
  lemma KeyChangeOkIff(w: World, p: Id, from: Key, to: Key)
    requires Valid(w) && p in w.parent
    ensures KeyChange(w, p, from, to).ok <==>
              && from != NoKey && to != NoKey && (from.Name? <==> to.Name?)
              && Get(w.box[p], to).None? && EraseKey(w, p, from).ok
  {
  }

  /** `NameSet` fails exactly when a child of a map is to get another name and the map may not, or cannot, follow.
      When it succeeds the node has the new name, and every other node its own. */
  lemma NameSetEffect(w: World, c: Id, name: string, updateParent: bool)
    requires Valid(w) && c in w.parent
    requires w.name[c] != "" && w.parent[c].Some? && w.box[w.parent[c].value].MapBox? ==>
               Read(w.box[w.parent[c].value], Name(w.name[c])) == Object(c)
    ensures var r, q := NameSet(w, c, name, updateParent), w.parent[c];
            && (r.ok <==>
                  || name == w.name[c]
                  || (w.name[c] != "" && q.Some? && w.box[q.value].MapBox? ==>
                        updateParent && Get(w.box[q.value], Name(name)).None?))
            && r.w.parent == w.parent && r.w.name == (if r.ok then w.name[c := name] else w.name)
            && (w.name[c] == "" || q.None? || w.box[q.value].ArrayBox? || !r.ok ==> r.w.box == w.box)
  {
    hide Owning, RefersTo, Closed;
    assert w.name[c := w.name[c]] == w.name;
  }

  // ----- CompareExchange -----

  lemma FoundIsThere(b: Box, k: Key)
    ensures Found(b, k) == if IsThere(b, k) then Some(Read(b, k)) else None
  {
  }

  /** `CompareExchange` succeeds exactly when what is there equals the expected value, or nothing is there and nothing
      was expected. A failure changes nothing. */
  lemma ExchangeOkIff(w: World, p: Id, key: Key, expected: XValue, v: XValue)
    requires Valid(w) && p in w.parent && Storable(w, v)
    ensures var b, k, r := w.box[p], Resolve(w.box[p], key), CompareExchange(w, p, key, expected, v);
            && (r.ok <==> if IsThere(b, k) then Eq(Read(b, k), expected) else expected.IsEmpty())
            && (!r.ok ==> r.w == w)
  {
    hide SetAsChild, Put, Resolve, Eq;
  }

  // The slot of the threads is what is read under the key of the map, or at the position of the array.
  ghost predicate IsSlot(b: Box, k: Key, slot: XValue) {
    slot == Read(b, k) && if b.MapBox? then k.Name? && k.s != "" else Get(b, k).Some?
  }

  /** The exchange that a thread of `CreateOnce` makes is `CompareExchange` of a created node: it succeeds in the same
      cases, leaves the same value under the key, and a failure hands over what is there. */
  lemma ExchangeOfThread(w: World, p: Id, k: Key, s: C.State, r: C.Request, t: C.Thread)
    requires Valid(w) && p in w.parent && C.Enabled(s, C.Exchange(t)) && Resolve(w.box[p], k) == k
    requires IsSlot(w.box[p], k, s.slot)
    requires w.box[p].ArrayBox? && s.slot.IsEmpty() ==> s.phase[t].expected == s.slot
    requires var c := s.phase[t].node; c in w.parent && w.parent[c].None? && s.slot != Object(c)
    ensures var m, u := s.phase[t], C.Step(s, r, C.Exchange(t));
            var x := CompareExchange(w, p, k, m.expected, Object(m.node));
            && (x.ok <==> u.phase[t] == C.Returned(Some(m.node)))
            && (!x.ok ==>
                  u.phase[t] ==
                  C.Have(if IsThere(w.box[p], k) then Read(w.box[p], k) else Empty, Some(m.node), m.fails + 1))
            && p in x.w.box && IsSlot(x.w.box[p], k, u.slot)
  {
    hide Eq, Below, Resolve, Closed, Owning, RefersTo;
    var c := s.phase[t].node;
    ExchangeOkIff(w, p, k, s.phase[t].expected, Object(c));
    EqSelf(s.slot);
    StoresNode(w, p, k, c);
    RootIsAdoptedOnly(WithBox(w, p, Put(w.box[p], k, Object(c)).box), p, c, KeyName(k));
  }

  lemma StoresNode(w: World, p: Id, k: Key, c: Id)
    requires Valid(w) && p in w.box && IsSlot(w.box[p], k, Read(w.box[p], k)) && Read(w.box[p], k) != Object(c)
    ensures IsSlot(Put(w.box[p], k, Object(c)).box, k, Object(c))
  {
    assert Owning(w.box[p]);
    EqNode(Read(w.box[p], k), c);
  }

  // Adopting a root changes no container.
  lemma RootIsAdoptedOnly(u: World, p: Id, c: Id, rename: Option<string>)
    requires Shaped(u) && p in u.parent && c in u.parent && u.parent[c].None?
    ensures SetAsChild(u, p, c, rename).box == u.box
  {
  }

  // ----- Append and Increment -----

  /** Where something is there, the key reads what is made of it, and everything else as before; where nothing is, the
      first value goes in as by `Insert`. */
  lemma AmendReads(b: Box, key: Key, change: XValue -> XValue, start: XValue)
    ensures var k, o := Resolve(b, key), AmendedBox(b, key, change, start);
            if IsThere(b, k) then
              && Get(o, k).Some? && Eq(Read(o, k), change(Read(b, k)))
              && o.MapBox? == b.MapBox?
              && (forall l: Key | l.Name? && l != k && b.MapBox? :: Get(o, l) == Get(b, l))
              && (b.ArrayBox? ==> |o.a| == |b.a|
                                  && forall j: nat | j < |b.a| && Position(b.a, k) != Some(j) :: o.a[j] == b.a[j])
            else o == Emplace(b, key, start).box
  {
    hide Resolve;
    var k := Resolve(b, key);
    if IsThere(b, k) { EqSelf(change(Read(b, k))); }
  }

  lemma EqSelf(v: XValue)
    ensures Eq(v, v)
  {
  }
}
