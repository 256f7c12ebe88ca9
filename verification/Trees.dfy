/** The tree of values under a node, as a value: what iteration shows at each level, with the
    addresses of the nodes, without names and parents. Shared nodes appear once for every link. */
module Trees {
  import opened XValues
  import opened Boxes
  import Order

  datatype Tree =
    | Leaf(v: XValue)
    | MapTree(addr: Id, keys: seq<string>, subs: seq<Tree>)
    | ArrayTree(addr: Id, subs: seq<Tree>)

  type Heap = map<Id, Box>

  // The value v is the tree t. A tree is finite, so no node below v holds itself.
  ghost predicate Represents(boxes: Heap, v: XValue, t: Tree)
    decreases t
  {
    match t
    case Leaf(x) => v == x && !x.IsObject()
    case MapTree(c, keys, subs) =>
      && v.IsObject() && v.addr == c && c in boxes && boxes[c].MapBox?
      && keys == LiveKeys(boxes[c].m) && |subs| == |keys|
      && forall i | 0 <= i < |keys| :: keys[i] in boxes[c].m && Represents(boxes, boxes[c].m[keys[i]], subs[i])
    case ArrayTree(c, subs) =>
      && v.IsObject() && v.addr == c && c in boxes && boxes[c].ArrayBox?
      && |subs| == |boxes[c].a|
      && forall i | 0 <= i < |subs| :: Represents(boxes, boxes[c].a[i], subs[i])
  }

  // No map holds an entry under the empty key.
  ghost predicate Keyed(boxes: Heap) {
    forall n | n in boxes && boxes[n].MapBox? :: "" !in boxes[n].m
  }

  /** A node has one tree. */
  lemma {:induction false} TreeIsUnique(boxes: Heap, v: XValue, t: Tree, u: Tree)
    requires Represents(boxes, v, t) && Represents(boxes, v, u)
    ensures t == u
    decreases t
  {
    if !t.Leaf? {
      forall i | 0 <= i < |t.subs| ensures t.subs[i] == u.subs[i] {
        TreeIsUnique(boxes, if t.MapTree? then boxes[v.addr].m[t.keys[i]] else boxes[v.addr].a[i],
                     t.subs[i], u.subs[i]);
      }
      assert t.subs == u.subs;
    }
  }

  // What iteration over containers yields: strictly increasing non-empty keys, no empty map value.
  ghost predicate WellFormed(t: Tree)
    decreases t
  {
    match t
    case Leaf(x) => !x.IsObject()
    case MapTree(_, keys, subs) =>
      && |keys| == |subs| && Order.Sorted(keys) && "" !in keys
      && forall i | 0 <= i < |subs| :: WellFormed(subs[i]) && (subs[i].Leaf? ==> !subs[i].v.IsEmpty())
    case ArrayTree(_, subs) => forall i | 0 <= i < |subs| :: WellFormed(subs[i])
  }

  lemma {:induction false} RepresentsWellFormed(boxes: Heap, v: XValue, t: Tree)
    requires Represents(boxes, v, t) && Keyed(boxes)
    ensures WellFormed(t)
    decreases t
  {
    if !t.Leaf? {
      forall i | 0 <= i < |t.subs|
        ensures WellFormed(t.subs[i]) && (t.MapTree? && t.subs[i].Leaf? ==> !t.subs[i].v.IsEmpty())
      {
        RepresentsWellFormed(boxes, if t.MapTree? then boxes[v.addr].m[t.keys[i]] else boxes[v.addr].a[i], t.subs[i]);
        if t.MapTree? { assert t.keys[i] in LiveKeys(boxes[v.addr].m); }
      }
    }
  }

  // Containers that are only added to, or to which nothing happened.
  ghost predicate StaysIn(b: Heap, c: Heap) {
    forall n | n in b :: n in c && c[n] == b[n]
  }

  lemma {:induction false} RepresentsStays(b: Heap, c: Heap, v: XValue, t: Tree)
    requires Represents(b, v, t) && StaysIn(b, c)
    ensures Represents(c, v, t)
    decreases t
  {
    if !t.Leaf? {
      forall i | 0 <= i < |t.subs|
        ensures Represents(c, if t.MapTree? then c[v.addr].m[t.keys[i]] else c[v.addr].a[i], t.subs[i])
      {
        RepresentsStays(b, c, if t.MapTree? then b[v.addr].m[t.keys[i]] else b[v.addr].a[i], t.subs[i]);
      }
    }
  }

  function FirstKeys(keys: seq<string>, n: nat): set<string>
    requires n <= |keys|
  {
    if n == 0 then {} else FirstKeys(keys, n - 1) + {keys[n - 1]}
  }

  lemma {:induction false} FirstKeysAre(keys: seq<string>, n: nat, k: string)
    requires n <= |keys|
    ensures k in FirstKeys(keys, n) <==> k in keys[..n]
  {
    if n > 0 {
      FirstKeysAre(keys, n - 1, k);
      assert keys[..n] == keys[..n - 1] + [keys[n - 1]];
    }
  }

  lemma NextKeyIsNew(t: Tree, n: nat)
    requires WellFormed(t) && t.MapTree? && n < |t.subs|
    ensures t.keys[n] !in FirstKeys(t.keys, n) && t.keys[n] != ""
  {
    assert t.keys[n] in t.keys;
    FirstKeysAre(t.keys, n, t.keys[n]);
    if t.keys[n] in t.keys[..n] {
      var j :| 0 <= j < n && t.keys[..n][j] == t.keys[n];
      Order.SortedDistinct(t.keys, j, n);
    }
  }
}
