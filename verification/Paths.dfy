/** Reading and writing along paths of string keys: `NodeGetByKey`, `NodeGet`, `At` and `Set` of a
    path. Nobody else writes meanwhile and nobody vetoes, so that the exchange in `NodeGetByKey`
    succeeds at once; `CreateOnce` treats the other case. */
module TreePaths {
  import opened Wrappers
  import opened XValues
  import opened Boxes
  import opened Holding
  import opened Worlds
  import opened Agreement
  import opened TreeOps
  import opened Forest
  import opened TreeAgreement
  import opened Exchanges
  import opened TreeRuns
  import opened Trees
  import NodeMethods

  type Path = seq<string>

  // ----- reading -----

  // `XNode::At`
  function Read(boxes: Heap, n: Id, key: string): XValue {
    if n in boxes then Get(boxes[n], Name(key)).GetOr(Empty) else Empty
  }

  // The const `At` of a path.
  function ConstAt(boxes: Heap, n: Id, path: Path): XValue
    decreases |path|
  {
    if path == [] then Empty
    else
      var x := Read(boxes, n, path[0]);
      if |path| == 1 then x
      else if x.IsObject() then ConstAt(boxes, x.addr, path[1..])
      else Empty
  }

  method PathConstAt(boxes: Heap, n: Id, path: Path) returns (v: XValue)
    ensures v == ConstAt(boxes, n, path)
  {
    if path == [] { return Empty; }
    var node := n;
    for i := 0 to |path| - 1
      invariant ConstAt(boxes, node, path[i..]) == ConstAt(boxes, n, path)
    {
      assert path[i..][0] == path[i] && path[i..][1..] == path[i + 1..];
      var x := Read(boxes, node, path[i]);
      if !x.IsObject() { return Empty; }
      node := x.addr;
    }
    v := Read(boxes, node, path[|path| - 1]);
  }

  // ----- nodes along a path -----

  datatype Got = Got(w: World, next: Id, node: Option<Id>)

  // The links are in order, as in every agreeing state: a held node has its holder as parent, and in
  // a map its key as name.
  ghost predicate Tidy(w: World, next: Id) {
    && Good(w)
    && (forall n | n in w.parent :: n < next)
    && forall p, c {:trigger RefersTo(w.box[p], c)} | p in w.box && RefersTo(w.box[p], c) :: Linked(w, p, c)
  }

  ghost predicate Linked(w: World, p: Id, c: Id)
    requires p in w.box
  {
    && c in w.parent && c in w.name && w.parent[c] == Some(p)
    && (w.box[p].MapBox? ==> forall s | s in w.box[p].m && w.box[p].m[s] == Object(c) :: s == w.name[c])
  }

  lemma ReadyIsTidy(w: World, next: Id)
    requires Ready(w, next)
    ensures Tidy(w, next)
  {
    forall p, c | p in w.box && RefersTo(w.box[p], c) ensures Linked(w, p, c) { assert Fits(w, p, c); }
  }

  lemma ReadIsLinked(w: World, next: Id, p: Id, key: string)
    requires Tidy(w, next) && p in w.parent && Read(w.box, p, key).IsObject()
    ensures var x := Read(w.box, p, key);
            && x.Object? && x.addr in w.box && x.addr in w.parent && w.parent[x.addr] == Some(p)
            && w.box[p].MapBox? && key in w.box[p].m && key != "" && w.name[x.addr] == key
  {
    assert w.box[p].m[key] == Read(w.box, p, key);
    assert RefersTo(w.box[p], Read(w.box, p, key).addr);
  }

  // `NodeGetByKey` for a map (or for any node), without converting other values.
  ghost function GetByKey(w: World, next: Id, p: Id, key: string, wantMap: bool): (r: Got)
    requires Tidy(w, next) && p in w.parent
    ensures Good(r.w) && (r.node.Some? ==> r.node.value in r.w.parent)
  {
    var x := Read(w.box, p, key);
    assert x.IsObject() ==> x.addr in w.box by { if x.IsObject() { ReadIsLinked(w, next, p, key); } }
    if x.Object? && (wantMap ==> w.box[x.addr].MapBox?) then Got(w, next, Some(x.addr))
    else if !x.IsEmpty() then Got(w, next, None)
    else
      CreateGood(w, next, true, "");
      CompareExchangeGood(Create(w, next, true, ""), p, Name(key), x, Object(next));
      Got(CompareExchange(Create(w, next, true, ""), p, Name(key), x, Object(next)).w, next + 1, Some(next))
  }

  // ----- a created node -----

  // Whether the created node gets into the container.
  predicate Attaches(b: Box, key: string) {
    b.MapBox? && key != ""
  }

  // The new node c is empty; it is attached under the key, or it hangs in the air: then an array is
  // its parent without holding it, and a map is not its parent either.
  ghost predicate NewNode(w: World, v: World, p: Id, key: string, c: Id)
    requires p in w.box
  {
    && c !in w.parent && c !in w.box
    && v.parent == w.parent[c := if w.box[p].MapBox? && key == "" then None else Some(p)]
    && v.name == w.name[c := key]
    && v.box == if Attaches(w.box[p], key) then w.box[c := MapBox(map[])][p := MapBox(w.box[p].m[key := Object(c)])]
                else w.box[c := MapBox(map[])]
  }

  lemma FreshParent(w: World, c: Id, p: Id)
    requires Shaped(w) && p in w.parent && c !in w.parent
    ensures !Below(w.parent[c := None], p, c)
  {
    if Below(w.parent[c := None], p, c) {
      var k: nat :| Up(w.parent[c := None], p, c, k);
      FreshIsNotAbove(w.parent, p, c, k);
    }
  }

  lemma PutOnEmpty(b: Box, key: string, c: Id)
    requires Get(b, Name(key)).GetOr(Empty).IsEmpty()
    ensures Found(b, Name(key)).None?
    ensures Put(b, Name(key), Object(c)).box == if Attaches(b, key) then MapBox(b.m[key := Object(c)]) else b
  {
  }

  lemma ExchangeForRoot(d: World, p: Id, key: string, x: XValue, c: Id)
    requires Valid(d) && p in d.parent && c in d.parent && d.parent[c].None? && !Below(d.parent, p, c)
    requires Get(d.box[p], Name(key)).GetOr(Empty) == x && x.IsEmpty()
    ensures var r := CompareExchange(d, p, Name(key), x, Object(c));
            && r.ok
            && r.w.box == (if Attaches(d.box[p], key) then d.box[p := MapBox(d.box[p].m[key := Object(c)])] else d.box)
            && r.w.parent == (if d.box[p].MapBox? && key == "" then d.parent else d.parent[c := Some(p)])
            && r.w.name == (if d.box[p].MapBox? && key == "" then d.name else d.name[c := key])
  {
    PutOnEmpty(d.box[p], key, c);
    assert d.box[p := d.box[p]] == d.box;
  }

  lemma ExchangedIsNew(w: World, d: World, v: World, p: Id, key: string, c: Id)
    requires p in w.box && c !in w.parent && c !in w.box && p != c
    requires d == World(w.parent[c := None], w.name[c := ""], w.box[c := MapBox(map[])])
    requires v.box == if Attaches(d.box[p], key) then d.box[p := MapBox(d.box[p].m[key := Object(c)])] else d.box
    requires v.parent == if d.box[p].MapBox? && key == "" then d.parent else d.parent[c := Some(p)]
    requires v.name == if d.box[p].MapBox? && key == "" then d.name else d.name[c := key]
    ensures NewNode(w, v, p, key, c)
  {
  }

  lemma GetByKeyCreates(w: World, next: Id, p: Id, key: string, wantMap: bool)
    requires Tidy(w, next) && p in w.parent && Read(w.box, p, key).IsEmpty()
    ensures var g := GetByKey(w, next, p, key, wantMap);
            g.next == next + 1 && g.node == Some(next) && NewNode(w, g.w, p, key, next)
  {
    hide Acyclic, CompareExchange, Owning, RefersTo, Get, Below, Linked, Attaches, NewNode;
    var d := Create(w, next, true, "");
    CreateGood(w, next, true, "");
    FreshParent(w, next, p);
    assert d.box[p] == w.box[p];
    ExchangeForRoot(d, p, key, Read(w.box, p, key), next);
    ExchangedIsNew(w, d, GetByKey(w, next, p, key, wantMap).w, p, key, next);
  }

  lemma NewNodeTidy(w: World, v: World, p: Id, key: string, c: Id, next: Id)
    requires Tidy(w, next) && p in w.parent && Read(w.box, p, key).IsEmpty() && c == next
    requires NewNode(w, v, p, key, c) && Good(v)
    ensures Tidy(v, next + 1)
  {
    forall q, x | q in v.box && RefersTo(v.box[q], x) ensures Linked(v, q, x) {
      NewNodeLinked(w, v, p, key, c, next, q, x);
    }
  }

  lemma NewNodeLinked(w: World, v: World, p: Id, key: string, c: Id, next: Id, q: Id, x: Id)
    requires Tidy(w, next) && p in w.parent && Read(w.box, p, key).IsEmpty() && c == next
    requires NewNode(w, v, p, key, c) && q in v.box && RefersTo(v.box[q], x)
    ensures Linked(v, q, x)
  {
    if q in w.box && RefersTo(w.box[q], x) { assert Linked(w, q, x); }
  }

  lemma GetByKeyTidy(w: World, next: Id, p: Id, key: string, wantMap: bool)
    requires Tidy(w, next) && p in w.parent
    ensures var g := GetByKey(w, next, p, key, wantMap);
            Tidy(g.w, g.next) && next <= g.next && w.parent.Keys <= g.w.parent.Keys
  {
    if Read(w.box, p, key).IsEmpty() {
      GetByKeyCreates(w, next, p, key, wantMap);
      NewNodeTidy(w, GetByKey(w, next, p, key, wantMap).w, p, key, next, next);
    }
  }

  // ----- writing along a path -----

  // `NodeGet`, which creates the nodes that are missing.
  ghost function NodeGet(w: World, next: Id, n: Id, path: Path, wantMap: bool): (r: Got)
    requires Tidy(w, next) && n in w.parent
    ensures Tidy(r.w, r.next) && (r.node.Some? ==> r.node.value in r.w.parent)
    decreases |path|
  {
    if path == [] then Got(w, next, Some(n))
    else
      GetByKeyTidy(w, next, n, path[0], wantMap);
      var g := GetByKey(w, next, n, path[0], wantMap);
      if g.node.None? then g else NodeGet(g.w, g.next, g.node.value, path[1..], wantMap)
  }

  datatype SetRes = SetRes(w: World, next: Id, ok: bool)

  // `Set` of a path, for values that are no nodes.
  ghost function PathSet(w: World, next: Id, n: Id, path: Path, v: XValue): SetRes
    requires Tidy(w, next) && n in w.parent && v.IsAttribute()
  {
    if path == [] then
      var r := Set(w, n, NoKey, v);
      SetRes(r.w, next, r.ok)
    else
      var g := NodeGet(w, next, n, path[..|path| - 1], true);
      if g.node.None? then SetRes(g.w, g.next, false)
      else
        var r := Set(g.w, g.node.value, Name(path[|path| - 1]), v);
        SetRes(r.w, g.next, r.ok)
  }

  lemma NodeGetStep(w: World, next: Id, n: Id, path: Path, wantMap: bool)
    requires Tidy(w, next) && n in w.parent && path != []
    ensures var g := GetByKey(w, next, n, path[0], wantMap);
            && Tidy(g.w, g.next) && (g.node.Some? ==> g.node.value in g.w.parent)
            && NodeGet(w, next, n, path, wantMap) ==
               if g.node.None? then g else NodeGet(g.w, g.next, g.node.value, path[1..], wantMap)
  {
    hide GetByKey;
    GetByKeyTidy(w, next, n, path[0], wantMap);
  }

  // Key after key.
  lemma PathSetStep(w: World, next: Id, n: Id, path: Path, v: XValue)
    requires Tidy(w, next) && n in w.parent && v.IsAttribute() && |path| > 1
    ensures var g := GetByKey(w, next, n, path[0], true);
            && Tidy(g.w, g.next) && (g.node.Some? ==> g.node.value in g.w.parent)
            && PathSet(w, next, n, path, v) ==
               if g.node.None? then SetRes(g.w, g.next, false) else PathSet(g.w, g.next, g.node.value, path[1..], v)
  {
    hide GetByKey, NodeGet, Tidy, Set;
    var init := path[..|path| - 1];
    assert init[0] == path[0] && init[1..] == path[1..][..|path| - 2];
    NodeGetStep(w, next, n, init, true);
  }

  lemma NoKeySets(w: World, next: Id, n: Id, v: XValue)
    requires Tidy(w, next) && n in w.parent && v.IsAttribute()
    ensures PathSet(w, next, n, [], v) == SetRes(w, next, false)
  {
    assert w.box[n := w.box[n]] == w.box;
  }

  // What the first key of a longer path leads to: a new node, a map that is there, or nowhere.
  lemma FirstKey(w: World, next: Id, n: Id, key: string)
    requires Tidy(w, next) && n in w.parent
    ensures n in w.box && (Read(w.box, n, key).IsObject() ==> Read(w.box, n, key).addr in w.box)
    ensures var g, x := GetByKey(w, next, n, key, true), Read(w.box, n, key);
            if x.IsEmpty() then g.node == Some(next) && g.next == next + 1 && NewNode(w, g.w, n, key, next)
            else if x.Object? && x.addr in w.box && w.box[x.addr].MapBox? then
              && g == Got(w, next, Some(x.addr))
              && x.addr in w.parent && w.parent[x.addr] == Some(n) && w.box[n].MapBox? && key != ""
            else g == Got(w, next, None)
  {
    if Read(w.box, n, key).IsEmpty() {
      GetByKeyCreates(w, next, n, key, true);
    } else if Read(w.box, n, key).IsObject() {
      ReadIsLinked(w, next, n, key);
    }
  }

  // The last step: one entry of the container, and a node that was there loses its parent.
  lemma SetEffect(w: World, next: Id, n: Id, key: string, v: XValue)
    requires Tidy(w, next) && n in w.parent && v.IsAttribute()
    ensures var r := Set(w, n, Name(key), v);
            && r.ok == (Attaches(w.box[n], key) && !Eq(Current(w.box[n].m, key), v))
            && r.w.box == (if r.ok then w.box[n := MapBox(w.box[n].m[key := v])] else w.box)
            && (!r.ok ==> r.w == w)
  {
    var r := Put(w.box[n], Name(key), v);
    assert w.box[n := w.box[n]] == w.box;
    if r.ok && r.prev.Object? {
      PutPrevIsKnown(w, n, Name(key), v);
      OrphanEffect(WithBox(w, n, r.box), r.prev);
    }
  }

  lemma PathSetOne(w: World, next: Id, n: Id, path: Path, v: XValue)
    requires Tidy(w, next) && n in w.parent && v.IsAttribute() && |path| == 1
    ensures var r := Set(w, n, Name(path[0]), v); PathSet(w, next, n, path, v) == SetRes(r.w, next, r.ok)
  {
    assert path[..0] == [];
  }

  // ----- which containers a write touches -----

  lemma BelowParent(parent: Parents, x: Id, d: Id, n: Id)
    requires Below(parent, x, d) && d in parent && parent[d] == Some(n)
    ensures Below(parent, x, n)
  {
    var k: nat :| Up(parent, x, d, k);
    UpExtends(parent, x, d, k);
  }

  lemma FreshIsNotAboveOthers(parent: Parents, x: Id, c: Id, p: Option<Id>, k: nat)
    requires Closed(parent) && x in parent && c !in parent
    ensures !Up(parent[c := p], x, c, k)
    decreases k
  {
    if k > 0 && parent[x].Some? { FreshIsNotAboveOthers(parent, parent[x].value, c, p, k - 1); }
  }

  lemma OthersNotBelowNew(w: World, v: World, p: Id, key: string, c: Id, x: Id)
    requires Shaped(w) && p in w.parent && NewNode(w, v, p, key, c) && x in w.parent
    ensures !Below(v.parent, x, c)
  {
    if Below(v.parent, x, c) {
      var k: nat :| Up(v.parent, x, c, k);
      FreshIsNotAboveOthers(w.parent, x, c, v.parent[c], k);
    }
  }

  lemma ParentNotBelowChild(parent: Parents, n: Id, d: Id)
    requires Acyclic(parent) && n in parent && d in parent && parent[d] == Some(n)
    ensures !Below(parent, n, d)
  {
    if Below(parent, n, d) {
      var k: nat :| Up(parent, n, d, k);
      UpExtends(parent, n, d, k);
      NoCycle(parent, n, k + 1);
    }
  }

  /** A write along a path from n leaves the container of every node alone that is not n or below it. */
  lemma {:induction false} TouchesOnlyBelow(w: World, next: Id, n: Id, path: Path, v: XValue, x: Id)
    requires Tidy(w, next) && n in w.parent && v.IsAttribute() && x in w.parent && !Below(w.parent, x, n)
    ensures var r := PathSet(w, next, n, path, v).w; x in r.box && r.box[x] == w.box[x]
    decreases |path|
  {
    hide PathSet, GetByKey, NodeGet, Set, Acyclic;
    BelowSelf(w.parent, n);
    if |path| == 1 {
      PathSetOne(w, next, n, path, v);
      SetEffect(w, next, n, path[0], v);
    } else if |path| > 1 {
      var g := GetByKey(w, next, n, path[0], true);
      PathSetStep(w, next, n, path, v);
      FirstKey(w, next, n, path[0]);
      if g.node.Some? {
        if Read(w.box, n, path[0]).IsEmpty() {
          OthersNotBelowNew(w, g.w, n, path[0], next, x);
        } else {
          if Below(w.parent, x, g.node.value) { BelowParent(w.parent, x, g.node.value, n); }
        }
        TouchesOnlyBelow(g.w, g.next, g.node.value, path[1..], v, x);
      }
    } else {
      NoKeySets(w, next, n, v);
    }
  }

  /** A read from c depends on the containers of c and the nodes below it only. */
  lemma {:induction false} ReadsOnlyBelow(w: World, next: Id, c: Id, path: Path, boxes: Heap)
    requires Tidy(w, next) && c in w.parent
    requires forall x | x in w.parent && Below(w.parent, x, c) :: x in boxes && boxes[x] == w.box[x]
    ensures ConstAt(boxes, c, path) == ConstAt(w.box, c, path)
    decreases |path|
  {
    BelowSelf(w.parent, c);
    if path != [] {
      var x := Read(w.box, c, path[0]);
      if |path| > 1 && x.IsObject() {
        ReadIsLinked(w, next, c, path[0]);
        forall y | y in w.parent && Below(w.parent, y, x.addr) ensures y in boxes && boxes[y] == w.box[y] {
          BelowParent(w.parent, y, x.addr, c);
        }
        ReadsOnlyBelow(w, next, x.addr, path[1..], boxes);
      }
    }
  }

  lemma {:induction false} UpIsOneWay(parent: Parents, x: Id, c: Id, d: Id, i: nat, j: nat)
    requires Up(parent, x, c, i) && Up(parent, x, d, j) && i <= j
    ensures Up(parent, c, d, j - i)
    decreases i
  {
    if i > 0 { UpIsOneWay(parent, parent[x].value, c, d, i - 1, j - 1); }
  }

  // Nothing is below two different children of the same node.
  lemma SiblingsApart(parent: Parents, n: Id, c: Id, d: Id, x: Id)
    requires Acyclic(parent) && n in parent && c in parent && d in parent && c != d
    requires parent[c] == Some(n) && parent[d] == Some(n) && Below(parent, x, c)
    ensures !Below(parent, x, d)
  {
    if Below(parent, x, d) {
      var i: nat :| Up(parent, x, c, i);
      var j: nat :| Up(parent, x, d, j);
      if i <= j {
        UpIsOneWay(parent, x, c, d, i, j);
        ChildNotAboveSibling(parent, n, c, d, j - i);
      } else {
        UpIsOneWay(parent, x, d, c, j, i);
        ChildNotAboveSibling(parent, n, d, c, i - j);
      }
    }
  }

  lemma ChildNotAboveSibling(parent: Parents, n: Id, c: Id, d: Id, k: nat)
    requires Acyclic(parent) && n in parent && c in parent && d in parent && c != d
    requires parent[c] == Some(n) && parent[d] == Some(n)
    ensures !Up(parent, c, d, k)
  {
    if k > 0 && Up(parent, c, d, k) {
      assert Up(parent, n, d, k - 1);
      ParentNotBelowChild(parent, n, d);
      assert Below(parent, n, d);
    }
  }

  // ----- what a write does to the reads -----

  // After the write, n's own container still reads the same under the first key (unless that key was
  // given to a new node), and so do its other keys.
  lemma OwnBoxAfter(w: World, next: Id, n: Id, path: Path, v: XValue)
    requires Tidy(w, next) && n in w.parent && v.IsAttribute() && |path| > 1
    ensures var g := GetByKey(w, next, n, path[0], true);
            && n in g.w.box && n in PathSet(w, next, n, path, v).w.box
            && PathSet(w, next, n, path, v).w.box[n] == g.w.box[n]
  {
    var g := GetByKey(w, next, n, path[0], true);
    PathSetStep(w, next, n, path, v);
    if g.node.Some? {
      if Read(w.box, n, path[0]).IsEmpty() {
        GetByKeyCreates(w, next, n, path[0], true);
        OthersNotBelowNew(w, g.w, n, path[0], next, n);
      } else {
        ReadIsLinked(w, next, n, path[0]);
        ParentNotBelowChild(w.parent, n, g.node.value);
      }
      TouchesOnlyBelow(g.w, g.next, g.node.value, path[1..], v, n);
    }
  }

  /** After a successful `Set` of a plain value at a path, the const `At` at that path answers this
      value exactly when no key of the path is empty and the first node is a map; otherwise the value
      went into a node that nobody can reach. */
  lemma {:induction false} SetThenAtIff(w: World, next: Id, n: Id, path: Path, v: XValue)
    requires Tidy(w, next) && n in w.parent && v.IsAttribute()
    requires PathSet(w, next, n, path, v).ok
    ensures ConstAt(PathSet(w, next, n, path, v).w.box, n, path) == v <==> "" !in path && n in w.box && w.box[n].MapBox?
    decreases |path|
  {
    hide GetByKey, Good, NodeGet, PathSet, Tidy, Set;
    if |path| == 1 {
      FirstKey(w, next, n, path[0]);
      PathSetOne(w, next, n, path, v);
      SetEffect(w, next, n, path[0], v);
      assert path == [path[0]];
    } else if |path| > 1 {
      var g := GetByKey(w, next, n, path[0], true);
      FirstKey(w, next, n, path[0]);
      PathSetStep(w, next, n, path, v);
      OwnBoxAfter(w, next, n, path, v);
      SetThenAtIff(g.w, g.next, g.node.value, path[1..], v);
      assert path == [path[0]] + path[1..];
    } else {
      NoKeySets(w, next, n, v);
    }
  }

  // Neither path is a beginning of the other.
  predicate Apart(p: Path, q: Path) { !(p <= q) && !(q <= p) }

  lemma ApartRests(p: Path, q: Path)
    requires Apart(p, q)
    ensures p != [] && q != []
    ensures p[0] == q[0] ==> |p| > 1 && |q| > 1 && Apart(p[1..], q[1..])
  {
    if p[0] == q[0] {
      assert p == [p[0]] + p[1..] && q == [q[0]] + q[1..];
    }
  }

  // A read that starts with another key.
  lemma OtherKeySame(w: World, next: Id, n: Id, path: Path, v: XValue, q: Path)
    requires Tidy(w, next) && n in w.parent && v.IsAttribute() && path != [] && q != [] && path[0] != q[0]
    ensures ConstAt(PathSet(w, next, n, path, v).w.box, n, q) == ConstAt(w.box, n, q)
  {
    var r := PathSet(w, next, n, path, v).w;
    var x := Read(w.box, n, q[0]);
    OtherKeyRead(w, next, n, path, v, q[0]);
    if |q| > 1 && x.IsObject() {
      ReadIsLinked(w, next, n, q[0]);
      forall y | y in w.parent && Below(w.parent, y, x.addr) ensures y in r.box && r.box[y] == w.box[y] {
        SiblingUntouched(w, next, n, path, v, x.addr, q[0], y);
      }
      ReadsOnlyBelow(w, next, x.addr, q[1..], r.box);
    }
  }

  lemma OtherKeyRead(w: World, next: Id, n: Id, path: Path, v: XValue, key: string)
    requires Tidy(w, next) && n in w.parent && v.IsAttribute() && path != [] && path[0] != key
    ensures Read(PathSet(w, next, n, path, v).w.box, n, key) == Read(w.box, n, key)
  {
    hide PathSet, Good, GetByKey, NodeGet, Tidy, Set;
    FirstKey(w, next, n, path[0]);
    if |path| == 1 {
      PathSetOne(w, next, n, path, v);
      SetEffect(w, next, n, path[0], v);
    } else {
      OwnBoxAfter(w, next, n, path, v);
    }
  }

  lemma SiblingUntouched(w: World, next: Id, n: Id, path: Path, v: XValue, c: Id, key: string, y: Id)
    requires Tidy(w, next) && n in w.parent && v.IsAttribute() && path != [] && path[0] != key
    requires Read(w.box, n, key) == Object(c) && y in w.parent && Below(w.parent, y, c)
    ensures var r := PathSet(w, next, n, path, v).w; y in r.box && r.box[y] == w.box[y]
  {
    hide PathSet, GetByKey, NodeGet, Set, Acyclic;
    ReadIsLinked(w, next, n, key);
    ParentNotBelowChild(w.parent, n, c);
    if |path| == 1 {
      PathSetOne(w, next, n, path, v);
      SetEffect(w, next, n, path[0], v);
    } else {
      var g := GetByKey(w, next, n, path[0], true);
      PathSetStep(w, next, n, path, v);
      FirstKey(w, next, n, path[0]);
      if g.node.Some? {
        if Read(w.box, n, path[0]).IsEmpty() {
          OthersNotBelowNew(w, g.w, n, path[0], next, y);
        } else {
          ReadIsLinked(w, next, n, path[0]);
          SiblingsApart(w.parent, n, c, g.node.value, y);
        }
        TouchesOnlyBelow(g.w, g.next, g.node.value, path[1..], v, y);
      }
    }
  }

  lemma NothingInNewNode(w: World, v: World, p: Id, key: string, c: Id, q: Path)
    requires p in w.box && NewNode(w, v, p, key, c)
    ensures c != p ==> ConstAt(v.box, c, q) == Empty
  {
  }

  /** A write along a path changes no read at a path that neither begins it nor continues it. */
  lemma {:induction false} OtherPathsSame(w: World, next: Id, n: Id, path: Path, v: XValue, q: Path)
    requires Tidy(w, next) && n in w.parent && v.IsAttribute() && Apart(path, q)
    ensures ConstAt(PathSet(w, next, n, path, v).w.box, n, q) == ConstAt(w.box, n, q)
    decreases |path|
  {
    hide GetByKey, Good, PathSet, NodeGet;
    ApartRests(path, q);
    if path[0] != q[0] {
      OtherKeySame(w, next, n, path, v, q);
    } else {
      var g := GetByKey(w, next, n, path[0], true);
      FirstKey(w, next, n, path[0]);
      PathSetStep(w, next, n, path, v);
      OwnBoxAfter(w, next, n, path, v);
      if g.node.Some? {
        OtherPathsSame(g.w, g.next, g.node.value, path[1..], v, q[1..]);
        if Read(w.box, n, path[0]).IsEmpty() { NothingInNewNode(w, g.w, n, path[0], next, q[1..]); }
      }
    }
  }

  // ----- when a write succeeds, and what a failed one leaves -----

  // Every node on the way is a map or missing, and the last key is valid and holds something else.
  ghost predicate CanSet(w: World, next: Id, n: Id, path: Path, v: XValue)
    requires Tidy(w, next) && n in w.parent
    decreases |path|
  {
    if path == [] then false
    else if |path| == 1 then Attaches(w.box[n], path[0]) && !Eq(Current(w.box[n].m, path[0]), v)
    else
      var x := Read(w.box, n, path[0]);
      if x.IsEmpty() then path[|path| - 1] != ""
      else
        assert x.IsObject() ==> x.addr in w.parent by { if x.IsObject() { ReadIsLinked(w, next, n, path[0]); } }
        x.Object? && w.box[x.addr].MapBox? && CanSet(w, next, x.addr, path[1..], v)
  }

  // The way to the last key ends early, in a missing entry.
  ghost predicate WayIsMissing(w: World, next: Id, n: Id, path: Path)
    requires Tidy(w, next) && n in w.parent
    decreases |path|
  {
    if |path| < 2 then false
    else
      var x := Read(w.box, n, path[0]);
      if x.IsEmpty() then true
      else
        assert x.IsObject() ==> x.addr in w.parent by { if x.IsObject() { ReadIsLinked(w, next, n, path[0]); } }
        x.Object? && w.box[x.addr].MapBox? && WayIsMissing(w, next, x.addr, path[1..])
  }

  // Writing from an empty map: only the last key matters.
  lemma {:induction false} SetInNewNode(w: World, next: Id, c: Id, path: Path, v: XValue)
    requires Tidy(w, next) && c in w.parent && w.box[c] == MapBox(map[]) && v.IsAttribute() && path != []
    ensures PathSet(w, next, c, path, v).ok <==> path[|path| - 1] != ""
    decreases |path|
  {
    if |path| == 1 {
      PathSetOne(w, next, c, path, v);
      SetEffect(w, next, c, path[0], v);
    } else {
      var g := GetByKey(w, next, c, path[0], true);
      PathSetStep(w, next, c, path, v);
      GetByKeyCreates(w, next, c, path[0], true);
      SetInNewNode(g.w, g.next, g.node.value, path[1..], v);
    }
  }

  /** Exactly when a write succeeds. */
  lemma {:induction false} SetSucceedsIff(w: World, next: Id, n: Id, path: Path, v: XValue)
    requires Tidy(w, next) && n in w.parent && v.IsAttribute()
    ensures PathSet(w, next, n, path, v).ok <==> CanSet(w, next, n, path, v)
    decreases |path|
  {
    hide GetByKey, Good, NodeGet, PathSet, Tidy, Set;
    if |path| == 1 {
      FirstKey(w, next, n, path[0]);
      PathSetOne(w, next, n, path, v);
      SetEffect(w, next, n, path[0], v);
    } else if |path| > 1 {
      var g := GetByKey(w, next, n, path[0], true);
      FirstKey(w, next, n, path[0]);
      PathSetStep(w, next, n, path, v);
      if Read(w.box, n, path[0]).IsEmpty() {
        SetInNewNode(g.w, g.next, next, path[1..], v);
      } else if g.node.Some? {
        SetSucceedsIff(w, next, g.node.value, path[1..], v);
      }
    } else {
      NoKeySets(w, next, n, v);
    }
  }

  /** A failed write changes nothing at all, unless the last key is empty and a node on the way to it
      was missing: then the missing nodes have been created. */
  lemma {:induction false} FailedSetIff(w: World, next: Id, n: Id, path: Path, v: XValue)
    requires Tidy(w, next) && n in w.parent && v.IsAttribute()
    requires !PathSet(w, next, n, path, v).ok
    ensures PathSet(w, next, n, path, v).w == w <==> !WayIsMissing(w, next, n, path)
    ensures WayIsMissing(w, next, n, path) ==> path[|path| - 1] == ""
    decreases |path|
  {
    if |path| == 1 {
      PathSetOne(w, next, n, path, v);
      SetEffect(w, next, n, path[0], v);
    } else if |path| > 1 {
      var g := GetByKey(w, next, n, path[0], true);
      PathSetStep(w, next, n, path, v);
      if Read(w.box, n, path[0]).IsEmpty() {
        GetByKeyCreates(w, next, n, path[0], true);
        SetInNewNode(g.w, g.next, next, path[1..], v);
        NodesStay(g.w, g.next, next, path[1..], v);
      } else if g.node.Some? {
        ReadIsLinked(w, next, n, path[0]);
        FailedSetIff(w, next, g.node.value, path[1..], v);
      }
    } else {
      NoKeySets(w, next, n, v);
    }
  }

  // A node on the way is missing, and its container takes the one that is created.
  ghost predicate AddsNode(w: World, next: Id, n: Id, path: Path)
    requires Tidy(w, next) && n in w.parent
    decreases |path|
  {
    if |path| < 2 then false
    else
      var x := Read(w.box, n, path[0]);
      if x.IsEmpty() then Attaches(w.box[n], path[0])
      else
        assert x.IsObject() ==> x.addr in w.parent by { if x.IsObject() { ReadIsLinked(w, next, n, path[0]); } }
        x.Object? && w.box[x.addr].MapBox? && AddsNode(w, next, x.addr, path[1..])
  }

  // A failed write that adds no node leaves the container of every node alone.
  lemma {:induction false} FailedSetKeepsBoxes(w: World, next: Id, n: Id, path: Path, v: XValue, x: Id)
    requires Tidy(w, next) && n in w.parent && v.IsAttribute() && x in w.parent
    requires !PathSet(w, next, n, path, v).ok && !AddsNode(w, next, n, path)
    ensures var r := PathSet(w, next, n, path, v).w; x in r.box && r.box[x] == w.box[x]
    decreases |path|
  {
    hide PathSet, GetByKey, NodeGet, Set, Acyclic;
    if |path| == 1 {
      PathSetOne(w, next, n, path, v);
      SetEffect(w, next, n, path[0], v);
    } else if |path| > 1 {
      var g := GetByKey(w, next, n, path[0], true);
      PathSetStep(w, next, n, path, v);
      FirstKey(w, next, n, path[0]);
      if Read(w.box, n, path[0]).IsEmpty() {
        OthersNotBelowNew(w, g.w, n, path[0], next, x);
        TouchesOnlyBelow(g.w, g.next, next, path[1..], v, x);
      } else if g.node.Some? {
        FailedSetKeepsBoxes(w, next, g.node.value, path[1..], v, x);
      }
    } else {
      NoKeySets(w, next, n, v);
    }
  }

  // A write that adds a node changes the read there.
  lemma {:induction false} AddedNodeIsRead(w: World, next: Id, n: Id, path: Path, v: XValue) returns (q: Path)
    requires Tidy(w, next) && n in w.parent && v.IsAttribute() && AddsNode(w, next, n, path)
    ensures q != [] && ConstAt(PathSet(w, next, n, path, v).w.box, n, q) != ConstAt(w.box, n, q)
    decreases |path|
  {
    hide PathSet, GetByKey, NodeGet, Set, Good, Tidy;
    FirstKey(w, next, n, path[0]);
    PathSetStep(w, next, n, path, v);
    OwnBoxAfter(w, next, n, path, v);
    if Read(w.box, n, path[0]).IsEmpty() {
      q := [path[0]];
    } else {
      var c := Read(w.box, n, path[0]).addr;
      var rest := AddedNodeIsRead(w, next, c, path[1..], v);
      q := [path[0]] + rest;
      assert q[1..] == rest;
    }
  }

  // Every path reads the same.
  ghost predicate ReadsSame(b: Heap, c: Heap, n: Id) {
    forall q: Path :: ConstAt(c, n, q) == ConstAt(b, n, q)
  }

  /** A failed write changes no read exactly when it has not put a new node on the way: when no node was
      missing, or the missing one could not be attached. */
  lemma FailedSetReadsIff(w: World, next: Id, n: Id, path: Path, v: XValue)
    requires Tidy(w, next) && n in w.parent && v.IsAttribute() && !PathSet(w, next, n, path, v).ok
    ensures ReadsSame(w.box, PathSet(w, next, n, path, v).w.box, n) <==> !AddsNode(w, next, n, path)
    ensures AddsNode(w, next, n, path) ==> WayIsMissing(w, next, n, path)
  {
    var r := PathSet(w, next, n, path, v).w;
    AddsWhereMissing(w, next, n, path);
    hide PathSet, AddsNode, Tidy;
    if AddsNode(w, next, n, path) {
      var q := AddedNodeIsRead(w, next, n, path, v);
    } else {
      forall x | x in w.parent ensures x in r.box && r.box[x] == w.box[x] {
        FailedSetKeepsBoxes(w, next, n, path, v, x);
      }
      forall q: Path ensures ConstAt(r.box, n, q) == ConstAt(w.box, n, q) { ReadsOnlyBelow(w, next, n, q, r.box); }
    }
  }

  lemma {:induction false} AddsWhereMissing(w: World, next: Id, n: Id, path: Path)
    requires Tidy(w, next) && n in w.parent
    ensures AddsNode(w, next, n, path) ==> WayIsMissing(w, next, n, path)
    decreases |path|
  {
    if |path| > 1 && Read(w.box, n, path[0]).IsObject() {
      ReadIsLinked(w, next, n, path[0]);
      AddsWhereMissing(w, next, Read(w.box, n, path[0]).addr, path[1..]);
    }
  }

  // ----- inputs, for any empty map n -----

  /** The failed write at ["a", ""] changes the read at ["a"]. */
  lemma FailedSetCanChangeReads(w: World, next: Id, n: Id, v: XValue)
    requires Tidy(w, next) && n in w.parent && w.box[n] == MapBox(map[]) && v.IsAttribute()
    ensures !PathSet(w, next, n, ["a", ""], v).ok
    ensures !ReadsSame(w.box, PathSet(w, next, n, ["a", ""], v).w.box, n)
  {
    hide PathSet, Tidy;
    SetSucceedsIff(w, next, n, ["a", ""], v);
    FailedSetReadsIff(w, next, n, ["a", ""], v);
  }

  /** The failed write at ["", ""] creates a node, but changes no read. */
  lemma FailedSetCanLoseNode(w: World, next: Id, n: Id, v: XValue)
    requires Tidy(w, next) && n in w.parent && w.box[n] == MapBox(map[]) && v.IsAttribute()
    ensures !PathSet(w, next, n, ["", ""], v).ok && PathSet(w, next, n, ["", ""], v).w != w
    ensures ReadsSame(w.box, PathSet(w, next, n, ["", ""], v).w.box, n)
  {
    hide PathSet, Tidy;
    SetSucceedsIff(w, next, n, ["", ""], v);
    FailedSetIff(w, next, n, ["", ""], v);
    FailedSetReadsIff(w, next, n, ["", ""], v);
  }

  /** The write at ["", "a"] succeeds, and is not read there. */
  lemma SetCanBeLost(w: World, next: Id, n: Id, v: XValue)
    requires Tidy(w, next) && n in w.parent && w.box[n] == MapBox(map[]) && v.IsAttribute()
    ensures PathSet(w, next, n, ["", "a"], v).ok
    ensures ConstAt(PathSet(w, next, n, ["", "a"], v).w.box, n, ["", "a"]) != v
  {
    hide PathSet, Tidy;
    SetSucceedsIff(w, next, n, ["", "a"], v);
    assert ["", "a"][0] == "";
    SetThenAtIff(w, next, n, ["", "a"], v);
  }

  /** The mutable `At` at ["a", "b"] creates a node. */
  lemma ReadingCreates(w: World, next: Id, n: Id)
    requires Tidy(w, next) && n in w.parent && w.box[n] == MapBox(map[])
    ensures PathAt(w, next, n, ["a", "b"]).w != w
  {
    hide PathAt, Tidy;
    MutableAtIff(w, next, n, ["a", "b"]);
  }

  lemma {:induction false} NodesStay(w: World, next: Id, n: Id, path: Path, v: XValue)
    requires Tidy(w, next) && n in w.parent && v.IsAttribute()
    ensures w.box.Keys <= PathSet(w, next, n, path, v).w.box.Keys
    decreases |path|
  {
    if |path| == 1 {
      PathSetOne(w, next, n, path, v);
      SetEffect(w, next, n, path[0], v);
    } else if |path| > 1 {
      var g := GetByKey(w, next, n, path[0], true);
      PathSetStep(w, next, n, path, v);
      if Read(w.box, n, path[0]).IsEmpty() { GetByKeyCreates(w, next, n, path[0], true); }
      if g.node.Some? { NodesStay(g.w, g.next, g.node.value, path[1..], v); }
    } else {
      NoKeySets(w, next, n, v);
    }
  }

  // ----- agreement -----

  lemma RootIsSafe(d: World, p: Id, key: string, c: Id)
    requires Agree(d) && p in d.box && d.box[p].MapBox? && c in d.parent && d.parent[c].None? && !Below(d.parent, p, c)
    requires Get(d.box[p], Name(key)).GetOr(Empty).IsEmpty()
    ensures CompareExchangeSafe(d, p, Name(key), Object(c))
  {
  }

  lemma GetByKeyAgrees(w: World, next: Id, p: Id, key: string)
    requires Ready(w, next) && Tidy(w, next) && p in w.parent && w.box[p].MapBox?
    ensures var g := GetByKey(w, next, p, key, true);
            Ready(g.w, g.next) && (g.node.Some? ==> g.node.value in g.w.box && g.w.box[g.node.value].MapBox?)
  {
    hide CompareExchange, Fits, Owning, RefersTo, Linked, Acyclic;
    if Read(w.box, p, key).IsEmpty() {
      CreatedAgrees(w, next, p, key);
      GetByKeyCreates(w, next, p, key, true);
    }
  }

  lemma CreatedAgrees(w: World, next: Id, p: Id, key: string)
    requires Ready(w, next) && p in w.parent && w.box[p].MapBox? && Read(w.box, p, key).IsEmpty()
    ensures var d := Create(w, next, true, "");
            && Good(d) && Storable(d, Object(next)) && p in d.parent
            && var r := CompareExchange(d, p, Name(key), Read(w.box, p, key), Object(next));
               Agree(r.w) && Good(r.w) && r.w.parent.Keys == d.parent.Keys
  {
    hide CompareExchangeSafe, CompareExchange, Acyclic;
    var d := Create(w, next, true, "");
    CreateAgrees(w, next, true, "");
    CreateGood(w, next, true, "");
    FreshParent(w, next, p);
    assert d.box[p] == w.box[p];
    RootIsSafe(d, p, key, next);
    CompareExchangeAgreesIff(d, p, Name(key), Read(w.box, p, key), Object(next));
    CompareExchangeGood(d, p, Name(key), Read(w.box, p, key), Object(next));
  }

  lemma SetAttributeAgrees(w: World, next: Id, n: Id, key: string, v: XValue)
    requires Ready(w, next) && n in w.parent && v.IsAttribute()
    ensures Ready(Set(w, n, Name(key), v).w, next)
  {
    hide Agree;
    SetAgreesIff(w, n, Name(key), v);
    SetGood(w, n, Name(key), v);
    ReadyIsTidy(w, next);
    SetKeepsNodes(w, n, Name(key), v);
  }

  lemma SetKeepsNodes(w: World, n: Id, key: Key, v: XValue)
    requires Good(w) && n in w.parent && v.IsAttribute()
    ensures Set(w, n, key, v).w.parent.Keys == w.parent.Keys
  {
    var r := Put(w.box[n], Resolve(w.box[n], key), v);
    if r.ok && r.prev.Object? {
      PutPrevIsKnown(w, n, Resolve(w.box[n], key), v);
      OrphanEffect(WithBox(w, n, r.box), r.prev);
    }
  }

  /** A write along a path from a map keeps parents, names and containers in agreement. */
  lemma {:induction false} PathSetAgrees(w: World, next: Id, n: Id, path: Path, v: XValue)
    requires Ready(w, next) && Tidy(w, next) && n in w.parent && w.box[n].MapBox? && v.IsAttribute()
    ensures Ready(PathSet(w, next, n, path, v).w, PathSet(w, next, n, path, v).next)
    decreases |path|
  {
    hide Agree, GetByKey, PathSet, NodeGet, Set;
    if |path| == 1 {
      PathSetOne(w, next, n, path, v);
      SetAttributeAgrees(w, next, n, path[0], v);
    } else if |path| > 1 {
      var g := GetByKey(w, next, n, path[0], true);
      PathSetStep(w, next, n, path, v);
      GetByKeyAgrees(w, next, n, path[0]);
      if g.node.Some? { PathSetAgrees(g.w, g.next, g.node.value, path[1..], v); }
    } else {
      NoKeySets(w, next, n, v);
    }
  }

  // ----- the mutable read -----

  datatype AtRes = AtRes(w: World, next: Id, v: XValue)

  // The mutable `At` of a path goes through `NodeGet` too, and creates what is missing.
  ghost function PathAt(w: World, next: Id, n: Id, path: Path): AtRes
    requires Tidy(w, next) && n in w.parent
  {
    if path == [] then AtRes(w, next, Empty)
    else
      var g := NodeGet(w, next, n, path[..|path| - 1], false);
      AtRes(g.w, g.next, if g.node.None? then Empty else Read(g.w.box, g.node.value, path[|path| - 1]))
  }

  lemma PathAtStep(w: World, next: Id, n: Id, path: Path)
    requires Tidy(w, next) && n in w.parent && |path| > 1
    ensures var g := GetByKey(w, next, n, path[0], false);
            && Tidy(g.w, g.next) && (g.node.Some? ==> g.node.value in g.w.parent)
            && PathAt(w, next, n, path) ==
               if g.node.None? then AtRes(g.w, g.next, Empty) else PathAt(g.w, g.next, g.node.value, path[1..])
  {
    hide GetByKey, NodeGet, Tidy;
    var init := path[..|path| - 1];
    assert init[0] == path[0] && init[1..] == path[1..][..|path| - 2];
    NodeGetStep(w, next, n, init, false);
  }

  // The way to the last key ends early, in a missing entry.
  ghost predicate ReadMisses(w: World, n: Id, path: Path)
    decreases |path|
  {
    if |path| < 2 then false
    else
      var x := Read(w.box, n, path[0]);
      x.IsEmpty() || (x.Object? && ReadMisses(w, x.addr, path[1..]))
  }

  lemma {:induction false} NodesStayAt(w: World, next: Id, n: Id, path: Path)
    requires Tidy(w, next) && n in w.parent
    ensures w.box.Keys <= PathAt(w, next, n, path).w.box.Keys
    decreases |path|
  {
    if |path| > 1 {
      var g := GetByKey(w, next, n, path[0], false);
      PathAtStep(w, next, n, path);
      if Read(w.box, n, path[0]).IsEmpty() { GetByKeyCreates(w, next, n, path[0], false); }
      if g.node.Some? { NodesStayAt(g.w, g.next, g.node.value, path[1..]); }
    } else if |path| == 1 {
      assert path[..0] == [];
    }
  }

  lemma {:induction false} ReadInNewNode(w: World, next: Id, c: Id, path: Path)
    requires Tidy(w, next) && c in w.parent && w.box[c] == MapBox(map[]) && path != []
    ensures PathAt(w, next, c, path).v == Empty
    decreases |path|
  {
    if |path| > 1 {
      var g := GetByKey(w, next, c, path[0], false);
      PathAtStep(w, next, c, path);
      GetByKeyCreates(w, next, c, path[0], false);
      ReadInNewNode(g.w, g.next, g.node.value, path[1..]);
    } else {
      assert path[..0] == [];
    }
  }

  /** The mutable `At` answers the same as the const one, but it leaves the tree as it is exactly when
      no node on the way is missing: a missing one is created by reading. */
  lemma {:induction false} MutableAtIff(w: World, next: Id, n: Id, path: Path)
    requires Tidy(w, next) && n in w.parent
    ensures PathAt(w, next, n, path).v == ConstAt(w.box, n, path)
    ensures PathAt(w, next, n, path).w == w <==> !ReadMisses(w, n, path)
    decreases |path|
  {
    hide Tidy, CompareExchange, Linked;
    if |path| > 1 {
      var g := GetByKey(w, next, n, path[0], false);
      PathAtStep(w, next, n, path);
      if Read(w.box, n, path[0]).IsEmpty() {
        GetByKeyCreates(w, next, n, path[0], false);
        ReadInNewNode(g.w, g.next, next, path[1..]);
        NodesStayAt(g.w, g.next, next, path[1..]);
      } else if g.node.Some? {
        ReadIsLinked(w, next, n, path[0]);
        MutableAtIff(w, next, g.node.value, path[1..]);
      } else if Read(w.box, n, path[0]).IsObject() {
        ReadIsLinked(w, next, n, path[0]);
      }
    } else if |path| == 1 {
      assert path[..0] == [];
    }
  }

  // ----- carried out on the nodes -----

  method NodeGetByKey(nodes: NodeMethods.Nodes, p: Id, key: string, wantMap: bool, next: Id)
    returns (node: Option<Id>, after: Id)
    requires Tidy(nodes.W(), next) && p in nodes.parent
    modifies nodes
    ensures Got(nodes.W(), after, node) == GetByKey(old(nodes.W()), next, p, key, wantMap)
    ensures Tidy(nodes.W(), after) && (node.Some? ==> node.value in nodes.parent)
  {
    hide Linked, CompareExchange, Acyclic, Owning, RefersTo, Closed;
    GetByKeyTidy(nodes.W(), next, p, key, wantMap);
    ghost var w := nodes.W();
    var x := Read(nodes.box, p, key);
    if x.IsObject() { ReadIsLinked(nodes.W(), next, p, key); }
    if x.Object? && (wantMap ==> nodes.box[x.addr].MapBox?) { return Some(x.addr), next; }
    if !x.IsEmpty() { return None, next; }
    CreateGood(w, next, true, "");
    nodes.Create(next, true, "");
    var _, _ := nodes.CompareExchange(p, Name(key), x, Object(next));
    node, after := Some(next), next + 1;
  }

  method GetNode(nodes: NodeMethods.Nodes, n: Id, path: Path, wantMap: bool, next: Id)
    returns (node: Option<Id>, after: Id)
    requires Tidy(nodes.W(), next) && n in nodes.parent
    modifies nodes
    ensures Got(nodes.W(), after, node) == NodeGet(old(nodes.W()), next, n, path, wantMap)
    ensures Tidy(nodes.W(), after) && (node.Some? ==> node.value in nodes.parent)
  {
    hide GetByKey, NodeGet, Tidy;
    node, after := Some(n), next;
    ghost var w := nodes.W();
    for i := 0 to |path|
      invariant Tidy(nodes.W(), after) && node.Some? && node.value in nodes.parent
      invariant NodeGet(w, next, n, path, wantMap) == NodeGet(nodes.W(), after, node.value, path[i..], wantMap)
    {
      assert path[i..][0] == path[i] && path[i..][1..] == path[i + 1..];
      NodeGetStep(nodes.W(), after, node.value, path[i..], wantMap);
      node, after := NodeGetByKey(nodes, node.value, path[i], wantMap, after);
      if node.None? { return; }
    }
    NodeGetNothing(nodes.W(), after, node.value, wantMap);
  }

  lemma NodeGetNothing(w: World, next: Id, n: Id, wantMap: bool)
    requires Tidy(w, next) && n in w.parent
    ensures NodeGet(w, next, n, [], wantMap) == Got(w, next, Some(n))
  {
  }

  method SetAtPath(nodes: NodeMethods.Nodes, n: Id, path: Path, v: XValue, next: Id) returns (ok: bool, after: Id)
    requires Tidy(nodes.W(), next) && n in nodes.parent && v.IsAttribute()
    modifies nodes
    ensures SetRes(nodes.W(), after, ok) == PathSet(old(nodes.W()), next, n, path, v)
  {
    hide GetByKey, NodeGet, Set;
    var prev;
    if path == [] {
      ok, prev := nodes.Set(n, NoKey, v);
      return ok, next;
    }
    var node;
    node, after := GetNode(nodes, n, path[..|path| - 1], true, next);
    if node.None? { return false, after; }
    ok, prev := nodes.Set(node.value, Name(path[|path| - 1]), v);
  }

  method ReadAtPath(nodes: NodeMethods.Nodes, n: Id, path: Path, next: Id) returns (v: XValue, after: Id)
    requires Tidy(nodes.W(), next) && n in nodes.parent
    modifies nodes
    ensures AtRes(nodes.W(), after, v) == PathAt(old(nodes.W()), next, n, path)
  {
    hide GetByKey, NodeGet;
    if path == [] { return Empty, next; }
    var node;
    node, after := GetNode(nodes, n, path[..|path| - 1], false, next);
    if node.None? { return Empty, after; }
    v := Read(nodes.box, node.value, path[|path| - 1]);
  }
}
