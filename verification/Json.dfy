/** The JSON event stream on both sides: the writer `WriteXNode` / `WriteXValue`, and the handler
    `XNodeJsonHandler` that builds nodes from events on a stack. The text between them is left to
    the JSON library; it may deliver a written integer by any of its four integer callbacks. */
module Json {
  import opened Wrappers
  import opened XValues
  import opened Boxes
  import opened Worlds
  import opened Holding
  import opened Agreement
  import opened TreeOps
  import opened Forest
  import opened Adoptions
  import opened TreeRuns
  import opened Trees
  import Order
  import NodeMethods

  datatype Event =
    | NullEvent
    | BoolEvent(b: bool)
    | IntEvent(i: int64)
    | UintEvent(u: uint64)
    | Int64Event(i: int64)
    | Uint64Event(u: uint64)
    | DoubleEvent(d: real)
    | StringEvent(s: string)
    | KeyEvent(s: string)
    | StartObject
    | EndObject
    | StartArray
    | EndArray
  {
    predicate IsNumber() { IntEvent? || UintEvent? || Int64Event? || Uint64Event? }

    function Number(): int
      requires IsNumber()
    {
      if IntEvent? || Int64Event? then i else u
    }
  }

  // The conversion of a 64-bit unsigned value to a signed one, which wraps around.
  function AsInt64(u: uint64): int64 {
    if u <= INT64_MAX then u else u - 0x1_0000_0000_0000_0000
  }

  // ----- the writer -----

  function ValueEvent(x: XValue): Event
    requires !x.IsObject()
  {
    match x
    case Empty => NullEvent
    case Null => NullEvent
    case Bool(b) => BoolEvent(b)
    case Int64(i) => Int64Event(i)
    case Uint64(u) => Int64Event(AsInt64(u))
    case Double(d) => DoubleEvent(d)
    case Str(s) => StringEvent(s)
  }

  ghost predicate Plain(t: Tree)
    decreases t
  {
    match t
    case Leaf(x) => !x.IsObject()
    case MapTree(_, keys, subs) => |keys| == |subs| && forall i | 0 <= i < |subs| :: Plain(subs[i])
    case ArrayTree(_, subs) => forall i | 0 <= i < |subs| :: Plain(subs[i])
  }

  // The key event of the n-th child, if there is one.
  function KeyEvents(t: Tree, n: nat): seq<Event>
    requires !t.Leaf? && n < |t.subs| && (t.MapTree? ==> |t.keys| == |t.subs|)
  {
    if t.MapTree? then [KeyEvent(t.keys[n])] else []
  }

  // The events of a tree.
  ghost function EventsOf(t: Tree): seq<Event>
    requires Plain(t)
    decreases t, 1
  {
    match t
    case Leaf(x) => [ValueEvent(x)]
    case MapTree(_, _, subs) => [StartObject] + ChildEvents(t, |subs|) + [EndObject]
    case ArrayTree(_, subs) => [StartArray] + ChildEvents(t, |subs|) + [EndArray]
  }

  lemma EventsOfNode(t: Tree)
    requires Plain(t) && !t.Leaf?
    ensures EventsOf(t) == if t.MapTree? then [StartObject] + ChildEvents(t, |t.subs|) + [EndObject]
                           else [StartArray] + ChildEvents(t, |t.subs|) + [EndArray]
  {
  }

  lemma Enclosed(before: seq<Event>, open: Event, inside: seq<Event>, close: Event)
    ensures before + [open] + inside + [close] == before + ([open] + inside + [close])
  {
  }

  // The events of the first n children.
  ghost function ChildEvents(t: Tree, n: nat): seq<Event>
    requires Plain(t) && !t.Leaf? && n <= |t.subs|
    decreases t, 0, n
  {
    if n == 0 then []
    else ChildEvents(t, n - 1) + (KeyEvents(t, n - 1) + EventsOf(t.subs[n - 1]))
  }

  lemma NoChild(t: Tree)
    requires Plain(t) && !t.Leaf?
    ensures ChildEvents(t, 0) == []
  {
  }

  lemma NextChild(t: Tree, i: nat)
    requires Plain(t) && !t.Leaf? && i < |t.subs|
    ensures ChildEvents(t, i + 1) == ChildEvents(t, i) + (KeyEvents(t, i) + EventsOf(t.subs[i]))
  {
  }

  lemma {:induction false} RepresentsPlain(boxes: Heap, v: XValue, t: Tree)
    requires Represents(boxes, v, t)
    ensures Plain(t)
    decreases t
  {
    if !t.Leaf? {
      forall i | 0 <= i < |t.subs| ensures Plain(t.subs[i]) {
        RepresentsPlain(boxes, if t.MapTree? then boxes[v.addr].m[t.keys[i]] else boxes[v.addr].a[i], t.subs[i]);
      }
    }
  }

  class JsonWriter {
    var out: seq<Event>

    constructor ()
      ensures out == []
    {
      out := [];
    }

    method WriteXValue(boxes: Heap, v: XValue, ghost t: Tree)
      requires Represents(boxes, v, t) && Plain(t)
      modifies this
      ensures out == old(out) + EventsOf(t)
      decreases t, 2
    {
      match v {
        case Empty => out := out + [NullEvent];
        case Null => out := out + [NullEvent];
        case Bool(b) => out := out + [BoolEvent(b)];
        case Int64(i) => out := out + [Int64Event(i)];
        case Uint64(u) => out := out + [Int64Event(AsInt64(u))];
        case Double(d) => out := out + [DoubleEvent(d)];
        case Str(s) => out := out + [StringEvent(s)];
        case Object(n) => WriteXNode(boxes, n, t);
        case ConstObject(n) => WriteXNode(boxes, n, t);
      }
    }

    method WriteXNode(boxes: Heap, n: Id, ghost t: Tree)
      requires Represents(boxes, Object(n), t) && Plain(t)
      modifies this
      ensures out == old(out) + EventsOf(t)
      decreases t, 1
    {
      hide ChildEvents, EventsOf;
      EventsOfNode(t);
      ghost var before := out;
      if boxes[n].MapBox? {
        out := out + [StartObject];
        WriteMap(boxes, boxes[n].m, LiveKeys(boxes[n].m), t);
        out := out + [EndObject];
        Enclosed(before, StartObject, ChildEvents(t, |t.subs|), EndObject);
      } else {
        out := out + [StartArray];
        WriteArray(boxes, boxes[n].a, t);
        out := out + [EndArray];
        Enclosed(before, StartArray, ChildEvents(t, |t.subs|), EndArray);
      }
    }

    method WriteMap(boxes: Heap, m: map<string, XValue>, keys: seq<string>, ghost t: Tree)
      requires t.MapTree? && Plain(t) && keys == t.keys
      requires forall i | 0 <= i < |keys| :: keys[i] in m && Represents(boxes, m[keys[i]], t.subs[i])
      modifies this
      ensures out == old(out) + ChildEvents(t, |t.subs|)
      decreases t, 0
    {
      hide EventsOf, ChildEvents;
      NoChild(t);
      for i := 0 to |keys|
        invariant out == old(out) + ChildEvents(t, i)
      {
        out := out + [KeyEvent(keys[i])];
        WriteXValue(boxes, m[keys[i]], t.subs[i]);
        NextChild(t, i);
      }
    }

    method WriteArray(boxes: Heap, a: seq<XValue>, ghost t: Tree)
      requires t.ArrayTree? && Plain(t) && |a| == |t.subs|
      requires forall i | 0 <= i < |a| :: Represents(boxes, a[i], t.subs[i])
      modifies this
      ensures out == old(out) + ChildEvents(t, |t.subs|)
      decreases t, 0
    {
      hide EventsOf, ChildEvents;
      NoChild(t);
      for i := 0 to |a|
        invariant out == old(out) + ChildEvents(t, i)
      {
        WriteXValue(boxes, a[i], t.subs[i]);
        NextChild(t, i);
        assert KeyEvents(t, i) == [];
      }
    }
  }

  // ----- the handler -----

  datatype State = State(w: World, root: XValue, key: Key, nodes: seq<Id>, next: Id, rootName: string)

  // New nodes get addresses that no node has.
  ghost predicate Open(s: State) {
    && Good(s.w)
    && (forall n | n in s.w.parent :: n < s.next)
    && (forall n | n in s.nodes :: n in s.w.parent)
  }

  lemma InsertKeepsNodes(w: World, p: Id, key: Key, v: XValue)
    requires Good(w) && p in w.parent && Storable(w, v)
    ensures Good(Insert(w, p, key, v).w)
    ensures Insert(w, p, key, v).w.parent.Keys == w.parent.Keys
  {
    InsertGood(w, p, key, v);
  }

  // `_put_value`
  ghost function ValuePut(s: State, v: XValue): (r: (State, bool))
    requires Open(s) && Storable(s.w, v)
    ensures Open(r.0) && r.0.nodes == s.nodes && r.0.w.parent.Keys == s.w.parent.Keys
  {
    if s.nodes == [] then (s.(root := v), true)
    else
      var p := s.nodes[|s.nodes| - 1];
      InsertKeepsNodes(s.w, p, s.key, v);
      var i := Insert(s.w, p, s.key, v);
      (s.(w := i.w, key := End), i.ok)
  }

  // The state before `_put_node` puts the node it created.
  ghost function Created(s: State, isMap: bool): (r: State)
    requires Open(s)
    ensures Open(r) && Storable(r.w, Object(s.next)) && r.nodes == s.nodes
  {
    var nodeName := if s.nodes == [] then s.rootName else "";
    CreateGood(s.w, s.next, isMap, nodeName);
    s.(w := Create(s.w, s.next, isMap, nodeName), next := s.next + 1)
  }

  // `_put_node`; what `_put_value` answers is ignored.
  ghost function NodePut(s: State, isMap: bool): (r: (State, bool))
    requires Open(s)
    ensures Open(r.0)
  {
    var u := ValuePut(Created(s, isMap), Object(s.next)).0;
    (u.(nodes := u.nodes + [s.next]), true)
  }

  // `_end_node`
  ghost function NodeEnded(s: State): (State, bool) {
    if s.nodes == [] then (s, false) else (s.(nodes := s.nodes[..|s.nodes| - 1]), true)
  }

  function EventValue(e: Event): XValue {
    match e
    case BoolEvent(b) => Bool(b)
    case IntEvent(i) => Int64(i)
    case UintEvent(u) => Uint64(u)
    case Int64Event(i) => Int64(i)
    case Uint64Event(u) => Uint64(u)
    case DoubleEvent(d) => Double(d)
    case StringEvent(s) => Str(s)
    case _ => Null
  }

  ghost function Handle(s: State, e: Event): (r: (State, bool))
    requires Open(s)
    ensures Open(r.0)
  {
    match e
    case KeyEvent(k) => (s.(key := Name(k)), true)
    case StartObject => NodePut(s, true)
    case StartArray => NodePut(s, false)
    case EndObject => NodeEnded(s)
    case EndArray => NodeEnded(s)
    case _ => ValuePut(s, EventValue(e))
  }

  // The reader hands over event after event and stops where the handler refuses one.
  ghost function Run(s: State, es: seq<Event>): (r: (State, bool))
    requires Open(s)
    ensures Open(r.0)
    decreases |es|
  {
    if es == [] then (s, true)
    else
      var h := Handle(s, es[0]);
      if h.1 then Run(h.0, es[1..]) else h
  }

  class XNodeJsonHandler {
    const world: NodeMethods.Nodes
    const rootName: string
    var root: XValue
    var key: Key
    var nodes: seq<Id>
    var next: Id

    constructor (world: NodeMethods.Nodes, rootName: string, next: Id)
      ensures this.world == world && S() == State(world.W(), Empty, NoKey, [], next, rootName)
    {
      this.world, this.rootName := world, rootName;
      root, key, nodes, this.next := Empty, NoKey, [], next;
    }

    ghost function S(): State
      reads this, world
    {
      State(world.W(), root, key, nodes, next, rootName)
    }

    method PutValue(v: XValue) returns (ok: bool)
      requires Open(S()) && Storable(world.W(), v)
      modifies this, world
      ensures (S(), ok) == ValuePut(old(S()), v)
    {
      hide Good, Insert, Storable;
      if nodes == [] {
        root := v;
        return true;
      }
      var k := key;
      key := End;
      var at, existing;
      ok, at, existing := world.Insert(nodes[|nodes| - 1], k, v);
    }

    method PutNode(isMap: bool) returns (ok: bool)
      requires Open(S())
      modifies this, world
      ensures (S(), ok) == NodePut(old(S()), isMap)
    {
      var node := next;
      next := next + 1;
      world.Create(node, isMap, if nodes == [] then rootName else "");
      assert S() == Created(old(S()), isMap);
      var _ := PutValue(Object(node));
      nodes := nodes + [node];
      ok := true;
    }

    method EndNode() returns (ok: bool)
      modifies this
      ensures (S(), ok) == NodeEnded(old(S()))
    {
      if nodes == [] { return false; }
      nodes := nodes[..|nodes| - 1];
      ok := true;
    }

    method Consume(e: Event) returns (ok: bool)
      requires Open(S())
      modifies this, world
      ensures (S(), ok) == Handle(old(S()), e)
    {
      hide Good, NodePut, ValuePut, NodeEnded;
      match e {
        case KeyEvent(k) => key := Name(k); ok := true;
        case StartObject => ok := PutNode(true);
        case StartArray => ok := PutNode(false);
        case EndObject => ok := EndNode();
        case EndArray => ok := EndNode();
        case _ => ok := PutValue(EventValue(e));
      }
    }

    method ConsumeAll(es: seq<Event>) returns (ok: bool)
      requires Open(S())
      modifies this, world
      ensures (S(), ok) == Run(old(S()), es)
    {
      ok := true;
      for i := 0 to |es|
        invariant ok && Open(S()) && Run(S(), es[i..]) == Run(old(S()), es)
      {
        assert es[i..][0] == es[i] && es[i..][1..] == es[i + 1..];
        ok := Consume(es[i]);
        if !ok { return; }
      }
    }
  }

  // ----- what is rebuilt -----

  // What a value becomes on its way: nothing becomes null, an integer keeps its number (after the
  // conversion to a signed one), everything else is the same.
  predicate Carried(x: XValue, v: XValue) {
    match x
    case Empty => v == Null
    case Int64(i) => v.IsInteger() && Number(v) == i
    case Uint64(u) => v.IsInteger() && Number(v) == AsInt64(u)
    case _ => v == x
  }

  function Number(v: XValue): int
    requires v.IsInteger()
  {
    if v.Int64? then v.i else v.u
  }

  // The value v, made of nodes with addresses from `low` on, is the tree t as JSON carries it.
  ghost predicate Rebuilt(boxes: Heap, v: XValue, t: Tree, low: Id)
    decreases t
  {
    match t
    case Leaf(x) => Carried(x, v)
    case MapTree(_, keys, subs) =>
      && v.Object? && low <= v.addr && v.addr in boxes && boxes[v.addr].MapBox?
      && keys == LiveKeys(boxes[v.addr].m) && |subs| == |keys|
      && forall i | 0 <= i < |keys| ::
           keys[i] in boxes[v.addr].m && Rebuilt(boxes, boxes[v.addr].m[keys[i]], subs[i], low)
    case ArrayTree(_, subs) =>
      && v.Object? && low <= v.addr && v.addr in boxes && boxes[v.addr].ArrayBox?
      && |subs| == |boxes[v.addr].a|
      && forall i | 0 <= i < |subs| :: Rebuilt(boxes, boxes[v.addr].a[i], subs[i], low)
  }

  // The nodes from `low` on are the same.
  ghost predicate SameFrom(b: Heap, c: Heap, low: Id) {
    forall n | n in b && low <= n :: n in c && c[n] == b[n]
  }

  lemma {:induction false} RebuiltStays(b: Heap, c: Heap, v: XValue, t: Tree, low: Id, from: Id)
    requires Rebuilt(b, v, t, from) && SameFrom(b, c, from) && low <= from
    ensures Rebuilt(c, v, t, low)
    decreases t
  {
    if !t.Leaf? {
      forall i | 0 <= i < |t.subs|
        ensures Rebuilt(c, if t.MapTree? then c[v.addr].m[t.keys[i]] else c[v.addr].a[i], t.subs[i], low)
      {
        RebuiltStays(b, c, if t.MapTree? then b[v.addr].m[t.keys[i]] else b[v.addr].a[i], t.subs[i], low, from);
      }
    }
  }

  // ----- the deliverer in between -----

  // The handler is called with the written events; for a written integer it may be any of the
  // integer callbacks, with the same number.
  predicate Delivered(written: seq<Event>, read: seq<Event>) {
    && |written| == |read|
    && forall i | 0 <= i < |read| ::
         written[i] == read[i]
         || (written[i].IsNumber() && read[i].IsNumber() && written[i].Number() == read[i].Number())
  }

  lemma DeliveredParts(a: seq<Event>, b: seq<Event>, read: seq<Event>)
    requires Delivered(a + b, read)
    ensures |a| <= |read| && Delivered(a, read[..|a|]) && Delivered(b, read[|a|..])
  {
    assert forall i | 0 <= i < |a| :: (a + b)[i] == a[i];
    assert forall i | 0 <= i < |b| :: (a + b)[|a| + i] == b[i];
  }

  lemma {:induction false} RunParts(s: State, a: seq<Event>, b: seq<Event>)
    requires Open(s)
    ensures Run(s, a + b) == if Run(s, a).1 then Run(Run(s, a).0, b) else Run(s, a)
    decreases |a|
  {
    if a == [] {
      assert a + b == b;
    } else {
      assert (a + b)[1..] == a[1..] + b;
      if Handle(s, a[0]).1 { RunParts(Handle(s, a[0]).0, a[1..], b); }
    }
  }

  lemma RunOne(s: State, e: Event)
    requires Open(s)
    ensures Run(s, [e]) == Handle(s, e)
  {
  }

  // ----- placing one value -----

  predicate Idle(k: Key) { k == NoKey || k == End }

  ghost function Top(s: State): (p: Id)
    requires Open(s) && s.nodes != []
    ensures p in s.w.parent && p in s.w.box
  {
    assert s.nodes[|s.nodes| - 1] in s.nodes;
    s.nodes[|s.nodes| - 1]
  }

  // The handler expects a value: under a new key of the map, or at the end of the array, on top of
  // the stack; or it is the first value of all.
  ghost predicate Ready(s: State) {
    && Open(s)
    && if s.nodes == [] then Idle(s.key)
       else
         var b := s.w.box[Top(s)];
         if b.MapBox? then s.key.Name? && s.key.s != "" && s.key.s !in b.m else Idle(s.key)
  }

  // The box on top after the value v has been put.
  ghost function With(s: State, v: XValue): Box
    requires Ready(s) && s.nodes != []
  {
    var b := s.w.box[Top(s)];
    if b.MapBox? then MapBox(b.m[s.key.s := v]) else ArrayBox(b.a + [v])
  }

  // Nodes are only added; a value that has been put uses up the key.
  ghost predicate Grows(s: State, r: State) {
    && Open(r)
    && r.rootName == s.rootName && Idle(r.key) && s.next <= r.next
    && s.w.box.Keys <= r.w.box.Keys
  }

  // The value v has been put, and all other containers are the same.
  ghost predicate Holds(s: State, r: State, v: XValue)
    requires Ready(s) && s.w.box.Keys <= r.w.box.Keys
  {
    if s.nodes == [] then
      r.root == v && forall n | n in s.w.box :: r.w.box[n] == s.w.box[n]
    else
      && r.root == s.root
      && r.w.box[Top(s)] == With(s, v)
      && forall n | n in s.w.box && n != Top(s) :: r.w.box[n] == s.w.box[n]
  }

  ghost predicate Taken(s: State, r: State, v: XValue)
    requires Ready(s)
  {
    Grows(s, r) && r.nodes == s.nodes && Holds(s, r, v)
  }

  lemma EmplaceReady(s: State, v: XValue)
    requires Ready(s) && s.nodes != []
    ensures Emplace(s.w.box[Top(s)], s.key, v).ok && Emplace(s.w.box[Top(s)], s.key, v).box == With(s, v)
  {
    var b := s.w.box[Top(s)];
    if b.ArrayBox? { assert InsertAt(b.a, |b.a|, v) == b.a + [v]; }
  }

  lemma PlainTaken(s: State, v: XValue)
    requires Ready(s) && !v.IsObject()
    ensures ValuePut(s, v).1 && Taken(s, ValuePut(s, v).0, v) && ValuePut(s, v).0.next == s.next
  {
    if s.nodes != [] { EmplaceReady(s, v); }
  }

  lemma NoFreshDuplicate(w: World, p: Id, c: Id)
    requires Valid(w) && p in w.parent && c !in w.parent
    ensures !HasDuplicate(w.box[p], c)
  {
    if HasDuplicate(w.box[p], c) {
      var i := FindNode(w.box[p].a, c, NoKey).value;
      assert w.box[p].a[i] == Object(c);
      assert RefersTo(w.box[p], c);
    }
  }

  // Inserting a node that has no parent and is held nowhere is one container change.
  lemma InsertRoot(w: World, p: Id, key: Key, c: Id)
    requires Good(w) && p in w.parent && c in w.parent && w.parent[c].None? && !Below(w.parent, p, c)
    requires !HasDuplicate(w.box[p], c) && Emplace(w.box[p], key, Object(c)).ok
    ensures Insert(w, p, key, Object(c)).ok
    ensures Insert(w, p, key, Object(c)).w.box == w.box[p := Emplace(w.box[p], key, Object(c)).box]
  {
  }

  lemma InsertNew(w: World, p: Id, key: Key, c: Id, isMap: bool, nodeName: string)
    requires Good(w) && p in w.parent && c !in w.parent
    requires Emplace(w.box[p], key, Object(c)).ok
    ensures Good(Create(w, c, isMap, nodeName))
    ensures var i := Insert(Create(w, c, isMap, nodeName), p, key, Object(c));
            i.ok && i.w.box == Create(w, c, isMap, nodeName).box[p := Emplace(w.box[p], key, Object(c)).box]
  {
    var d := Create(w, c, isMap, nodeName);
    CreateGood(w, c, isMap, nodeName);
    assert d.box[p] == w.box[p];
    NoFreshDuplicate(w, p, c);
    if Below(d.parent, p, c) {
      var k: nat :| Up(d.parent, p, c, k);
      FreshIsNotAbove(w.parent, p, c, k);
    }
    InsertRoot(d, p, key, c);
  }

  // A new node is put like any other value.
  lemma NextIsNew(s: State)
    requires Open(s)
    ensures s.next !in s.w.box
  {
  }

  lemma NodeTaken(s: State, isMap: bool)
    requires Ready(s)
    ensures var r := ValuePut(Created(s, isMap), Object(s.next)).0;
            Taken(s, r, Object(s.next)) && r.next == s.next + 1
            && s.next in r.w.box && r.w.box[s.next] == EmptyBox(isMap)
  {
    hide ValuePut, Created, Good;
    NextIsNew(s);
    NodePutFields(s, isMap);
    if s.nodes != [] { NodeInserted(s, isMap); }
  }

  lemma NodePutFields(s: State, isMap: bool)
    requires Ready(s)
    ensures var r := ValuePut(Created(s, isMap), Object(s.next)).0;
            && r.rootName == s.rootName && r.next == s.next + 1
            && r.root == (if s.nodes == [] then Object(s.next) else s.root)
            && r.key == (if s.nodes == [] then s.key else End)
            && (s.nodes == [] ==> r.w.box == s.w.box[s.next := EmptyBox(isMap)])
  {
    hide Good, Insert;
  }

  lemma NodeInserted(s: State, isMap: bool)
    requires Ready(s) && s.nodes != []
    ensures ValuePut(Created(s, isMap), Object(s.next)).0.w.box ==
            s.w.box[s.next := EmptyBox(isMap)][Top(s) := With(s, Object(s.next))]
  {
    hide Good, Insert, With, Emplace;
    EmplaceReady(s, Object(s.next));
    InsertNew(s.w, Top(s), s.key, s.next, isMap, "");
  }

  // ----- reading a tree -----

  // The node c holds the first n children of t.
  ghost predicate Filled(boxes: Heap, c: Id, t: Tree, n: nat)
    requires !t.Leaf? && n <= |t.subs| && (t.MapTree? ==> |t.keys| == |t.subs|)
  {
    && c in boxes
    && if t.MapTree? then
         && boxes[c].MapBox?
         && boxes[c].m.Keys == FirstKeys(t.keys, n)
         && forall j | 0 <= j < n :: t.keys[j] in boxes[c].m && Rebuilt(boxes, boxes[c].m[t.keys[j]], t.subs[j], c + 1)
       else
         && boxes[c].ArrayBox? && |boxes[c].a| == n
         && forall j | 0 <= j < n :: Rebuilt(boxes, boxes[c].a[j], t.subs[j], c + 1)
  }

  // While its children are read, the node on top changes and no other node that was there before.
  ghost predicate Within(s: State, r: State, c: Id) {
    && Grows(s, r) && r.nodes == s.nodes && r.root == s.root
    && forall n | n in s.w.box && n != c :: r.w.box[n] == s.w.box[n]
  }

  lemma ChildrenStay(b: Heap, r: Heap, c: Id, t: Tree, n: nat)
    requires !t.Leaf? && n <= |t.subs| && (t.MapTree? ==> |t.keys| == |t.subs|) && Filled(b, c, t, n)
    requires SameFrom(b, r, c + 1)
    ensures forall j | 0 <= j < n :: Rebuilt(r, if t.MapTree? then b[c].m[t.keys[j]] else b[c].a[j], t.subs[j], c + 1)
  {
    forall j | 0 <= j < n ensures Rebuilt(r, if t.MapTree? then b[c].m[t.keys[j]] else b[c].a[j], t.subs[j], c + 1) {
      RebuiltStays(b, r, if t.MapTree? then b[c].m[t.keys[j]] else b[c].a[j], t.subs[j], c + 1, c + 1);
    }
  }

  // One more child in the container of the node c.
  lemma OneMoreItem(b: Heap, r: Heap, c: Id, t: Tree, n: nat, v: XValue)
    requires t.ArrayTree? && n < |t.subs| && Filled(b, c, t, n)
    requires c in r && SameFrom(b, r, c + 1) && Rebuilt(r, v, t.subs[n], c + 1)
    requires r[c] == ArrayBox(b[c].a + [v])
    ensures Filled(r, c, t, n + 1)
  {
    ChildrenStay(b, r, c, t, n);
  }

  lemma OneMoreEntry(b: Heap, r: Heap, c: Id, t: Tree, n: nat, v: XValue)
    requires t.MapTree? && |t.keys| == |t.subs| && n < |t.subs| && Filled(b, c, t, n)
    requires t.keys[n] !in FirstKeys(t.keys, n)
    requires c in r && SameFrom(b, r, c + 1) && Rebuilt(r, v, t.subs[n], c + 1)
    requires r[c] == MapBox(b[c].m[t.keys[n] := v])
    ensures Filled(r, c, t, n + 1)
  {
    hide Rebuilt, SameFrom;
    ChildrenStay(b, r, c, t, n);
  }

  lemma OneMoreFilled(b: Heap, r: Heap, c: Id, t: Tree, n: nat, v: XValue, from: Id)
    requires WellFormed(t) && !t.Leaf? && n < |t.subs| && Filled(b, c, t, n)
    requires c in r && SameFrom(b, r, c + 1) && c < from && Rebuilt(r, v, t.subs[n], from)
    requires r[c] == if t.MapTree? then MapBox(b[c].m[t.keys[n] := v]) else ArrayBox(b[c].a + [v])
    ensures Filled(r, c, t, n + 1)
  {
    RebuiltStays(r, r, v, t.subs[n], c + 1, from);
    if t.MapTree? {
      NextKeyIsNew(t, n);
      OneMoreEntry(b, r, c, t, n, v);
    } else {
      OneMoreItem(b, r, c, t, n, v);
    }
  }

  lemma TakenOnTop(s: State, r: State, v: XValue)
    requires Ready(s) && s.nodes != [] && Taken(s, r, v)
    ensures Top(s) in r.w.box && r.w.box[Top(s)] == With(s, v) && SameFrom(s.w.box, r.w.box, Top(s) + 1)
  {
  }

  lemma ReadKey(s: State, t: Tree, n: nat, key: seq<Event>)
    requires Open(s) && s.nodes != [] && Idle(s.key)
    requires WellFormed(t) && !t.Leaf? && n < |t.subs| && Filled(s.w.box, Top(s), t, n)
    requires Delivered(KeyEvents(t, n), key)
    ensures Run(s, key) == (if t.MapTree? then s.(key := Name(t.keys[n])) else s, true)
    ensures Ready(Run(s, key).0)
  {
    hide Rebuilt, Good, Open;
    if t.MapTree? {
      assert key == [KeyEvent(t.keys[n])];
      RunOne(s, KeyEvent(t.keys[n]));
      NextKeyIsNew(t, n);
    }
  }

  lemma ChildTaken(s: State, r: State, t: Tree, n: nat, v: XValue)
    requires Ready(s) && s.nodes != [] && Taken(s, r, v) && Top(s) < s.next
    requires WellFormed(t) && !t.Leaf? && n < |t.subs| && Filled(s.w.box, Top(s), t, n)
    requires t.MapTree? ==> s.key == Name(t.keys[n])
    requires Rebuilt(r.w.box, v, t.subs[n], s.next)
    ensures Filled(r.w.box, Top(s), t, n + 1) && Within(s, r, Top(s))
  {
    TakenOnTop(s, r, v);
    OneMoreFilled(s.w.box, r.w.box, Top(s), t, n, v, s.next);
  }

  lemma WithinFurther(s: State, r: State, k: State, u: State, c: Id)
    requires Within(s, r, c) && k == r.(key := k.key) && Open(k) && Within(k, u, c)
    ensures Within(s, u, c)
  {
  }

  lemma {:induction false} ReadChildren(s: State, t: Tree, n: nat, es: seq<Event>)
    requires Open(s) && s.nodes != [] && Idle(s.key) && Top(s) < s.next
    requires WellFormed(t) && Plain(t) && !t.Leaf? && n <= |t.subs| && Filled(s.w.box, Top(s), t, 0)
    requires Delivered(ChildEvents(t, n), es)
    ensures Run(s, es).1 && Within(s, Run(s, es).0, Top(s)) && Filled(Run(s, es).0.w.box, Top(s), t, n)
    decreases t, 0, n
  {
    hide Handle, Good, Run, Within, Filled, Delivered, WellFormed, Plain, ChildEvents, EventsOf;
    if n == 0 {
      NothingRead(s, t, es);
    } else {
      var es0, key, es1 := ChildParts(t, n - 1, es);
      ReadChildren(s, t, n - 1, es0);
      var r := Run(s, es0).0;
      ReadChild(s, r, t, n - 1, key, es1);
      RunThree(s, es0, key, es1);
    }
  }

  lemma NothingRead(s: State, t: Tree, es: seq<Event>)
    requires Open(s) && s.nodes != [] && Idle(s.key) && Plain(t) && !t.Leaf? && Delivered(ChildEvents(t, 0), es)
    ensures Run(s, es) == (s, true) && Within(s, s, Top(s))
  {
    NoChild(t);
    assert es == [];
  }

  lemma {:induction false} ReadChild(s: State, r: State, t: Tree, n: nat, key: seq<Event>, es: seq<Event>)
    requires Open(s) && s.nodes != [] && Top(s) < s.next && Within(s, r, Top(s))
    requires WellFormed(t) && Plain(t) && !t.Leaf? && n < |t.subs| && Filled(r.w.box, Top(s), t, n)
    requires Delivered(KeyEvents(t, n), key) && Delivered(EventsOf(t.subs[n]), es)
    ensures Run(r, key).1 && Run(Run(r, key).0, es).1
    ensures Within(s, Run(Run(r, key).0, es).0, Top(s)) && Filled(Run(Run(r, key).0, es).0.w.box, Top(s), t, n + 1)
    decreases t, 0, n
  {
    hide Handle, Good;
    assert Top(r) == Top(s);
    ReadKey(r, t, n, key);
    var k := Run(r, key).0;
    assert Top(k) == Top(s);
    var v := ReadValue(k, t.subs[n], es);
    ChildTaken(k, Run(k, es).0, t, n, v);
    WithinFurther(s, r, k, Run(k, es).0, Top(s));
  }

  lemma RunThree(s: State, a: seq<Event>, b: seq<Event>, c: seq<Event>)
    requires Open(s) && Run(s, a).1 && Run(Run(s, a).0, b).1
    ensures Run(s, a + (b + c)) == Run(Run(Run(s, a).0, b).0, c)
  {
    RunParts(s, a, b + c);
    RunParts(Run(s, a).0, b, c);
  }

  lemma DeliveredThree(front: seq<Event>, key: seq<Event>, sub: seq<Event>, es: seq<Event>)
    returns (a: seq<Event>, b: seq<Event>, c: seq<Event>)
    requires Delivered(front + (key + sub), es)
    ensures es == a + (b + c) && Delivered(front, a) && Delivered(key, b) && Delivered(sub, c)
  {
    DeliveredParts(front, key + sub, es);
    a := es[..|front|];
    var rest := es[|front|..];
    DeliveredParts(key, sub, rest);
    b, c := rest[..|key|], rest[|key|..];
  }

  lemma ChildParts(t: Tree, n: nat, es: seq<Event>) returns (a: seq<Event>, b: seq<Event>, c: seq<Event>)
    requires Plain(t) && !t.Leaf? && n < |t.subs| && Delivered(ChildEvents(t, n + 1), es)
    ensures es == a + (b + c)
    ensures Delivered(ChildEvents(t, n), a) && Delivered(KeyEvents(t, n), b) && Delivered(EventsOf(t.subs[n]), c)
  {
    hide EventsOf, ChildEvents, Delivered;
    NextChild(t, n);
    a, b, c := DeliveredThree(ChildEvents(t, n), KeyEvents(t, n), EventsOf(t.subs[n]), es);
  }

  lemma {:induction false} ReadValue(s: State, t: Tree, es: seq<Event>) returns (v: XValue)
    requires Ready(s) && WellFormed(t) && Plain(t) && Delivered(EventsOf(t), es)
    ensures Run(s, es).1 && Taken(s, Run(s, es).0, v) && Rebuilt(Run(s, es).0.w.box, v, t, s.next)
    decreases t, 2
  {
    if t.Leaf? {
      v := ReadLeaf(s, t, es);
      PlainTaken(s, v);
    } else {
      v := Object(s.next);
      ReadNode(s, t, es);
    }
  }

  function Start(t: Tree): Event { if t.MapTree? then StartObject else StartArray }

  function Stop(t: Tree): Event { if t.MapTree? then EndObject else EndArray }

  lemma NodeEvents(t: Tree, es: seq<Event>) returns (inner: seq<Event>)
    requires Plain(t) && !t.Leaf? && Delivered(EventsOf(t), es)
    ensures es == [Start(t)] + (inner + [Stop(t)]) && Delivered(ChildEvents(t, |t.subs|), inner)
  {
    var children := ChildEvents(t, |t.subs|);
    DeliveredParts([Start(t)] + children, [Stop(t)], es);
    var front, back := es[..|children| + 1], es[|children| + 1..];
    DeliveredParts([Start(t)], children, front);
    inner := front[1..];
    assert front == [Start(t)] + inner && back == [Stop(t)];
    assert es == front + back;
  }

  lemma RunBetween(s: State, first: Event, inner: seq<Event>, last: Event)
    requires Open(s) && Handle(s, first).1 && Run(Handle(s, first).0, inner).1
    ensures Run(s, [first] + (inner + [last])) == Handle(Run(Handle(s, first).0, inner).0, last)
  {
    RunParts(s, [first], inner + [last]);
    RunOne(s, first);
    RunParts(Handle(s, first).0, inner, [last]);
    RunOne(Run(Handle(s, first).0, inner).0, last);
  }

  lemma ReadLeaf(s: State, t: Tree, es: seq<Event>) returns (v: XValue)
    requires Ready(s) && t.Leaf? && !t.v.IsObject() && Delivered([ValueEvent(t.v)], es)
    ensures !v.IsObject() && Carried(t.v, v)
    ensures Run(s, es) == ValuePut(s, v)
  {
    hide Good, ValuePut, NodePut;
    v := EventValue(es[0]);
    assert es == [es[0]];
    RunOne(s, es[0]);
    assert Handle(s, es[0]) == ValuePut(s, v);
  }

  lemma {:induction false} ReadNode(s: State, t: Tree, es: seq<Event>)
    requires Ready(s) && WellFormed(t) && Plain(t) && !t.Leaf? && Delivered(EventsOf(t), es)
    ensures Run(s, es).1 && Taken(s, Run(s, es).0, Object(s.next))
    ensures Rebuilt(Run(s, es).0.w.box, Object(s.next), t, s.next)
    decreases t, 1
  {
    hide Handle, NodePut, Good;
    var inner := NodeEvents(t, es);
    var r := NodePut(s, t.MapTree?).0;
    StartPuts(s, t);
    NodeBegun(s, t.MapTree?);
    EmptyIsFilled(r.w.box, s.next, t);
    ReadChildren(r, t, |t.subs|, inner);
    RunBetween(s, Start(t), inner, Stop(t));
    StopEnds(Run(r, inner).0, t);
    NodePopped(s, r, Run(r, inner).0, t.MapTree?);
    FilledIsRebuilt(Run(r, inner).0.w.box, s.next, t);
  }

  // The new node is on top, and empty.
  ghost predicate Begun(s: State, r: State, isMap: bool)
    requires Ready(s)
  {
    && Grows(s, r) && r.nodes == s.nodes + [s.next] && s.next < r.next
    && Holds(s, r, Object(s.next))
    && s.next in r.w.box && r.w.box[s.next] == EmptyBox(isMap)
  }

  lemma NodeBegun(s: State, isMap: bool)
    requires Ready(s)
    ensures Begun(s, NodePut(s, isMap).0, isMap)
  {
    NodeTaken(s, isMap);
  }

  lemma StartPuts(s: State, t: Tree)
    requires Open(s)
    ensures Handle(s, Start(t)) == NodePut(s, t.MapTree?) && Handle(s, Start(t)).1
  {
    if t.MapTree? {
      assert Start(t) == StartObject;
      assert Handle(s, StartObject) == NodePut(s, true);
    } else {
      assert Start(t) == StartArray;
      assert Handle(s, StartArray) == NodePut(s, false);
    }
  }

  lemma StopEnds(s: State, t: Tree)
    requires Open(s)
    ensures Handle(s, Stop(t)) == NodeEnded(s)
  {
  }

  lemma EmptyIsFilled(boxes: Heap, c: Id, t: Tree)
    requires !t.Leaf? && (t.MapTree? ==> |t.keys| == |t.subs|)
    requires c in boxes && boxes[c] == EmptyBox(t.MapTree?)
    ensures Filled(boxes, c, t, 0)
  {
  }

  lemma NodePopped(s: State, r: State, u: State, isMap: bool)
    requires Ready(s) && Begun(s, r, isMap) && Within(r, u, s.next)
    ensures NodeEnded(u).1 && Taken(s, NodeEnded(u).0, Object(s.next))
  {
    assert u.nodes[..|u.nodes| - 1] == s.nodes;
    assert forall n | n in s.w.box :: n != s.next && n in r.w.box;
  }

  lemma FilledIsRebuilt(boxes: Heap, c: Id, t: Tree)
    requires WellFormed(t) && !t.Leaf? && Filled(boxes, c, t, |t.subs|)
    ensures Rebuilt(boxes, Object(c), t, c)
  {
    forall j | 0 <= j < |t.subs|
      ensures Rebuilt(boxes, if t.MapTree? then boxes[c].m[t.keys[j]] else boxes[c].a[j], t.subs[j], c)
    {
      RebuiltStays(boxes, boxes, if t.MapTree? then boxes[c].m[t.keys[j]] else boxes[c].a[j], t.subs[j], c, c + 1);
    }
    if t.MapTree? { KeysRead(boxes, c, t); }
  }

  lemma KeysRead(boxes: Heap, c: Id, t: Tree)
    requires WellFormed(t) && t.MapTree? && Filled(boxes, c, t, |t.subs|)
    ensures t.keys == LiveKeys(boxes[c].m)
  {
    var m := boxes[c].m;
    assert t.keys[..|t.subs|] == t.keys;
    forall k ensures k in t.keys <==> k in LiveKeys(m) {
      FirstKeysAre(t.keys, |t.keys|, k);
      if k in t.keys {
        var j :| 0 <= j < |t.keys| && t.keys[j] == k;
        assert Rebuilt(boxes, m[t.keys[j]], t.subs[j], c + 1) && !m[k].IsEmpty();
      }
    }
    Order.SortedIsUnique(t.keys, LiveKeys(m));
  }

  // ----- the round trip -----

  // The same value, where an integer may have become one of the other integer type.
  predicate SameValue(x: XValue, v: XValue) {
    v == x || (x.IsInteger() && v.IsInteger() && Number(x) == Number(v))
  }

  // The value v has the content of the tree t.
  ghost predicate Shows(boxes: Heap, v: XValue, t: Tree)
    decreases t
  {
    match t
    case Leaf(x) => SameValue(x, v)
    case MapTree(_, keys, subs) =>
      && v.IsObject() && v.addr in boxes && boxes[v.addr].MapBox?
      && keys == LiveKeys(boxes[v.addr].m) && |subs| == |keys|
      && forall i | 0 <= i < |keys| :: keys[i] in boxes[v.addr].m && Shows(boxes, boxes[v.addr].m[keys[i]], subs[i])
    case ArrayTree(_, subs) =>
      && v.IsObject() && v.addr in boxes && boxes[v.addr].ArrayBox?
      && |subs| == |boxes[v.addr].a|
      && forall i | 0 <= i < |subs| :: Shows(boxes, boxes[v.addr].a[i], subs[i])
  }

  // What JSON can carry: no empty array slot, and no integer beyond the signed range.
  ghost predicate Faithful(t: Tree)
    decreases t
  {
    match t
    case Leaf(x) => !x.Empty? && (x.Uint64? ==> x.u <= INT64_MAX)
    case MapTree(_, _, subs) => forall i | 0 <= i < |subs| :: Faithful(subs[i])
    case ArrayTree(_, subs) => forall i | 0 <= i < |subs| :: Faithful(subs[i])
  }

  lemma {:induction false} RebuiltShowsIff(boxes: Heap, v: XValue, t: Tree, low: Id)
    requires Rebuilt(boxes, v, t, low)
    ensures Shows(boxes, v, t) <==> Faithful(t)
    decreases t
  {
    if !t.Leaf? {
      forall i | 0 <= i < |t.subs|
        ensures Shows(boxes, if t.MapTree? then boxes[v.addr].m[t.keys[i]] else boxes[v.addr].a[i], t.subs[i])
                <==> Faithful(t.subs[i])
      {
        RebuiltShowsIff(boxes, if t.MapTree? then boxes[v.addr].m[t.keys[i]] else boxes[v.addr].a[i], t.subs[i], low);
      }
    }
  }

  function Beginning(w: World, next: Id, rootName: string): State {
    State(w, Empty, NoKey, [], next, rootName)
  }

  // ----- the names of what is read -----

  // The nodes that p holds are named by their keys, or not at all if p is an array.
  ghost predicate NamedAt(w: World, p: Id)
    requires p in w.box
  {
    match w.box[p]
    case MapBox(m) => forall s | s in m && m[s].Object? :: m[s].addr in w.name && w.name[m[s].addr] == s
    case ArrayBox(a) => forall i | 0 <= i < |a| && a[i].Object? :: a[i].addr in w.name && w.name[a[i].addr] == ""
  }

  ghost predicate NamedFrom(w: World, low: Id) {
    forall p | p in w.box && low <= p :: NamedAt(w, p)
  }

  ghost predicate NamesKept(w: World, v: World) {
    forall n | n in w.name :: n in v.name && v.name[n] == w.name[n]
  }

  // Only the node c, which nobody holds yet, has got another name.
  lemma NamesOfOthers(w: World, v: World, c: Id, q: Id)
    requires Good(w) && q in w.box && q in v.box && v.box[q] == w.box[q] && NamedAt(w, q) && HoldsNot(w.box[q], c)
    requires forall n | n in w.name && n != c :: n in v.name && v.name[n] == w.name[n]
    ensures NamedAt(v, q)
  {
  }

  lemma RootInserted(w: World, p: Id, key: Key, c: Id)
    requires Good(w) && p in w.parent && c in w.parent && w.parent[c].None? && Insert(w, p, key, Object(c)).ok
    ensures var e, v := Emplace(w.box[p], key, Object(c)), Insert(w, p, key, Object(c)).w;
            && e.ok && v.box == w.box[p := e.box] && v.name == w.name[c := KeyName(e.key).GetOr(w.name[c])]
            && (w.box[p].MapBox? ==> e.key == key && key.Name?)
  {
    hide Acyclic, Owning, RefersTo, Below, Closed;
  }

  lemma InsertedNames(w: World, p: Id, key: Key, c: Id, low: Id)
    requires Good(w) && p in w.parent && c in w.parent && w.parent[c].None? && NamedFrom(w, low)
    requires w.name[c] == "" && forall q | q in w.box :: HoldsNot(w.box[q], c)
    ensures NamedFrom(Insert(w, p, key, Object(c)).w, low)
    ensures forall n | n in w.name && n != c ::
              n in Insert(w, p, key, Object(c)).w.name && Insert(w, p, key, Object(c)).w.name[n] == w.name[n]
  {
    hide Insert, Emplace, HoldsNot, NamedAt, Acyclic, Owning, RefersTo, Below;
    var r := Insert(w, p, key, Object(c));
    InsertFails(w, p, key, Object(c));
    if r.ok {
      RootInserted(w, p, key, c);
      forall q | q in r.w.box && low <= q ensures NamedAt(r.w, q) {
        if q == p { HolderNames(w, r.w, p, key, Object(c)); } else { NamesOfOthers(w, r.w, c, q); }
      }
    }
  }

  lemma InsertFails(w: World, p: Id, key: Key, v: XValue)
    requires Good(w) && p in w.parent && Storable(w, v)
    ensures !Insert(w, p, key, v).ok ==> Insert(w, p, key, v).w == w
  {
  }

  // The container that the value goes into.
  lemma HolderNames(w: World, v: World, p: Id, key: Key, x: XValue)
    requires p in w.box && p in v.box && NamedAt(w, p) && Emplace(w.box[p], key, x).ok
    requires v.box[p] == Emplace(w.box[p], key, x).box
    requires x.Object? ==> HoldsNot(w.box[p], x.addr)
    requires forall n | n in w.name && x != Object(n) :: n in v.name && v.name[n] == w.name[n]
    requires x.Object? ==> x.addr in v.name && v.name[x.addr] == KeyName(Emplace(w.box[p], key, x).key).GetOr("")
    ensures NamedAt(v, p)
  {
    if w.box[p].ArrayBox? {
      var a, i := w.box[p].a, Position(w.box[p].a, key).GetOr(|w.box[p].a|);
      var o := InsertAt(a, i, x);
      forall j | 0 <= j < |o| && o[j].Object? ensures o[j].addr in v.name && v.name[o[j].addr] == "" {
        assert o[j] == if j < i then a[j] else if j == i then x else a[j - 1];
      }
    }
  }

  lemma PlainInsertedNames(w: World, p: Id, key: Key, x: XValue, low: Id)
    requires Good(w) && p in w.parent && !x.IsObject() && NamedFrom(w, low)
    ensures NamedFrom(Insert(w, p, key, x).w, low) && Insert(w, p, key, x).w.name == w.name
  {
    hide Emplace, NamedAt, Acyclic, Owning, RefersTo, Below;
    var r := Insert(w, p, key, x);
    if r.ok {
      forall q | q in r.w.box && low <= q ensures NamedAt(r.w, q) {
        if q == p { HolderNames(w, r.w, p, key, x); } else { NamesAlike(w, r.w, q); }
      }
    }
  }

  lemma NamesAlike(w: World, v: World, q: Id)
    requires q in w.box && q in v.box && v.box[q] == w.box[q] && NamedAt(w, q)
    requires forall n | n in w.name :: n in v.name && v.name[n] == w.name[n]
    ensures NamedAt(v, q)
  {
  }

  lemma CreatedNames(s: State, isMap: bool, low: Id)
    requires Open(s) && NamedFrom(s.w, low)
    ensures var u := Created(s, isMap);
            && NamedFrom(u.w, low) && NamesKept(s.w, u.w)
            && s.next !in s.w.name && s.next in u.w.parent && u.w.parent[s.next].None?
            && u.w.name[s.next] == (if s.nodes == [] then s.rootName else "")
            && forall q | q in u.w.box :: HoldsNot(u.w.box[q], s.next)
  {
    var u := Created(s, isMap);
    forall q | q in u.w.box ensures HoldsNot(u.w.box[q], s.next) && (low <= q ==> NamedAt(u.w, q)) {
      if q != s.next {
        NobodyHolds(s.w, q, s.next);
        if low <= q { NamesAlike(s.w, u.w, q); }
      }
    }
  }

  lemma NobodyHolds(w: World, q: Id, c: Id)
    requires Good(w) && q in w.box && c !in w.parent
    ensures HoldsNot(w.box[q], c)
  {
    assert !RefersTo(w.box[q], c);
  }

  lemma NodePutNames(s: State, isMap: bool, low: Id)
    requires Open(s) && NamedFrom(s.w, low)
    ensures var r := NodePut(s, isMap).0;
            NamedFrom(r.w, low) && NamesKept(s.w, r.w)
    ensures s.nodes == [] ==>
              var r := NodePut(s, isMap).0; s.next in r.w.name && r.w.name[s.next] == s.rootName
  {
    hide Good, Insert, HoldsNot, NamedAt;
    var u := Created(s, isMap);
    CreatedNames(s, isMap, low);
    if s.nodes != [] { InsertedNames(u.w, s.nodes[|s.nodes| - 1], u.key, s.next, low); }
  }

  lemma HandleNames(s: State, e: Event, low: Id)
    requires Open(s) && NamedFrom(s.w, low)
    ensures NamedFrom(Handle(s, e).0.w, low) && NamesKept(s.w, Handle(s, e).0.w)
  {
    hide Good, Insert, NodePut, NamedFrom, Storable;
    NodePutNames(s, e.StartObject?, low);
    if s.nodes != [] { PlainInsertedNames(s.w, s.nodes[|s.nodes| - 1], s.key, EventValue(e), low); }
  }

  // Whatever events come, a node keeps its name, and every node that a new one holds is named by its key.
  lemma {:induction false} RunNames(s: State, es: seq<Event>, low: Id)
    requires Open(s) && NamedFrom(s.w, low)
    ensures NamedFrom(Run(s, es).0.w, low) && NamesKept(s.w, Run(s, es).0.w)
    decreases |es|
  {
    hide Handle, Open, NamedFrom;
    if es != [] {
      HandleNames(s, es[0], low);
      if Handle(s, es[0]).1 { RunNames(Handle(s, es[0]).0, es[1..], low); }
    }
  }

  // The root has the name that was asked for.
  lemma RootIsNamed(s: State, t: Tree, es: seq<Event>)
    requires Ready(s) && s.nodes == [] && Plain(t) && !t.Leaf? && Delivered(EventsOf(t), es)
    requires forall n | n in s.w.box :: n < s.next
    ensures var r := Run(s, es).0;
            NamedFrom(r.w, s.next) && NamesKept(s.w, r.w) && s.next in r.w.name && r.w.name[s.next] == s.rootName
  {
    hide Handle, NodePut, Good, NamedAt;
    var inner := NodeEvents(t, es);
    assert es[0] == Start(t);
    StartPuts(s, t);
    NodePutNames(s, t.MapTree?, s.next);
    RunNames(s, es, s.next);
    RunNames(Handle(s, es[0]).0, es[1..], s.next);
  }

  // Reading the events rebuilds the tree out of new nodes and leaves no node open and no old node changed. The root
  // has the name that was asked for, and every other new node the key under which it is held, if it is one of a map.
  ghost predicate Reread(s: State, es: seq<Event>, t: Tree)
    requires Open(s)
  {
    var (r, ok) := Run(s, es);
    && ok && r.nodes == [] && r.root.Object?
    && Rebuilt(r.w.box, r.root, t, s.next)
    && (Shows(r.w.box, r.root, t) <==> Faithful(t))
    && r.root.addr in r.w.name && r.w.name[r.root.addr] == s.rootName
    && NamedFrom(r.w, s.next) && NamesKept(s.w, r.w)
    && forall n | n in s.w.box :: n in r.w.box && r.w.box[n] == s.w.box[n]
  }

  /** Writing a node and reading the events back rebuilds its tree out of new nodes, at any depth, and
      ends with an empty stack; the content is the same exactly when no array slot is empty and no
      unsigned integer exceeds the signed range. */
  lemma JsonRoundTrip(boxes: Heap, n: Id, t: Tree, w: World, next: Id, rootName: string)
    requires Represents(boxes, Object(n), t) && Keyed(boxes)
    requires Good(w) && forall n | n in w.parent :: n < next
    ensures Plain(t)
    ensures forall es | Delivered(EventsOf(t), es) :: Reread(Beginning(w, next, rootName), es, t)
  {
    RepresentsPlain(boxes, Object(n), t);
    RepresentsWellFormed(boxes, Object(n), t);
    var s := Beginning(w, next, rootName);
    forall es | Delivered(EventsOf(t), es) ensures Reread(s, es, t) {
      ReadNode(s, t, es);
      RebuiltShowsIff(Run(s, es).0.w.box, Object(next), t, next);
      RootIsNamed(s, t, es);
    }
  }

  // A node without parent can be inserted anywhere.
  lemma RootInsertAgrees(w: World, p: Id, key: Key, c: Id)
    requires Agree(w) && p in w.parent && c in w.parent && w.parent[c].None?
    ensures Agree(Insert(w, p, key, Object(c)).w)
  {
    InsertAgreesIff(w, p, key, Object(c));
  }

  lemma NodePutAgrees(s: State, isMap: bool)
    requires Open(s) && Agree(s.w)
    ensures Agree(NodePut(s, isMap).0.w)
  {
    hide Agree, Good, Insert;
    CreateAgrees(s.w, s.next, isMap, if s.nodes == [] then s.rootName else "");
    if s.nodes != [] { RootInsertAgrees(Created(s, isMap).w, Top(s), s.key, s.next); }
  }

  lemma ValuePutAgrees(s: State, v: XValue)
    requires Open(s) && Agree(s.w) && !v.IsObject()
    ensures Agree(ValuePut(s, v).0.w)
  {
    hide Agree, Good, Insert;
    if s.nodes != [] { InsertAgreesIff(s.w, Top(s), s.key, v); }
  }

  lemma PlainInsertIff(w: World, p: Id, key: Key, v: XValue)
    requires Good(w) && p in w.parent && !v.IsObject()
    ensures Insert(w, p, key, v).ok <==> w.box[p].ArrayBox? || (key.Name? && key.s != "" && key.s !in w.box[p].m)
  {
  }

  /** An event is refused exactly when it ends a node and none is begun, or brings a value that is no node into a map
      without a key, or under a key that is there already. A key is good for one value or node. */
  lemma RefusedIff(s: State, e: Event)
    requires Open(s)
    ensures !Handle(s, e).1 <==>
              match e
              case KeyEvent(_) => false
              case StartObject => false
              case StartArray => false
              case EndObject => s.nodes == []
              case EndArray => s.nodes == []
              case _ =>
                && s.nodes != [] && s.w.box[Top(s)].MapBox?
                && (!s.key.Name? || s.key.s == "" || s.key.s in s.w.box[Top(s)].m)
    ensures s.nodes != [] ==>
              Handle(s, e).0.key ==
              match e
              case KeyEvent(k) => Name(k)
              case EndObject => s.key
              case EndArray => s.key
              case _ => End
  {
    hide SetAsChild, Acyclic, Closed, Insert;
    if s.nodes != [] { PlainInsertIff(s.w, Top(s), s.key, EventValue(e)); }
  }

  lemma HandleAgrees(s: State, e: Event)
    requires Open(s) && Agree(s.w)
    ensures Agree(Handle(s, e).0.w)
  {
    hide Agree, Open, NodePut, ValuePut;
    NodePutAgrees(s, e.StartObject?);
    ValuePutAgrees(s, EventValue(e));
  }

  /** Whatever events come, well-formed or not, the tree that is built agrees. */
  lemma {:induction false} RunAgrees(s: State, es: seq<Event>)
    requires Open(s) && Agree(s.w)
    ensures Agree(Run(s, es).0.w)
    decreases |es|
  {
    if es != [] {
      HandleAgrees(s, es[0]);
      if Handle(s, es[0]).1 { RunAgrees(Handle(s, es[0]).0, es[1..]); }
    }
  }
}
