/** The containers of the nodes, seen by the tree operations: a map keeps every key ever set (an
    erased one holds an empty value), an array is a deque. Time stamps are left to `TimedMaps`. */
module Boxes {
  import opened Wrappers
  import opened XValues
  import Order

  type Id = nat

  // A container key after `ContainerKey_` has resolved it. `Last` and `End` are the special
  // indices kIdxLast and kIdxEnd.
  datatype Key = NoKey | Name(s: string) | At(i: nat) | Last | End

  datatype Box = MapBox(m: map<string, XValue>) | ArrayBox(a: seq<XValue>)

  // How the caller's function of a mutating iteration goes on (`OnEachRes`).
  datatype EachRes = Next | EraseIt | EraseStop | Stop

  // How far behind the end an array may be set.
  const MAX_SIZE_INCREASE := 1000

  datatype PutRes = PutRes(box: Box, ok: bool, prev: XValue)
  datatype EmplaceRes = EmplaceRes(box: Box, ok: bool, key: Key)
  datatype EraseRes = EraseRes(box: Box, erased: Option<XValue>)

  // ----- arrays -----

  // `DeqFind_`: the position a key denotes, None for the end.
  function Position(a: seq<XValue>, k: Key): (r: Option<nat>)
    ensures r.Some? ==> r.value < |a|
  {
    match k
    case At(i) => if i < |a| then Some(i) else None
    case Last => if |a| > 0 then Some(|a| - 1) else None
    case _ => None
  }

  // `DeqFind_` with growth: an index less than 1000 behind the end is reached by empty slots.
  function Grown(a: seq<XValue>, k: Key): (r: seq<XValue>)
    ensures a <= r
    ensures forall i | |a| <= i < |r| :: r[i] == Empty
  {
    match k
    case At(i) => if |a| <= i < |a| + MAX_SIZE_INCREASE then a + seq(i + 1 - |a|, _ => Empty) else a
    case Last => if a == [] then [Empty] else a
    case _ => a
  }

  // The first position, other than the one to keep, whose value equals the node c.
  function FindNode(a: seq<XValue>, c: Id, keep: Key, from: nat := 0): (r: Option<nat>)
    requires from <= |a|
    ensures r.Some? ==> from <= r.value < |a| && Eq(a[r.value], Object(c)) && keep != At(r.value)
    ensures r.Some? ==> forall i | from <= i < r.value :: keep == At(i) || !Eq(a[i], Object(c))
    ensures r.None? ==> forall i | from <= i < |a| :: keep == At(i) || !Eq(a[i], Object(c))
    decreases |a| - from
  {
    if from == |a| then None
    else if keep != At(from) && Eq(a[from], Object(c)) then Some(from)
    else FindNode(a, c, keep, from + 1)
  }

  function RemoveAt<T>(a: seq<T>, i: nat): seq<T>
    requires i < |a|
  {
    a[..i] + a[i + 1..]
  }

  function InsertAt<T>(a: seq<T>, i: nat, v: T): seq<T>
    requires i <= |a|
  {
    a[..i] + [v] + a[i..]
  }

  // ----- maps -----

  // What the map layer compares a new value with; a missing key reads as empty.
  function Current(m: map<string, XValue>, s: string): XValue {
    if s in m then m[s] else Empty
  }

  function KeysHolding(m: map<string, XValue>, c: Id): set<string> {
    set s | s in m && Eq(m[s], Object(c))
  }

  // The keys that iteration shows, in its order.
  function LiveKeys(m: map<string, XValue>): seq<string> {
    Order.SortedKeys(set s | s in m && !m[s].IsEmpty())
  }

  // `ContainerKey_` with index access: in a map an index counts the live keys.
  function Resolve(b: Box, k: Key): Key {
    if b.ArrayBox? then k
    else match k
      case At(i) => if i < |LiveKeys(b.m)| then Name(LiveKeys(b.m)[i]) else NoKey
      case Last => if |LiveKeys(b.m)| > 0 then Name(LiveKeys(b.m)[|LiveKeys(b.m)| - 1]) else NoKey
      case End => NoKey
      case _ => k
  }

  // ----- the container interface -----

  function Get(b: Box, k: Key): Option<XValue> {
    match b
    case MapBox(m) => if k.Name? && k.s != "" && k.s in m then Some(m[k.s]) else None
    case ArrayBox(a) => var p := Position(a, k); if p.Some? then Some(a[p.value]) else None
  }

  // `IContainer::Set`
  function Put(b: Box, k: Key, v: XValue): PutRes {
    match b
    case MapBox(m) =>
      if !k.Name? || k.s == "" then PutRes(b, false, Empty)
      else if Eq(Current(m, k.s), v) then PutRes(b, false, Current(m, k.s))
      else PutRes(MapBox(m[k.s := v]), true, Current(m, k.s))
    case ArrayBox(a) =>
      var g := Grown(a, k);
      var p := Position(g, k);
      if p.None? then PutRes(b, false, Empty)
      else if Eq(g[p.value], v) then PutRes(ArrayBox(g), false, g[p.value])
      else PutRes(ArrayBox(g[p.value := v]), true, g[p.value])
  }

  function Emplace(b: Box, k: Key, v: XValue): EmplaceRes {
    match b
    case MapBox(m) =>
      if !k.Name? || k.s == "" || k.s in m then EmplaceRes(b, false, k)
      else EmplaceRes(MapBox(m[k.s := v]), true, k)
    case ArrayBox(a) =>
      var p := Position(a, k).GetOr(|a|);
      EmplaceRes(ArrayBox(InsertAt(a, p, v)), true, At(p))
  }

  // A map erases by setting an empty value, which fails where nothing is stored or the entry
  // already is an empty one.
  function Erase(b: Box, k: Key): EraseRes {
    match b
    case MapBox(m) =>
      var r := Put(b, k, Empty);
      EraseRes(r.box, if r.ok then Some(r.prev) else None)
    case ArrayBox(a) =>
      var p := Position(a, k);
      if p.None? then EraseRes(b, None) else EraseRes(ArrayBox(RemoveAt(a, p.value)), Some(a[p.value]))
  }

  function EmptyBox(isMap: bool): Box {
    if isMap then MapBox(map[]) else ArrayBox([])
  }

  function Cleared(b: Box): Box {
    EmptyBox(b.MapBox?)
  }

  // The search of `PrivateErase`: the first entry, in iteration order, that equals the node.
  function RemoveFirst(b: Box, c: Id): Box {
    match b
    case MapBox(m) =>
      var ks := KeysHolding(m, c);
      if ks == {} then b else MapBox(m[Order.First(ks) := Empty])
    case ArrayBox(a) =>
      var p := FindNode(a, c, NoKey);
      if p.None? then b else ArrayBox(RemoveAt(a, p.value))
  }

  // `RemoveDuplicates`: arrays drop the first other slot with the same node, maps do nothing.
  function RemoveDuplicate(b: Box, c: Id, keep: Key): Box {
    match b
    case MapBox(m) => b
    case ArrayBox(a) =>
      var p := FindNode(a, c, keep);
      if p.None? then b else ArrayBox(RemoveAt(a, p.value))
  }

  // `FindDuplicates`: only arrays look.
  predicate HasDuplicate(b: Box, c: Id) {
    b.ArrayBox? && FindNode(b.a, c, NoKey).Some?
  }

  // ----- how a container holds a node -----

  // No entry is the node.
  ghost predicate HoldsNot(b: Box, c: Id) {
    match b
    case MapBox(m) => forall s | s in m :: m[s] != Object(c)
    case ArrayBox(a) => forall i | 0 <= i < |a| :: a[i] != Object(c)
  }

  ghost predicate OnlyAt(a: seq<XValue>, c: Id, i: nat) {
    i < |a| && a[i] == Object(c) && forall j | 0 <= j < |a| && j != i :: a[j] != Object(c)
  }

  // Exactly one entry is the node; in a map it stands under the given name.
  ghost predicate HoldsOnce(b: Box, c: Id, name: string) {
    match b
    case MapBox(m) => name in m && m[name] == Object(c) && forall s | s in m && s != name :: m[s] != Object(c)
    case ArrayBox(a) => exists i: nat :: OnlyAt(a, c, i)
  }

  // The values are plain values and owning links: no const link, and no entry under the empty key.
  ghost predicate Owning(b: Box) {
    match b
    case MapBox(m) => "" !in m && forall s | s in m :: !m[s].ConstObject?
    case ArrayBox(a) => forall i | 0 <= i < |a| :: !a[i].ConstObject?
  }

  // The nodes the container refers to.
  ghost predicate RefersTo(b: Box, c: Id) {
    match b
    case MapBox(m) => exists s :: s in m && m[s] == Object(c)
    case ArrayBox(a) => exists i :: 0 <= i < |a| && a[i] == Object(c)
  }
}
