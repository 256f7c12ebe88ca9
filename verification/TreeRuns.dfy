/** Whole runs of public calls over all nodes. */
module TreeRuns {
  import opened Wrappers
  import opened XValues
  import opened Boxes
  import opened Worlds
  import opened Agreement
  import opened TreeOps
  import opened Forest
  import opened TreeAgreement
  import opened Releases
  import opened Adoptions
  import opened KeyChanges
  import opened Exchanges
  import opened Amends
  import opened BulkInserts
  import opened ArrayInserts
  import opened Writings
  import opened WriteAgreement

  datatype Call =
    | CreateCall(id: Id, isMap: bool, name: string)
    | SetCall(p: Id, key: Key, v: XValue)
    | InsertCall(p: Id, key: Key, v: XValue)
    | CompareExchangeCall(p: Id, key: Key, expected: XValue, v: XValue)
    | EraseCall(p: Id, key: Key)
    | ParentSetCall(c: Id, newParent: Option<Id>, rename: Option<string>)
    | KeyChangeCall(p: Id, from: Key, to: Key)
    | ClearCall(p: Id)
    | BulkInsertCall(p: Id, kvs: seq<(Key, XValue)>)
    | BulkInsertAtCall(p: Id, key: Key, vs: seq<XValue>)
    | BulkEraseCall(p: Id, keys: seq<Key>)
    | BulkSetCall(p: Id, kvs: seq<(Key, XValue)>)
    | ForEachCall(p: Id, f: OnEach, begin: Key)
    | AmendCall(p: Id, key: Key, change: XValue -> XValue, v: XValue)
    | NameSetCall(c: Id, name: string, updateParent: bool)

  // A call that can be made at all: the nodes it names exist (a created one does not yet), the values
  // are no const links, and `BulkSet` does not read past the end of its pairs.
  ghost predicate Possible(w: World, call: Call) {
    match call
    case CreateCall(id, _, _) => id !in w.parent
    case SetCall(p, _, v) => p in w.parent && Storable(w, v)
    case InsertCall(p, _, v) => p in w.parent && Storable(w, v)
    case CompareExchangeCall(p, _, _, v) => p in w.parent && Storable(w, v)
    case EraseCall(p, _) => p in w.parent
    case ParentSetCall(c, p, _) => c in w.parent && (p.Some? ==> p.value in w.parent)
    case KeyChangeCall(p, _, _) => p in w.parent
    case ClearCall(p) => p in w.parent
    case BulkInsertCall(p, kvs) => p in w.parent && AllStorable(w, kvs)
    case BulkInsertAtCall(p, _, vs) => p in w.parent && forall v | v in vs :: Storable(w, v)
    case BulkEraseCall(p, _) => p in w.parent
    case BulkSetCall(p, kvs) => p in w.parent && p in w.box && AllStorable(w, kvs) && StaysWithin(w, p, kvs)
    case ForEachCall(p, f, _) => p in w.parent && GivesStorable(w, f)
    case AmendCall(p, _, change, v) => p in w.parent && GivesPlain(change) && Storable(w, v)
    case NameSetCall(c, _, _) => c in w.parent
  }

  ghost function Step(w: World, call: Call): World
    requires Valid(w) && Possible(w, call)
  {
    hide Valid, StaysWithin;
    match call
    case CreateCall(id, isMap, name) => Create(w, id, isMap, name)
    case SetCall(p, key, v) => Set(w, p, key, v).w
    case InsertCall(p, key, v) => Insert(w, p, key, v).w
    case CompareExchangeCall(p, key, expected, v) => CompareExchange(w, p, key, expected, v).w
    case EraseCall(p, key) => EraseKey(w, p, key).w
    case ParentSetCall(c, p, rename) => ParentSet(w, c, p, rename).w
    case KeyChangeCall(p, from, to) => KeyChange(w, p, from, to).w
    case ClearCall(p) => Clear(w, p)
    case BulkInsertCall(p, kvs) => BulkInsert(w, p, kvs)
    case BulkInsertAtCall(p, key, vs) => BulkInsertAt(w, p, key, vs)
    case BulkEraseCall(p, keys) => BulkErase(w, p, keys)
    case BulkSetCall(p, kvs) => BulkSet(w, p, kvs)
    case ForEachCall(p, f, begin) => ForEach(w, p, f, begin)
    case AmendCall(p, key, change, v) => Amend(w, p, key, change, v)
    case NameSetCall(c, name, updateParent) => NameSet(w, c, name, updateParent).w
  }

  // What keeps the agreement when the call succeeds. Creating, erasing, clearing and the bulk insertions ask
  // nothing of the caller.
  ghost predicate Safe(w: World, call: Call)
    requires Valid(w) && Possible(w, call)
  {
    hide Owning, RefersTo, Closed, StaysWithin;
    match call
    case SetCall(p, key, v) => SetSafe(w, p, key, v)
    case InsertCall(p, key, v) => InsertSafe(w, p, key, v)
    case CompareExchangeCall(p, key, _, v) => CompareExchangeSafe(w, p, key, v)
    case ParentSetCall(c, p, rename) => ParentSetSafe(w, c, p, rename)
    case KeyChangeCall(p, from, to) => KeyChangeSafe(w, p, from, to)
    case BulkSetCall(p, kvs) => BulkSetSafe(w, p, kvs)
    case ForEachCall(p, f, begin) => ForEachSafe(w, p, f, begin)
    case AmendCall(p, key, _, v) => AmendSafe(w, p, key, v)
    case NameSetCall(c, name, updateParent) => NameSetSafe(w, c, name, updateParent)
    case _ => true
  }

  ghost predicate Succeeds(w: World, call: Call)
    requires Valid(w) && Possible(w, call)
  {
    match call
    case SetCall(p, key, v) => Set(w, p, key, v).ok
    case InsertCall(p, key, v) => Insert(w, p, key, v).ok
    case CompareExchangeCall(p, key, expected, v) => CompareExchange(w, p, key, expected, v).ok
    case ParentSetCall(c, p, rename) => ParentSet(w, c, p, rename).ok
    case KeyChangeCall(p, from, to) => KeyChange(w, p, from, to).ok
    case NameSetCall(c, name, updateParent) => NameSet(w, c, name, updateParent).ok
    case _ => true
  }

  // Everything agrees, and new nodes get addresses that no node has.
  ghost predicate Ready(w: World, next: Id) {
    Good(w) && Agree(w) && forall n | n in w.parent :: n < next
  }

  const NO_NODES := World(map[], map[], map[])

  // The calls lead from one state to the other. With `onlySafe`, each of them is safe in the state
  // that it meets, or fails.
  ghost predicate Runs(from: World, calls: seq<Call>, to: World, onlySafe: bool)
    decreases |calls|
  {
    if calls == [] then from == to
    else
      && Valid(from) && Possible(from, calls[0])
      && (onlySafe && Succeeds(from, calls[0]) ==> Safe(from, calls[0]))
      && Runs(Step(from, calls[0]), calls[1..], to, onlySafe)
  }

  lemma StepKeepsForest(w: World, call: Call)
    requires Good(w) && Possible(w, call)
    ensures Good(Step(w, call))
  {
    hide Set, Insert, CompareExchange, EraseKey, ParentSet, KeyChange, Clear, BulkErase, BulkInsert, BulkInsertAt;
    hide Good, NameSet;
    match call
    case CreateCall(id, isMap, name) => CreateGood(w, id, isMap, name);
    case SetCall(p, key, v) => SetGood(w, p, key, v);
    case InsertCall(p, key, v) => InsertGood(w, p, key, v);
    case CompareExchangeCall(p, key, expected, v) => CompareExchangeGood(w, p, key, expected, v);
    case EraseCall(p, key) => EraseKeyGood(w, p, key);
    case ParentSetCall(c, p, rename) => ParentSetGood(w, c, p, rename);
    case KeyChangeCall(p, from, to) => KeyChangeGood(w, p, from, to);
    case ClearCall(p) => ClearGood(w, p);
    case BulkInsertCall(p, kvs) => BulkInsertGood(w, p, kvs);
    case BulkInsertAtCall(p, key, vs) => BulkInsertAtGood(w, p, key, vs);
    case BulkEraseCall(p, keys) => BulkEraseGood(w, p, keys);
    case BulkSetCall(p, kvs) => BulkSetGood(w, p, kvs);
    case ForEachCall(p, f, begin) => ForEachGood(w, p, f, begin);
    case AmendCall(p, key, change, v) => AmendGood(w, p, key, change, v);
    case NameSetCall(c, name, updateParent) => NameSetGood(w, c, name, updateParent);
  }

  /** In every state that any calls lead to, safe or not, successful or not, the parent pointers
      form a forest. */
  lemma {:induction false} EveryRunKeepsForest(from: World, calls: seq<Call>, to: World)
    requires Good(from) && Runs(from, calls, to, false)
    ensures Good(to)
    decreases |calls|
  {
    if calls != [] {
      StepKeepsForest(from, calls[0]);
      EveryRunKeepsForest(Step(from, calls[0]), calls[1..], to);
    }
  }

  lemma CreateAgrees(w: World, id: Id, isMap: bool, name: string)
    requires Agree(w) && id !in w.parent
    ensures Agree(Create(w, id, isMap, name))
  {
    var v := Create(w, id, isMap, name);
    CreateValid(w, id, isMap, name);
    forall x, y | x in v.parent && y in v.parent ensures Fits(v, x, y) {
      if x != id && y != id {
        assert Fits(w, x, y);
      } else if x != id {
        assert !RefersTo(w.box[x], id);
      }
    }
  }

  /** One call keeps the agreement exactly when it fails or is safe. */
  lemma StepAgreesIff(w: World, call: Call)
    requires Agree(w) && Possible(w, call)
    ensures Agree(Step(w, call)) <==> (Succeeds(w, call) ==> Safe(w, call))
  {
    hide Set, Insert, CompareExchange, EraseKey, ParentSet, KeyChange, Clear, BulkErase, BulkInsert, BulkInsertAt;
    hide NameSet, Owning, RefersTo, Closed, StaysWithin, Fits, Below, NameFree;
    match call
    case CreateCall(id, isMap, name) => CreateAgrees(w, id, isMap, name);
    case SetCall(p, key, v) => SetAgreesIff(w, p, key, v);
    case InsertCall(p, key, v) => InsertAgreesIff(w, p, key, v);
    case CompareExchangeCall(p, key, expected, v) => CompareExchangeAgreesIff(w, p, key, expected, v);
    case EraseCall(p, key) => EraseKeyAgrees(w, p, key);
    case ParentSetCall(c, p, rename) => ParentSetAgreesIff(w, c, p, rename);
    case KeyChangeCall(p, from, to) => KeyChangeAgreesIff(w, p, from, to);
    case ClearCall(p) => ClearAgrees(w, p);
    case BulkInsertCall(p, kvs) => BulkInsertAgrees(w, p, kvs);
    case BulkInsertAtCall(p, key, vs) => BulkInsertAtAgrees(w, p, key, vs);
    case BulkEraseCall(p, keys) => BulkEraseAgrees(w, p, keys);
    case BulkSetCall(p, kvs) => BulkSetAgreesIff(w, p, kvs);
    case ForEachCall(p, f, begin) => ForEachAgreesIff(w, p, f, begin);
    case AmendCall(p, key, change, v) => AmendAgreesIff(w, p, key, change, v);
    case NameSetCall(c, name, updateParent) => NameSetAgreesIff(w, c, name, updateParent);
  }

  lemma NoNodesAgree()
    ensures Agree(NO_NODES) && Good(NO_NODES)
  {
    assert Ranked(NO_NODES.parent, map[]);
  }

  /** Over every run of calls that are safe or fail, from no nodes at all, parents, names and containers agree and
      the parent pointers form a forest. */
  lemma EverySafeRunAgrees(calls: seq<Call>, to: World)
    requires Runs(NO_NODES, calls, to, true)
    ensures Agree(to) && Acyclic(to.parent)
  {
    NoNodesAgree();
    SafeRunAgrees(NO_NODES, calls, to);
  }

  lemma {:induction false} SafeRunAgrees(from: World, calls: seq<Call>, to: World)
    requires Agree(from) && Good(from) && Runs(from, calls, to, true)
    ensures Agree(to) && Good(to)
    decreases |calls|
  {
    if calls != [] {
      StepAgreesIff(from, calls[0]);
      StepKeepsForest(from, calls[0]);
      SafeRunAgrees(Step(from, calls[0]), calls[1..], to);
    }
  }
}
