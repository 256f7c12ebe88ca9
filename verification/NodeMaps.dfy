/** One map node: its container, its listeners and the clock that stamps new values. Positional
    access, what listeners can rebuild, and what the time stamps tell about changes. */
module NodeMaps {
  import opened Wrappers
  import opened XValues
  import opened Callbacks
  import opened TimedMaps
  import opened Boxes
  import Clock
  import Order

  // `clock` is the last time given out. Other threads may move the clock on in between: a reading
  // is any number, and a stamp is what an undisturbed call of the unique clock makes of it.
  datatype Node = Node(t: Tomb, ls: Listeners, clock: int)

  function Stamp(n: Node, reading: int): (now: int)
    ensures now > n.clock
  {
    Clock.Max(reading, n.clock + 1)
  }

  ghost predicate Valid(n: Node) {
    && Consistent(n.t)
    && 0 !in n.ls
    && Clock.ABSENT <= n.clock
    && forall k | k in n.t.m :: Clock.ABSENT < n.t.m[k].time <= n.clock
  }

  // ----- positions -----

  // `ContainerKey_`; "" is a key the container does not have.
  function ContainerKey(t: Tomb, key: Key, useIndex: bool): string {
    var size := |t.m| - t.erased;
    match key
    case Name(s) => s
    case At(i) => if useIndex && i < size && i < |TimedMaps.LiveKeys(t.m)| then TimedMaps.LiveKeys(t.m)[i] else ""
    case Last => if useIndex && 0 < size <= |TimedMaps.LiveKeys(t.m)| then TimedMaps.LiveKeys(t.m)[size - 1] else ""
    case _ => ""
  }

  // `BulkGetAll` without a filter
  ghost function BulkGetAll(t: Tomb): seq<(string, Timed)> {
    var ks := TimedMaps.LiveKeys(t.m);
    assert forall i | 0 <= i < |ks| :: ks[i] in ks;
    seq(|ks|, i requires 0 <= i < |ks| => (ks[i], t.m[ks[i]]))
  }

  ghost function AtKey(t: Tomb, key: Key): Timed {
    var k := ContainerKey(t, key, true);
    if k == "" then NOTHING else TimedMaps.Current(t.m, k)
  }

  lemma KeyOfPosition(t: Tomb, key: Key)
    requires Consistent(t)
    ensures var ks := TimedMaps.LiveKeys(t.m);
            match key
            case At(i) => ContainerKey(t, key, true) == if i < |ks| then ks[i] else ""
            case Last => ContainerKey(t, key, true) == if |ks| > 0 then ks[|ks| - 1] else ""
            case Name(s) => ContainerKey(t, key, true) == s
            case _ => ContainerKey(t, key, true) == ""
  {
    SizeCountsLive(t);
  }

  /** Over any mix of live and erased entries, position i is the i-th pair of `BulkGetAll`, kIdxLast
      is the last one, and a position out of range is empty. */
  lemma PositionalAccess(t: Tomb, key: Key)
    requires Consistent(t) && (key.At? || key.Last?)
    ensures var all := BulkGetAll(t);
            var i := if key.At? then key.i else |all| - 1;
            if 0 <= i < |all| then ContainerKey(t, key, true) == all[i].0 && AtKey(t, key) == all[i].1
            else ContainerKey(t, key, true) == "" && AtKey(t, key) == NOTHING
  {
    KeyOfPosition(t, key);
    var ks := TimedMaps.LiveKeys(t.m);
    forall i | 0 <= i < |ks| ensures ks[i] != "" { assert ks[i] in ks; }
  }

  /** The tree operations resolve a key of a map just so: to the name, or to the key of the position. */
  lemma ResolvesAlike(t: Tomb, key: Key)
    requires Consistent(t) && Stamped(t.m)
    ensures var k := ContainerKey(t, key, true);
            Resolve(MapBox(Untimed(t.m)), key) == if k != "" || key.Name? then Name(k) else NoKey
  {
    hide ContainerKey, TimedMaps.LiveKeys, Boxes.LiveKeys, Stamped, Untimed, ErasedKeys;
    KeyOfPosition(t, key);
    LiveKeysForgetTime(t.m);
    var ks := TimedMaps.LiveKeys(t.m);
    forall i | 0 <= i < |ks| ensures ks[i] != "" { assert ks[i] in ks; }
  }

  // `BulkErase`: all keys are resolved first, then erased one by one, without callbacks.
  ghost function EraseEach(t: Tomb, ks: seq<string>, now: nat -> int): Tomb
    decreases |ks|
  {
    if ks == [] then t else EraseEach(TimedMaps.Erase(t, map[], ks[0], now(|ks|)).t, ks[1..], now)
  }

  function ResolveAll(t: Tomb, keys: seq<Key>): (r: seq<string>)
    ensures |r| == |keys| && forall i | 0 <= i < |keys| :: r[i] == ContainerKey(t, keys[i], true)
  {
    seq(|keys|, i requires 0 <= i < |keys| => ContainerKey(t, keys[i], true))
  }

  ghost function BulkErase(t: Tomb, keys: seq<Key>, now: nat -> int): Tomb {
    EraseEach(t, ResolveAll(t, keys), now)
  }

  lemma {:induction false} EraseEachOnLive(t: Tomb, ks: seq<string>, now: nat -> int)
    requires Consistent(t) && Stamped(t.m) && forall i :: now(i) != Clock.ABSENT
    ensures Consistent(EraseEach(t, ks, now))
    ensures Live(EraseEach(t, ks, now).m) == Live(t.m) - (set k | k in ks)
    decreases |ks|
  {
    if ks != [] {
      var r := TimedMaps.Erase(t, map[], ks[0], now(|ks|));
      SetConsistent(t, map[], ks[0], Timed(Empty, now(|ks|)), false);
      EraseOnLive(t, map[], ks[0], now(|ks|));
      assert Live(r.t.m) == Live(t.m) - {ks[0]};
      EraseEachOnLive(r.t, ks[1..], now);
      assert (set k | k in ks) == {ks[0]} + set k | k in ks[1..];
    }
  }

  // The keys that stand at the given positions (or are given by name).
  ghost function KeysAt(t: Tomb, keys: seq<Key>): set<string> {
    set i | 0 <= i < |keys| :: ContainerKey(t, keys[i], true)
  }

  /** `BulkErase` of a list of positions removes exactly the entries that had those positions before
      the call: the erasures do not shift one another. */
  lemma BulkEraseByPosition(t: Tomb, keys: seq<Key>, now: nat -> int)
    requires Consistent(t) && Stamped(t.m) && forall i :: now(i) != Clock.ABSENT
    ensures Live(BulkErase(t, keys, now).m) == Live(t.m) - KeysAt(t, keys)
    ensures Consistent(BulkErase(t, keys, now))
  {
    EraseEachOnLive(t, ResolveAll(t, keys), now);
    assert (set k | k in ResolveAll(t, keys)) == KeysAt(t, keys);
  }

  // ----- the operations -----

  datatype Res = Res(n: Node, ok: bool)

  ghost function Set(n: Node, key: Key, v: XValue, reading: int): Res {
    var now := Stamp(n, reading);
    var r := TimedMaps.Set(n.t, n.ls, ContainerKey(n.t, key, true), Timed(v, now), false);
    Res(Node(r.t, r.ls, now), r.ok)
  }

  ghost function Insert(n: Node, key: Key, v: XValue, reading: int): Res {
    var now := Stamp(n, reading);
    var r := TimedMaps.Emplace(n.t, n.ls, ContainerKey(n.t, key, false), Timed(v, now));
    Res(Node(r.t, r.ls, now), r.ok)
  }

  ghost function Erase(n: Node, key: Key, reading: int): Res {
    var now := Stamp(n, reading);
    var r := TimedMaps.Erase(n.t, n.ls, ContainerKey(n.t, key, true), now);
    Res(Node(r.t, r.ls, now), r.ok)
  }

  // The value keeps its stamp when its key changes.
  ghost function KeyChange(n: Node, from: Key, to: Key, reading: int): Res {
    var k := ContainerKey(n.t, to, false);
    if from == NoKey || to == NoKey || from.Name? != to.Name? || (k != "" && k in n.t.m) then Res(n, false)
    else
      var now := Stamp(n, reading);
      var e := TimedMaps.Erase(n.t, n.ls, ContainerKey(n.t, from, true), now);
      if !e.ok then Res(Node(e.t, e.ls, now), false)
      else
        var r := TimedMaps.Set(e.t, e.ls, k, e.prev, true);
        Res(Node(r.t, r.ls, now), true)
  }

  // ----- what the operations do to the live entries -----

  /** The stamp is the time that an undisturbed call of the shared clock grants. */
  lemma StampIsGranted(n: Node, s: Clock.State, c: Clock.Thread, reading: int)
    requires c !in s.phase && s.prev == n.clock
    ensures var s3 := Clock.Step(Clock.Step(Clock.Step(s, Clock.Begin(c, reading)), Clock.FetchAdd(c)),
                                 Clock.Exchange(c));
            s3.prev == Stamp(n, reading) && s3.phase[c] == Clock.Done(reading, |s.history|, Stamp(n, reading))
  {
    Clock.UndisturbedCall(s, c, reading);
  }

  // The change under the key is put to the listeners, and none of them vetoes it.
  ghost predicate Agreed(n: Node, k: string, x: Timed) {
    Allowed(n.ls, Change(k, TimedMaps.Current(n.t.m, k), x, false))
  }

  /** `Set` succeeds exactly when the key is one, another value is there and nobody vetoes. The value is then live
      with the new stamp; an empty one takes the key out. */
  lemma SetReads(n: Node, key: Key, v: XValue, reading: int)
    requires Clock.ABSENT <= n.clock
    ensures var r, k, x := Set(n, key, v, reading), ContainerKey(n.t, key, true), Timed(v, Stamp(n, reading));
            && (r.ok <==> k != "" && !Eq(TimedMaps.Current(n.t.m, k).v, v) && Agreed(n, k, x))
            && r.n.clock == x.time
            && Live(r.n.t.m) ==
               if !r.ok then Live(n.t.m) else if v.IsEmpty() then Live(n.t.m) - {k} else Live(n.t.m)[k := x]
  {
    hide ContainerKey, Allowed, After;
    SetOnLive(n.t, n.ls, ContainerKey(n.t, key, true), Timed(v, Stamp(n, reading)), false);
  }

  /** `Insert` by name succeeds exactly when the map has no entry under it, not even an erased one, and nobody
      vetoes. */
  lemma InsertReads(n: Node, key: Key, v: XValue, reading: int)
    requires Clock.ABSENT <= n.clock
    ensures var r, x := Insert(n, key, v, reading), Timed(v, Stamp(n, reading));
            && (r.ok <==> key.Name? && key.s != "" && key.s !in n.t.m && Agreed(n, key.s, x))
            && r.n.clock == x.time
            && Live(r.n.t.m) == if !r.ok || v.IsEmpty() then Live(n.t.m) else Live(n.t.m)[key.s := x]
  {
    hide Allowed, After;
    EmplaceOnLive(n.t, n.ls, ContainerKey(n.t, key, false), Timed(v, Stamp(n, reading)));
  }

  /** `Erase` succeeds exactly when there is a value that is not the empty one, and nobody vetoes. */
  lemma EraseReads(n: Node, key: Key, reading: int)
    requires Clock.ABSENT <= n.clock
    ensures var r, k, x := Erase(n, key, reading), ContainerKey(n.t, key, true), Timed(Empty, Stamp(n, reading));
            && (r.ok <==> k != "" && k in n.t.m && n.t.m[k].v != Empty && Agreed(n, k, x))
            && r.n.clock == x.time
            && Live(r.n.t.m) == if r.ok then Live(n.t.m) - {k} else Live(n.t.m)
  {
    hide ContainerKey, Allowed, After;
    EraseOnLive(n.t, n.ls, ContainerKey(n.t, key, true), Stamp(n, reading));
  }

  /** `KeyChange` succeeds exactly when both keys are given and of one kind, nothing is stored under the new one, not
      even an erased entry, and `Erase` succeeds at the old one. The live value is then under the new key with its old
      stamp; under a key that a map cannot have it is lost. */
  lemma KeyChangeReads(n: Node, from: Key, to: Key, reading: int)
    requires Clock.ABSENT <= n.clock && "" !in n.t.m
    ensures var r, e := KeyChange(n, from, to, reading), Erase(n, from, reading);
            var k, source := ContainerKey(n.t, to, false), ContainerKey(n.t, from, true);
            && (r.ok <==> from != NoKey && to != NoKey && (from.Name? <==> to.Name?) && k !in n.t.m && e.ok)
            && Live(r.n.t.m) ==
               if !r.ok then Live(n.t.m)
               else if k != "" && source in Live(n.t.m) then (Live(n.t.m) - {source})[k := Live(n.t.m)[source]]
               else Live(n.t.m) - {source}
  {
    hide ContainerKey, TimedMaps.Erase, TimedMaps.Set, Stamp, Agreed;
    EraseReads(n, from, reading);
    if KeyChange(n, from, to, reading).ok { MovedEntry(n, from, to, reading); }
  }

  datatype Op =
    | SetOp(key: Key, v: XValue, reading: int)
    | InsertOp(key: Key, v: XValue, reading: int)
    | EraseOp(key: Key, reading: int)
    | KeyChangeOp(key: Key, to: Key, reading: int)
    | ListenOp(uid: nat, l: Listener)
    | UnlistenOp(uid: nat)

  ghost function Step(n: Node, op: Op): Node {
    match op
    case SetOp(key, v, reading) => Set(n, key, v, reading).n
    case InsertOp(key, v, reading) => Insert(n, key, v, reading).n
    case EraseOp(key, reading) => Erase(n, key, reading).n
    case KeyChangeOp(from, to, reading) => KeyChange(n, from, to, reading).n
    case ListenOp(uid, l) => n.(ls := n.ls[uid := l])
    case UnlistenOp(uid) => n.(ls := n.ls - {uid})
  }

  ghost function Run(n: Node, ops: seq<Op>): Node
    decreases |ops|
  {
    if ops == [] then n else Run(Step(n, ops[0]), ops[1..])
  }

  lemma NoIdZero(ls: Listeners, e: Event)
    requires 0 !in ls
    ensures 0 !in After(ls, e)
  {
  }

  lemma SetValid(n: Node, key: string, x: Timed, noDiscard: bool, now: int)
    requires Valid(n) && n.clock <= now && Clock.ABSENT < x.time <= now
    ensures var r := TimedMaps.Set(n.t, n.ls, key, x, noDiscard);
            Valid(Node(r.t, r.ls, now))
  {
    SetConsistent(n.t, n.ls, key, x, noDiscard);
    NoIdZero(n.ls, Change(key, TimedMaps.Current(n.t.m, key), x, noDiscard));
  }

  lemma StepValid(n: Node, op: Op)
    requires Valid(n) && (op.ListenOp? ==> op.uid != 0)
    ensures Valid(Step(n, op))
  {
    match op
    case SetOp(key, v, reading) =>
      var now := Stamp(n, reading);
      SetValid(n, ContainerKey(n.t, key, true), Timed(v, now), false, now);
    case InsertOp(key, v, reading) =>
      var now := Stamp(n, reading);
      EmplaceConsistent(n.t, n.ls, ContainerKey(n.t, key, false), Timed(v, now));
      NoIdZero(n.ls, Change(ContainerKey(n.t, key, false), NOTHING, Timed(v, now), false));
    case EraseOp(key, reading) =>
      var now := Stamp(n, reading);
      SetValid(n, ContainerKey(n.t, key, true), Timed(Empty, now), false, now);
    case KeyChangeOp(from, to, reading) =>
      if KeyChange(n, from, to, reading).n != n {
        var now := Stamp(n, reading);
        var e := TimedMaps.Erase(n.t, n.ls, ContainerKey(n.t, from, true), now);
        SetValid(n, ContainerKey(n.t, from, true), Timed(Empty, now), false, now);
        if e.ok { SetValid(Node(e.t, e.ls, now), ContainerKey(n.t, to, false), e.prev, true, now); }
      }
    case _ =>
  }

  // ----- what a listener can rebuild -----

  // Applying an event to a copy of the live entries: an empty new value means that the key goes.
  ghost function Apply(copy: Entries, e: Event): Entries {
    if e.to.v.IsEmpty() then copy - {e.key} else copy[e.key := e.to]
  }

  ghost function Replay(copy: Entries, es: seq<Event>): Entries
    decreases |es|
  {
    if es == [] then copy else Replay(Apply(copy, es[0]), es[1..])
  }

  lemma {:induction false} ReplayAppend(copy: Entries, a: seq<Event>, b: seq<Event>)
    ensures Replay(copy, a + b) == Replay(Replay(copy, a), b)
    decreases |a|
  {
    if a == [] {
      assert [] + b == b;
    } else {
      assert (a + b)[1..] == a[1..] + b;
      ReplayAppend(Apply(copy, a[0]), a[1..], b);
    }
  }

  // The listener u was told news from which it gets from the live entries of m to those of o.
  ghost predicate Follows(m: Entries, ls: Listeners, o: Entries, after: Listeners, u: nat) {
    && u in ls && u in after && Faithful(after[u])
    && ls[u].log <= after[u].log
    && Replay(Live(m), after[u].log[|ls[u].log|..]) == Live(o)
  }

  lemma RoundFollows(m: Entries, ls: Listeners, e: Event, u: nat)
    requires u in ls && Faithful(ls[u]) && Stamped(m)
    requires e.from == TimedMaps.Current(m, e.key) && e.to.time != Clock.ABSENT
    ensures Follows(m, ls, if Allowed(ls, e) then m[e.key := e.to] else m, After(ls, e), u)
  {
    FaithfulHears(ls, e, u);
    var news := News(ls, e, u);
    var log := After(ls, e)[u].log;
    assert log[|ls[u].log|..] == news;
    if Allowed(ls, e) {
      assert Replay(Live(m), [e]) == Apply(Live(m), e) by { assert [e][1..] == []; }
      assert Apply(Live(m), e) == Live(m[e.key := e.to]);
    } else if news != [] {
      assert news[1..] == [Undo(e)] && news[1..][1..] == [];
      assert Replay(Live(m), news) == Replay(Apply(Live(m), e), [Undo(e)]);
      assert Replay(Apply(Live(m), e), [Undo(e)]) == Replay(Apply(Apply(Live(m), e), Undo(e)), [Undo(e)][1..]);
      assert Apply(Apply(Live(m), e), Undo(e)) == Live(m);
    }
  }

  lemma SetFollows(t: Tomb, ls: Listeners, key: string, x: Timed, noDiscard: bool, u: nat)
    requires u in ls && Faithful(ls[u]) && Stamped(t.m) && x.time != Clock.ABSENT
    ensures var r := TimedMaps.Set(t, ls, key, x, noDiscard);
            Follows(t.m, ls, r.t.m, r.ls, u) && Stamped(r.t.m)
  {
    var cur := TimedMaps.Current(t.m, key);
    if key != "" && !Eq(cur.v, x.v) { RoundFollows(t.m, ls, Change(key, cur, x, noDiscard), u); }
  }

  lemma FollowsTwice(m: Entries, ls: Listeners, o: Entries, ls1: Listeners, q: Entries, ls2: Listeners, u: nat)
    requires Follows(m, ls, o, ls1, u) && Follows(o, ls1, q, ls2, u)
    ensures Follows(m, ls, q, ls2, u)
  {
    var a, b, c := ls[u].log, ls1[u].log, ls2[u].log;
    assert c[|a|..] == b[|a|..] + c[|b|..];
    ReplayAppend(Live(m), b[|a|..], c[|b|..]);
  }

  // The listener u is neither removed nor replaced.
  predicate Keeps(op: Op, u: nat) {
    (op.ListenOp? ==> op.uid != 0 && op.uid != u) && (op.UnlistenOp? ==> op.uid != u)
  }

  lemma NothingFollows(m: Entries, ls: Listeners, after: Listeners, u: nat)
    requires u in ls && Faithful(ls[u]) && u in after && after[u] == ls[u]
    ensures Follows(m, ls, m, after, u)
  {
    assert after[u].log[|ls[u].log|..] == [];
  }

  lemma InsertFollows(n: Node, key: Key, v: XValue, reading: int, u: nat)
    requires Valid(n) && u in n.ls && Faithful(n.ls[u])
    ensures var r := Insert(n, key, v, reading).n; Follows(n.t.m, n.ls, r.t.m, r.ls, u)
  {
    hide Follows, After, Allowed, ContainerKey;
    var k := ContainerKey(n.t, key, false);
    var x := Timed(v, Stamp(n, reading));
    if k != "" && k !in n.t.m {
      RoundFollows(n.t.m, n.ls, Change(k, NOTHING, x, false), u);
    } else {
      NothingFollows(n.t.m, n.ls, n.ls, u);
    }
  }

  lemma KeyChangeFollows(n: Node, from: Key, to: Key, reading: int, u: nat)
    requires Valid(n) && u in n.ls && Faithful(n.ls[u])
    ensures var r := KeyChange(n, from, to, reading).n; Follows(n.t.m, n.ls, r.t.m, r.ls, u)
  {
    hide Follows, TimedMaps.Set, ContainerKey;
    var source, k := ContainerKey(n.t, from, true), ContainerKey(n.t, to, false);
    var now := Stamp(n, reading);
    if from == NoKey || to == NoKey || from.Name? != to.Name? || (k != "" && k in n.t.m) {
      NothingFollows(n.t.m, n.ls, n.ls, u);
    } else {
      var e := TimedMaps.Erase(n.t, n.ls, source, now);
      SetFollows(n.t, n.ls, source, Timed(Empty, now), false, u);
      if e.ok {
        ErasedIsStamped(n, source, now);
        FollowsIsFaithful(n.t.m, n.ls, e.t.m, e.ls, u);
        var r := TimedMaps.Set(e.t, e.ls, k, e.prev, true);
        SetFollows(e.t, e.ls, k, e.prev, true, u);
        FollowsTwice(n.t.m, n.ls, e.t.m, e.ls, r.t.m, r.ls, u);
      }
    }
  }

  lemma ErasedIsStamped(n: Node, key: string, now: int)
    requires Valid(n) && TimedMaps.Erase(n.t, n.ls, key, now).ok
    ensures TimedMaps.Erase(n.t, n.ls, key, now).prev.time != Clock.ABSENT
  {
    hide After, Allowed;
  }

  lemma FollowsIsFaithful(m: Entries, ls: Listeners, o: Entries, after: Listeners, u: nat)
    requires Follows(m, ls, o, after, u)
    ensures u in after && Faithful(after[u])
  {
    hide Faithful;
  }

  lemma StepFollows(n: Node, op: Op, u: nat)
    requires Valid(n) && u in n.ls && Faithful(n.ls[u]) && Keeps(op, u)
    ensures Follows(n.t.m, n.ls, Step(n, op).t.m, Step(n, op).ls, u)
  {
    hide Follows, TimedMaps.Set, KeyChange, Insert, ContainerKey, Faithful;
    match op
    case SetOp(key, v, reading) =>
      SetFollows(n.t, n.ls, ContainerKey(n.t, key, true), Timed(v, Stamp(n, reading)), false, u);
    case InsertOp(key, v, reading) => InsertFollows(n, key, v, reading, u);
    case EraseOp(key, reading) =>
      SetFollows(n.t, n.ls, ContainerKey(n.t, key, true), Timed(Empty, Stamp(n, reading)), false, u);
    case KeyChangeOp(from, to, reading) => KeyChangeFollows(n, from, to, reading, u);
    case ListenOp(_, _) => NothingFollows(n.t.m, n.ls, Step(n, op).ls, u);
    case UnlistenOp(_) => NothingFollows(n.t.m, n.ls, Step(n, op).ls, u);
  }

  /** Over every run of `Set`, `Insert`, `Erase` and `KeyChange`, whatever the other listeners veto,
      and whichever of them expire, come or go: a listener that never vetoes and applies all it is
      told to its copy of the entries holds exactly the live entries. */
  lemma {:induction false} ListenersCopyIsRight(n: Node, ops: seq<Op>, u: nat)
    requires Valid(n) && u in n.ls && Faithful(n.ls[u])
    requires forall i | 0 <= i < |ops| :: Keeps(ops[i], u)
    ensures Follows(n.t.m, n.ls, Run(n, ops).t.m, Run(n, ops).ls, u)
    decreases |ops|
  {
    if ops != [] {
      var next := Step(n, ops[0]);
      StepFollows(n, ops[0], u);
      StepValid(n, ops[0]);
      assert forall i | 0 <= i < |ops| - 1 :: ops[1..][i] == ops[i + 1];
      ListenersCopyIsRight(next, ops[1..], u);
      FollowsTwice(n.t.m, n.ls, next.t.m, next.ls, Run(n, ops).t.m, Run(n, ops).ls, u);
    }
  }

  // The event a changing operation first puts to the listeners, if it gets that far.
  ghost function FirstEvent(n: Node, op: Op): Option<Event> {
    match op
    case SetOp(key, v, reading) =>
      SetEvent(n.t.m, ContainerKey(n.t, key, true), Timed(v, Stamp(n, reading)))
    case InsertOp(key, v, reading) =>
      var k := ContainerKey(n.t, key, false);
      if k == "" || k in n.t.m then None else Some(Change(k, NOTHING, Timed(v, Stamp(n, reading)), false))
    case EraseOp(key, reading) =>
      SetEvent(n.t.m, ContainerKey(n.t, key, true), Timed(Empty, Stamp(n, reading)))
    case KeyChangeOp(from, to, reading) =>
      if KeyChange(n, from, to, reading).n == n then None
      else SetEvent(n.t.m, ContainerKey(n.t, from, true), Timed(Empty, Stamp(n, reading)))
    case _ => None
  }

  ghost function SetEvent(m: Entries, key: string, x: Timed): Option<Event> {
    var cur := TimedMaps.Current(m, key);
    if key == "" || Eq(cur.v, x.v) then None else Some(Change(key, cur, x, false))
  }

  /** An operation that changes the container, or its counter, has put the change to the listeners first, and nobody
      has vetoed it. */
  lemma VetoChangesNothing(n: Node, op: Op)
    ensures Step(n, op).t != n.t ==> FirstEvent(n, op).Some? && Allowed(n.ls, FirstEvent(n, op).value)
  {
  }

  // ----- what the time stamps tell -----

  // A snapshot of the live entries, overlaid with the entries that `ForPatch` shows with a later
  // stamp: live ones replace, erased ones remove.
  ghost function Overlay(snapshot: Entries, m: Entries, since: int): Entries {
    var removed := set k | k in m && m[k].time > since && IsErased(m[k]);
    var changed := map k | k in m && m[k].time > since && !IsErased(m[k]) :: m[k];
    (snapshot - removed) + changed
  }

  // Every entry either carries a later stamp or is what it was.
  ghost predicate SameUnlessLater(m: Entries, o: Entries, since: int) {
    && m.Keys <= o.Keys
    && forall k | k in o :: o[k].time > since || (k in m && m[k] == o[k])
  }

  lemma OverlayIsLive(m: Entries, o: Entries, since: int)
    requires SameUnlessLater(m, o, since)
    ensures Overlay(Live(m), o, since) == Live(o)
  {
  }

  lemma SetTells(m: Entries, t: Tomb, ls: Listeners, key: string, x: Timed, noDiscard: bool, since: int)
    requires SameUnlessLater(m, t.m, since) && x.time > since
    ensures SameUnlessLater(m, TimedMaps.Set(t, ls, key, x, noDiscard).t.m, since)
  {
  }

  lemma StepTells(m: Entries, n: Node, op: Op, since: int)
    requires SameUnlessLater(m, n.t.m, since) && since <= n.clock && !op.KeyChangeOp?
    ensures SameUnlessLater(m, Step(n, op).t.m, since) && since <= Step(n, op).clock
  {
  }

  lemma {:induction false} RunTells(m: Entries, n: Node, ops: seq<Op>, since: int)
    requires SameUnlessLater(m, n.t.m, since) && since <= n.clock
    requires forall i | 0 <= i < |ops| :: !ops[i].KeyChangeOp?
    ensures SameUnlessLater(m, Run(n, ops).t.m, since)
    decreases |ops|
  {
    if ops != [] {
      assert forall i | 0 <= i < |ops| - 1 :: ops[1..][i] == ops[i + 1];
      StepTells(m, n, ops[0], since);
      RunTells(m, Step(n, ops[0]), ops[1..], since);
    }
  }

  /** Over every run of `Set`, `Insert` and `Erase`, with any vetoes: the live entries at some time,
      overlaid with the entries stamped after that time, are the live entries at the end. */
  lemma ChangesAreExtracted(n: Node, ops: seq<Op>)
    requires forall i | 0 <= i < |ops| :: !ops[i].KeyChangeOp?
    ensures Overlay(Live(n.t.m), Run(n, ops).t.m, n.clock) == Live(Run(n, ops).t.m)
  {
    RunTells(n.t.m, n, ops, n.clock);
    OverlayIsLive(n.t.m, Run(n, ops).t.m, n.clock);
  }

  /** `KeyChange` carries the old stamp to the new key: a successful one is extracted exactly when
      the moved value was itself set after the snapshot (or was lost to an impossible key, or was
      not live). */
  lemma KeyChangeIsExtractedIff(m: Entries, n: Node, from: Key, to: Key, reading: int, since: int)
    requires Valid(n) && SameUnlessLater(m, n.t.m, since) && since <= n.clock
    requires KeyChange(n, from, to, reading).ok
    ensures var k := ContainerKey(n.t, to, false);
            var moved := TimedMaps.Current(n.t.m, ContainerKey(n.t, from, true));
            var o := KeyChange(n, from, to, reading).n.t.m;
            Overlay(Live(m), o, since) == Live(o) <==> (k == "" || moved.time > since || IsErased(moved))
  {
    var now := Stamp(n, reading);
    var k := ContainerKey(n.t, to, false);
    var source := ContainerKey(n.t, from, true);
    var e := TimedMaps.Erase(n.t, n.ls, source, now);
    SetTells(m, n.t, n.ls, source, Timed(Empty, now), false, since);
    MovedEntry(n, from, to, reading);
    if k == "" { OverlayIsLive(m, e.t.m, since); } else { ArrivalTellsIff(m, e.t.m, k, e.prev, since); }
  }

  lemma MovedEntry(n: Node, from: Key, to: Key, reading: int)
    requires KeyChange(n, from, to, reading).ok && "" !in n.t.m
    ensures var k := ContainerKey(n.t, to, false);
            var source := ContainerKey(n.t, from, true);
            var e := TimedMaps.Erase(n.t, n.ls, source, Stamp(n, reading));
            && e.ok && e.prev == TimedMaps.Current(n.t.m, source)
            && (k != "" ==> k !in e.t.m)
            && KeyChange(n, from, to, reading).n.t.m == if k == "" then e.t.m else e.t.m[k := e.prev]
  {
    var e := TimedMaps.Erase(n.t, n.ls, ContainerKey(n.t, from, true), Stamp(n, reading));
    assert !Eq(NOTHING.v, e.prev.v);
  }

  // An entry under a key that never was there before is told exactly by its stamp.
  lemma LaterIsSame(m: Entries, o: Entries, k: string, x: Timed, since: int)
    requires SameUnlessLater(m, o, since) && k !in o && x.time > since
    ensures SameUnlessLater(m, o[k := x], since)
  {
  }

  lemma EarlierIsMissed(m: Entries, o: Entries, k: string, x: Timed, since: int)
    requires k !in o && x.time <= since
    ensures Overlay(m, o[k := x], since) == Overlay(m, o, since)
  {
  }

  lemma ArrivalIsLive(o: Entries, k: string, x: Timed)
    requires k !in o
    ensures Live(o[k := x]) == Live(o) <==> IsErased(x)
  {
    if IsErased(x) {
      assert Live(o[k := x]) == Live(o);
    } else {
      assert k in Live(o[k := x]) && k !in Live(o);
    }
  }

  lemma ArrivalTellsIff(m: Entries, o: Entries, k: string, x: Timed, since: int)
    requires SameUnlessLater(m, o, since) && k !in o
    ensures Overlay(Live(m), o[k := x], since) == Live(o[k := x]) <==> (x.time > since || IsErased(x))
  {
    hide SameUnlessLater, Overlay, Live, IsErased;
    if x.time > since {
      LaterIsSame(m, o, k, x, since);
      OverlayIsLive(m, o[k := x], since);
    } else {
      OverlayIsLive(m, o, since);
      EarlierIsMissed(Live(m), o, k, x, since);
      ArrivalIsLive(o, k, x);
    }
  }

  // A value written in place of another by `Increment`, `Append` or a successful
  // `CompareExchange`: it keeps the stamp of the value it replaces.
  function InPlace(m: Entries, key: string, v: XValue): Entries
    requires key in m
  {
    m[key := Timed(v, m[key].time)]
  }

  /** A change of a live value made in place is extracted exactly when that value was itself set
      after the snapshot. */
  lemma InPlaceIsExtractedIff(m: Entries, o: Entries, key: string, v: XValue, since: int)
    requires SameUnlessLater(m, o, since) && key in Live(o) && v != o[key].v && !v.IsEmpty()
    ensures Overlay(Live(m), InPlace(o, key, v), since) == Live(InPlace(o, key, v)) <==> o[key].time > since
  {
    var q := InPlace(o, key, v);
    if o[key].time > since {
      OverlayIsLive(m, q, since);
    } else {
      assert key in Live(q) && Live(q)[key] == Timed(v, o[key].time);
      assert Live(m)[key] == o[key];
      assert Overlay(Live(m), q, since)[key] == o[key];
    }
  }

  // ----- inputs: a snapshot of now never tells of a later change that keeps the stamp -----

  lemma StampsAreNotLater(n: Node)
    requires Valid(n)
    ensures SameUnlessLater(n.t.m, n.t.m, n.clock)
  {
  }

  /** The live value under a moved to the free key b, with nobody to veto: the snapshot taken right before
      does not see it. */
  lemma KeyChangeIsMissed(n: Node, a: string, b: string, reading: int)
    requires Valid(n) && n.ls == map[] && a in Live(n.t.m) && b != "" && b !in n.t.m
    ensures var r := KeyChange(n, Name(a), Name(b), reading);
            r.ok && Overlay(Live(n.t.m), r.n.t.m, n.clock) != Live(r.n.t.m)
  {
    StampsAreNotLater(n);
    assert !Eq(n.t.m[a].v, Empty);
    KeyChangeIsExtractedIff(n.t.m, n, Name(a), Name(b), reading, n.clock);
  }

  /** A live value changed in place is not seen either. */
  lemma InPlaceIsMissed(n: Node, key: string, v: XValue)
    requires Valid(n) && key in Live(n.t.m) && v != n.t.m[key].v && !v.IsEmpty()
    ensures Overlay(Live(n.t.m), InPlace(n.t.m, key, v), n.clock) != Live(InPlace(n.t.m, key, v))
  {
    StampsAreNotLater(n);
    InPlaceIsExtractedIff(n.t.m, n.t.m, key, v, n.clock);
  }
}
