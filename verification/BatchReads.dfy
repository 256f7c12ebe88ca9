/** What `BulkErase` and `BulkInsert` do to the container of a map, pair by pair and key by key. */
module BatchReads {
  import opened Wrappers
  import opened XValues
  import opened Boxes
  import opened Holding
  import opened Worlds
  import opened TreeOps
  import opened Outcomes

  // ----- BulkErase -----

  lemma ErasedFromMap(m: map<string, XValue>, k: Key)
    requires "" !in m
    ensures var e := Erase(MapBox(m), k);
            && (e.erased.Some? <==> k.Name? && Current(m, k.s) != Empty)
            && e.box == (if e.erased.Some? then MapBox(m[k.s := Empty]) else MapBox(m))
            && (e.erased.Some? ==> e.erased.value == m[k.s])
  {
    if k.Name? && k.s in m { EmptyEqualsItself(m[k.s]); }
  }

  lemma EmptyEqualsItself(v: XValue)
    ensures Eq(v, Empty) <==> v == Empty
  {
  }

  // The key is the first of its kind, and leads to a value.
  predicate LeadsFirst(m: map<string, XValue>, ks: seq<Key>, i: nat)
    requires i < |ks|
  {
    ks[i].Name? && Current(m, ks[i].s) != Empty && ks[i] !in ks[..i]
  }

  // The answers are the values that the keys from n on lead to first, in the order of the keys.
  predicate Answers(m: map<string, XValue>, ks: seq<Key>, n: nat, vals: seq<XValue>)
    requires n <= |ks|
    decreases |ks| - n
  {
    if n == |ks| then vals == []
    else if LeadsFirst(m, ks, n) then vals != [] && vals[0] == m[ks[n].s] && Answers(m, ks, n + 1, vals[1..])
    else Answers(m, ks, n + 1, vals)
  }

  // The given keys are empty, all others as they were.
  function Emptied(m: map<string, XValue>, ks: seq<Key>): map<string, XValue> {
    map s | s in m :: if Name(s) in ks then Empty else m[s]
  }

  lemma EmptiedStep(m: map<string, XValue>, ks: seq<Key>, n: nat)
    requires n < |ks| && "" !in m
    ensures var o, e := Emptied(m, ks[..n]), Erase(MapBox(Emptied(m, ks[..n])), ks[n]);
            && e.box == MapBox(Emptied(m, ks[..n + 1]))
            && e.erased == if LeadsFirst(m, ks, n) then Some(m[ks[n].s]) else None
  {
    var o := Emptied(m, ks[..n]);
    ErasedFromMap(o, ks[n]);
    assert forall k :: k in ks[..n + 1] <==> k in ks[..n] || k == ks[n];
    assert Erase(MapBox(o), ks[n]).box.m == Emptied(m, ks[..n + 1]);
  }

  lemma {:induction false} ExtractFrom(m: map<string, XValue>, ks: seq<Key>, n: nat)
    requires n <= |ks| && "" !in m
    ensures var x := Extract(MapBox(Emptied(m, ks[..n])), ks[n..]);
            x.box == MapBox(Emptied(m, ks)) && Answers(m, ks, n, x.vals)
    decreases |ks| - n
  {
    hide Erase, Emptied;
    if n == |ks| {
      assert ks[..n] == ks;
    } else {
      assert ks[n..][0] == ks[n] && ks[n..][1..] == ks[n + 1..];
      EmptiedStep(m, ks, n);
      ExtractFrom(m, ks, n + 1);
      var x, y := Extract(MapBox(Emptied(m, ks[..n])), ks[n..]), Extract(MapBox(Emptied(m, ks[..n + 1])), ks[n + 1..]);
      if LeadsFirst(m, ks, n) { assert x.vals[1..] == y.vals; }
    }
  }

  /** The extraction from a map answers the values that the keys lead to, in the order of the keys, each of them once
      and no empty one, and leaves the given keys empty and all others as they were. */
  lemma ExtractReads(m: map<string, XValue>, ks: seq<Key>)
    requires "" !in m
    ensures var x := Extract(MapBox(m), ks);
            x.box == MapBox(Emptied(m, ks)) && Answers(m, ks, 0, x.vals)
  {
    assert Emptied(m, ks[..0]) == m && ks[0..] == ks;
    ExtractFrom(m, ks, 0);
  }

  // ----- BulkInsert -----

  // A pair that goes in: it may, the map has no entry under its key, not even an erased one, and no pair that went in
  // before has its key or its node.
  ghost predicate GoesIn(w: World, p: Id, m: map<string, XValue>, kvs: seq<(Key, XValue)>, i: nat)
    requires i < |kvs|
    decreases i
  {
    && kvs[i].0.Name? && kvs[i].0.s != "" && kvs[i].0.s !in m && ValidChild(w, p, kvs[i].1)
    && forall j | 0 <= j < i && GoesIn(w, p, m, kvs, j) :: kvs[j].0 != kvs[i].0 && !SameNode(kvs[j].1, kvs[i].1)
  }

  predicate SameNode(x: XValue, y: XValue) {
    x.Object? && x == y
  }

  // Its node went in before.
  ghost predicate Repeats(w: World, p: Id, m: map<string, XValue>, kvs: seq<(Key, XValue)>, i: nat)
    requires i < |kvs|
  {
    exists j :: 0 <= j < i && SameNode(kvs[j].1, kvs[i].1) && GoesIn(w, p, m, kvs, j)
  }

  // The pairs that do not go in, as they come back: unchanged if the value may not, else with what is in the way.
  ghost predicate ComesBack(w: World, p: Id, m: map<string, XValue>, kvs: seq<(Key, XValue)>, i: nat,
                            pair: (Key, XValue))
    requires i < |kvs|
  {
    if !ValidChild(w, p, kvs[i].1) || Repeats(w, p, m, kvs, i) then pair == kvs[i]
    else
      pair.0 == kvs[i].0
      && if kvs[i].0.Name? && kvs[i].0.s != "" && kvs[i].0.s in m then pair.1 == m[kvs[i].0.s]
         else if exists j :: 0 <= j < i && kvs[j].0 == kvs[i].0 && GoesIn(w, p, m, kvs, j) then
           exists j :: 0 <= j < i && kvs[j].0 == kvs[i].0 && GoesIn(w, p, m, kvs, j) && pair.1 == kvs[j].1
         else pair.1 == Empty
  }

  // The entries of the first n pairs that go in have joined those of m.
  ghost predicate EntriesIn(w: World, p: Id, m: map<string, XValue>, kvs: seq<(Key, XValue)>, n: nat,
                            o: map<string, XValue>)
    requires n <= |kvs|
  {
    && (forall s | s in m :: s in o && o[s] == m[s])
    && (forall i | 0 <= i < n && GoesIn(w, p, m, kvs, i) :: kvs[i].0.s in o && o[kvs[i].0.s] == kvs[i].1)
    && forall s | s in o && s !in m :: Brings(w, p, m, kvs, n, s)
  }

  ghost predicate Brings(w: World, p: Id, m: map<string, XValue>, kvs: seq<(Key, XValue)>, n: nat, s: string)
    requires n <= |kvs|
  {
    exists i :: 0 <= i < n && kvs[i].0 == Name(s) && GoesIn(w, p, m, kvs, i)
  }

  // Their nodes are to be adopted, under their keys.
  ghost predicate NodesIn(w: World, p: Id, m: map<string, XValue>, kvs: seq<(Key, XValue)>, n: nat,
                          todo: map<Id, Option<string>>)
    requires n <= |kvs|
  {
    && (forall i | 0 <= i < n && GoesIn(w, p, m, kvs, i) && kvs[i].1.Object? ::
          kvs[i].1.addr in todo && todo[kvs[i].1.addr] == Some(kvs[i].0.s))
    && forall c | c in todo :: BringsNode(w, p, m, kvs, n, c)
  }

  ghost predicate BringsNode(w: World, p: Id, m: map<string, XValue>, kvs: seq<(Key, XValue)>, n: nat, c: Id)
    requires n <= |kvs|
  {
    exists i :: 0 <= i < n && kvs[i].1 == Object(c) && GoesIn(w, p, m, kvs, i)
  }

  ghost predicate Inserted(w: World, p: Id, m: map<string, XValue>, kvs: seq<(Key, XValue)>, n: nat, b: Box,
                           todo: map<Id, Option<string>>)
    requires n <= |kvs|
  {
    b.MapBox? && EntriesIn(w, p, m, kvs, n, b.m) && NodesIn(w, p, m, kvs, n, todo)
  }

  lemma TurnDecides(w: World, p: Id, m: map<string, XValue>, kvs: seq<(Key, XValue)>, n: nat, b: Box,
                    todo: map<Id, Option<string>>)
    requires n < |kvs| && Inserted(w, p, m, kvs, n, b, todo)
    ensures !Refused(w, p, b, todo.Keys, kvs[n].1) && Emplace(b, kvs[n].0, kvs[n].1).ok <==> GoesIn(w, p, m, kvs, n)
    ensures Repeats(w, p, m, kvs, n) <==> kvs[n].1.Object? && kvs[n].1.addr in todo
  {
    hide ValidChild;
    if kvs[n].1.Object? && kvs[n].1.addr in todo { assert BringsNode(w, p, m, kvs, n, kvs[n].1.addr); }
    if kvs[n].0.Name? && kvs[n].0.s in b.m && kvs[n].0.s !in m { assert Brings(w, p, m, kvs, n, kvs[n].0.s); }
  }

  lemma TurnPasses(w: World, p: Id, m: map<string, XValue>, kvs: seq<(Key, XValue)>, n: nat, b: Box,
                   todo: map<Id, Option<string>>)
    requires n < |kvs| && Inserted(w, p, m, kvs, n, b, todo) && !GoesIn(w, p, m, kvs, n)
    ensures Inserted(w, p, m, kvs, n + 1, b, todo)
  {
    hide GoesIn, Brings, BringsNode;
    forall s | Brings(w, p, m, kvs, n, s) ensures Brings(w, p, m, kvs, n + 1, s) { BringsStill(w, p, m, kvs, n, s, 0); }
    forall c | BringsNode(w, p, m, kvs, n, c) ensures BringsNode(w, p, m, kvs, n + 1, c) {
      BringsStill(w, p, m, kvs, n, "", c);
    }
  }

  lemma BringsStill(w: World, p: Id, m: map<string, XValue>, kvs: seq<(Key, XValue)>, n: nat, s: string, c: Id)
    requires n < |kvs|
    ensures Brings(w, p, m, kvs, n, s) || (kvs[n].0 == Name(s) && GoesIn(w, p, m, kvs, n)) ==>
              Brings(w, p, m, kvs, n + 1, s)
    ensures BringsNode(w, p, m, kvs, n, c) || (kvs[n].1 == Object(c) && GoesIn(w, p, m, kvs, n)) ==>
              BringsNode(w, p, m, kvs, n + 1, c)
  {
    hide GoesIn;
  }

  lemma GoesInAlone(w: World, p: Id, m: map<string, XValue>, kvs: seq<(Key, XValue)>, n: nat)
    requires n < |kvs| && GoesIn(w, p, m, kvs, n)
    ensures kvs[n].0.Name? && kvs[n].0.s != "" && kvs[n].0.s !in m
    ensures forall i | 0 <= i < n && GoesIn(w, p, m, kvs, i) :: kvs[i].0.Name? && !SameNode(kvs[i].1, kvs[n].1)
  {
  }

  lemma EntryJoins(w: World, p: Id, m: map<string, XValue>, kvs: seq<(Key, XValue)>, n: nat, o: map<string, XValue>)
    requires n < |kvs| && EntriesIn(w, p, m, kvs, n, o) && GoesIn(w, p, m, kvs, n) && kvs[n].0.s !in o
    ensures EntriesIn(w, p, m, kvs, n + 1, o[kvs[n].0.s := kvs[n].1])
  {
    hide GoesIn, Brings;
    GoesInAlone(w, p, m, kvs, n);
    forall s | s in o[kvs[n].0.s := kvs[n].1] && s !in m ensures Brings(w, p, m, kvs, n + 1, s) {
      BringsStill(w, p, m, kvs, n, s, 0);
    }
  }

  lemma NodeJoins(w: World, p: Id, m: map<string, XValue>, kvs: seq<(Key, XValue)>, n: nat,
                  todo: map<Id, Option<string>>)
    requires n < |kvs| && NodesIn(w, p, m, kvs, n, todo) && GoesIn(w, p, m, kvs, n)
    ensures var (k, v) := kvs[n];
            k.Name? && NodesIn(w, p, m, kvs, n + 1, if v.Object? then todo[v.addr := Some(k.s)] else todo)
  {
    hide GoesIn, BringsNode, ValidChild;
    GoesInAlone(w, p, m, kvs, n);
    var (k, v) := kvs[n];
    var more := if v.Object? then todo[v.addr := Some(k.s)] else todo;
    forall i | 0 <= i < n + 1 && GoesIn(w, p, m, kvs, i) && kvs[i].1.Object?
      ensures kvs[i].1.addr in more && more[kvs[i].1.addr] == Some(kvs[i].0.s)
    {
      if i < n { assert !SameNode(kvs[i].1, v); }
    }
    forall c | c in more ensures BringsNode(w, p, m, kvs, n + 1, c) { BringsStill(w, p, m, kvs, n, "", c); }
  }

  lemma TurnInserts(w: World, p: Id, m: map<string, XValue>, kvs: seq<(Key, XValue)>, n: nat, b: Box,
                    todo: map<Id, Option<string>>)
    requires n < |kvs| && Inserted(w, p, m, kvs, n, b, todo) && GoesIn(w, p, m, kvs, n)
    ensures var (k, v) := kvs[n];
            Inserted(w, p, m, kvs, n + 1, Emplace(b, k, v).box,
                     if v.Object? then todo[v.addr := KeyName(Emplace(b, k, v).key)] else todo)
  {
    TurnDecides(w, p, m, kvs, n, b, todo);
    hide EntriesIn, NodesIn, GoesIn, Refused;
    NodeJoins(w, p, m, kvs, n, todo);
    EntryJoins(w, p, m, kvs, n, b.m);
  }

  lemma TurnRejects(w: World, p: Id, m: map<string, XValue>, kvs: seq<(Key, XValue)>, n: nat, b: Box,
                    todo: map<Id, Option<string>>)
    requires n < |kvs| && Inserted(w, p, m, kvs, n, b, todo) && !GoesIn(w, p, m, kvs, n)
    requires "" !in m
    ensures ComesBack(w, p, m, kvs, n, RejectedPair(w, p, b, todo.Keys, kvs[n]))
  {
    hide ValidChild, GoesIn, Repeats, NodesIn;
    TurnDecides(w, p, m, kvs, n, b, todo);
    forall j | 0 <= j < n && GoesIn(w, p, m, kvs, j)
      ensures kvs[j].0.Name? && kvs[j].0.s != "" && kvs[j].0.s !in m
    {
      GoesInAlone(w, p, m, kvs, j);
    }
    if ValidChild(w, p, kvs[n].1) && kvs[n].0.Name? && kvs[n].0.s != "" && kvs[n].0.s !in m {
      if kvs[n].0.s in b.m { assert Brings(w, p, m, kvs, n, kvs[n].0.s); }
    }
  }

  // The rejected pairs are those that do not go in, in order.
  ghost predicate Rejects(w: World, p: Id, m: map<string, XValue>, kvs: seq<(Key, XValue)>, n: nat,
                          rejected: seq<(Key, XValue)>)
    requires n <= |kvs|
    decreases |kvs| - n
  {
    if n == |kvs| then rejected == []
    else if GoesIn(w, p, m, kvs, n) then Rejects(w, p, m, kvs, n + 1, rejected)
    else rejected != [] && ComesBack(w, p, m, kvs, n, rejected[0]) && Rejects(w, p, m, kvs, n + 1, rejected[1..])
  }

  lemma {:induction false} FillInserts(w: World, p: Id, m: map<string, XValue>, kvs: seq<(Key, XValue)>, n: nat, b: Box,
                                       todo: map<Id, Option<string>>)
    requires n <= |kvs| && "" !in m && Inserted(w, p, m, kvs, n, b, todo)
    ensures var f := Fill(w, p, b, todo, kvs[n..]);
            Inserted(w, p, m, kvs, |kvs|, f.box, f.todo) && Rejects(w, p, m, kvs, n, f.rejected)
    decreases |kvs| - n
  {
    hide Fill, Inserted, Emplace, Refused, RejectedPair, GoesIn, ComesBack, ValidChild;
    if n == |kvs| {
      FillNothing(w, p, b, todo, kvs[n..]);
    } else {
      assert kvs[n..][0] == kvs[n] && kvs[n..][1..] == kvs[n + 1..];
      TurnDecides(w, p, m, kvs, n, b, todo);
      var (k, v) := kvs[n];
      var e := Emplace(b, k, v);
      if GoesIn(w, p, m, kvs, n) {
        TurnInserts(w, p, m, kvs, n, b, todo);
        FillAccepts(w, p, b, todo, kvs[n..]);
        FillInserts(w, p, m, kvs, n + 1, e.box, if v.Object? then todo[v.addr := KeyName(e.key)] else todo);
      } else {
        TurnPasses(w, p, m, kvs, n, b, todo);
        TurnRejects(w, p, m, kvs, n, b, todo);
        FillInserts(w, p, m, kvs, n + 1, b, todo);
        var back, rest := RejectedPair(w, p, b, todo.Keys, kvs[n]), Fill(w, p, b, todo, kvs[n + 1..]);
        FillRejects(w, p, b, todo, kvs[n..], []);
        FillIsFirst(w, p, b, todo, kvs[n..], back, rest);
      }
    }
  }

  lemma FillIsFirst(w: World, p: Id, b: Box, todo: map<Id, Option<string>>, kvs: seq<(Key, XValue)>,
                    back: (Key, XValue), rest: Filling)
    requires RejectedFirst([], Fill(w, p, b, todo, kvs)) == RejectedFirst([] + [back], rest)
    ensures var f := Fill(w, p, b, todo, kvs);
            && f.box == rest.box && f.todo == rest.todo
            && f.rejected == [back] + rest.rejected && f.rejected[1..] == rest.rejected
  {
    hide Fill;
    assert [] + Fill(w, p, b, todo, kvs).rejected == Fill(w, p, b, todo, kvs).rejected;
  }

  /** `BulkInsert` into a map: the entries that were there stay, the first valid pair of each free key goes in, unless
      its node went in before, and nothing else. The other pairs come back in order, with what is in the way. */
  lemma FillReads(w: World, p: Id, m: map<string, XValue>, kvs: seq<(Key, XValue)>)
    requires "" !in m
    ensures var f := Fill(w, p, MapBox(m), map[], kvs);
            Inserted(w, p, m, kvs, |kvs|, f.box, f.todo) && Rejects(w, p, m, kvs, 0, f.rejected)
  {
    assert kvs[0..] == kvs;
    FillInserts(w, p, m, kvs, 0, MapBox(m), map[]);
  }

  /** In an array, a node that is there already comes back with the key of its slot. */
  lemma HeldNodeComesBack(w: World, p: Id, b: Box, todo: set<Id>, kv: (Key, XValue))
    requires b.ArrayBox? && Owning(b) && kv.1.Object? && ValidChild(w, p, kv.1) && kv.1.addr !in todo
    requires !HoldsNot(b, kv.1.addr)
    ensures Refused(w, p, b, todo, kv.1)
    ensures var back := RejectedPair(w, p, b, todo, kv); back.1 == kv.1 && Get(b, back.0) == Some(kv.1)
  {
    HasDuplicateIff(b, kv.1.addr);
    EqNode(b.a[FindNode(b.a, kv.1.addr, NoKey).value], kv.1.addr);
  }
}
