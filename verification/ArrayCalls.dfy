/** `BulkSet` and the mutating `ForEach` on an array: exactly when one written node, and when nodes from elsewhere,
    keep the agreement. */
module ArrayCalls {
  import opened Wrappers
  import opened XValues
  import opened Boxes
  import opened Holding
  import opened Worlds
  import opened Agreement
  import opened TreeOps
  import opened Forest
  import opened Writings
  import opened Settling
  import opened WriteAgreement
  import opened MapCalls
  import opened SingleWrites
  import opened ArrayWrites

  // ----- one node -----

  // Where the iteration of an array begins.
  function FirstSlot(a: seq<XValue>, from: Key): (i: nat)
    ensures i <= |a|
  {
    if from == NoKey then 0 else Position(a, from).GetOr(|a|)
  }

  /** The mutating `ForEach` that writes one node into the slot it begins with, and stops: the agreement is kept
      exactly when the node is a child of the array already, or can become one and the slot is the first, or
      cannot and the slot is not. */
  lemma ForEachSlotIff(w: World, p: Id, from: Key, c: Id)
    requires Agree(w) && Good(w) && p in w.parent && w.box[p].ArrayBox? && c in w.parent
    requires var i := FirstSlot(w.box[p].a, from); i < |w.box[p].a| && w.box[p].a[i] != Object(c)
    ensures GivesStorable(w, WriteAndStop(Object(c)))
    ensures Agree(ForEach(w, p, WriteAndStop(Object(c)), from)) <==>
              w.parent[c] == Some(p) || (FirstSlot(w.box[p].a, from) == 0 <==> !Below(w.parent, p, c))
  {
    var a, i, f := w.box[p].a, FirstSlot(w.box[p].a, from), WriteAndStop(Object(c));
    hide Agree, Good, Settle, Below;
    assert !a[i].ConstObject? by { SlotIsOwning(w, p, i); }
    EqNode(a[i], c);
    assert f([], At(0), a[i]) == (Stop, Object(c));
    assert Outcome(a[i], Stop, Object(c)) == Some(Object(c));
    assert [] + NodesOf([a[i]]) == NodesOf([a[i]]);
    assert ForEachWriting(w.box[p], f, from) == OneSlot(a, i, c, At(0));
    ForEachBehaves(w, p, f, from);
    OneSlotIff(w, p, a, i, c, At(0));
  }

  lemma SlotIsOwning(w: World, p: Id, i: nat)
    requires Agree(w) && p in w.parent && w.box[p].ArrayBox? && i < |w.box[p].a|
    ensures !w.box[p].a[i].ConstObject?
  {
    assert Owning(w.box[p]);
  }

  /** `BulkSet` of one node into an array: the agreement is kept exactly when the node is not stored, is a child of
      the array already, or the key is not kIdxLast. */
  lemma BulkSetSlotIff(w: World, p: Id, k: Key, c: Id)
    requires Agree(w) && Good(w) && p in w.parent && w.box[p].ArrayBox? && c in w.parent
    ensures AllStorable(w, [(k, Object(c))]) && StaysWithin(w, p, [(k, Object(c))])
    ensures Agree(BulkSet(w, p, [(k, Object(c))])) <==>
              (ValidChild(w, p, Object(c)) && Put(w.box[p], k, Object(c)).ok ==> w.parent[c] == Some(p) || k != Last)
  {
    hide Fits, Acyclic, Owning, RefersTo, Settle, Put, Below;
    assert [(k, Object(c))][1..] == [];
    if ValidChild(w, p, Object(c)) {
      ValidSlotIff(w, p, k, c);
    } else {
      var x := BulkSetWriting(w, p, [(k, Object(c))]);
      assert SetEach(w, p, Begin(w.box[p]), [(k, Object(c))]) == Leave(Begin(w.box[p]), (k, Object(c)));
      BulkSetBehaves(w, p, [(k, Object(c))]);
      UntouchedIsSafe(w, p, x);
      BulkSetAgreesIff(w, p, [(k, Object(c))]);
    }
  }

  lemma ValidSlotIff(w: World, p: Id, k: Key, c: Id)
    requires Agree(w) && Good(w) && p in w.parent && w.box[p].ArrayBox? && c in w.parent && ValidChild(w, p, Object(c))
    ensures AllStorable(w, [(k, Object(c))]) && StaysWithin(w, p, [(k, Object(c))])
    ensures Agree(BulkSet(w, p, [(k, Object(c))])) <==>
              (Put(w.box[p], k, Object(c)).ok ==> w.parent[c] == Some(p) || k != Last)
  {
    hide Good, Settle, Behaves, Below, Closed, Owning, RefersTo, Fits;
    var a, kvs := w.box[p].a, [(k, Object(c))];
    var r := Put(w.box[p], k, Object(c));
    var s := Store(Begin(w.box[p]), kvs[0], Some(c));
    assert kvs[1..] == [];
    assert SetEach(w, p, Begin(w.box[p]), kvs) == SetEach(w, p, s, []) == s;
    BulkSetBehaves(w, p, kvs);
    if r.ok {
      var g := Grown(a, k);
      var j := Position(g, k).value;
      assert s.placed == map[c := k];
      OneByAddress(c, k);
      assert [] + NodesOf([g[j]]) == NodesOf([g[j]]);
      assert BulkSetWriting(w, p, kvs) == OneSlot(g, j, c, k);
      hide Agree;
      OneSlotIff(w, p, g, j, c, k);
    } else {
      UntouchedIsSafe(w, p, BulkSetWriting(w, p, kvs));
      BulkSetAgreesIff(w, p, kvs);
    }
  }

  lemma OneByAddress(c: Id, k: Key)
    ensures ByAddress(map[c := k]) == [(c, k)]
  {
    var placed := map[c := k];
    assert placed.Keys == {c} && placed - {c} == map[];
    assert ByAddress(placed - {c}) == [];
  }

  // ----- a batch of indexed pairs -----

  // Indices that are all different, and no node twice.
  predicate IndexedOnce(kvs: seq<(Key, XValue)>) {
    && (forall i | 0 <= i < |kvs| :: kvs[i].0.At?)
    && forall i, j | 0 <= i < j < |kvs| ::
         kvs[i].0 != kvs[j].0 && (kvs[i].1.Object? ==> kvs[i].1 != kvs[j].1)
  }

  function Before(a: seq<XValue>, j: nat): XValue {
    if j < |a| then a[j] else Empty
  }

  // The loop has written these slots so far, and no others.
  ghost predicate KeepsSlots(a: seq<XValue>, s: Setting, done: map<nat, XValue>) {
    && s.box.ArrayBox? && !s.overrun && |a| <= |s.box.a|
    && (forall j: nat | j in done :: j < |s.box.a| && s.box.a[j] == done[j])
    && (forall j: nat | j < |s.box.a| && j !in done :: s.box.a[j] == Before(a, j))
    && (forall c | c in s.gone :: RefersTo(ArrayBox(a), c))
    && s.touched == s.placed.Keys
    && (forall c | c in s.placed :: s.placed[c].At? && s.placed[c].i in done && done[s.placed[c].i] == Object(c))
    && forall j: nat | j in done && done[j].Object? :: done[j].addr in s.placed && s.placed[done[j].addr] == At(j)
  }

  lemma PutIndexed(a: seq<XValue>, i: nat, v: XValue)
    ensures var r := Put(ArrayBox(a), At(i), v);
            && r.box.ArrayBox? && |a| <= |r.box.a|
            && (r.ok ==> i < |r.box.a| && r.prev == Before(a, i))
            && forall j: nat | j < |r.box.a| :: r.box.a[j] == if r.ok && j == i then v else Before(a, j)
  {
    var g := Grown(a, At(i));
    assert forall j: nat | j < |g| :: g[j] == Before(a, j);
  }

  // The settings before and after a value is stored under the index i.
  lemma StoredKeepsSlots(a: seq<XValue>, s: Setting, n: Setting, done: map<nat, XValue>, i: nat, v: XValue)
    requires KeepsSlots(a, s, done) && i !in done && (v.Object? ==> v.addr !in s.placed)
    requires n.box.ArrayBox? && |s.box.a| <= |n.box.a| && i < |n.box.a| && !n.overrun
    requires forall j: nat | j < |n.box.a| :: n.box.a[j] == if j == i then v else Before(s.box.a, j)
    requires forall c | c in n.gone :: c in s.gone || Before(s.box.a, i) == Object(c)
    requires n.touched == s.touched + NodeIn(v)
    requires n.placed == if v.Object? then s.placed[v.addr := At(i)] else s.placed
    ensures KeepsSlots(a, n, done[i := v])
  {
    forall c | c in n.gone ensures RefersTo(ArrayBox(a), c) {
      if c !in s.gone { assert Before(a, i) == Object(c) && a[i] == Object(c); }
    }
  }

  lemma StoreKeepsSlots(a: seq<XValue>, s: Setting, done: map<nat, XValue>, i: nat, v: XValue)
    requires KeepsSlots(a, s, done) && i !in done && (v.Object? ==> v.addr !in s.placed)
    ensures var n := Store(s, (At(i), v), InHand(v));
            if n.left == s.left then KeepsSlots(a, n, done[i := v])
            else n.left == s.left + [(At(i), v)] && KeepsSlots(a, n, done)
    ensures var n := Store(s, (At(i), v), InHand(v)); n.placed.Keys <= s.placed.Keys + NodeIn(v)
  {
    hide Put, RefersTo;
    var r, n := Put(s.box, At(i), v), Store(s, (At(i), v), InHand(v));
    PutIndexed(s.box.a, i, v);
    if r.ok {
      assert forall c :: c in NodesOf([r.prev]) <==> r.prev == Object(c);
      StoredKeepsSlots(a, s, n, done, i, v);
    }
  }

  // The slots of just those pairs that do not stay behind are written.
  ghost predicate Divided(kvs: seq<(Key, XValue)>, left: seq<(Key, XValue)>, done: map<nat, XValue>) {
    && (forall i | 0 <= i < |kvs| :: kvs[i].0.At?)
    && forall i | 0 <= i < |kvs| ::
         if kvs[i] in left then kvs[i].0.i !in done else kvs[i].0.i in done && done[kvs[i].0.i] == kvs[i].1
  }

  lemma DividedStep(kvs: seq<(Key, XValue)>, before: seq<(Key, XValue)>, now: seq<(Key, XValue)>,
                    left: seq<(Key, XValue)>, done: map<nat, XValue>, all: map<nat, XValue>)
    requires kvs != [] && IndexedOnce(kvs) && Divided(kvs[1..], left, all) && kvs[0] !in before
    requires kvs[0].0.i !in done && (now == before || now == before + [kvs[0]])
    requires forall pair | pair in left :: pair in now || pair in kvs[1..]
    requires forall pair | pair in now :: pair in left
    requires forall j | j in (if now == before then done[kvs[0].0.i := kvs[0].1] else done) ::
               j in all && all[j] == (if now == before then done[kvs[0].0.i := kvs[0].1] else done)[j]
    requires forall j | j in all ::
               j in (if now == before then done[kvs[0].0.i := kvs[0].1] else done)
               || exists i :: 0 <= i < |kvs| - 1 && kvs[1..][i].0 == At(j)
    ensures Divided(kvs, left, all)
  {
    forall i | 0 <= i < |kvs|
      ensures if kvs[i] in left then kvs[i].0.i !in all else kvs[i].0.i in all && all[kvs[i].0.i] == kvs[i].1
    {
      if i > 0 {
        assert kvs[1..][i - 1] == kvs[i];
      } else {
        assert forall j | 0 <= j < |kvs| - 1 :: kvs[1..][j] == kvs[j + 1] && kvs[j + 1].0 != kvs[0].0;
        assert kvs[0] !in kvs[1..];
        if now != before { assert kvs[0] in now; }
      }
    }
  }

  // A pair whose node has not been placed yet is stored or left.
  lemma FirstTurn(w: World, p: Id, s: Setting, kvs: seq<(Key, XValue)>) returns (n: Setting)
    requires kvs != [] && (kvs[0].1.Object? ==> kvs[0].1.addr !in s.placed)
    ensures n == if ValidChild(w, p, kvs[0].1) then Store(s, kvs[0], InHand(kvs[0].1)) else Leave(s, kvs[0])
    ensures SetEach(w, p, s, kvs) == SetEach(w, p, n, kvs[1..])
  {
    hide Store, ValidChild, Erase;
    n := Turn(w, p, s, kvs).0;
  }

  lemma {:induction false} SetEachKeepsSlots(w: World, p: Id, a: seq<XValue>, s: Setting, done: map<nat, XValue>,
                                             kvs: seq<(Key, XValue)>)
    returns (all: map<nat, XValue>)
    requires KeepsSlots(a, s, done) && IndexedOnce(kvs)
    requires forall i | 0 <= i < |kvs| ::
               kvs[i].0.i !in done && kvs[i] !in s.left && (kvs[i].1.Object? ==> kvs[i].1.addr !in s.placed)
    ensures KeepsSlots(a, SetEach(w, p, s, kvs), all) && Divided(kvs, SetEach(w, p, s, kvs).left, all)
    ensures forall pair | pair in SetEach(w, p, s, kvs).left :: pair in s.left || pair in kvs
    ensures forall pair | pair in s.left :: pair in SetEach(w, p, s, kvs).left
    ensures forall j | j in done :: j in all && all[j] == done[j]
    ensures forall j | j in all :: j in done || exists i :: 0 <= i < |kvs| && kvs[i].0 == At(j)
    decreases |kvs|
  {
    hide KeepsSlots, Store, Erase, ValidChild, Divided, Turn, SetEach;
    if kvs == [] {
      NoTurn(w, p, s, kvs);
      NothingDivided(s.left, done);
      return done;
    }
    var n := FirstTurn(w, p, s, kvs);
    var i, v := kvs[0].0.i, kvs[0].1;
    StoreKeepsSlots(a, s, done, i, v);
    LeaveKeepsSlots(a, s, done, kvs[0]);
    var now := if n.left == s.left then done[i := v] else done;
    forall j | 0 <= j < |kvs| - 1
      ensures kvs[1..][j] == kvs[j + 1] && kvs[1..][j].0.i !in now && kvs[1..][j] !in n.left
      ensures kvs[1..][j].1.Object? ==> kvs[1..][j].1.addr !in n.placed
    {
      assert kvs[0].0 != kvs[j + 1].0;
    }
    all := SetEachKeepsSlots(w, p, a, n, now, kvs[1..]);
    DividedStep(kvs, s.left, n.left, SetEach(w, p, s, kvs).left, done, all);
    forall j | j in all && j !in done ensures exists i :: 0 <= i < |kvs| && kvs[i].0 == At(j) {
      if j in now {
        assert kvs[0].0 == At(j);
      } else {
        var l :| 0 <= l < |kvs| - 1 && kvs[1..][l].0 == At(j);
        assert kvs[l + 1].0 == At(j);
      }
    }
  }

  lemma TurnPlaces(w: World, p: Id, s: Setting, kvs: seq<(Key, XValue)>, c: Id)
    requires kvs != []
    ensures var (n, rest) := Turn(w, p, s, kvs);
            && (c in n.placed && c !in s.placed ==> kvs[0].1 == Object(c) && ValidChild(w, p, Object(c)))
            && rest == kvs[|kvs| - |rest|..]
  {
    hide ValidChild, Erase, Store;
    var v := kvs[0].1;
    StorePlaces(s, kvs[0], InHand(v), c);
    if |kvs| > 1 { StorePlaces(Leave(s, kvs[0]), kvs[1], InHand(v), c); }
    if v.Object? && v.addr in s.placed {
      var e := Erase(s.box, s.placed[v.addr]);
      if e.erased.Some? { StorePlaces(TakeBack(s, v.addr, e), kvs[0], InHand(v), c); }
    }
  }

  lemma StorePlaces(s: Setting, pair: (Key, XValue), node: Option<Id>, c: Id)
    ensures c in Store(s, pair, node).placed ==> c in s.placed || node == Some(c)
  {
    hide Put, Resolve;
  }

  // A node that the loop has placed comes with a pair and may be a child.
  lemma {:induction false} PlacedIsValid(w: World, p: Id, s: Setting, kvs: seq<(Key, XValue)>, c: Id) returns (i: nat)
    requires c in SetEach(w, p, s, kvs).placed && c !in s.placed
    ensures i < |kvs| && kvs[i].1 == Object(c) && ValidChild(w, p, Object(c))
    decreases |kvs|
  {
    hide ValidChild, Turn;
    var (n, rest) := Turn(w, p, s, kvs);
    TurnPlaces(w, p, s, kvs, c);
    if c in n.placed {
      i := 0;
    } else {
      var j := PlacedIsValid(w, p, n, rest, c);
      i := |kvs| - |rest| + j;
    }
  }

  lemma NothingDivided(left: seq<(Key, XValue)>, done: map<nat, XValue>)
    ensures Divided([], left, done)
  {
  }

  lemma LeaveKeepsSlots(a: seq<XValue>, s: Setting, done: map<nat, XValue>, pair: (Key, XValue))
    requires KeepsSlots(a, s, done)
    ensures KeepsSlots(a, Leave(s, pair), done) && Leave(s, pair).placed == s.placed
  {
  }

  lemma KeptSlot(a: seq<XValue>, s: Setting, done: map<nat, XValue>, c: Id)
    requires KeepsSlots(a, s, done) && c in s.placed && !RefersTo(ArrayBox(a), c)
    ensures s.box.ArrayBox? && HasOneSlot(s.box.a, c) && AtKey(s.box.a, (c, s.placed[c]))
  {
    var i := s.placed[c].i;
    forall j | 0 <= j < |s.box.a| && j != i ensures s.box.a[j] != Object(c) {
      if j !in done && j < |a| { assert a[j] != Object(c); }
    }
    assert OnlyAt(s.box.a, c, i);
  }

  // What the loop leaves when none of its nodes was there before.
  lemma KeptWriting(a: seq<XValue>, s: Setting, done: map<nat, XValue>)
    requires KeepsSlots(a, s, done) && forall c | c in s.placed :: !RefersTo(ArrayBox(a), c)
    ensures var x := Writing(s.box, s.gone, ByAddress(s.placed), s.touched);
            && x.box.ArrayBox? && NoneReturns(x) && OneSlotEach(x.box.a, x.placed)
            && (forall i | 0 <= i < |x.placed| :: AtKey(x.box.a, x.placed[i]) && x.placed[i].0 in s.placed)
            && forall c | c in x.touched :: Given(x.placed, c)
  {
    hide KeepsSlots, AtKey, HasOneSlot, RefersTo;
    KeptMeans(a, s, done);
    var x := Writing(s.box, s.gone, ByAddress(s.placed), s.touched);
    forall i | 0 <= i < |x.placed|
      ensures HasOneSlot(x.box.a, x.placed[i].0) && AtKey(x.box.a, x.placed[i])
    {
      KeptSlot(a, s, done, x.placed[i].0);
      assert x.placed[i] == (x.placed[i].0, s.placed[x.placed[i].0]);
    }
    forall c | c in x.touched ensures Given(x.placed, c) && c !in x.gone {
      assert (c, s.placed[c]) in x.placed;
      var i :| 0 <= i < |x.placed| && x.placed[i] == (c, s.placed[c]);
      assert x.placed[i].0 == c;
    }
  }

  // What the loop leaves of a batch of indexed pairs, with the slots that it has written.
  lemma IndexedBatchKeeps(w: World, p: Id, kvs: seq<(Key, XValue)>) returns (all: map<nat, XValue>)
    requires Agree(w) && p in w.parent && w.box[p].ArrayBox? && AllStorable(w, kvs) && IndexedOnce(kvs)
    requires forall i | 0 <= i < |kvs| && kvs[i].1.Object? :: w.parent[kvs[i].1.addr] != Some(p)
    ensures var s, x := SetEach(w, p, Begin(w.box[p]), kvs), BulkSetWriting(w, p, kvs);
            && KeepsSlots(w.box[p].a, s, all) && Divided(kvs, s.left, all)
            && (forall j | j in all :: exists i :: 0 <= i < |kvs| && kvs[i].0 == At(j))
            && x.box.ArrayBox? && NoneReturns(x) && OneSlotEach(x.box.a, x.placed) && FromElsewhere(w, p, x.placed)
            && (forall i | 0 <= i < |x.placed| :: AtKey(x.box.a, x.placed[i]))
            && forall c | c in x.touched :: Given(x.placed, c)
  {
    hide SetEach, Below, KeepsSlots, AtKey, OneSlotEach, RefersTo, Owning, Divided;
    var a := w.box[p].a;
    BeginKeepsSlots(w.box[p]);
    all := SetEachKeepsSlots(w, p, a, Begin(w.box[p]), map[], kvs);
    var s := SetEach(w, p, Begin(w.box[p]), kvs);
    KeptMeans(a, s, all);
    forall c | c in s.placed
      ensures c in w.parent && w.parent[c] != Some(p) && !Below(w.parent, p, c) && !RefersTo(ArrayBox(a), c)
    {
      var i := PlacedIsValid(w, p, Begin(w.box[p]), kvs, c);
      assert Storable(w, kvs[i].1);
      NotOwnChild(w, p, c);
    }
    KeptWriting(a, s, all);
  }

  /** A batch of indexed pairs into an array keeps the agreement, if no node of it is a child of the array
      already. Any of them may go over other nodes. */
  lemma IndexedBatchAgrees(w: World, p: Id, kvs: seq<(Key, XValue)>)
    requires Agree(w) && p in w.parent && w.box[p].ArrayBox? && AllStorable(w, kvs) && IndexedOnce(kvs)
    requires forall i | 0 <= i < |kvs| && kvs[i].1.Object? :: w.parent[kvs[i].1.addr] != Some(p)
    ensures StaysWithin(w, p, kvs) && Agree(BulkSet(w, p, kvs))
  {
    hide SetEach, Settle, Fits, KeepsSlots, AtKey, OneSlotEach, Tracked, FromElsewhere, NoneReturns, Owning;
    var all := IndexedBatchKeeps(w, p, kvs);
    KeptMeans(w.box[p].a, SetEach(w, p, Begin(w.box[p]), kvs), all);
    BulkSetBehaves(w, p, kvs);
    ArrayFreshIff(w, p, BulkSetWriting(w, p, kvs));
  }

  lemma BeginKeepsSlots(b: Box)
    requires b.ArrayBox?
    ensures KeepsSlots(b.a, Begin(b), map[])
  {
  }

  lemma KeptMeans(a: seq<XValue>, s: Setting, done: map<nat, XValue>)
    requires KeepsSlots(a, s, done)
    ensures s.box.ArrayBox? && !s.overrun && s.touched == s.placed.Keys
    ensures forall c | c in s.gone :: RefersTo(ArrayBox(a), c)
  {
  }

  lemma NotOwnChild(w: World, p: Id, c: Id)
    requires Agree(w) && p in w.parent && c in w.parent && w.parent[c] != Some(p)
    ensures !RefersTo(w.box[p], c)
  {
    assert Fits(w, p, c);
    NotReferred(w.box[p], c);
  }

  // ----- the iteration over an array -----

  // No node twice in the list.
  ghost predicate PlacedOnce(placed: seq<(Id, Key)>) {
    forall i, j | 0 <= i < j < |placed| :: placed[i].0 != placed[j].0
  }

  // The node came into the array by the iteration, and stands before slot i.
  ghost predicate StandsBefore(b: seq<XValue>, c: Id, i: nat) {
    exists j: nat :: j < i && OnlyAt(b, c, j)
  }

  // In the middle of the iteration over what was a: from slot i on nothing has changed yet.
  ghost predicate Passing(a: seq<XValue>, x: Writing, i: nat) {
    && x.box.ArrayBox? && i <= |x.box.a| && |x.box.a| - i <= |a|
    && (forall j | i <= j < |x.box.a| :: x.box.a[j] == a[|a| - |x.box.a| + j])
    && (forall j | 0 <= j < i && x.box.a[j].Object? ::
          RefersTo(ArrayBox(a), x.box.a[j].addr) || Given(x.placed, x.box.a[j].addr))
    && (forall c | c in x.gone :: RefersTo(ArrayBox(a), c) || Given(x.placed, c))
    && (forall c :: c in x.touched <==> Given(x.placed, c))
    && (PlacedOnce(x.placed) ==>
          forall c | Given(x.placed, c) && !RefersTo(ArrayBox(a), c) :: c !in x.gone && StandsBefore(x.box.a, c, i))
  }

  lemma PassingNode(a: seq<XValue>, x: Writing, i: nat)
    requires Passing(a, x, i) && i < |x.box.a|
    ensures x.box.a[i].Object? ==> RefersTo(ArrayBox(a), x.box.a[i].addr)
  {
    if x.box.a[i].Object? { assert a[|a| - |x.box.a| + i] == x.box.a[i]; }
  }

  lemma AheadIsOld(a: seq<XValue>, x: Writing, i: nat, c: Id)
    requires Passing(a, x, i) && !RefersTo(ArrayBox(a), c)
    ensures forall j | i <= j < |x.box.a| :: x.box.a[j] != Object(c)
  {
    NotReferred(ArrayBox(a), c);
    forall j | i <= j < |x.box.a| ensures x.box.a[j] != Object(c) {
      assert a[|a| - |x.box.a| + j] == x.box.a[j];
    }
  }

  // A slot that stays as it is.
  lemma PassKept(a: seq<XValue>, x: Writing, i: nat, k: Key, v: XValue)
    requires Passing(a, x, i) && i < |x.box.a| && v == x.box.a[i]
    ensures Passing(a, Noted(x, ArrayBox(SlotAfter(x.box.a, i, Some(v))), k, v, Some(v)), i + 1)
  {
    PassingNode(a, x, i);
    assert x.box.a[i := v] == x.box.a;
    forall c | Given(x.placed, c) && StandsBefore(x.box.a, c, i) ensures StandsBefore(x.box.a, c, i + 1) {}
  }

  // A slot that is erased.
  lemma PassErased(a: seq<XValue>, x: Writing, i: nat, k: Key, v: XValue)
    requires Passing(a, x, i) && i < |x.box.a| && v == x.box.a[i]
    ensures Passing(a, Noted(x, ArrayBox(SlotAfter(x.box.a, i, None)), k, v, None), i)
  {
    hide StandsBefore, PlacedOnce, Given, RefersTo, NodesOf;
    PassingNode(a, x, i);
    var o := RemoveAt(x.box.a, i);
    assert forall c :: c in NodesOf([v]) <==> v == Object(c);
    forall j | 0 <= j < |o| ensures o[j] == x.box.a[if j < i then j else j + 1] {}
    forall c | StandsBefore(x.box.a, c, i) ensures StandsBefore(o, c, i) { StandsStill(x.box.a, c, i); }
  }

  lemma StandsStill(b: seq<XValue>, c: Id, i: nat)
    requires StandsBefore(b, c, i) && i < |b|
    ensures StandsBefore(RemoveAt(b, i), c, i)
  {
    var o := RemoveAt(b, i);
    var j: nat :| j < i && OnlyAt(b, c, j);
    forall l | 0 <= l < |o| ensures o[l] == b[if l < i then l else l + 1] {}
    assert OnlyAt(o, c, j);
  }

  lemma PlacedOnceStep(placed: seq<(Id, Key)>, pair: (Id, Key))
    requires PlacedOnce(placed + [pair])
    ensures PlacedOnce(placed) && !Given(placed, pair.0)
  {
    var more := placed + [pair];
    forall i, j | 0 <= i < j < |placed| ensures placed[i].0 != placed[j].0 { assert more[i].0 != more[j].0; }
    forall i | 0 <= i < |placed| ensures placed[i].0 != pair.0 { assert more[i].0 != more[|placed|].0; }
  }

  // A slot that gets another value.
  lemma PassWritten(a: seq<XValue>, x: Writing, i: nat, k: Key, v: XValue, now: XValue)
    requires Passing(a, x, i) && i < |x.box.a| && v == x.box.a[i] && now != v
    ensures Passing(a, Noted(x, ArrayBox(SlotAfter(x.box.a, i, Some(now))), k, v, Some(now)), i + 1)
  {
    PassingNode(a, x, i);
    var n := Noted(x, ArrayBox(SlotAfter(x.box.a, i, Some(now))), k, v, Some(now));
    assert forall c :: c in NodesOf([v]) <==> v == Object(c);
    forall c ensures Given(n.placed, c) <==> Given(x.placed, c) || now == Object(c) {
      if now.Object? { GivenMore(x.placed, (now.addr, k), c); }
    }
    if PlacedOnce(n.placed) {
      if now.Object? { PlacedOnceStep(x.placed, (now.addr, k)); }
      forall c | Given(n.placed, c) && !RefersTo(ArrayBox(a), c)
        ensures c !in n.gone && StandsBefore(n.box.a, c, i + 1)
      {
        WrittenStands(a, x, i, now, c);
      }
    }
  }

  lemma WrittenStands(a: seq<XValue>, x: Writing, i: nat, now: XValue, c: Id)
    requires Passing(a, x, i) && i < |x.box.a| && !RefersTo(ArrayBox(a), c) && PlacedOnce(x.placed)
    requires if now == Object(c) then !Given(x.placed, c) else Given(x.placed, c)
    ensures StandsBefore(x.box.a[i := now], c, i + 1)
  {
    AheadIsOld(a, x, i, c);
    var o := x.box.a[i := now];
    if now == Object(c) {
      assert OnlyAt(o, c, i);
    } else {
      var j: nat :| j < i && OnlyAt(x.box.a, c, j);
      assert OnlyAt(o, c, j);
    }
  }

  lemma {:induction false} EachSlotPasses(a: seq<XValue>, x: Writing, shown: seq<(Key, XValue)>, i: nat, f: OnEach)
    returns (end: nat)
    requires Passing(a, x, i)
    ensures Passing(a, EachSlot(x, shown, i, f), end)
    decreases |x.box.a| - i
  {
    hide Passing, Outcome;
    PassingMeans(a, x, i);
    if i == |x.box.a| { return i; }
    var v := x.box.a[i];
    var (res, given) := f(shown, At(|shown|), v);
    var to := Outcome(v, res, given);
    var n := Noted(x, ArrayBox(SlotAfter(x.box.a, i, to)), At(|shown|), v, to);
    if to == Some(v) {
      PassKept(a, x, i, At(|shown|), v);
    } else if to.None? {
      PassErased(a, x, i, At(|shown|), v);
    } else {
      PassWritten(a, x, i, At(|shown|), v, to.value);
    }
    var next := if to.None? then i else i + 1;
    if Stops(res) { return next; }
    end := EachSlotPasses(a, n, shown + [(At(|shown|), v)], next, f);
  }

  lemma PassingMeans(a: seq<XValue>, x: Writing, i: nat)
    requires Passing(a, x, i)
    ensures x.box.ArrayBox? && i <= |x.box.a|
  {
  }

  lemma PassingStarts(a: seq<XValue>, i: nat)
    requires i <= |a|
    ensures Passing(a, Writing(ArrayBox(a), [], [], {}), i)
  {
  }

  /** The mutating `ForEach` of an array, with any function that writes no node twice and only nodes that come
      from elsewhere and can become children: the agreement is kept exactly when the number under which each of
      them was shown is the position of its slot. */
  lemma ForEachArrayIff(w: World, p: Id, f: OnEach, from: Key)
    requires Agree(w) && p in w.parent && w.box[p].ArrayBox? && GivesStorable(w, f)
    requires var x := ForEachWriting(w.box[p], f, from); PlacedOnce(x.placed) && FromElsewhere(w, p, x.placed)
    ensures var x := ForEachWriting(w.box[p], f, from);
            && x.box.ArrayBox?
            && (Agree(ForEach(w, p, f, from)) <==> forall i | 0 <= i < |x.placed| :: AtKey(x.box.a, x.placed[i]))
  {
    var a, x := w.box[p].a, ForEachWriting(w.box[p], f, from);
    hide EachSlot, Settle, Below, Fits, AtKey, Tracked, Owning, Passing;
    PassingStarts(a, FirstSlot(a, from));
    var end := EachSlotPasses(a, Writing(w.box[p], [], [], {}), [], FirstSlot(a, from), f);
    ForEachBehaves(w, p, f, from);
    PassedEach(w, p, a, x, end);
    ArrayFreshIff(w, p, x);
  }

  lemma PassedEach(w: World, p: Id, a: seq<XValue>, x: Writing, i: nat)
    requires Agree(w) && p in w.parent && w.box[p] == ArrayBox(a) && Passing(a, x, i)
    requires PlacedOnce(x.placed) && FromElsewhere(w, p, x.placed)
    ensures x.box.ArrayBox? && NoneReturns(x) && OneSlotEach(x.box.a, x.placed)
    ensures forall c | c in x.touched :: Given(x.placed, c)
  {
    hide Below;
    forall c | Given(x.placed, c) ensures !RefersTo(ArrayBox(a), c) {
      var l :| 0 <= l < |x.placed| && x.placed[l].0 == c;
      NotOwnChild(w, p, c);
    }
    forall l | 0 <= l < |x.placed| ensures HasOneSlot(x.box.a, x.placed[l].0) {
      assert Given(x.placed, x.placed[l].0);
      assert StandsBefore(x.box.a, x.placed[l].0, i);
    }
  }

  ghost predicate NeverErases(f: OnEach) {
    forall h, k, v :: !f(h, k, v).0.EraseIt? && !f(h, k, v).0.EraseStop?
  }

  lemma NotErased(f: OnEach, shown: seq<(Key, XValue)>, i: nat, v: XValue)
    requires NeverErases(f)
    ensures var (res, given) := f(shown, At(i), v); Outcome(v, res, given).Some?
  {
    assert !f(shown, At(i), v).0.EraseIt?;
  }

  lemma NotedKeyed(x: Writing, i: nat, v: XValue, now: XValue)
    requires x.box.ArrayBox? && i < |x.box.a| && v == x.box.a[i]
    requires forall l | 0 <= l < |x.placed| :: AtKey(x.box.a, x.placed[l]) && x.placed[l].1.i < i
    ensures var n := Noted(x, ArrayBox(SlotAfter(x.box.a, i, Some(now))), At(i), v, Some(now));
            && n.box.ArrayBox? && |n.box.a| == |x.box.a|
            && forall l | 0 <= l < |n.placed| :: AtKey(n.box.a, n.placed[l]) && n.placed[l].1.i < i + 1
  {
    var n := Noted(x, ArrayBox(SlotAfter(x.box.a, i, Some(now))), At(i), v, Some(now));
    forall l | 0 <= l < |n.placed| ensures AtKey(n.box.a, n.placed[l]) && n.placed[l].1.i < i + 1 {
      if l < |x.placed| { assert AtKey(x.box.a, x.placed[l]); }
    }
  }

  lemma {:induction false} EachSlotKeyed(x: Writing, shown: seq<(Key, XValue)>, f: OnEach)
    requires x.box.ArrayBox? && |shown| <= |x.box.a| && NeverErases(f)
    requires forall i | 0 <= i < |x.placed| :: AtKey(x.box.a, x.placed[i]) && x.placed[i].1.i < |shown|
    ensures var n := EachSlot(x, shown, |shown|, f);
            n.box.ArrayBox? && forall i | 0 <= i < |n.placed| :: AtKey(n.box.a, n.placed[i])
    decreases |x.box.a| - |shown|
  {
    hide Outcome, Noted, AtKey, Eq, NeverErases, SlotAfter, Stops;
    var i := |shown|;
    if i < |x.box.a| {
      var v := x.box.a[i];
      var (res, given) := f(shown, At(i), v);
      NotErased(f, shown, i, v);
      var to := Outcome(v, res, given);
      var n := Noted(x, ArrayBox(SlotAfter(x.box.a, i, to)), At(i), v, to);
      NotedKeyed(x, i, v, to.value);
      if !Stops(res) { EachSlotKeyed(n, shown + [(At(i), v)], f); }
    }
  }

  /** From the first slot on, and without erasures, the iteration keeps the agreement. */
  lemma ForEachFromFirstAgrees(w: World, p: Id, f: OnEach)
    requires Agree(w) && p in w.parent && w.box[p].ArrayBox? && GivesStorable(w, f) && NeverErases(f)
    requires var x := ForEachWriting(w.box[p], f, NoKey); PlacedOnce(x.placed) && FromElsewhere(w, p, x.placed)
    ensures Agree(ForEach(w, p, f, NoKey))
  {
    hide EachSlot, Settle, Below, Fits, Owning, AtKey;
    EachSlotKeyed(Writing(w.box[p], [], [], {}), [], f);
    ForEachArrayIff(w, p, f, NoKey);
  }
}
