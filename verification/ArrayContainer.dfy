/** The array container (`XContainerArray`) carried out step by step on its deque, and its iteration
    that erases in place. The listeners of a change are an arbitrary function of everything they have
    been asked so far. */
module ArrayContainers {
  import opened Wrappers
  import opened XValues
  import opened Boxes

  datatype Ask = Ask(key: Key, from: XValue, to: XValue)

  type Listeners = seq<Ask> -> bool

  // The caller's function sees everything it was shown before, the key and the value; it may change
  // the value and says how to go on.
  type OnEach = (seq<(nat, XValue)>, nat, XValue) -> (EachRes, XValue)

  // ----- the mutating iteration, as a function -----

  // The slots from some position on, what was shown, and what the listeners were asked.
  datatype Each = Each(a: seq<XValue>, shown: seq<(nat, XValue)>, asked: seq<Ask>)

  // What becomes of one slot: gone, or its value; and whether the iteration goes on.
  datatype One = One(slot: Option<XValue>, stop: bool, asked: seq<Ask>)

  // The callback is shown the number of slots seen before; the listeners are told one more.
  function Visit(v: XValue, f: OnEach, allow: Listeners, shown: seq<(nat, XValue)>, asked: seq<Ask>): One {
    var idx := |shown|;
    var (res, given) := f(shown, idx, v);
    var stop := res.Stop? || res.EraseStop?;
    var erasure := asked + [Ask(At(idx + 1), v, Empty)];
    if (res.EraseIt? || res.EraseStop?) && allow(erasure) then One(None, stop, erasure)
    else
      var before := if res.EraseIt? || res.EraseStop? then erasure else asked;
      var change := before + [Ask(At(idx + 1), v, given)];
      if Eq(given, v) then One(Some(v), stop, before)
      else if allow(change) then One(Some(given), stop, change)
      else One(Some(v), stop, change)
  }

  function SlotOf(s: Option<XValue>): seq<XValue> {
    if s.Some? then [s.value] else []
  }

  function Walk(a: seq<XValue>, f: OnEach, allow: Listeners, shown: seq<(nat, XValue)>, asked: seq<Ask>): Each
    decreases |a|
  {
    if a == [] then Each([], shown, asked)
    else
      var one := Visit(a[0], f, allow, shown, asked);
      var now := shown + [(|shown|, a[0])];
      if one.stop then Each(SlotOf(one.slot) + a[1..], now, one.asked)
      else
        var rest := Walk(a[1..], f, allow, now, one.asked);
        rest.(a := SlotOf(one.slot) + rest.a)
  }

  // ----- the container -----

  class Container {
    var values: seq<XValue>

    constructor ()
      ensures values == []
    {
      values := [];
    }

    /** `DeqFind_`: the position of a key, or the end; with growth, empty slots are added up to an index
        less than 1000 behind the end. */
    method DeqFind(k: Key, grow: bool) returns (p: nat)
      modifies this
      ensures values == if grow then Grown(old(values), k) else old(values)
      ensures p == Position(values, k).GetOr(|values|)
    {
      if !k.At? && !k.Last? { return |values|; }
      var idx := if k.At? then k.i else if |values| > 1 then |values| - 1 else 0;
      ghost var before := values;
      while grow && |values| <= idx < |values| + MAX_SIZE_INCREASE
        invariant before <= values && forall i | |before| <= i < |values| :: values[i] == Empty
        invariant |values| <= if |before| > idx + 1 then |before| else idx + 1
        invariant |values| > |before| ==> grow && idx < |before| + MAX_SIZE_INCREASE
        invariant !grow ==> values == before
        decreases idx + 1 - |values|
      {
        values := values + [Empty];
      }
      assert values == before + values[|before|..];
      p := if idx < |values| then idx else |values|;
    }

    method Get(k: Key) returns (x: Option<XValue>)
      ensures x == Boxes.Get(ArrayBox(values), k)
    {
      var p := Position(values, k);
      if p.None? { return None; }
      x := Some(values[p.value]);
    }

    /** `Set`: a slot added by growth stays even if the change is then refused. */
    method Set(k: Key, v: XValue, allow: Listeners) returns (ok: bool, prev: XValue)
      modifies this
      ensures var r := Put(ArrayBox(old(values)), k, v);
              if r.ok then
                && prev == r.prev && ok == allow([Ask(k, prev, v)])
                && values == if ok then r.box.a else Grown(old(values), k)
              else !ok && ArrayBox(values) == r.box && prev == r.prev
    {
      var p := DeqFind(k, true);
      if p == |values| { return false, Empty; }
      prev := values[p];
      if Eq(prev, v) { return false, prev; }
      ok := allow([Ask(k, prev, v)]);
      if ok { values := values[p := v]; }
    }

    method Emplace(k: Key, v: XValue, allow: Listeners) returns (ok: bool, at: Key)
      modifies this
      ensures var r := Boxes.Emplace(ArrayBox(old(values)), k, v);
              && ok == allow([Ask(k, Boxes.Get(ArrayBox(old(values)), k).GetOr(Empty), v)])
              && (if ok then ArrayBox(values) == r.box && at == r.key else values == old(values) && at == NoKey)
    {
      var p := DeqFind(k, false);
      ok := allow([Ask(k, if p < |values| then values[p] else Empty, v)]);
      if !ok { return false, NoKey; }
      values := values[..p] + [v] + values[p..];
      at := At(p);
    }

    method Erase(k: Key, allow: Listeners) returns (erased: Option<XValue>)
      modifies this
      ensures var r := Boxes.Erase(ArrayBox(old(values)), k);
              if r.erased.Some? && allow([Ask(k, r.erased.value, Empty)])
              then ArrayBox(values) == r.box && erased == r.erased
              else values == old(values) && erased == None
    {
      var p := DeqFind(k, false);
      if p == |values| { return None; }
      if !allow([Ask(k, values[p], Empty)]) { return None; }
      erased := Some(values[p]);
      values := values[..p] + values[p + 1..];
    }

    method Clear()
      modifies this
      ensures values == []
    {
      values := [];
    }

    // One slot of the iteration; the position moves on unless the slot has gone.
    method VisitSlot(it: nat, f: OnEach, allow: Listeners, shown: seq<(nat, XValue)>, asked: seq<Ask>)
      returns (next: nat, stop: bool, nowAsked: seq<Ask>)
      requires it < |values|
      modifies this
      ensures var one := Visit(old(values)[it], f, allow, shown, asked);
              && values == old(values)[..it] + SlotOf(one.slot) + old(values)[it + 1..]
              && next == it + |SlotOf(one.slot)| && stop == one.stop && nowAsked == one.asked
    {
      var idx := |shown|;
      var (res, val) := f(shown, idx, values[it]);
      var erasing := res.EraseIt? || res.EraseStop?;
      nowAsked, next, stop := asked, it, res.Stop? || res.EraseStop?;
      if erasing { nowAsked := nowAsked + [Ask(At(idx + 1), values[it], Empty)]; }
      if erasing && allow(nowAsked) {
        values := values[..it] + values[it + 1..];
      } else {
        if !Eq(val, values[it]) {
          nowAsked := nowAsked + [Ask(At(idx + 1), values[it], val)];
          if allow(nowAsked) { values := values[it := val]; }
        }
        next := it + 1;
      }
    }

    // The loop of the iteration, from the position on that comes behind `front`.
    method Iterate(ghost front: seq<XValue>, ghost back: seq<XValue>, begin: nat, f: OnEach, allow: Listeners)
      returns (shown: seq<(nat, XValue)>, asked: seq<Ask>)
      requires values == front + back && begin == |front|
      modifies this
      ensures var r := Walk(back, f, allow, [], []);
              values == front + r.a && shown == r.shown && asked == r.asked
    {
      hide Walk, Visit;
      shown, asked := [], [];
      var it := begin;
      ghost var kept, rest := [], back;
      assert front + kept + rest == front + back;
      while it < |values|
        invariant values == front + kept + rest && it == |front + kept|
        invariant Walk(back, f, allow, [], []) == Ahead(kept, Walk(rest, f, allow, shown, asked))
        decreases |rest|
      {
        Parts(values, it, front + kept, rest);
        WalkStep(rest, f, allow, shown, asked);
        ghost var slot := SlotOf(Visit(rest[0], f, allow, shown, asked).slot);
        var value, stop := values[it], false;
        it, stop, asked := VisitSlot(it, f, allow, shown, asked);
        assert values == front + kept + slot + rest[1..];
        shown := shown + [(|shown|, value)];
        AheadTwice(kept, slot, if stop then Each(rest[1..], shown, asked) else Walk(rest[1..], f, allow, shown, asked));
        Regroup(front, kept, slot, rest[1..]);
        kept, rest := kept + slot, rest[1..];
        Flatten(front, kept, rest);
        if stop { return; }
      }
      Flatten(front, kept, rest);
      WalkNothing(f, allow, shown, asked);
    }

    /** The mutating iteration, with erasure in place: false where there is no slot to begin with. */
    method ForEach(f: OnEach, from: Option<Key>, allow: Listeners)
      returns (found: bool, shown: seq<(nat, XValue)>, asked: seq<Ask>)
      modifies this
      ensures var p := if from.Some? then Position(old(values), from.value).GetOr(|old(values)|) else 0;
              var r := Walk(old(values)[p..], f, allow, [], []);
              found == (p < |old(values)|) && values == old(values)[..p] + r.a && shown == r.shown && asked == r.asked
    {
      var it := 0;
      if from.Some? { it := DeqFind(from.value, false); }
      assert values == values[..it] + values[it..];
      if it == |values| {
        WalkNothing(f, allow, [], []);
        return false, [], [];
      }
      shown, asked := Iterate(values[..it], values[it..], it, f, allow);
      found := true;
    }
  }

  lemma Parts(s: seq<XValue>, n: nat, front: seq<XValue>, back: seq<XValue>)
    requires s == front + back && n == |front| < |s|
    ensures back != [] && s[n] == back[0] && s[..n] == front && s[n + 1..] == back[1..]
  {
  }

  lemma Regroup(a: seq<XValue>, b: seq<XValue>, c: seq<XValue>, d: seq<XValue>)
    ensures a + b + c + d == a + (b + c) + d && |a + (b + c)| == |a + b| + |c|
  {
  }

  lemma Flatten(a: seq<XValue>, b: seq<XValue>, c: seq<XValue>)
    ensures a + b + c == a + (b + c) && (|a + b + c| == |a + b| ==> c == [])
  {
  }

  lemma AheadTwice(done: seq<XValue>, slot: seq<XValue>, rest: Each)
    ensures Ahead(done, Ahead(slot, rest)) == Ahead(done + slot, rest)
  {
  }

  lemma WalkStep(a: seq<XValue>, f: OnEach, allow: Listeners, shown: seq<(nat, XValue)>, asked: seq<Ask>)
    ensures a != [] ==>
              var one := Visit(a[0], f, allow, shown, asked);
              var now := shown + [(|shown|, a[0])];
              Walk(a, f, allow, shown, asked) ==
              Ahead(SlotOf(one.slot),
                    if one.stop then Each(a[1..], now, one.asked) else Walk(a[1..], f, allow, now, one.asked))
  {
  }

  lemma WalkNothing(f: OnEach, allow: Listeners, shown: seq<(nat, XValue)>, asked: seq<Ask>)
    ensures Walk([], f, allow, shown, asked) == Each([], shown, asked)
  {
  }

  // ----- what the iteration shows and leaves -----

  ghost predicate EndsWith(s: seq<XValue>, t: seq<XValue>) {
    |t| <= |s| && s[|s| - |t|..] == t
  }

  lemma EndsWithBehind(front: seq<XValue>, s: seq<XValue>, t: seq<XValue>)
    requires EndsWith(s, t)
    ensures EndsWith(front + s, t)
  {
  }

  // The slots of a from p on, one after the other, numbered from 0.
  ghost predicate InOrder(shown: seq<(nat, XValue)>, a: seq<XValue>, p: nat) {
    p + |shown| <= |a| && forall j | 0 <= j < |shown| :: shown[j] == (j, a[p + j])
  }

  lemma InOrderMore(shown: seq<(nat, XValue)>, a: seq<XValue>, p: nat)
    requires InOrder(shown, a, p) && p + |shown| < |a|
    ensures InOrder(shown + [(|shown|, a[p + |shown|])], a, p)
  {
  }

  // What was shown are the slots from p on, and the slots behind them are still at the end.
  ghost predicate Shows(r: Each, a: seq<XValue>, p: nat) {
    InOrder(r.shown, a, p) && EndsWith(r.a, a[p + |r.shown|..])
  }

  lemma ShowsBehind(front: seq<XValue>, r: Each, a: seq<XValue>, p: nat)
    requires Shows(r, a, p)
    ensures Shows(Ahead(front, r), a, p)
  {
    EndsWithBehind(front, r.a, a[p + |r.shown|..]);
  }

  lemma ShowsSoFar(shown: seq<(nat, XValue)>, a: seq<XValue>, p: nat, asked: seq<Ask>)
    requires InOrder(shown, a, p)
    ensures p + |shown| <= |a| && Shows(Each(a[p + |shown|..], shown, asked), a, p)
  {
  }

  // Everything that the listeners were asked is about a slot that was shown, under the number after its own.
  ghost predicate TellsOf(asked: seq<Ask>, shown: seq<(nat, XValue)>) {
    forall k | 0 <= k < |asked| :: IsToldOf(asked[k], shown)
  }

  ghost predicate IsToldOf(q: Ask, shown: seq<(nat, XValue)>) {
    exists j :: 0 <= j < |shown| && q.key == At(j + 1) && q.from == shown[j].1
  }

  lemma VisitTells(v: XValue, f: OnEach, allow: Listeners, shown: seq<(nat, XValue)>, asked: seq<Ask>)
    requires TellsOf(asked, shown)
    ensures TellsOf(Visit(v, f, allow, shown, asked).asked, shown + [(|shown|, v)])
  {
    var now := shown + [(|shown|, v)];
    assert now[|shown|].1 == v;
    forall q | IsToldOf(q, shown) ensures IsToldOf(q, now) {
      var j :| 0 <= j < |shown| && q.key == At(j + 1) && q.from == shown[j].1;
      assert now[j] == shown[j];
    }
  }

  /** Whatever the listeners are asked is about a slot that is shown, with the value it had, but under the number
      after the one that is shown. */
  lemma {:induction false} WalkTells(a: seq<XValue>, f: OnEach, allow: Listeners, shown: seq<(nat, XValue)>,
                                     asked: seq<Ask>)
    requires TellsOf(asked, shown)
    ensures var r := Walk(a, f, allow, shown, asked); TellsOf(r.asked, r.shown)
    decreases |a|
  {
    hide Visit, TellsOf;
    if a != [] {
      VisitTells(a[0], f, allow, shown, asked);
      var one := Visit(a[0], f, allow, shown, asked);
      if !one.stop { WalkTells(a[1..], f, allow, shown + [(|shown|, a[0])], one.asked); }
    }
  }

  /** Up to where it stops, the iteration shows every slot once, in order and as it was, counting from
      0 wherever it began; what it has not shown it leaves alone. */
  lemma {:induction false} WalkShows(a: seq<XValue>, p: nat, f: OnEach, allow: Listeners,
                                     shown: seq<(nat, XValue)>, asked: seq<Ask>)
    requires InOrder(shown, a, p)
    ensures Shows(Walk(a[p + |shown|..], f, allow, shown, asked), a, p)
    decreases |a| - |shown|
  {
    hide Walk, Visit, InOrder, EndsWith, Shows, Ahead;
    ShowsSoFar(shown, a, p, asked);
    var i := p + |shown|;
    if i == |a| {
      WalkNothing(f, allow, shown, asked);
      assert a[i..] == [];
    } else {
      WalkStep(a[i..], f, allow, shown, asked);
      assert a[i..][0] == a[i] && a[i..][1..] == a[i + 1..];
      var one := Visit(a[i], f, allow, shown, asked);
      var now := shown + [(|shown|, a[i])];
      InOrderMore(shown, a, p);
      ShowsSoFar(now, a, p, one.asked);
      if !one.stop { WalkShows(a, p, f, allow, now, one.asked); }
      var rest := if one.stop then Each(a[i + 1..], now, one.asked) else Walk(a[i + 1..], f, allow, now, one.asked);
      ShowsBehind(SlotOf(one.slot), rest, a, p);
    }
  }

  /** The keys shown are the positions that the slots had exactly when the iteration began with the
      first slot, or showed nothing. */
  lemma ShownKeysArePositionsIff(a: seq<XValue>, p: nat, f: OnEach, allow: Listeners)
    requires p <= |a|
    ensures var r := Walk(a[p..], f, allow, [], []);
            (forall j | 0 <= j < |r.shown| :: r.shown[j].0 == p + j) <==> p == 0 || r.shown == []
  {
    WalkShows(a, p, f, allow, [], []);
    var r := Walk(a[p..], f, allow, [], []);
    if r.shown != [] { assert r.shown[0].0 == 0; }
  }

  /** Listeners that refuse everything keep the array as it is. */
  lemma {:induction false} RefusedWalkKeeps(a: seq<XValue>, f: OnEach, allow: Listeners, shown: seq<(nat, XValue)>,
                                            asked: seq<Ask>)
    requires forall h :: !allow(h)
    ensures Walk(a, f, allow, shown, asked).a == a
    decreases |a|
  {
    if a != [] {
      var one := Visit(a[0], f, allow, shown, asked);
      assert one.slot == Some(a[0]);
      assert [a[0]] + a[1..] == a;
      if !one.stop { RefusedWalkKeeps(a[1..], f, allow, shown + [(|shown|, a[0])], one.asked); }
    }
  }

  function Ahead(done: seq<XValue>, rest: Each): Each {
    rest.(a := done + rest.a)
  }
}
