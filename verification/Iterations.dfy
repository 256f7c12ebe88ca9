/** The mutating iteration of a node, without listeners, is the one of its container: of the map that keeps
    erased keys, without its time stamps, and of the array that erases in place. */
module Iterations {
  import opened Wrappers
  import opened XValues
  import opened Boxes
  import opened Writings
  import Clock
  import C = Callbacks
  import T = TimedMaps
  import A = ArrayContainers

  // ----- maps -----

  function Untime(h: seq<(string, C.Timed)>): seq<(Key, XValue)> {
    seq(|h|, i requires 0 <= i < |h| => (Name(h[i].0), h[i].1.v))
  }

  // The caller's function as the timed container sees it: a value that it changes keeps its stamp.
  function Timely(f: OnEach): T.OnEach {
    (h: seq<(string, C.Timed)>, k: string, x: C.Timed) =>
      var (res, v) := f(Untime(h), Name(k), x.v);
      (res, C.Timed(v, x.time))
  }

  lemma UntimeMore(h: seq<(string, C.Timed)>, k: string, x: C.Timed)
    ensures Untime(h + [(k, x)]) == Untime(h) + [(Name(k), x.v)]
  {
  }

  // Both iterations have come equally far.
  ghost predicate Alike(s: T.EachState, x: Writing, shown: seq<(Key, XValue)>) {
    && s.ls == map[] && T.Stamped(s.t.m) && x.box == MapBox(T.Untimed(s.t.m))
    && shown == Untime(s.seen) && s.found == (s.seen != [])
  }

  lemma NobodyAsked(e: C.Event)
    ensures C.Allowed(map[], e) && C.After(map[], e) == map[]
  {
    assert C.Vetoers(map[], e) == {};
  }

  // One live entry, with nobody to ask.
  lemma EachOneAlone(s: T.EachState, key: string, f: T.OnEach, from: Option<string>, now: int)
    requires key in s.t.m && s.ls == map[] && !T.IsErased(s.t.m[key])
    ensures var (next, stop) := T.EachOne(s, key, f, from, now);
            var cur := s.t.m[key];
            var (res, given) := f(s.seen, key, cur);
            var x := if res.EraseIt? || res.EraseStop? then C.Timed(Empty, now) else given;
            && stop == Stops(res) && next.ls == map[] && next.found && next.seen == s.seen + [(key, cur)]
            && next.t.m == if Eq(x.v, cur.v) then s.t.m else s.t.m[key := x]
  {
    hide C.After, C.Allowed;
    var cur := s.t.m[key];
    var (res, given) := f(s.seen, key, cur);
    var x := if res.EraseIt? || res.EraseStop? then C.Timed(Empty, now) else given;
    NobodyAsked(T.Change(key, given, T.NOTHING, false));
    NobodyAsked(T.Change(key, cur, x, false));
  }

  lemma UntimedUpdate(m: T.Entries, key: string, v: XValue, res: EachRes, given: XValue, now: int)
    requires T.Stamped(m) && key in m && m[key].v == v && !v.IsEmpty() && now != Clock.ABSENT
    ensures var x := if res.EraseIt? || res.EraseStop? then C.Timed(Empty, now) else C.Timed(given, m[key].time);
            var next := if Eq(x.v, v) then m else m[key := x];
            && T.Stamped(next)
            && T.Untimed(next) == T.Untimed(m)[key := Outcome(v, res, given).GetOr(Empty)]
  {
    assert !Eq(Empty, v);
    assert T.Untimed(m)[key := v] == T.Untimed(m);
  }

  lemma OneAlike(s: T.EachState, x: Writing, shown: seq<(Key, XValue)>, key: string, f: OnEach, from: Option<string>,
                 now: int)
    requires Alike(s, x, shown) && key in s.t.m && now != Clock.ABSENT
    ensures var (next, stop) := T.EachOne(s, key, Timely(f), from, now);
            var v := s.t.m[key].v;
            if v.IsEmpty() then next == s && stop == (shown == [] && from == Some(key))
            else
              var (res, given) := f(shown, Name(key), v);
              var to := Outcome(v, res, given);
              && stop == Stops(res)
              && Alike(next, Noted(x, MapAfter(x.box, key, to), Name(key), v, to), shown + [(Name(key), v)])
  {
    var cur := s.t.m[key];
    if !cur.v.IsEmpty() {
      var (res, given) := f(shown, Name(key), cur.v);
      assert Timely(f)(s.seen, key, cur) == (res, C.Timed(given, cur.time));
      hide T.EachOne, Timely, T.Untimed, T.Stamped, Eq, Untime;
      UntimeMore(s.seen, key, cur);
      EachOneAlone(s, key, Timely(f), from, now);
      UntimedUpdate(s.t.m, key, cur.v, res, given, now);
    }
  }

  /** The entries of the map after the iteration are the same, stamps aside. */
  lemma {:induction false} MapIterationForgetsTime(s: T.EachState, x: Writing, shown: seq<(Key, XValue)>,
                                                   keys: seq<string>, f: OnEach, from: Option<string>,
                                                   now: string -> int)
    requires Alike(s, x, shown) && (forall k | k in keys :: k in s.t.m) && forall k :: now(k) != Clock.ABSENT
    ensures EachKey(x, shown, keys, f, from).box == MapBox(T.Untimed(T.Each(s, keys, Timely(f), from, now).t.m))
    decreases |keys|
  {
    if keys != [] {
      hide Alike, Timely, Noted;
      AlikeMeans(s, x, shown, keys);
      OneAlike(s, x, shown, keys[0], f, from, now(keys[0]));
      var (next, stop) := T.EachOne(s, keys[0], Timely(f), from, now(keys[0]));
      var v := s.t.m[keys[0]].v;
      if v.IsEmpty() {
        if !stop { MapIterationForgetsTime(s, x, shown, keys[1..], f, from, now); }
      } else {
        var (res, given) := f(shown, Name(keys[0]), v);
        var to := Outcome(v, res, given);
        var y := Noted(x, MapAfter(x.box, keys[0], to), Name(keys[0]), v, to);
        AlikeMeans(next, y, shown + [(Name(keys[0]), v)], keys[1..]);
        if !stop { MapIterationForgetsTime(next, y, shown + [(Name(keys[0]), v)], keys[1..], f, from, now); }
      }
    } else {
      AlikeMeans(s, x, shown, keys);
    }
  }

  lemma AlikeMeans(s: T.EachState, x: Writing, shown: seq<(Key, XValue)>, keys: seq<string>)
    requires Alike(s, x, shown)
    ensures x.box == MapBox(T.Untimed(s.t.m)) && forall k | k in s.t.m :: k in x.box.m && x.box.m[k] == s.t.m[k].v
  {
  }

  // ----- arrays -----

  function Numbered(h: seq<(nat, XValue)>): seq<(Key, XValue)> {
    seq(|h|, i requires 0 <= i < |h| => (At(h[i].0), h[i].1))
  }

  // The caller's function as the array sees it.
  function ByNumber(f: OnEach): A.OnEach {
    (h: seq<(nat, XValue)>, n: nat, v: XValue) => f(Numbered(h), At(n), v)
  }

  function Everyone(): A.Listeners {
    (asked: seq<A.Ask>) => true
  }

  lemma NumberedMore(h: seq<(nat, XValue)>, n: nat, v: XValue)
    ensures Numbered(h + [(n, v)]) == Numbered(h) + [(At(n), v)]
  {
  }

  lemma VisitIsOutcome(v: XValue, f: OnEach, h: seq<(nat, XValue)>, asked: seq<A.Ask>)
    ensures var one := A.Visit(v, ByNumber(f), Everyone(), h, asked);
            var (res, given) := f(Numbered(h), At(|h|), v);
            one.slot == Outcome(v, res, given) && one.stop == Stops(res)
  {
    assert ByNumber(f)(h, |h|, v) == f(Numbered(h), At(|h|), v);
  }

  lemma SlotSplits(a: seq<XValue>, i: nat, to: Option<XValue>)
    requires i < |a|
    ensures var o, j := SlotAfter(a, i, to), if to.None? then i else i + 1;
            j <= |o| && o[..j] == a[..i] + A.SlotOf(to) && o[j..] == a[i + 1..]
  {
  }

  /** The slots of the array after the iteration are the same. */
  lemma {:induction false} ArrayIterationIsWalk(x: Writing, h: seq<(nat, XValue)>, i: nat, f: OnEach, asked: seq<A.Ask>)
    requires x.box.ArrayBox? && i <= |x.box.a|
    ensures EachSlot(x, Numbered(h), i, f).box ==
            ArrayBox(x.box.a[..i] + A.Walk(x.box.a[i..], ByNumber(f), Everyone(), h, asked).a)
    decreases |x.box.a| - i
  {
    var a := x.box.a;
    if i == |a| {
      assert a[i..] == [] && a[..i] + [] == a;
    } else {
      hide A.Visit, SlotAfter, Eq, Numbered;
      var v := a[i];
      VisitIsOutcome(v, f, h, asked);
      var (res, given) := f(Numbered(h), At(|h|), v);
      var to := Outcome(v, res, given);
      var one := A.Visit(v, ByNumber(f), Everyone(), h, asked);
      SlotSplits(a, i, to);
      NumberedMore(h, |h|, v);
      NumberedLength(h);
      var y := Noted(x, ArrayBox(SlotAfter(a, i, to)), At(|h|), v, to);
      var j := if to.None? then i else i + 1;
      WalkBegins(a, i, f, h, asked);
      hide A.Walk;
      if Stops(res) {
        Halves(y.box.a, j);
        Grouped(a[..i], A.SlotOf(to), a[i + 1..]);
      } else {
        ArrayIterationIsWalk(y, h + [(|h|, v)], j, f, one.asked);
        Grouped(a[..i], A.SlotOf(to), A.Walk(a[i + 1..], ByNumber(f), Everyone(), h + [(|h|, v)], one.asked).a);
      }
    }
  }

  lemma {:induction false} ShownGrows(a: seq<XValue>, f: A.OnEach, allow: A.Listeners, shown: seq<(nat, XValue)>,
                                      asked: seq<A.Ask>)
    ensures shown <= A.Walk(a, f, allow, shown, asked).shown
    ensures a != [] ==> A.Walk(a, f, allow, shown, asked).shown != []
    decreases |a|
  {
    hide A.Visit;
    if a != [] {
      var one := A.Visit(a[0], f, allow, shown, asked);
      if !one.stop { ShownGrows(a[1..], f, allow, shown + [(|shown|, a[0])], one.asked); }
    }
  }

  /** An iteration of an array answers that it has found something exactly when it shows something. */
  lemma ArrayFindsIff(a: seq<XValue>, begin: Key, f: A.OnEach, allow: A.Listeners)
    ensures var start := if begin == NoKey then 0 else Position(a, begin).GetOr(|a|);
            FindsAny(ArrayBox(a), begin) <==> A.Walk(a[start..], f, allow, [], []).shown != []
  {
    ShownGrows(a[if begin == NoKey then 0 else Position(a, begin).GetOr(|a|)..], f, allow, [], []);
  }

  lemma NumberedLength(h: seq<(nat, XValue)>)
    ensures |Numbered(h)| == |h|
  {
  }

  lemma Halves(a: seq<XValue>, i: nat)
    requires i <= |a|
    ensures a == a[..i] + a[i..]
  {
  }

  lemma Grouped(a: seq<XValue>, b: seq<XValue>, c: seq<XValue>)
    ensures a + b + c == a + (b + c)
  {
  }

  lemma WalkBegins(a: seq<XValue>, i: nat, f: OnEach, h: seq<(nat, XValue)>, asked: seq<A.Ask>)
    requires i < |a|
    ensures var one := A.Visit(a[i], ByNumber(f), Everyone(), h, asked);
            A.Walk(a[i..], ByNumber(f), Everyone(), h, asked).a ==
            A.SlotOf(one.slot) +
            if one.stop then a[i + 1..]
            else A.Walk(a[i + 1..], ByNumber(f), Everyone(), h + [(|h|, a[i])], one.asked).a
  {
    hide A.Visit;
    assert a[i..][0] == a[i] && a[i..][1..] == a[i + 1..];
  }
}
