/** The map container that keeps erased keys (`XContainerMap` with `XContainerMapWithErase`): an
    erased entry stays as an empty value with a time stamp, and a running counter of such entries is
    kept from inside the change callback. */
module TimedMaps {
  import opened Wrappers
  import opened XValues
  import opened Callbacks
  import Boxes
  import Clock
  import Order

  type Entries = map<string, Timed>

  // The container: its entries and the counter `erased_values_`.
  datatype Tomb = Tomb(m: Entries, erased: int)

  // What a missing key reads as: an empty value without a time.
  const NOTHING := Timed(Empty, Clock.ABSENT)

  predicate IsErased(x: Timed) {
    x.v.IsEmpty() && x.time != Clock.ABSENT
  }

  function Current(m: Entries, key: string): Timed {
    if key in m then m[key] else NOTHING
  }

  // The change of the counter when a value replaces another (`DetectErase_`).
  function Shift(from: Timed, to: Timed): int {
    if !IsErased(from) && IsErased(to) then 1
    else if IsErased(from) && !IsErased(to) then -1
    else 0
  }

  function Change(key: string, from: Timed, to: Timed, noDiscard: bool): Event {
    Event(if noDiscard then ChangesNoDiscard else Changes, key, from, to)
  }

  // ----- the operations -----

  datatype SetRes = SetRes(t: Tomb, ls: Listeners, ok: bool, prev: Timed)

  // A key of "" stands for any key a map cannot have.
  ghost function Set(t: Tomb, ls: Listeners, key: string, x: Timed, noDiscard: bool): SetRes {
    var cur := Current(t.m, key);
    var e := Change(key, cur, x, noDiscard);
    if key == "" then SetRes(t, ls, false, NOTHING)
    else if Eq(cur.v, x.v) then SetRes(t, ls, false, cur)
    else if !Allowed(ls, e) then SetRes(t, After(ls, e), false, cur)
    else SetRes(Tomb(t.m[key := x], t.erased + Shift(cur, x)), After(ls, e), true, cur)
  }

  ghost function Emplace(t: Tomb, ls: Listeners, key: string, x: Timed): SetRes {
    var e := Change(key, NOTHING, x, false);
    if key == "" || key in t.m then SetRes(t, ls, false, Current(t.m, key))
    else if !Allowed(ls, e) then SetRes(t, After(ls, e), false, NOTHING)
    else SetRes(Tomb(t.m[key := x], t.erased + Shift(NOTHING, x)), After(ls, e), true, NOTHING)
  }

  // `Erase` sets an empty value that carries the time `now`.
  ghost function Erase(t: Tomb, ls: Listeners, key: string, now: int): SetRes {
    Set(t, ls, key, Timed(Empty, now), false)
  }

  const CLEARED := Tomb(map[], 0)

  // ----- the mutating iteration -----

  // The caller's function sees an entry, and everything it has seen before; it may change the value
  // and says how to go on.
  type OnEach = (seq<(string, Timed)>, string, Timed) -> (Boxes.EachRes, Timed)

  datatype EachState = EachState(t: Tomb, ls: Listeners, seen: seq<(string, Timed)>, found: bool)

  // One entry. An erased one is passed over (it ends the iteration if it is the one asked for). For
  // an erasure the listeners are asked twice: once by this layer, which then puts an empty value in
  // place of the entry, and once by the layer below, which finds the entry changed.
  ghost function EachOne(s: EachState, key: string, f: OnEach, from: Option<string>, now: int): (EachState, bool)
    requires key in s.t.m
  {
    var cur := s.t.m[key];
    if IsErased(cur) then (s, !s.found && from == Some(key))
    else
      var (res, given) := f(s.seen, key, cur);
      var seen := s.seen + [(key, cur)];
      var erasing := res.EraseIt? || res.EraseStop?;
      var first := Change(key, given, NOTHING, false);
      var ls := if erasing then After(s.ls, first) else s.ls;
      var x := if erasing && Allowed(s.ls, first) then Timed(Empty, now) else given;
      var e := Change(key, cur, x, false);
      var stop := res.EraseStop? || res.Stop?;
      if Eq(x.v, cur.v) then (EachState(s.t, ls, seen, true), stop)
      else if !Allowed(ls, e) then (EachState(s.t, After(ls, e), seen, true), stop)
      else (EachState(Tomb(s.t.m[key := x], s.t.erased + Shift(cur, x)), After(ls, e), seen, true), stop)
  }

  ghost function Each(s: EachState, keys: seq<string>, f: OnEach, from: Option<string>, now: string -> int): EachState
    requires forall k | k in keys :: k in s.t.m
    decreases |keys|
  {
    if keys == [] then s
    else
      var (next, stop) := EachOne(s, keys[0], f, from, now(keys[0]));
      if stop then next else Each(next, keys[1..], f, from, now)
  }

  // The keys from the given one on; none when it is missing.
  function KeysFrom(m: Entries, from: Option<string>): (ks: seq<string>)
    ensures forall k | k in ks :: k in m
  {
    var all := Order.SortedKeys(m.Keys);
    match from
    case None => all
    case Some(k) => if k == "" || k !in m then [] else Order.SkipTo(all, k)
  }

  ghost function ForEach(t: Tomb, ls: Listeners, f: OnEach, from: Option<string>, now: string -> int): EachState {
    Each(EachState(t, ls, [], false), KeysFrom(t.m, from), f, from, now)
  }

  // ----- the live view -----

  ghost function Live(m: Entries): Entries {
    map k | k in m && !IsErased(m[k]) :: m[k]
  }

  function ErasedKeys(m: Entries): set<string> {
    set k | k in m && IsErased(m[k])
  }

  // What `ForEach` shows, in its order.
  function LiveKeys(m: Entries): (ks: seq<string>)
    ensures forall k :: k in ks <==> k in m && !IsErased(m[k])
  {
    Order.SortedKeys(set k | k in m && !IsErased(m[k]))
  }

  ghost predicate Consistent(t: Tomb) {
    "" !in t.m && t.erased == |ErasedKeys(t.m)|
  }

  lemma ErasedAfter(m: Entries, key: string, x: Timed)
    ensures ErasedKeys(m[key := x]) == if IsErased(x) then ErasedKeys(m) + {key} else ErasedKeys(m) - {key}
    ensures key in ErasedKeys(m) <==> IsErased(Current(m, key))
  {
  }

  lemma CountShifts(m: Entries, key: string, x: Timed)
    ensures |ErasedKeys(m[key := x])| == |ErasedKeys(m)| + Shift(Current(m, key), x)
  {
    hide ErasedKeys, IsErased, Current;
    ErasedAfter(m, key, x);
    assert key in ErasedKeys(m) ==> ErasedKeys(m) + {key} == ErasedKeys(m);
  }

  /** The counter is right after every operation, whatever the listeners decide. */
  lemma SetConsistent(t: Tomb, ls: Listeners, key: string, x: Timed, noDiscard: bool)
    requires Consistent(t)
    ensures Consistent(Set(t, ls, key, x, noDiscard).t)
  {
    CountShifts(t.m, key, x);
  }

  lemma EmplaceConsistent(t: Tomb, ls: Listeners, key: string, x: Timed)
    requires Consistent(t)
    ensures Consistent(Emplace(t, ls, key, x).t)
  {
    CountShifts(t.m, key, x);
  }

  lemma {:induction false} EachConsistent(s: EachState, keys: seq<string>, f: OnEach, from: Option<string>,
                                          now: string -> int)
    requires Consistent(s.t) && forall k | k in keys :: k in s.t.m
    ensures Consistent(Each(s, keys, f, from, now).t)
    ensures Each(s, keys, f, from, now).t.m.Keys == s.t.m.Keys
    decreases |keys|
  {
    if keys != [] {
      var (next, stop) := EachOne(s, keys[0], f, from, now(keys[0]));
      if next.t != s.t { CountShifts(s.t.m, keys[0], next.t.m[keys[0]]); }
      if !stop { EachConsistent(next, keys[1..], f, from, now); }
    }
  }

  /** The mutating iteration keeps the counter right, whatever the caller's function and the
      listeners do. */
  lemma ForEachConsistent(t: Tomb, ls: Listeners, f: OnEach, from: Option<string>, now: string -> int)
    requires Consistent(t)
    ensures Consistent(ForEach(t, ls, f, from, now).t)
  {
    EachConsistent(EachState(t, ls, [], false), KeysFrom(t.m, from), f, from, now);
  }

  // The live entries among the keys, in their order.
  ghost function Shown(m: Entries, keys: seq<string>): seq<(string, Timed)>
    requires forall k | k in keys :: k in m
  {
    if keys == [] then []
    else (if IsErased(m[keys[0]]) then [] else [(keys[0], m[keys[0]])]) + Shown(m, keys[1..])
  }

  lemma {:induction false} ShownLocal(m: Entries, n: Entries, keys: seq<string>)
    requires forall k | k in keys :: k in m && k in n && m[k] == n[k]
    ensures Shown(m, keys) == Shown(n, keys)
  {
    if keys != [] {
      assert keys[0] in keys;
      ShownLocal(m, n, keys[1..]);
    }
  }

  ghost predicate NeverStops(f: OnEach) {
    forall h, k, x :: f(h, k, x).0.Next? || f(h, k, x).0.EraseIt?
  }

  ghost predicate Distinct(keys: seq<string>) {
    forall i, j | 0 <= i < j < |keys| :: keys[i] != keys[j]
  }

  // An erased entry ends the iteration only where it is asked for.
  ghost predicate GoesOn(s: EachState, key: string, from: Option<string>)
    requires key in s.t.m
  {
    from.None? || s.found || !IsErased(s.t.m[key])
  }

  /** A caller's function that never stops is shown every live entry once, in order and as it was,
      even while entries change or are erased behind it. */
  lemma {:induction false} EachShowsLive(s: EachState, keys: seq<string>, f: OnEach, from: Option<string>,
                                         now: string -> int)
    requires (forall k | k in keys :: k in s.t.m) && Distinct(keys) && NeverStops(f)
    requires keys != [] ==> GoesOn(s, keys[0], from)
    ensures var r := Each(s, keys, f, from, now);
            r.seen == s.seen + Shown(s.t.m, keys) && (r.found <==> s.found || Shown(s.t.m, keys) != [])
    decreases |keys|
  {
    hide EachOne, Shown, Distinct, NeverStops;
    if keys == [] {
      ShownNothing(s.t.m, keys);
    } else {
      var next := EachOne(s, keys[0], f, from, now(keys[0])).0;
      OneShown(s, keys[0], f, from, now(keys[0]));
      ShownStep(s.t.m, next.t.m, keys);
      EachShowsLive(next, keys[1..], f, from, now);
    }
  }

  lemma ShownNothing(m: Entries, keys: seq<string>)
    requires keys == []
    ensures Shown(m, keys) == []
  {
  }

  lemma ShownStep(m: Entries, o: Entries, keys: seq<string>)
    requires keys != [] && (forall k | k in keys :: k in m) && Distinct(keys)
    requires o.Keys == m.Keys && forall k | k in m && k != keys[0] :: o[k] == m[k]
    ensures (forall k | k in keys[1..] :: k in o) && Distinct(keys[1..])
    ensures Shown(m, keys) == (if IsErased(m[keys[0]]) then [] else [(keys[0], m[keys[0]])]) + Shown(o, keys[1..])
  {
    forall k | k in keys[1..] ensures k in keys && k != keys[0] {
      var i :| 0 <= i < |keys| - 1 && keys[1..][i] == k;
      assert keys[i + 1] == k;
    }
    ShownLocal(m, o, keys[1..]);
  }

  lemma OneShown(s: EachState, key: string, f: OnEach, from: Option<string>, now: int)
    requires key in s.t.m && GoesOn(s, key, from) && NeverStops(f)
    ensures var (next, stop) := EachOne(s, key, f, from, now);
            && !stop && next.t.m.Keys == s.t.m.Keys && (from.None? || next.found)
            && (forall k | k in s.t.m && k != key :: next.t.m[k] == s.t.m[k])
            && next.seen == s.seen + (if IsErased(s.t.m[key]) then [] else [(key, s.t.m[key])])
            && (next.found <==> s.found || !IsErased(s.t.m[key]))
  {
  }

  lemma KeysFromAre(m: Entries, from: Option<string>)
    ensures Order.Sorted(KeysFrom(m, from))
    ensures if from.Some? && (from.value == "" || from.value !in m) then KeysFrom(m, from) == []
            else forall k :: k in KeysFrom(m, from) <==> k in m && Order.FromOn(from, k)
  {
    if from.Some? { Order.SkipToLeaves(Order.SortedKeys(m.Keys), from.value); }
  }

  // The live entries from a key on, in the order of their keys.
  ghost predicate Lists(seen: seq<(string, Timed)>, m: Entries, from: Option<string>) {
    && (forall i, j | 0 <= i < j < |seen| :: Order.Less(seen[i].0, seen[j].0))
    && forall k, x :: (k, x) in seen <==> k in m && !IsErased(m[k]) && m[k] == x && Order.FromOn(from, k)
  }

  lemma {:induction false} ShownAre(m: Entries, keys: seq<string>)
    requires (forall k | k in keys :: k in m) && Order.Sorted(keys)
    ensures forall i, j | 0 <= i < j < |Shown(m, keys)| :: Order.Less(Shown(m, keys)[i].0, Shown(m, keys)[j].0)
    ensures forall k, x :: (k, x) in Shown(m, keys) <==> k in keys && !IsErased(m[k]) && m[k] == x
  {
    if keys != [] {
      ShownAre(m, keys[1..]);
      var rest := Shown(m, keys[1..]);
      forall j | 0 <= j < |rest| ensures Order.Less(keys[0], rest[j].0) {
        assert (rest[j].0, rest[j].1) in rest;
        var i :| 0 <= i < |keys| - 1 && keys[1..][i] == rest[j].0;
        assert keys[i + 1] == rest[j].0;
      }
      assert forall k :: k in keys <==> k == keys[0] || k in keys[1..];
    }
  }

  /** The mutating iteration with a function that never stops: from a live key on, or from the beginning, it shows
      every live entry once, in order and as it was; from a missing or erased key it shows nothing. */
  lemma ForEachShowsLive(t: Tomb, ls: Listeners, f: OnEach, from: Option<string>, now: string -> int)
    requires NeverStops(f) && "" !in t.m
    ensures var r := ForEach(t, ls, f, from, now);
            && (r.found <==> r.seen != [])
            && if from.Some? && (from.value !in t.m || IsErased(t.m[from.value])) then
                 r.seen == [] && r.t == t && r.ls == ls
               else Lists(r.seen, t.m, from)
  {
    hide Each, EachOne, Shown, NeverStops, KeysFrom, IsErased, Lists;
    var keys := KeysFrom(t.m, from);
    var s := EachState(t, ls, [], false);
    KeysBegin(t.m, from);
    if from.Some? && (from.value !in t.m || IsErased(t.m[from.value])) {
      StopsAtOnce(s, keys, f, from, now);
    } else {
      EachShowsLive(s, keys, f, from, now);
      ShownLists(t.m, from);
      assert [] + Shown(t.m, keys) == Shown(t.m, keys);
    }
  }

  lemma KeysBegin(m: Entries, from: Option<string>)
    requires "" !in m
    ensures from.Some? ==>
              var ks := KeysFrom(m, from);
              if from.value in m then ks != [] && ks[0] == from.value else ks == []
    ensures Distinct(KeysFrom(m, from))
  {
    KeysFromAre(m, from);
    if from.Some? && from.value in m { Order.SkipToIt(Order.SortedKeys(m.Keys), from.value); }
    var keys := KeysFrom(m, from);
    forall i, j | 0 <= i < j < |keys| ensures keys[i] != keys[j] {
      if keys[i] == keys[j] { Order.SortedDistinct(keys, i, j); }
    }
  }

  lemma ShownLists(m: Entries, from: Option<string>)
    requires "" !in m && (from.Some? ==> from.value in m)
    ensures Lists(Shown(m, KeysFrom(m, from)), m, from)
  {
    KeysFromAre(m, from);
    ShownAre(m, KeysFrom(m, from));
  }

  lemma StopsAtOnce(s: EachState, keys: seq<string>, f: OnEach, from: Option<string>, now: string -> int)
    requires (forall k | k in keys :: k in s.t.m) && !s.found
    requires keys != [] ==> from == Some(keys[0]) && IsErased(s.t.m[keys[0]])
    ensures Each(s, keys, f, from, now) == s
  {
  }

  /** `Size` (entries minus counter) is the number of live entries, and iteration lists exactly
      those, in key order. */
  lemma SizeCountsLive(t: Tomb)
    requires Consistent(t)
    ensures |t.m| - t.erased == |LiveKeys(t.m)| == |Live(t.m)|
    ensures Order.Sorted(LiveKeys(t.m)) && forall k :: k in LiveKeys(t.m) <==> k in Live(t.m)
  {
    var live := set k | k in t.m && !IsErased(t.m[k]);
    assert t.m.Keys == live + ErasedKeys(t.m);
    assert Live(t.m).Keys == live;
  }

  /** On the live view `Set` is the update of a plain map; setting an erased value removes the key. A
      failed `Set`, vetoed or not, changes neither the entries nor the counter. */
  lemma SetOnLive(t: Tomb, ls: Listeners, key: string, x: Timed, noDiscard: bool)
    ensures var r := Set(t, ls, key, x, noDiscard);
            if !r.ok then r.t == t
            else Live(r.t.m) == if IsErased(x) then Live(t.m) - {key} else Live(t.m)[key := x]
    ensures Set(t, ls, key, x, noDiscard).ok <==>
              key != "" && !Eq(Current(t.m, key).v, x.v) && Allowed(ls, Change(key, Current(t.m, key), x, noDiscard))
    ensures Set(t, ls, key, x, noDiscard).prev == if key == "" then NOTHING else Current(t.m, key)
  {
  }

  // A value that a tombstone cannot be equal to.
  predicate Solid(v: XValue) {
    !v.IsEmpty() && !(v.Str? && v.s[0] == '\0')
  }

  /** Over tombstones `Set` of a solid value succeeds just as on a plain map: unless the live value
      is equal already, or a listener vetoes. */
  lemma SetAsOnPlainMap(t: Tomb, ls: Listeners, key: string, x: Timed)
    requires Solid(x.v) && key != ""
    requires Allowed(ls, Change(key, Current(t.m, key), x, false))
    ensures Set(t, ls, key, x, false).ok <==> !(key in Live(t.m) && Eq(Live(t.m)[key].v, x.v))
  {
    if x.v.Str? { assert StrCmp("", x.v.s) != 0; }
  }

  /** `Emplace` succeeds only where there is no entry at all, live or erased; it answers the entry that is there. */
  lemma EmplaceOnLive(t: Tomb, ls: Listeners, key: string, x: Timed)
    ensures var r := Emplace(t, ls, key, x);
            if !r.ok then r.t == t
            else Live(r.t.m) == if IsErased(x) then Live(t.m) - {key} else Live(t.m)[key := x]
    ensures Emplace(t, ls, key, x).ok <==>
              key != "" && key !in t.m && Allowed(ls, Change(key, NOTHING, x, false))
    ensures Emplace(t, ls, key, x).prev == Current(t.m, key)
  {
  }

  /** `Erase` removes the key from the live view. It reports success for every entry that is not an
      empty value already: also for one that was erased by setting null or the empty string. */
  lemma EraseOnLive(t: Tomb, ls: Listeners, key: string, now: int)
    requires now != Clock.ABSENT
    ensures var r := Erase(t, ls, key, now);
            if !r.ok then r.t == t else Live(r.t.m) == Live(t.m) - {key}
    ensures Erase(t, ls, key, now).ok <==>
              key != "" && key in t.m && t.m[key].v != Empty
              && Allowed(ls, Change(key, Current(t.m, key), Timed(Empty, now), false))
  {
    assert Eq(Current(t.m, key).v, Empty) <==> Current(t.m, key).v == Empty;
  }

  // ----- the container without its time stamps -----

  function Untimed(m: Entries): map<string, XValue> {
    map k | k in m :: m[k].v
  }

  // Every entry has a time.
  ghost predicate Stamped(m: Entries) {
    forall k | k in m :: m[k].time != Clock.ABSENT
  }

  lemma UntimedSet(m: Entries, key: string, x: Timed)
    ensures Untimed(m[key := x]) == Untimed(m)[key := x.v]
  {
  }

  lemma PutForgetsTime(t: Tomb, key: string, x: Timed)
    requires Consistent(t) && Stamped(t.m)
    ensures Boxes.Put(Boxes.MapBox(Untimed(t.m)), Boxes.Name(key), x.v) ==
            (var r := Set(t, map[], key, x, false); Boxes.PutRes(Boxes.MapBox(Untimed(r.t.m)), r.ok, r.prev.v))
  {
    UntimedSet(t.m, key, x);
  }

  lemma EmplaceForgetsTime(t: Tomb, key: string, x: Timed)
    requires Consistent(t) && Stamped(t.m)
    ensures Boxes.Emplace(Boxes.MapBox(Untimed(t.m)), Boxes.Name(key), x.v) ==
            (var r := Emplace(t, map[], key, x); Boxes.EmplaceRes(Boxes.MapBox(Untimed(r.t.m)), r.ok, Boxes.Name(key)))
  {
    UntimedSet(t.m, key, x);
  }

  lemma EraseForgetsTime(t: Tomb, key: string, now: int)
    requires Consistent(t) && Stamped(t.m)
    ensures Boxes.Erase(Boxes.MapBox(Untimed(t.m)), Boxes.Name(key)) ==
            (var r := Erase(t, map[], key, now);
             Boxes.EraseRes(Boxes.MapBox(Untimed(r.t.m)), if r.ok then Some(r.prev.v) else None))
  {
    UntimedSet(t.m, key, Timed(Empty, now));
  }

  lemma LiveKeysForgetTime(m: Entries)
    requires Stamped(m)
    ensures Boxes.LiveKeys(Untimed(m)) == LiveKeys(m)
  {
    assert (set s | s in Untimed(m) && !Untimed(m)[s].IsEmpty()) == (set k | k in m && !IsErased(m[k]));
  }

  /** Without listeners and with all entries stamped, `Set`, `Emplace`, `Erase` and iteration are those
      of the container that the tree operations work on. */
  lemma BoxesForgetTime(t: Tomb, key: string, x: Timed, now: int)
    requires Consistent(t) && Stamped(t.m)
    ensures Boxes.Put(Boxes.MapBox(Untimed(t.m)), Boxes.Name(key), x.v) ==
            (var r := Set(t, map[], key, x, false); Boxes.PutRes(Boxes.MapBox(Untimed(r.t.m)), r.ok, r.prev.v))
    ensures Boxes.Emplace(Boxes.MapBox(Untimed(t.m)), Boxes.Name(key), x.v) ==
            (var r := Emplace(t, map[], key, x); Boxes.EmplaceRes(Boxes.MapBox(Untimed(r.t.m)), r.ok, Boxes.Name(key)))
    ensures Boxes.Erase(Boxes.MapBox(Untimed(t.m)), Boxes.Name(key)) ==
            (var r := Erase(t, map[], key, now);
             Boxes.EraseRes(Boxes.MapBox(Untimed(r.t.m)), if r.ok then Some(r.prev.v) else None))
    ensures Boxes.LiveKeys(Untimed(t.m)) == LiveKeys(t.m)
  {
    hide Set, Emplace, Erase, Boxes.Put, Boxes.Emplace, Boxes.Erase, Boxes.LiveKeys, LiveKeys;
    PutForgetsTime(t, key, x);
    EmplaceForgetsTime(t, key, x);
    EraseForgetsTime(t, key, now);
    LiveKeysForgetTime(t.m);
  }
}
