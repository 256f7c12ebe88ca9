/** The erase-keeping map container carried out step by step: entries and counter are fields, and
    the counter is changed by the callback that `DetectErase_` wraps around the listeners. */
module MapContainer {
  import opened Wrappers
  import opened XValues
  import opened Callbacks
  import opened TimedMaps
  import Clock
  import Order

  class Container {
    var entries: map<string, Timed>
    var erased: int

    constructor ()
      ensures T() == CLEARED && Consistent(T())
    {
      entries, erased := map[], 0;
    }

    ghost function T(): Tomb
      reads this
    {
      Tomb(entries, erased)
    }

    // The listeners of a callback object that may be missing.
    static ghost function Ls(cb: NodeCallbacks?): Listeners
      reads cb
    {
      if cb == null then map[] else cb.callbacks
    }

    static ghost predicate Usable(cb: NodeCallbacks?)
      reads cb
    {
      cb == null || 0 !in cb.callbacks
    }

    static method Ask(cb: NodeCallbacks?, e: Event) returns (ok: bool)
      requires Usable(cb) && e.reason != Rollback
      modifies cb
      ensures Usable(cb) && Ls(cb) == After(old(Ls(cb)), e)
      ensures ok <==> Allowed(old(Ls(cb)), e)
    {
      ok := true;
      if cb != null { ok := cb.DoCallbacks(e); }
    }

    method DetectErase(cb: NodeCallbacks?, e: Event) returns (ok: bool)
      requires Usable(cb) && e.reason != Rollback
      modifies cb, this`erased
      ensures Usable(cb) && Ls(cb) == After(old(Ls(cb)), e)
      ensures ok <==> Allowed(old(Ls(cb)), e)
      ensures erased == old(erased) + if ok then Shift(e.from, e.to) else 0
    {
      ok := Ask(cb, e);
      if ok && !IsErased(e.from) && IsErased(e.to) {
        erased := erased + 1;
      } else if ok && IsErased(e.from) && !IsErased(e.to) {
        erased := erased - 1;
      }
    }

    method Set(key: string, x: Timed, cb: NodeCallbacks?, noDiscard: bool) returns (ok: bool, prev: Timed)
      requires Usable(cb)
      modifies this, cb
      ensures TimedMaps.Set(old(T()), old(Ls(cb)), key, x, noDiscard) == SetRes(T(), Ls(cb), ok, prev)
      ensures Usable(cb)
      ensures old(Consistent(T())) ==> Consistent(T())
    {
      SetKeepsConsistent(T(), Ls(cb), key, x, noDiscard);
      if key == "" { return false, NOTHING; }
      prev := Current(entries, key);
      if Eq(prev.v, x.v) { return false, prev; }
      ok := DetectErase(cb, Change(key, prev, x, noDiscard));
      if ok { entries := entries[key := x]; }
    }

    method Emplace(key: string, x: Timed, cb: NodeCallbacks?) returns (ok: bool, existed: Timed)
      requires Usable(cb)
      modifies this, cb
      ensures TimedMaps.Emplace(old(T()), old(Ls(cb)), key, x) == SetRes(T(), Ls(cb), ok, existed)
      ensures Usable(cb)
      ensures old(Consistent(T())) ==> Consistent(T())
    {
      if Consistent(T()) { EmplaceConsistent(T(), Ls(cb), key, x); }
      if key == "" || key in entries { return false, Current(entries, key); }
      existed := NOTHING;
      ok := DetectErase(cb, Change(key, NOTHING, x, false));
      if ok { entries := entries[key := x]; }
    }

    method Erase(key: string, now: int, cb: NodeCallbacks?) returns (ok: bool, prev: Timed)
      requires Usable(cb)
      modifies this, cb
      ensures TimedMaps.Erase(old(T()), old(Ls(cb)), key, now) == SetRes(T(), Ls(cb), ok, prev)
      ensures Usable(cb)
      ensures old(Consistent(T())) ==> Consistent(T())
    {
      ok, prev := Set(key, Timed(Empty, now), cb, false);
    }

    method Clear()
      modifies this
      ensures T() == CLEARED && Consistent(T())
    {
      entries := map[];
      erased := 0;
    }

    method Size() returns (n: int)
      requires Consistent(T())
      ensures n == |Live(entries)|
    {
      SizeCountsLive(T());
      n := |entries| - erased;
    }

    // One entry of the mutating iteration.
    method VisitOne(key: string, f: OnEach, from: Option<string>, now: int, cb: NodeCallbacks?,
                    seen: seq<(string, Timed)>, found: bool)
      returns (nowSeen: seq<(string, Timed)>, nowFound: bool, stop: bool)
      requires Usable(cb) && key in entries
      modifies this, cb
      ensures EachOne(EachState(old(T()), old(Ls(cb)), seen, found), key, f, from, now) ==
              (EachState(T(), Ls(cb), nowSeen, nowFound), stop)
      ensures Usable(cb) && entries.Keys == old(entries).Keys
    {
      hide Consistent, After, Allowed;
      var cur := entries[key];
      if IsErased(cur) { return seen, found, !found && from == Some(key); }
      nowSeen, nowFound := seen + [(key, cur)], true;
      var (res, val) := f(seen, key, cur);
      if res.EraseIt? || res.EraseStop? {
        var allowed := Ask(cb, Change(key, val, NOTHING, false));
        if allowed { val := Timed(Empty, now); }
      }
      stop := res.EraseStop? || res.Stop?;
      if !Eq(val.v, cur.v) {
        var ok := DetectErase(cb, Change(key, cur, val, false));
        if ok { entries := entries[key := val]; }
      }
    }

    method ForEach(f: OnEach, from: Option<string>, now: string -> int, cb: NodeCallbacks?) returns (found: bool)
      requires Usable(cb)
      modifies this, cb
      ensures var r := TimedMaps.ForEach(old(T()), old(Ls(cb)), f, from, now);
              r.t == T() && r.ls == Ls(cb) && r.found == found
      ensures Usable(cb)
      ensures old(Consistent(T())) ==> Consistent(T())
    {
      hide EachOne, Consistent, IsErased;
      if Consistent(T()) { ForEachConsistent(T(), Ls(cb), f, from, now); }
      var keys := KeysFrom(entries, from);
      ghost var all := Each(EachState(T(), Ls(cb), [], false), keys, f, from, now);
      var seen: seq<(string, Timed)> := [];
      found := false;
      for i := 0 to |keys|
        invariant Usable(cb) && forall k | k in keys :: k in entries
        invariant Each(EachState(T(), Ls(cb), seen, found), keys[i..], f, from, now) == all
      {
        assert keys[i..][0] == keys[i] && keys[i..][1..] == keys[i + 1..] && keys[i] in keys;
        var stop;
        seen, found, stop := VisitOne(keys[i], f, from, now(keys[i]), cb, seen, found);
        if stop { return; }
      }
    }

    /** `ContainerKey_` with index access: counts the index down over the live entries. */
    method KeyAt(index: nat) returns (key: string)
      requires Consistent(T())
      ensures key == if index < |LiveKeys(entries)| then LiveKeys(entries)[index] else ""
    {
      SizeCountsLive(T());
      if index >= |entries| - erased { return ""; }
      LiveAmongAll(entries);
      key := NthLive(entries, Order.SortedKeys(entries.Keys), index);
    }
  }

  method NthLive(m: Entries, keys: seq<string>, index: nat) returns (key: string)
    requires (forall k | k in keys :: k in m) && index < |LiveAmong(m, keys)|
    ensures key == LiveAmong(m, keys)[index]
  {
    hide IsErased, LiveAmong;
    var left: nat := index;
    key := "";
    assert keys[0..] == keys;
    for i := 0 to |keys|
      invariant left < |LiveAmong(m, keys[i..])|
      invariant LiveAmong(m, keys[i..])[left] == LiveAmong(m, keys)[index]
    {
      LiveAmongAt(m, keys, i);
      if !IsErased(m[keys[i]]) {
        if left == 0 { return keys[i]; }
        left := left - 1;
      }
    }
    NoneLive(m, keys[|keys|..]);
  }

  lemma LiveAmongAt(m: Entries, keys: seq<string>, i: nat)
    requires (forall k | k in keys :: k in m) && i < |keys|
    ensures keys[i] in m && forall k | k in keys[i..] || k in keys[i + 1..] :: k in m
    ensures LiveAmong(m, keys[i..]) == (if IsErased(m[keys[i]]) then [] else [keys[i]]) + LiveAmong(m, keys[i + 1..])
  {
    assert keys[i..][0] == keys[i] && keys[i..][1..] == keys[i + 1..] && keys[i] in keys;
  }

  lemma NoneLive(m: Entries, keys: seq<string>)
    requires keys == []
    ensures LiveAmong(m, keys) == []
  {
  }

  lemma SetKeepsConsistent(t: Tomb, ls: Listeners, key: string, x: Timed, noDiscard: bool)
    ensures Consistent(t) ==> Consistent(TimedMaps.Set(t, ls, key, x, noDiscard).t)
  {
    if Consistent(t) { SetConsistent(t, ls, key, x, noDiscard); }
  }

  // The live keys among the given ones, in their order.
  function LiveAmong(m: Entries, ks: seq<string>): (r: seq<string>)
    requires forall k | k in ks :: k in m
    ensures forall k :: k in r <==> k in ks && !IsErased(m[k])
  {
    if ks == [] then []
    else (if IsErased(m[ks[0]]) then [] else [ks[0]]) + LiveAmong(m, ks[1..])
  }

  lemma {:induction false} LiveAmongSorted(m: Entries, ks: seq<string>)
    requires Order.Sorted(ks) && forall k | k in ks :: k in m
    ensures Order.Sorted(LiveAmong(m, ks))
  {
    if ks != [] {
      LiveAmongSorted(m, ks[1..]);
      var rest := LiveAmong(m, ks[1..]);
      forall j | 0 <= j < |rest| ensures Order.Less(ks[0], rest[j]) {
        assert rest[j] in rest;
        var i :| 0 <= i < |ks| - 1 && ks[1..][i] == rest[j];
        assert ks[i + 1] == rest[j];
      }
    }
  }

  /** The live keys are those of the whole iteration that are not erased. */
  lemma LiveAmongAll(m: Entries)
    ensures LiveAmong(m, Order.SortedKeys(m.Keys)) == LiveKeys(m)
  {
    LiveAmongSorted(m, Order.SortedKeys(m.Keys));
    Order.SortedIsUnique(LiveAmong(m, Order.SortedKeys(m.Keys)), LiveKeys(m));
  }
}
