/** Which entries the mutating iteration of a map visits, and what becomes of them. */
module Visits {
  import opened Wrappers
  import opened XValues
  import opened Boxes
  import opened Writings
  import Order

  // The live keys from the given one on, in their order.
  function LiveFrom(m: map<string, XValue>, from: Option<string>): (ks: seq<string>)
    ensures forall k | k in ks :: k in m
  {
    Order.SortedKeys(set k | k in m && !m[k].IsEmpty() && Order.FromOn(from, k))
  }

  // The entries as they are shown.
  function Entries(m: map<string, XValue>, ks: seq<string>): seq<(Key, XValue)>
    requires forall k | k in ks :: k in m
  {
    seq(|ks|, i requires 0 <= i < |ks| => (Name(ks[i]), m[ks[i]]))
  }

  ghost predicate NeverStops(f: OnEach) {
    forall h, k, v :: !Stops(f(h, k, v).0)
  }

  // The entry of the i-th key is what the caller's function made of its old value, after it had been shown those
  // before it.
  ghost predicate VisitedAt(m: map<string, XValue>, o: map<string, XValue>, ks: seq<string>, i: nat, f: OnEach)
    requires (forall k | k in ks :: k in m) && i < |ks|
  {
    var v := m[ks[i]];
    var (res, given) := f(Entries(m, ks[..i]), Name(ks[i]), v);
    Current(o, ks[i]) == Outcome(v, res, given).GetOr(Empty)
  }

  // The live keys among the given ones.
  function LiveAmong(m: map<string, XValue>, ks: seq<string>): (r: seq<string>)
    requires forall k | k in ks :: k in m
    ensures forall k :: k in r <==> k in ks && !m[k].IsEmpty()
  {
    if ks == [] then []
    else (if m[ks[0]].IsEmpty() then [] else [ks[0]]) + LiveAmong(m, ks[1..])
  }

  lemma {:induction false} LiveAmongSorted(m: map<string, XValue>, ks: seq<string>)
    requires Order.Sorted(ks) && forall k | k in ks :: k in m
    ensures Order.Sorted(LiveAmong(m, ks))
  {
    if ks != [] {
      LiveAmongSorted(m, ks[1..]);
      var rest := LiveAmong(m, ks[1..]);
      forall j | 0 <= j < |rest| ensures Order.Less(ks[0], rest[j]) {
        assert rest[j] in rest;
        var i :| 0 <= i < |ks| - 1 && ks[1..][i] == rest[j];
        assert ks[i + 1] == rest[j];
      }
    }
  }

  lemma KeysFromAre(m: map<string, XValue>, from: Option<string>)
    ensures Order.Sorted(KeysFrom(m, from))
    ensures if from.Some? && (from.value == "" || from.value !in m) then KeysFrom(m, from) == []
            else forall k :: k in KeysFrom(m, from) <==> k in m && Order.FromOn(from, k)
  {
    if from.Some? { Order.SkipToLeaves(Order.SortedKeys(m.Keys), from.value); }
  }

  // The container so far: what is still to come is as it was.
  ghost predicate Ahead(m: map<string, XValue>, b: Box, keys: seq<string>) {
    && b.MapBox? && b.m.Keys == m.Keys && (forall k | k in keys :: k in m && b.m[k] == m[k])
    && Order.Sorted(keys)
  }

  lemma AheadStep(m: map<string, XValue>, b: Box, keys: seq<string>, to: Option<XValue>)
    requires Ahead(m, b, keys) && keys != []
    ensures Ahead(m, b, keys[1..]) && Ahead(m, MapAfter(b, keys[0], to), keys[1..])
    ensures keys[0] !in keys[1..]
  {
    forall i | 0 <= i < |keys| - 1 ensures keys[1..][i] != keys[0] { Order.LessIsStrict(keys[0], keys[i + 1]); }
  }

  // One more entry has been shown.
  lemma EntriesMore(m: map<string, XValue>, done: seq<string>, key: string)
    requires key in m && forall k | k in done :: k in m
    ensures Entries(m, done + [key]) == Entries(m, done) + [(Name(key), m[key])]
    ensures |Entries(m, done)| == |done|
  {
  }

  // The container b has become o: the keys from the n-th on are visited, every other entry is as it was.
  ghost predicate VisitedFrom(m: map<string, XValue>, b: Box, o: Box, live: seq<string>, n: nat, f: OnEach)
    requires (forall k | k in live :: k in m) && n <= |live|
  {
    && b.MapBox? && o.MapBox? && o.m.Keys == m.Keys
    && (forall i | n <= i < |live| :: VisitedAt(m, o.m, live, i, f))
    && forall k | k !in live[n..] :: Current(o.m, k) == Current(b.m, k)
  }

  lemma NoneVisited(m: map<string, XValue>, b: Box, live: seq<string>, n: nat, f: OnEach)
    requires (forall k | k in live :: k in m) && n == |live| && b.MapBox? && b.m.Keys == m.Keys
    ensures VisitedFrom(m, b, b, live, n, f)
  {
  }

  lemma OneVisited(m: map<string, XValue>, b: Box, o: Box, live: seq<string>, n: nat, f: OnEach)
    requires (forall k | k in live :: k in m) && n < |live| && Order.Sorted(live) && b.MapBox?
    requires var (res, given) := f(Entries(m, live[..n]), Name(live[n]), m[live[n]]);
             VisitedFrom(m, MapAfter(b, live[n], Outcome(m[live[n]], res, given)), o, live, n + 1, f)
    ensures VisitedFrom(m, b, o, live, n, f)
  {
    hide Outcome, VisitedAt;
    assert live[n..] == [live[n]] + live[n + 1..];
    assert live[n] !in live[n + 1..] by {
      forall i | n < i < |live| ensures live[i] != live[n] { Order.LessIsStrict(live[n], live[i]); }
    }
    VisitedNow(m, o.m, live, n, f);
  }

  // The keys `live`, of which those before the n-th are done, and those from there on are the live ones of `keys`.
  lemma {:induction false} EachKeyVisits(m: map<string, XValue>, x: Writing, live: seq<string>, n: nat,
                                         keys: seq<string>, f: OnEach, from: Option<string>)
    requires Ahead(m, x.box, keys) && NeverStops(f) && (forall k | k in live :: k in m) && n <= |live|
    requires live[n..] == LiveAmong(m, keys) && Order.Sorted(live)
    requires from.None? || n > 0 || keys == [] || !m[keys[0]].IsEmpty()
    ensures VisitedFrom(m, x.box, EachKey(x, Entries(m, live[..n]), keys, f, from).box, live, n, f)
    decreases |keys|
  {
    hide VisitedFrom, Outcome, NeverStops, Stops, LiveAmong, Ahead, Entries, Order.Sorted;
    AheadMeans(m, x.box, keys);
    if keys == [] {
      NoneLive(m);
      NoneVisited(m, x.box, live, n, f);
    } else {
      var key := keys[0];
      var v := m[key];
      EntriesMore(m, live[..n], key);
      LiveAmongStep(m, keys);
      AheadStep(m, x.box, keys, None);
      if v.IsEmpty() {
        EachKeyVisits(m, x, live, n, keys[1..], f, from);
      } else {
        assert live[n] == live[n..][0] == key && live[n + 1..] == live[n..][1..];
        var (res, given) := f(Entries(m, live[..n]), Name(key), v);
        GoesOn(f, Entries(m, live[..n]), Name(key), v);
        var to := Outcome(v, res, given);
        var y := Noted(x, MapAfter(x.box, key, to), Name(key), v, to);
        AheadStep(m, x.box, keys, to);
        assert live[..n + 1] == live[..n] + [key];
        EachKeyVisits(m, y, live, n + 1, keys[1..], f, from);
        OneVisited(m, x.box, EachKey(y, Entries(m, live[..n + 1]), keys[1..], f, from).box, live, n, f);
      }
    }
  }

  lemma AheadMeans(m: map<string, XValue>, b: Box, keys: seq<string>)
    requires Ahead(m, b, keys)
    ensures b.MapBox? && b.m.Keys == m.Keys && forall k | k in keys :: k in m && k in b.m && b.m[k] == m[k]
  {
  }

  lemma NoneLive(m: map<string, XValue>)
    ensures LiveAmong(m, []) == []
  {
  }

  lemma LiveAmongStep(m: map<string, XValue>, keys: seq<string>)
    requires keys != [] && forall k | k in keys :: k in m
    ensures (forall k | k in keys[1..] :: k in m) && keys[0] in m
    ensures LiveAmong(m, keys) == (if m[keys[0]].IsEmpty() then [] else [keys[0]]) + LiveAmong(m, keys[1..])
  {
  }

  lemma GoesOn(f: OnEach, h: seq<(Key, XValue)>, k: Key, v: XValue)
    requires NeverStops(f)
    ensures !Stops(f(h, k, v).0)
  {
  }

  lemma VisitedNow(m: map<string, XValue>, o: map<string, XValue>, ks: seq<string>, i: nat, f: OnEach)
    requires (forall k | k in ks :: k in m) && i < |ks|
    requires var v := m[ks[i]];
             var (res, given) := f(Entries(m, ks[..i]), Name(ks[i]), v);
             Current(o, ks[i]) == Outcome(v, res, given).GetOr(Empty)
    ensures VisitedAt(m, o, ks, i, f)
  {
  }

  /** The mutating `ForEach` of a map with a function that never stops: from a live key on, or from the beginning, it
      shows every live entry once, in order and as it was, and what the function makes of each is what is there in
      the end; from a missing or erased key it does nothing. */
  lemma ForEachVisits(m: map<string, XValue>, f: OnEach, begin: Key)
    requires "" !in m && NeverStops(f)
    ensures var from := FromKey(MapBox(m), begin);
            var o, live := ForEachWriting(MapBox(m), f, begin).box, LiveFrom(m, from);
            if from.Some? && (from.value !in m || m[from.value].IsEmpty()) then
              o == MapBox(m) && !FindsAny(MapBox(m), begin)
            else
              && VisitedFrom(m, MapBox(m), o, live, 0, f)
              && (FindsAny(MapBox(m), begin) <==> live != [])
  {
    hide EachKey, VisitedFrom, NeverStops, FindsAny, KeysFrom, LiveFrom, Order.Sorted;
    var from := FromKey(MapBox(m), begin);
    var x := Writing(MapBox(m), [], [], {});
    KeysBegin(m, from);
    if from.Some? && (from.value !in m || m[from.value].IsEmpty()) {
      EndsAtOnce(x, KeysFrom(m, from), f, from);
      FindsNothing(m, begin);
    } else {
      var live := LiveFrom(m, from);
      LiveAreThose(m, from);
      assert live[0..] == live && live[..0] == [] && Entries(m, []) == [];
      EachKeyVisits(m, x, live, 0, KeysFrom(m, from), f, from);
      FindsWhenLive(m, begin);
    }
  }

  lemma KeysBegin(m: map<string, XValue>, from: Option<string>)
    requires "" !in m
    ensures from.Some? ==>
              var ks := KeysFrom(m, from);
              if from.value in m then ks != [] && ks[0] == from.value else ks == []
  {
    if from.Some? && from.value in m { Order.SkipToIt(Order.SortedKeys(m.Keys), from.value); }
  }

  lemma LiveAreThose(m: map<string, XValue>, from: Option<string>)
    requires from.Some? ==> from.value != "" && from.value in m
    ensures LiveFrom(m, from) == LiveAmong(m, KeysFrom(m, from)) && Order.Sorted(LiveFrom(m, from))
    ensures Ahead(m, MapBox(m), KeysFrom(m, from))
  {
    KeysFromAre(m, from);
    LiveAmongSorted(m, KeysFrom(m, from));
    Order.SortedIsUnique(LiveAmong(m, KeysFrom(m, from)), LiveFrom(m, from));
  }

  lemma FindsNothing(m: map<string, XValue>, begin: Key)
    requires var from := FromKey(MapBox(m), begin); from.Some? && (from.value !in m || m[from.value].IsEmpty())
    ensures !FindsAny(MapBox(m), begin)
  {
  }

  lemma EndsAtOnce(x: Writing, keys: seq<string>, f: OnEach, from: Option<string>)
    requires x.box.MapBox? && forall k | k in keys :: k in x.box.m
    requires keys != [] ==> from == Some(keys[0]) && x.box.m[keys[0]].IsEmpty()
    ensures EachKey(x, [], keys, f, from) == x
  {
  }

  lemma FindsWhenLive(m: map<string, XValue>, begin: Key)
    requires "" !in m
    requires var from := FromKey(MapBox(m), begin); from.None? || (from.value in m && !m[from.value].IsEmpty())
    ensures FindsAny(MapBox(m), begin) <==> LiveFrom(m, FromKey(MapBox(m), begin)) != []
  {
    var from := FromKey(MapBox(m), begin);
    var live := LiveFrom(m, from);
    if from.Some? {
      assert from.value in live;
    } else {
      if live != [] { assert live[0] in live && live[0] in LiveKeys(m); }
      if LiveKeys(m) != [] { assert LiveKeys(m)[0] in LiveKeys(m) && LiveKeys(m)[0] in live; }
    }
  }
}
