/** `BulkSet` of named pairs and the mutating `ForEach` on a map: what they write, read off the container as it
    was, and exactly when they keep the agreement. */
module MapCalls {
  import opened Wrappers
  import opened XValues
  import opened Boxes
  import opened Holding
  import opened Worlds
  import opened Agreement
  import opened TreeOps
  import opened Forest
  import opened Writings
  import opened Settling
  import opened WriteAgreement
  import opened MapWrites
  import opened MapBatches
  import Order

  // ----- BulkSet -----

  // Named keys that are all different, and no node twice.
  predicate NamedOnce(kvs: seq<(Key, XValue)>) {
    && (forall i | 0 <= i < |kvs| :: kvs[i].0.Name?)
    && forall i, j | 0 <= i < j < |kvs| ::
         kvs[i].0 != kvs[j].0 && (kvs[i].1.Object? ==> kvs[i].1 != kvs[j].1)
  }

  // The pair is stored: the node may be a child, the key is none that a map refuses, and the value is new there.
  ghost predicate Goes(w: World, p: Id, m: map<string, XValue>, pair: (Key, XValue)) {
    && pair.0.Name? && pair.0.s != ""
    && ValidChild(w, p, pair.1) && !Eq(Current(m, pair.0.s), pair.1)
  }

  ghost function Accepted(w: World, p: Id, m: map<string, XValue>, kvs: seq<(Key, XValue)>): Writes {
    if kvs == [] then map[]
    else
      var rest := Accepted(w, p, m, kvs[1..]);
      if Goes(w, p, m, kvs[0]) then rest[kvs[0].0.s := kvs[0].1] else rest
  }

  lemma {:induction false} AcceptedFrom(w: World, p: Id, m: map<string, XValue>, kvs: seq<(Key, XValue)>, s: string)
    requires s in Accepted(w, p, m, kvs)
    ensures exists i :: 0 <= i < |kvs| && kvs[i] == (Name(s), Accepted(w, p, m, kvs)[s]) && Goes(w, p, m, kvs[i])
  {
    hide ValidChild, Eq;
    if Goes(w, p, m, kvs[0]) && kvs[0].0.s == s {
      assert kvs[0].0 == Name(s);
    } else {
      AcceptedFrom(w, p, m, kvs[1..], s);
      var i :| 0 <= i < |kvs| - 1 && Goes(w, p, m, kvs[1..][i])
               && kvs[1..][i] == (Name(s), Accepted(w, p, m, kvs[1..])[s]);
      assert kvs[i + 1] == kvs[1..][i];
    }
  }

  lemma {:induction false} AcceptedAt(w: World, p: Id, m: map<string, XValue>, kvs: seq<(Key, XValue)>, i: nat)
    requires NamedOnce(kvs) && i < |kvs| && Goes(w, p, m, kvs[i])
    ensures kvs[i].0.s in Accepted(w, p, m, kvs) && Accepted(w, p, m, kvs)[kvs[i].0.s] == kvs[i].1
    decreases |kvs|
  {
    if i > 0 {
      NamedRest(kvs);
      assert kvs[1..][i - 1] == kvs[i];
      AcceptedAt(w, p, m, kvs[1..], i - 1);
      assert kvs[0].0 != kvs[i].0;
    }
  }

  lemma NamedRest(kvs: seq<(Key, XValue)>)
    requires NamedOnce(kvs) && kvs != []
    ensures NamedOnce(kvs[1..])
    ensures forall i | 0 <= i < |kvs| - 1 :: kvs[1..][i] == kvs[i + 1] && kvs[1..][i].0 != kvs[0].0
    ensures forall i | 0 <= i < |kvs| - 1 && kvs[0].1.Object? :: kvs[1..][i].1 != kvs[0].1
  {
    forall i | 0 <= i < |kvs| - 1 ensures kvs[1..][i] == kvs[i + 1] {}
  }

  lemma AcceptedApart(w: World, p: Id, m: map<string, XValue>, kvs: seq<(Key, XValue)>)
    requires NamedOnce(kvs)
    ensures Apart(Accepted(w, p, m, kvs)) && "" !in Accepted(w, p, m, kvs)
  {
    var writes := Accepted(w, p, m, kvs);
    forall s, t | s in writes && t in writes && writes[s].Object? && writes[s] == writes[t] ensures s == t {
      AcceptedFrom(w, p, m, kvs, s);
      AcceptedFrom(w, p, m, kvs, t);
      var i :| 0 <= i < |kvs| && kvs[i] == (Name(s), writes[s]) && Goes(w, p, m, kvs[i]);
      var j :| 0 <= j < |kvs| && kvs[j] == (Name(t), writes[t]) && Goes(w, p, m, kvs[j]);
      assert i == j;
    }
    if "" in writes { AcceptedFrom(w, p, m, kvs, ""); }
  }

  // The loop of `BulkSet` has written just that so far.
  ghost predicate Keeps(m: map<string, XValue>, s: Setting, done: Writes) {
    && s.box.MapBox? && !s.overrun && "" !in done && Overwritten(m, s.box.m, done)
    && (forall k | k in done && done[k].Object? :: done[k] != Current(m, k))
    && (forall c :: c in s.gone <==> Displaces(m, done, c))
    && (forall c :: c in s.touched <==> Puts(done, c))
    && (forall c :: c in s.placed <==> Puts(done, c))
    && forall c | c in s.placed :: PlacedBy(done, (c, s.placed[c]))
  }

  lemma DisplacesMore(m: map<string, XValue>, done: Writes, k: string, v: XValue, c: Id)
    requires k !in done
    ensures Displaces(m, done[k := v], c) <==> Displaces(m, done, c) || Current(m, k) == Object(c)
  {
    var more := done[k := v];
    if Displaces(m, done, c) {
      var s :| s in done && Current(m, s) == Object(c);
      assert s in more;
    }
    if Current(m, k) == Object(c) { assert k in more; }
  }

  lemma PutsMore(done: Writes, k: string, v: XValue, c: Id)
    requires k !in done
    ensures Puts(done[k := v], c) <==> Puts(done, c) || v == Object(c)
  {
    var more := done[k := v];
    if Puts(done, c) {
      var s :| s in done && done[s] == Object(c);
      assert s in more && more[s] == Object(c);
    }
    if v == Object(c) { assert k in more && more[k] == Object(c); }
  }

  lemma OverwrittenMore(m: map<string, XValue>, o: map<string, XValue>, done: Writes, k: string, v: XValue)
    requires Overwritten(m, o, done) && k !in done
    ensures Current(o, k) == Current(m, k) && Overwritten(m, o[k := v], done[k := v])
  {
  }

  lemma PlacedByMore(done: Writes, k: string, v: XValue, pair: (Id, Key))
    requires PlacedBy(done, pair) && k !in done
    ensures PlacedBy(done[k := v], pair)
  {
  }

  // The settings before and after a pair that is stored.
  lemma StoredKeeps(m: map<string, XValue>, s: Setting, n: Setting, done: Writes, k: string, v: XValue)
    requires Keeps(m, s, done) && k !in done && k != "" && (v.Object? ==> !Puts(done, v.addr) && v != Current(m, k))
    requires n.box == MapBox(s.box.m[k := v]) && !n.overrun
    requires forall c :: c in n.gone <==> c in s.gone || Current(m, k) == Object(c)
    requires forall c :: c in n.touched <==> c in s.touched || v == Object(c)
    requires n.placed == if v.Object? then s.placed[v.addr := Name(k)] else s.placed
    ensures Keeps(m, n, done[k := v])
  {
    hide Displaces, Puts, Overwritten, PlacedBy, Current;
    var more := done[k := v];
    OverwrittenMore(m, s.box.m, done, k, v);
    forall c ensures c in n.gone <==> Displaces(m, more, c) { DisplacesMore(m, done, k, v, c); }
    forall c ensures (c in n.touched <==> Puts(more, c)) && (c in n.placed <==> Puts(more, c)) {
      PutsMore(done, k, v, c);
    }
    forall c | c in n.placed ensures PlacedBy(more, (c, n.placed[c])) {
      if v == Object(c) { IsPlacedBy(done, k, v, c); } else { PlacedByMore(done, k, v, (c, s.placed[c])); }
    }
  }

  lemma IsPlacedBy(done: Writes, k: string, v: XValue, c: Id)
    requires v == Object(c)
    ensures PlacedBy(done[k := v], (c, Name(k)))
  {
  }

  lemma StoreKeeps(m: map<string, XValue>, s: Setting, done: Writes, k: string, v: XValue)
    requires Keeps(m, s, done) && k !in done && (v.Object? ==> !Puts(done, v.addr))
    ensures Keeps(m, Store(s, (Name(k), v), InHand(v)),
                  if k != "" && !Eq(Current(m, k), v) then done[k := v] else done)
  {
    hide Displaces, Puts, PlacedBy;
    OverwrittenMore(m, s.box.m, done, k, v);
    if k != "" && !Eq(Current(m, k), v) {
      var prev := Current(m, k);
      assert forall c :: c in NodesOf([prev]) <==> prev == Object(c);
      StoredKeeps(m, s, Store(s, (Name(k), v), InHand(v)), done, k, v);
    }
  }

  lemma {:induction false} SetEachKeeps(w: World, p: Id, m: map<string, XValue>, s: Setting, done: Writes,
                                        kvs: seq<(Key, XValue)>)
    requires Keeps(m, s, done) && NamedOnce(kvs)
    requires forall i | 0 <= i < |kvs| :: kvs[i].0.s !in done && (kvs[i].1.Object? ==> !Puts(done, kvs[i].1.addr))
    ensures Keeps(m, SetEach(w, p, s, kvs), done + Accepted(w, p, m, kvs))
    decreases |kvs|
  {
    hide Keeps, Store, Erase, Eq, ValidChild;
    var all := Accepted(w, p, m, kvs);
    if kvs == [] {
      assert done + all == done;
    } else {
      var k, v := kvs[0].0.s, kvs[0].1;
      var rest := Accepted(w, p, m, kvs[1..]);
      NamedRest(kvs);
      assert k !in rest by {
        if k in rest { AcceptedFrom(w, p, m, kvs[1..], k); }
      }
      OneTurnKeeps(w, p, m, s, done, kvs);
      var n := Turn(w, p, s, kvs).0;
      var now := if Goes(w, p, m, kvs[0]) then done[k := v] else done;
      forall i | 0 <= i < |kvs| - 1
        ensures kvs[1..][i].0.s !in now && (kvs[1..][i].1.Object? ==> !Puts(now, kvs[1..][i].1.addr))
      {
        assert kvs[1..][i] == kvs[i + 1];
        if kvs[i + 1].1.Object? { PutsMore(done, k, v, kvs[i + 1].1.addr); }
      }
      SetEachKeeps(w, p, m, n, now, kvs[1..]);
      assert done + all == now + rest;
    }
  }

  lemma OneTurnKeeps(w: World, p: Id, m: map<string, XValue>, s: Setting, done: Writes, kvs: seq<(Key, XValue)>)
    requires Keeps(m, s, done) && kvs != [] && kvs[0].0.Name? && kvs[0].0.s !in done
    requires kvs[0].1.Object? ==> !Puts(done, kvs[0].1.addr)
    ensures Turn(w, p, s, kvs).1 == kvs[1..]
    ensures Keeps(m, Turn(w, p, s, kvs).0,
                  if Goes(w, p, m, kvs[0]) then done[kvs[0].0.s := kvs[0].1] else done)
  {
    hide Store, Eq, ValidChild;
    StoreKeeps(m, s, done, kvs[0].0.s, kvs[0].1);
  }

  lemma BeginKeeps(b: Box)
    requires b.MapBox?
    ensures Keeps(b.m, Begin(b), map[])
  {
  }

  lemma {:induction false} ByAddressPlaces(done: Writes, placed: map<Id, Key>)
    requires forall c | c in placed :: PlacedBy(done, (c, placed[c]))
    ensures forall i | 0 <= i < |ByAddress(placed)| :: PlacedBy(done, ByAddress(placed)[i])
    ensures forall c :: Given(ByAddress(placed), c) <==> c in placed
  {
    var r := ByAddress(placed);
    forall c ensures Given(r, c) <==> c in placed {
      if c in placed {
        assert (c, placed[c]) in r;
        var i :| 0 <= i < |r| && r[i] == (c, placed[c]);
        assert r[i].0 == c;
      }
    }
    forall i | 0 <= i < |r| ensures PlacedBy(done, r[i]) { assert r[i] == (r[i].0, placed[r[i].0]); }
  }

  lemma BulkSetOverwrites(w: World, p: Id, kvs: seq<(Key, XValue)>)
    requires p in w.box && w.box[p].MapBox? && NamedOnce(kvs)
    ensures var writes := Accepted(w, p, w.box[p].m, kvs);
            && StaysWithin(w, p, kvs) && Apart(writes)
            && Overwrites(w.box[p].m, BulkSetWriting(w, p, kvs), writes)
  {
    var m := w.box[p].m;
    var writes := Accepted(w, p, m, kvs);
    BeginKeeps(w.box[p]);
    SetEachKeeps(w, p, m, Begin(w.box[p]), map[], kvs);
    assert map[] + writes == writes;
    AcceptedApart(w, p, m, kvs);
    ByAddressPlaces(writes, SetEach(w, p, Begin(w.box[p]), kvs).placed);
  }

  /** `BulkSet` of named pairs into a map: exactly when the agreement is kept. */
  lemma BulkSetMapIff(w: World, p: Id, kvs: seq<(Key, XValue)>)
    requires Agree(w) && Good(w) && p in w.parent && w.box[p].MapBox? && AllStorable(w, kvs) && NamedOnce(kvs)
    ensures var writes, x := Accepted(w, p, w.box[p].m, kvs), BulkSetWriting(w, p, kvs);
            && StaysWithin(w, p, kvs) && Known(w, x)
            && (Agree(BulkSet(w, p, kvs)) <==> AllRight(w, p, writes) && LeaveInTurn(w, p, x))
            && (DifferentParents(w, p, writes) ==>
                  (Agree(BulkSet(w, p, kvs)) <==> AllRight(w, p, writes) && AllLeaveFree(w, p, writes)))
  {
    hide Fits, Owning, RefersTo, Acyclic, AllRight, AllLeaveFree, LeaveInTurn, Overwrites, SetEach, Apart, Settle;
    var writes, x := Accepted(w, p, w.box[p].m, kvs), BulkSetWriting(w, p, kvs);
    BulkSetOverwrites(w, p, kvs);
    BulkSetBehaves(w, p, kvs);
    OverwritesIff(w, p, x, writes);
    if DifferentParents(w, p, writes) { OverwritesSafeIff(w, p, x, writes); }
  }

  // ----- what follows for a batch -----

  /** A batch of named pairs keeps the agreement if no node of it goes over a node, and every one comes from
      elsewhere, from a parent where its new name is free. Plain values may go anywhere. */
  lemma FreshBatchAgrees(w: World, p: Id, kvs: seq<(Key, XValue)>)
    requires Agree(w) && Good(w) && p in w.parent && w.box[p].MapBox? && AllStorable(w, kvs) && NamedOnce(kvs)
    requires forall i | 0 <= i < |kvs| && kvs[i].1.Object? ::
               var k, c := kvs[i].0.s, kvs[i].1.addr;
               w.parent[c] != Some(p) && !Current(w.box[p].m, k).Object? && NameFree(w, c, k)
    ensures StaysWithin(w, p, kvs) && Agree(BulkSet(w, p, kvs))
  {
    var writes, x := Accepted(w, p, w.box[p].m, kvs), BulkSetWriting(w, p, kvs);
    hide Fits, Owning, RefersTo, Acyclic, Overwrites, SetEach, Settle, LeaveInTurn, Below, NameFree, Eq;
    BulkSetMapIff(w, p, kvs);
    BulkSetBehaves(w, p, kvs);
    BulkSetOverwrites(w, p, kvs);
    forall k | k in writes && writes[k].Object? && writes[k].addr in w.parent && writes[k].addr in w.name
      ensures Right(w, p, writes, k) && LeavesFree(w, p, writes, k)
    {
      AcceptedFrom(w, p, w.box[p].m, kvs, k);
    }
    FreeNodesLeave(w, p, x, writes);
  }

  /** A node from elsewhere that a batch of named pairs stores over a node is lost. */
  lemma OverwrittenNodeBreaks(w: World, p: Id, kvs: seq<(Key, XValue)>, i: nat)
    requires Agree(w) && Good(w) && p in w.parent && w.box[p].MapBox? && AllStorable(w, kvs) && NamedOnce(kvs)
    requires i < |kvs| && Goes(w, p, w.box[p].m, kvs[i]) && kvs[i].1.Object?
    requires Current(w.box[p].m, kvs[i].0.s).Object? && w.parent[kvs[i].1.addr] != Some(p)
    ensures !Agree(BulkSet(w, p, kvs))
  {
    var writes := Accepted(w, p, w.box[p].m, kvs);
    hide Fits, Owning, RefersTo, Acyclic, Overwrites, SetEach, Settle, LeaveInTurn, Below, Eq;
    BulkSetMapIff(w, p, kvs);
    AcceptedAt(w, p, w.box[p].m, kvs, i);
    assert !Right(w, p, writes, kvs[i].0.s);
  }

  // ----- ForEach -----

  // What the caller's function writes over the entries of m, from the first of the keys on.
  ghost function Rewrites(m: map<string, XValue>, shown: seq<(Key, XValue)>, keys: seq<string>, f: OnEach,
                          from: Option<string>): Writes
    requires forall k | k in keys :: k in m
    decreases |keys|
  {
    if keys == [] then map[]
    else
      var v := m[keys[0]];
      if v.IsEmpty() then
        if shown == [] && from == Some(keys[0]) then map[] else Rewrites(m, shown, keys[1..], f, from)
      else
        var (res, given) := f(shown, Name(keys[0]), v);
        var to := Outcome(v, res, given);
        var rest := if Stops(res) then map[] else Rewrites(m, shown + [(Name(keys[0]), v)], keys[1..], f, from);
        if to == Some(v) then rest else rest[keys[0] := to.GetOr(Empty)]
  }

  lemma {:induction false} RewritesAmong(m: map<string, XValue>, shown: seq<(Key, XValue)>, keys: seq<string>,
                                         f: OnEach, from: Option<string>, s: string)
    requires (forall k | k in keys :: k in m) && s in Rewrites(m, shown, keys, f, from)
    ensures s in keys
    decreases |keys|
  {
    if s != keys[0] {
      var v := m[keys[0]];
      if v.IsEmpty() {
        RewritesAmong(m, shown, keys[1..], f, from, s);
      } else {
        RewritesAmong(m, shown + [(Name(keys[0]), v)], keys[1..], f, from, s);
      }
    }
  }

  predicate Different(keys: seq<string>) {
    forall i, j | 0 <= i < j < |keys| :: keys[i] != keys[j]
  }

  lemma DifferentRest(keys: seq<string>)
    requires Different(keys) && keys != []
    ensures Different(keys[1..]) && keys[0] !in keys[1..]
  {
    forall i | 0 <= i < |keys| - 1 ensures keys[1..][i] != keys[0] { assert keys[1..][i] == keys[i + 1]; }
  }

  lemma GivenMore(placed: seq<(Id, Key)>, pair: (Id, Key), c: Id)
    ensures Given(placed + [pair], c) <==> Given(placed, c) || pair.0 == c
  {
    var more := placed + [pair];
    if i :| 0 <= i < |placed| && placed[i].0 == c { assert more[i].0 == c; }
    if pair.0 == c { assert more[|placed|].0 == c; }
  }

  lemma NotedOverwrites(m: map<string, XValue>, x: Writing, done: Writes, k: string, v: XValue, to: Option<XValue>)
    requires Overwrites(m, x, done) && k !in done && k != "" && k in m && m[k] == v && k in x.box.m
    ensures var n := Noted(x, MapAfter(x.box, k, to), Name(k), v, to);
            Overwrites(m, n, if to == Some(v) then done else done[k := to.GetOr(Empty)])
  {
    hide Displaces, Puts, PlacedBy, Given;
    OverwrittenMore(m, x.box.m, done, k, to.GetOr(Empty));
    var n := Noted(x, MapAfter(x.box, k, to), Name(k), v, to);
    if to == Some(v) {
      assert n == x.(box := n.box);
      assert Overwritten(m, n.box.m, done);
    } else {
      var more := done[k := to.GetOr(Empty)];
      forall c ensures c in n.gone <==> Displaces(m, more, c) { DisplacesMore(m, done, k, to.GetOr(Empty), c); }
      forall c ensures (c in n.touched <==> Puts(more, c)) && (Given(n.placed, c) <==> Puts(more, c)) {
        PutsMore(done, k, to.GetOr(Empty), c);
        if to.Some? && to.value.Object? { GivenMore(x.placed, (to.value.addr, Name(k)), c); }
      }
      forall i | 0 <= i < |n.placed| ensures PlacedBy(more, n.placed[i]) {
        if i < |x.placed| {
          PlacedByMore(done, k, to.GetOr(Empty), x.placed[i]);
        } else {
          IsPlacedBy(done, k, to.value, to.value.addr);
        }
      }
    }
  }

  lemma {:induction false} EachKeyOverwrites(m: map<string, XValue>, x: Writing, done: Writes,
                                             shown: seq<(Key, XValue)>, keys: seq<string>, f: OnEach,
                                             from: Option<string>)
    requires Overwrites(m, x, done) && Different(keys) && "" !in keys
    requires forall k | k in keys :: k in m && k in x.box.m && k !in done
    ensures Overwrites(m, EachKey(x, shown, keys, f, from), done + Rewrites(m, shown, keys, f, from))
    decreases |keys|
  {
    hide Overwrites, Outcome, Different;
    var all := Rewrites(m, shown, keys, f, from);
    if keys == [] {
      assert done + all == done;
    } else {
      var k := keys[0];
      var v := m[k];
      DifferentRest(keys);
      SameEntry(m, x, done, k);
      if v.IsEmpty() {
        if shown == [] && from == Some(k) { assert done + all == done; }
        else { EachKeyOverwrites(m, x, done, shown, keys[1..], f, from); }
      } else {
        var (res, given) := f(shown, Name(k), v);
        var to := Outcome(v, res, given);
        var n := Noted(x, MapAfter(x.box, k, to), Name(k), v, to);
        var now := if to == Some(v) then done else done[k := to.GetOr(Empty)];
        NotedOverwrites(m, x, done, k, v, to);
        if Stops(res) {
          assert done + all == now;
        } else {
          var rest := Rewrites(m, shown + [(Name(k), v)], keys[1..], f, from);
          assert k !in rest by {
            if k in rest { RewritesAmong(m, shown + [(Name(k), v)], keys[1..], f, from, k); }
          }
          EachKeyOverwrites(m, n, now, shown + [(Name(k), v)], keys[1..], f, from);
          assert done + all == now + rest;
        }
      }
    }
  }

  lemma SameEntry(m: map<string, XValue>, x: Writing, done: Writes, k: string)
    requires Overwrites(m, x, done) && k in m && k in x.box.m && k !in done
    ensures x.box.MapBox? && x.box.m[k] == m[k]
  {
    assert Current(x.box.m, k) == Current(m, k);
  }

  lemma {:induction false} SkipToDifferent(keys: seq<string>, k: string)
    requires Different(keys)
    ensures Different(Order.SkipTo(keys, k))
  {
    if keys != [] && keys[0] != k {
      DifferentRest(keys);
      SkipToDifferent(keys[1..], k);
    }
  }

  lemma KeysFromDifferent(m: map<string, XValue>, from: Option<string>)
    ensures Different(KeysFrom(m, from))
  {
    var all := Order.SortedKeys(m.Keys);
    SortedDifferent(all);
    if from.Some? { SkipToDifferent(all, from.value); }
  }

  lemma SortedDifferent(keys: seq<string>)
    requires Order.Sorted(keys)
    ensures Different(keys)
  {
    forall i, j | 0 <= i < j < |keys| ensures keys[i] != keys[j] {
      if keys[i] == keys[j] { Order.SortedDistinct(keys, i, j); }
    }
  }

  // What `ForEach` writes into the map of p.
  ghost function ForEachWrites(b: Box, f: OnEach, from: Key): Writes
    requires b.MapBox?
  {
    Rewrites(b.m, [], KeysFrom(b.m, FromKey(b, from)), f, FromKey(b, from))
  }

  lemma NothingOverwritten(b: Box)
    requires b.MapBox?
    ensures Overwrites(b.m, Writing(b, [], [], {}), map[])
  {
  }

  lemma ForEachOverwrites(b: Box, f: OnEach, from: Key)
    requires b.MapBox? && Owning(b)
    ensures Overwrites(b.m, ForEachWriting(b, f, from), ForEachWrites(b, f, from))
  {
    hide Overwrites, EachKey, Rewrites, KeysFrom, Different;
    var x := Writing(b, [], [], {});
    var keys := KeysFrom(b.m, FromKey(b, from));
    KeysFromDifferent(b.m, FromKey(b, from));
    NothingOverwritten(b);
    assert map[] + ForEachWrites(b, f, from) == ForEachWrites(b, f, from);
    EachKeyOverwrites(b.m, x, map[], [], keys, f, FromKey(b, from));
  }

  /** The mutating `ForEach` of a map, with any function that writes no node twice: exactly when the agreement
      is kept. */
  lemma ForEachMapIff(w: World, p: Id, f: OnEach, from: Key)
    requires Agree(w) && Good(w) && p in w.parent && w.box[p].MapBox? && GivesStorable(w, f)
    requires Apart(ForEachWrites(w.box[p], f, from))
    ensures var writes, x := ForEachWrites(w.box[p], f, from), ForEachWriting(w.box[p], f, from);
            && Known(w, x)
            && (Agree(ForEach(w, p, f, from)) <==> AllRight(w, p, writes) && LeaveInTurn(w, p, x))
            && (DifferentParents(w, p, writes) ==>
                  (Agree(ForEach(w, p, f, from)) <==> AllRight(w, p, writes) && AllLeaveFree(w, p, writes)))
  {
    hide Fits, Acyclic, AllRight, AllLeaveFree, LeaveInTurn, Overwrites, Apart, Settle, ForEachWriting, ForEachWrites;
    var writes, x := ForEachWrites(w.box[p], f, from), ForEachWriting(w.box[p], f, from);
    ForEachOverwrites(w.box[p], f, from);
    ForEachBehaves(w, p, f, from);
    OverwritesIff(w, p, x, writes);
    if DifferentParents(w, p, writes) { OverwritesSafeIff(w, p, x, writes); }
  }
}
