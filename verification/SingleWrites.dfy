/** `BulkSet` of one node, and a mutating `ForEach` that writes one node, into a map: exactly when the
    agreement is kept, in terms of the entry that is overwritten and of where the node comes from. */
module SingleWrites {
  import opened Wrappers
  import opened XValues
  import opened Boxes
  import opened Holding
  import opened Worlds
  import opened Agreement
  import opened TreeOps
  import opened Forest
  import opened Writings
  import opened Settling
  import opened WriteAgreement
  import opened MapWrites
  import opened MapBatches
  import opened MapCalls
  import Order

  // Over a node, whose detaching takes the new entry away: c must not need it. Elsewhere: c must come
  // from outside and leave its former parent by its new name.
  ghost predicate OneWriteSafe(w: World, p: Id, k: string, c: Id)
    requires Shaped(w) && p in w.box && w.box[p].MapBox? && c in w.parent
  {
    if Current(w.box[p].m, k).Object? then !Joins(w, p, c) else Joins(w, p, c) && NameFree(w, c, k)
  }

  lemma OneWriteIff(w: World, p: Id, k: string, c: Id)
    requires Agree(w) && p in w.parent && w.box[p].MapBox? && c in w.parent && Current(w.box[p].m, k) != Object(c)
    ensures var writes := map[k := Object(c)];
            && Apart(writes) && DifferentParents(w, p, writes)
            && (AllRight(w, p, writes) && AllLeaveFree(w, p, writes) <==> OneWriteSafe(w, p, k, c))
  {
    hide Below, Fits, Owning, RefersTo, NameReaches;
    var writes := map[k := Object(c)];
    assert k in writes && writes[k] == Object(c);
    if w.parent[c] == Some(p) { ChildHasName(w, p, c); }
    assert AllRight(w, p, writes) <==> Right(w, p, writes, k);
    assert AllLeaveFree(w, p, writes) <==> LeavesFree(w, p, writes, k);
  }

  /** `BulkSet` of one node that is neither the map nor above it. */
  lemma BulkSetOneIff(w: World, p: Id, k: string, c: Id)
    requires Agree(w) && Good(w) && p in w.parent && w.box[p].MapBox? && c in w.parent && k != ""
    requires Current(w.box[p].m, k) != Object(c) && ValidChild(w, p, Object(c))
    ensures AllStorable(w, [(Name(k), Object(c))]) && StaysWithin(w, p, [(Name(k), Object(c))])
    ensures Agree(BulkSet(w, p, [(Name(k), Object(c))])) <==> OneWriteSafe(w, p, k, c)
  {
    var kvs := [(Name(k), Object(c))];
    assert !Current(w.box[p].m, k).ConstObject? by { assert Owning(w.box[p]); }
    hide Fits, Owning, RefersTo, Acyclic, SetEach, Settle, LeaveInTurn, AllRight, AllLeaveFree, ValidChild;
    assert Accepted(w, p, w.box[p].m, kvs) == map[k := Object(c)] by {
      assert kvs[1..] == [] && Accepted(w, p, w.box[p].m, kvs[1..]) == map[];
    }
    OneWriteIff(w, p, k, c);
    BulkSetMapIff(w, p, kvs);
  }

  // The caller's function that writes one value and stops.
  function WriteAndStop(v: XValue): OnEach {
    (h: seq<(Key, XValue)>, k: Key, x: XValue) => (Stop, v)
  }

  lemma {:induction false} SkipToFound(ks: seq<string>, k: string)
    requires k in ks
    ensures Order.SkipTo(ks, k) != [] && Order.SkipTo(ks, k)[0] == k
  {
    if ks[0] != k { SkipToFound(ks[1..], k); }
  }

  lemma OneRewrite(m: map<string, XValue>, k: string, c: Id)
    requires k != "" && k in m && !m[k].IsEmpty() && !Eq(Object(c), m[k])
    ensures ForEachWrites(MapBox(m), WriteAndStop(Object(c)), Name(k)) == map[k := Object(c)]
  {
    hide Order.SortedKeys, Order.SkipTo;
    var f := WriteAndStop(Object(c));
    SkipToFound(Order.SortedKeys(m.Keys), k);
    assert FromKey(MapBox(m), Name(k)) == Some(k) && KeysFrom(m, Some(k))[0] == k;
    assert f([], Name(k), m[k]) == (Stop, Object(c));
    assert Outcome(m[k], Stop, Object(c)) == Some(Object(c));
  }

  /** The mutating `ForEach` that begins at a live entry, writes one node there and stops. */
  lemma ForEachOneIff(w: World, p: Id, k: string, c: Id)
    requires Agree(w) && Good(w) && p in w.parent && w.box[p].MapBox? && c in w.parent && k != ""
    requires k in w.box[p].m && !w.box[p].m[k].IsEmpty() && w.box[p].m[k] != Object(c)
    ensures GivesStorable(w, WriteAndStop(Object(c)))
    ensures Agree(ForEach(w, p, WriteAndStop(Object(c)), Name(k))) <==> OneWriteSafe(w, p, k, c)
  {
    assert !w.box[p].m[k].ConstObject? by { assert Owning(w.box[p]); }
    hide Fits, Owning, RefersTo, Acyclic, Settle, LeaveInTurn, AllRight, AllLeaveFree, ForEachWrites;
    OneRewrite(w.box[p].m, k, c);
    OneWriteIff(w, p, k, c);
    ForEachMapIff(w, p, WriteAndStop(Object(c)), Name(k));
  }
}
