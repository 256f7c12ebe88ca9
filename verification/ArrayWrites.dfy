/** `BulkSet` and the mutating `ForEach` on an array. A written node keeps its slot only if the key that the call
    remembers for it is the position of that slot; otherwise the search for duplicates takes the slot out. */
module ArrayWrites {
  import opened Wrappers
  import opened XValues
  import opened Boxes
  import opened Holding
  import opened Worlds
  import opened Agreement
  import opened TreeOps
  import opened Forest
  import opened Writings
  import opened Settling
  import opened WriteAgreement
  import opened MapWrites
  import opened MapBatches

  // ----- nodes leave for an array -----

  lemma {:induction false} NameStays(placed: seq<(Id, Key)>, c: Id, name: string)
    requires KeysFit(false, placed)
    ensures NameGiven(placed, c, name) == name
    decreases |placed|
  {
    if placed != [] {
      assert KeyFits(false, placed[0].1);
      NameStays(placed[1..], c, name);
    }
  }

  // A node that goes into an array keeps its name, by which its former parent finds it.
  lemma AllLeaveForArray(u: World, p: Id, placed: seq<(Id, Key)>)
    requires Outside(u, p) && PlacedKnown(u, placed) && u.box[p].ArrayBox? && KeysFit(false, placed)
    ensures AllLeave(u, p, placed, Leaving(u, p, placed))
  {
    hide Below, HoldsOnce, HoldsNot, Owning, RefersTo, AllLeave;
    forall c | Given(placed, c) && c in u.parent
      ensures LeavesFreely(u, p, placed, c) && (LeavesNow(u, p, c) ==> c in Leaving(u, p, placed))
    {
      NameStays(placed, c, u.name[c]);
      if LeavesNow(u, p, c) { assert Fits(u, u.parent[c].value, c); }
    }
    FreeNamesLeave(u, p, placed, Leaving(u, p, placed));
  }

  // ----- the condition, in terms of the written container -----

  // No node is put in and displaced as well.
  ghost predicate NoneReturns(x: Writing) {
    forall c | c in x.touched :: c !in x.gone
  }

  // The node will be a child of p.
  ghost predicate Belongs(w: World, p: Id, x: Writing, c: Id)
    requires c in w.parent
  {
    w.parent[c] == Some(p) || (Given(x.placed, c) && !Below(Thin(w.parent, x.gone), p, c))
  }

  // It has one slot if it will be a child of p, and none otherwise.
  ghost predicate ArrayRight(w: World, p: Id, x: Writing, c: Id)
    requires c in w.parent
  {
    var o := Cleaned(x.box, x.placed);
    if Belongs(w, p, x, c) then HoldsOnce(o, c, "") else HoldsNot(o, c)
  }

  lemma ArrayNames(a: seq<XValue>, c: Id, name: string, other: string)
    ensures HoldsOnce(ArrayBox(a), c, name) <==> HoldsOnce(ArrayBox(a), c, other)
  {
  }

  lemma ArrayStandsIff(w: World, p: Id, x: Writing, c: Id)
    requires Agree(w) && p in w.parent && w.box[p].ArrayBox? && Behaves(w, p, x) && c in w.parent && c !in x.gone
    requires HeldAtMostOnce(Cleaned(x.box, x.placed), c, "")
    ensures var u := Cut(w, p, x);
            && p in u.box && c in u.parent && c in u.name && (Stands(u, p, x.placed, c) <==> ArrayRight(w, p, x, c))
  {
    var u, o := Cut(w, p, x), Cleaned(x.box, x.placed);
    var v := WithBox(w, p, o);
    CutOutside(w, p, x);
    WrittenIsOutside(w, p, x);
    CleanedRefers(x.box, x.placed, 0);
    hide Below, Fits, Owning, RefersTo, Cleaned, Tracked, DetachAll;
    if HoldsNot(o, c) {
      DetachAllAddsNothing(v, p, x.gone, c);
      OnceNeedsOne(o, c, "");
      OnceNeedsOne(u.box[p], c, NameGiven(x.placed, c, u.name[c]));
      OnceNeedsOne(u.box[p], c, u.name[c]);
    } else {
      ArrayNames(o.a, c, "", w.name[c]);
      DetachAllKeeps(v, p, x.gone, c);
      ArrayNames(u.box[p].a, c, w.name[c], NameGiven(x.placed, c, u.name[c]));
      if HoldsNot(u.box[p], c) { OnceNeedsOne(u.box[p], c, w.name[c]); }
    }
  }

  /** Exactly when a call that writes an array keeps the agreement, for nodes that are written once. */
  lemma ArrayWriteIff(w: World, p: Id, x: Writing)
    requires Agree(w) && p in w.parent && w.box[p].ArrayBox? && Behaves(w, p, x) && NoneReturns(x)
    requires forall c | c in x.touched && c in w.parent :: HeldAtMostOnce(Cleaned(x.box, x.placed), c, "")
    ensures Agree(Settle(w, p, x)) <==> forall c | c in x.touched && c in w.parent :: ArrayRight(w, p, x, c)
  {
    SettleAgreesIff(w, p, x);
    CutOutside(w, p, x);
    AllLeaveForArray(Cut(w, p, x), p, x.placed);
    hide ArrayRight, Stands, Behaves, AllLeave, Cut, Agree, HeldAtMostOnce, Outside;
    forall c | c in x.touched && c in w.parent
      ensures var u := Cut(w, p, x);
              && p in u.box && c in u.parent && c in u.name && (Stands(u, p, x.placed, c) <==> ArrayRight(w, p, x, c))
    {
      ArrayStandsIff(w, p, x, c);
    }
  }

  // ----- one node into an array -----

  // The node c is written into slot j of g, and the call remembers the key k for it.
  function OneSlot(g: seq<XValue>, j: nat, c: Id, k: Key): Writing
    requires j < |g|
  {
    Writing(ArrayBox(g[j := Object(c)]), NodesOf([g[j]]), [(c, k)], {c})
  }

  lemma SlotTakenOut(a: seq<XValue>, c: Id, k: Key, j: nat)
    requires OnlyAt(a, c, j) && Owning(ArrayBox(a))
    ensures if k == At(j) then RemoveDuplicate(ArrayBox(a), c, k) == ArrayBox(a)
            else HoldsNot(RemoveDuplicate(ArrayBox(a), c, k), c)
  {
    forall i | 0 <= i < |a| ensures Eq(a[i], Object(c)) <==> i == j { EqNode(a[i], c); }
    if k != At(j) {
      var o := RemoveAt(a, j);
      forall i | 0 <= i < |o| ensures o[i] != Object(c) { assert o[i] == a[if i < j then i else i + 1]; }
    }
  }

  // The node has this slot and that, and no other.
  lemma DoubleTakenOut(a: seq<XValue>, c: Id, k: Key, i: nat, j: nat)
    requires i < |a| && j < |a| && i != j && a[i] == a[j] == Object(c) && Owning(ArrayBox(a))
    requires forall l | 0 <= l < |a| && l != i && l != j :: a[l] != Object(c)
    ensures HoldsOnce(RemoveDuplicate(ArrayBox(a), c, k), c, "")
  {
    forall l | 0 <= l < |a| ensures Eq(a[l], Object(c)) <==> l == i || l == j { EqNode(a[l], c); }
    var f := FindNode(a, c, k).value;
    var s := if f == i then j else i;
    var o := RemoveAt(a, f);
    forall l | 0 <= l < |o| ensures o[l] == a[if l < f then l else l + 1] {}
    assert OnlyAt(o, c, if s < f then s else s - 1);
  }

  lemma OneCleaned(x: Writing, c: Id, k: Key)
    requires x.placed == [(c, k)]
    ensures Cleaned(x.box, x.placed) == RemoveDuplicate(x.box, c, k)
    ensures forall d :: Given(x.placed, d) <==> d == c
  {
    assert x.placed[1..] == [] && x.placed[0].0 == c;
    assert Given(x.placed, c);
  }

  lemma OneSlotHeld(w: World, p: Id, g: seq<XValue>, j: nat, c: Id, k: Key)
    requires Agree(w) && p in w.parent && w.box[p].ArrayBox? && w.box[p].a <= g && j < |g| && c in w.parent
    requires (forall i | |w.box[p].a| <= i < |g| :: g[i] == Empty) && g[j] != Object(c)
    ensures Owning(ArrayBox(g)) && Owning(ArrayBox(g[j := Object(c)]))
    ensures var o := RemoveDuplicate(ArrayBox(g[j := Object(c)]), c, k);
            if w.parent[c] == Some(p) || k == At(j) then HoldsOnce(o, c, "") else HoldsNot(o, c)
  {
    var a, n := w.box[p].a, g[j := Object(c)];
    assert Fits(w, p, c) && Owning(w.box[p]);
    forall i | 0 <= i < |g| ensures !g[i].ConstObject? && !n[i].ConstObject? { if i < |a| { assert g[i] == a[i]; } }
    if w.parent[c] == Some(p) {
      var i: nat :| OnlyAt(a, c, i);
      assert g[i] == a[i];
      forall l | 0 <= l < |n| && l != i && l != j ensures n[l] != Object(c) { if l < |a| { assert g[l] == a[l]; } }
      DoubleTakenOut(n, c, k, i, j);
    } else {
      forall l | 0 <= l < |n| && l != j ensures n[l] != Object(c) { if l < |a| { assert g[l] == a[l]; } }
      assert OnlyAt(n, c, j);
      SlotTakenOut(n, c, k, j);
    }
  }

  lemma GoneFromSlot(w: World, p: Id, g: seq<XValue>, j: nat)
    requires Agree(w) && p in w.parent && w.box[p].ArrayBox? && w.box[p].a <= g && j < |g|
    requires forall i | |w.box[p].a| <= i < |g| :: g[i] == Empty
    ensures forall d | d in NodesOf([g[j]]) :: d in w.parent && w.parent[d] == Some(p) && g[j] == Object(d)
  {
    forall d | d in NodesOf([g[j]]) ensures d in w.parent && w.parent[d] == Some(p) && g[j] == Object(d) {
      assert j < |w.box[p].a| && w.box[p].a[j] == Object(d);
      assert RefersTo(w.box[p], d);
      assert Fits(w, p, d);
    }
  }

  /** One node written into one slot: a child of the array only moves; any other node keeps the slot exactly
      when the remembered key is its position, and it must keep it exactly when it is neither p nor above. */
  lemma OneSlotIff(w: World, p: Id, g: seq<XValue>, j: nat, c: Id, k: Key)
    requires Agree(w) && Good(w) && p in w.parent && w.box[p].ArrayBox? && w.box[p].a <= g && j < |g| && c in w.parent
    requires (forall i | |w.box[p].a| <= i < |g| :: g[i] == Empty) && g[j] != Object(c)
    requires Behaves(w, p, OneSlot(g, j, c, k))
    ensures Agree(Settle(w, p, OneSlot(g, j, c, k))) <==>
              w.parent[c] == Some(p) || (k == At(j) <==> !Below(w.parent, p, c))
  {
    hide Behaves, Settle, Below, HoldsOnce, HoldsNot, RemoveDuplicate, Cleaned, Fits, RefersTo, Owning, Acyclic;
    var x := OneSlot(g, j, c, k);
    OneCleaned(x, c, k);
    OneSlotHeld(w, p, g, j, c, k);
    GoneFromSlot(w, p, g, j);
    assert NodesOf([g[j]]) == if g[j].Object? then [g[j].addr] else [];
    ThinKeepsAbove(w.parent, x.gone, p, c);
    ArrayWriteIff(w, p, x);
    if HoldsNot(Cleaned(x.box, x.placed), c) { OnceNeedsOne(Cleaned(x.box, x.placed), c, ""); }
  }

  // ----- nodes from elsewhere -----

  // The remembered key is the position of the node's slot.
  predicate AtKey(a: seq<XValue>, pair: (Id, Key)) {
    pair.1.At? && pair.1.i < |a| && a[pair.1.i] == Object(pair.0)
  }

  ghost predicate HasOneSlot(a: seq<XValue>, c: Id) {
    exists j: nat :: OnlyAt(a, c, j)
  }

  // No node twice in the list, and each has one slot.
  ghost predicate OneSlotEach(a: seq<XValue>, placed: seq<(Id, Key)>) {
    forall i | 0 <= i < |placed| :: HasOneSlot(a, placed[i].0)
  }

  lemma KeyedStays(a: seq<XValue>, pair: (Id, Key))
    requires Owning(ArrayBox(a)) && HasOneSlot(a, pair.0)
    ensures if AtKey(a, pair) then RemoveDuplicate(ArrayBox(a), pair.0, pair.1) == ArrayBox(a)
            else HoldsNot(RemoveDuplicate(ArrayBox(a), pair.0, pair.1), pair.0)
  {
    var j: nat :| OnlyAt(a, pair.0, j);
    SlotTakenOut(a, pair.0, pair.1, j);
  }

  lemma {:induction false} AllKeyedStay(a: seq<XValue>, placed: seq<(Id, Key)>)
    requires Owning(ArrayBox(a)) && OneSlotEach(a, placed) && forall i | 0 <= i < |placed| :: AtKey(a, placed[i])
    ensures Cleaned(ArrayBox(a), placed) == ArrayBox(a)
    decreases |placed|
  {
    if placed != [] {
      assert AtKey(a, placed[0]) && HasOneSlot(a, placed[0].0);
      KeyedStays(a, placed[0]);
      forall i | 0 <= i < |placed| - 1 ensures AtKey(a, placed[1..][i]) && HasOneSlot(a, placed[1..][i].0) {
        assert placed[1..][i] == placed[i + 1];
      }
      AllKeyedStay(a, placed[1..]);
    }
  }

  // The first node whose key is not its position is lost.
  lemma {:induction false} FirstMissed(a: seq<XValue>, placed: seq<(Id, Key)>) returns (c: Id)
    requires Owning(ArrayBox(a)) && OneSlotEach(a, placed) && exists i :: 0 <= i < |placed| && !AtKey(a, placed[i])
    ensures Given(placed, c) && HoldsNot(Cleaned(ArrayBox(a), placed), c)
    decreases |placed|
  {
    var pair := placed[0];
    assert HasOneSlot(a, pair.0);
    KeyedStays(a, pair);
    if AtKey(a, pair) {
      forall i | 0 <= i < |placed| - 1 ensures placed[1..][i] == placed[i + 1] {}
      var i :| 0 <= i < |placed| && !AtKey(a, placed[i]);
      assert !AtKey(a, placed[1..][i - 1]);
      c := FirstMissed(a, placed[1..]);
      GivenStep(placed, c);
    } else {
      c := pair.0;
      var o := RemoveDuplicate(ArrayBox(a), pair.0, pair.1);
      RemoveDuplicateSame(ArrayBox(a), pair.0, pair.1, pair.0 + 1);
      CleanedRefers(o, placed[1..], c);
      NotReferred(o, c);
      NotReferred(Cleaned(o, placed[1..]), c);
      assert placed[0].0 == c;
    }
  }

  // The written nodes come from elsewhere and can become children of p.
  ghost predicate FromElsewhere(w: World, p: Id, placed: seq<(Id, Key)>) {
    forall i | 0 <= i < |placed| ::
      placed[i].0 in w.parent && w.parent[placed[i].0] != Some(p) && !Below(w.parent, p, placed[i].0)
  }

  lemma {:induction false} CleanedKeepsFew(b: Box, placed: seq<(Id, Key)>, c: Id)
    requires b.ArrayBox? && Owning(b) && HeldAtMostOnce(b, c, "")
    ensures HeldAtMostOnce(Cleaned(b, placed), c, "")
    decreases |placed|
  {
    if placed != [] {
      var o := RemoveDuplicate(b, placed[0].0, placed[0].1);
      RemoveDuplicateSame(b, placed[0].0, placed[0].1, placed[0].0 + 1);
      if placed[0].0 != c {
        RemoveDuplicateSame(b, placed[0].0, placed[0].1, c);
      } else if HoldsOnce(b, c, "") {
        KeyedStays(b.a, placed[0]);
      }
      if HoldsNot(b, c) {
        NotReferred(b, c);
        NotReferred(o, c);
        if RefersTo(o, c) { RemoveDuplicateRefers(b, placed[0].0, placed[0].1, c); }
      }
      CleanedKeepsFew(o, placed[1..], c);
    }
  }

  /** Nodes from elsewhere, each in one slot of the written array: exactly when every remembered key is the
      position of its node. */
  lemma ArrayFreshIff(w: World, p: Id, x: Writing)
    requires Agree(w) && p in w.parent && w.box[p].ArrayBox? && Behaves(w, p, x) && NoneReturns(x) && x.box.ArrayBox?
    requires (forall c | c in x.touched :: Given(x.placed, c)) && FromElsewhere(w, p, x.placed)
    requires OneSlotEach(x.box.a, x.placed)
    ensures Agree(Settle(w, p, x)) <==> forall i | 0 <= i < |x.placed| :: AtKey(x.box.a, x.placed[i])
  {
    hide Settle, Below, RemoveDuplicate, Cleaned, Fits, RefersTo, Owning, Tracked;
    forall c | c in x.touched && c in w.parent
      ensures HeldAtMostOnce(Cleaned(x.box, x.placed), c, "") && Belongs(w, p, x, c)
    {
      var i :| 0 <= i < |x.placed| && x.placed[i].0 == c;
      assert HasOneSlot(x.box.a, x.placed[i].0);
      CleanedKeepsFew(x.box, x.placed, c);
      ThinNotBelow(w.parent, x.gone, p, c);
    }
    ArrayWriteIff(w, p, x);
    if forall i | 0 <= i < |x.placed| :: AtKey(x.box.a, x.placed[i]) {
      AllKeyedStay(x.box.a, x.placed);
      forall c | c in x.touched && c in w.parent ensures ArrayRight(w, p, x, c) {
        var i :| 0 <= i < |x.placed| && x.placed[i].0 == c;
        assert HasOneSlot(x.box.a, x.placed[i].0);
      }
    } else {
      var c := FirstMissed(x.box.a, x.placed);
      OnceNeedsOne(Cleaned(x.box, x.placed), c, "");
      assert c in x.touched && !ArrayRight(w, p, x, c);
    }
  }
}
