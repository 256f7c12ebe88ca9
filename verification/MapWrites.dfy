/** `BulkSet` and the mutating `ForEach` on a map, in terms of the container as it was and of what is written
    into it: an entry that held a displaced node is lost, because that node, detached by its name, takes
    along whatever stands there by then. */
module MapWrites {
  import opened Wrappers
  import opened XValues
  import opened Boxes
  import opened Holding
  import opened Worlds
  import opened Agreement
  import opened TreeOps
  import opened Forest
  import opened Writings
  import opened Settling
  import opened WriteAgreement
  import Order

  // The entry held a node that has gone.
  predicate Lost(m: map<string, XValue>, gone: seq<Id>, s: string) {
    Current(m, s).Object? && Current(m, s).addr in gone
  }

  // What remains of the written container o under s, where m is the container before.
  function Left(m: map<string, XValue>, o: map<string, XValue>, gone: seq<Id>, s: string): XValue {
    if Lost(m, gone, s) then Empty else Current(o, s)
  }

  // ----- what detaching leaves -----

  ghost predicate NameOfGone(u: World, p: Id, gone: seq<Id>, s: string) {
    exists c :: c in gone && c in u.parent && c in u.name && u.parent[c] == Some(p) && u.name[c] == s
  }

  // A child that is detached has a name, and finds something there unless it is not held at all.
  ghost predicate GoesByName(u: World, p: Id, c: Id)
    requires Shaped(u) && p in u.parent && u.box[p].MapBox? && c in u.parent
  {
    u.parent[c] == Some(p) ==>
      u.name[c] != "" && (Current(u.box[p].m, u.name[c]) == Empty ==> HoldsNot(u.box[p], c))
  }

  ghost predicate OwnNames(u: World, p: Id, gone: seq<Id>)
    requires Shaped(u) && forall c | c in gone :: c in u.parent
  {
    forall c, d | c in gone && d in gone && c != d && u.parent[c] == Some(p) && u.parent[d] == Some(p) ::
      u.name[c] != u.name[d]
  }

  lemma ErasedByName(b: Box, c: Id, name: string)
    requires b.MapBox? && Owning(b) && name != "" && (Current(b.m, name) == Empty ==> HoldsNot(b, c))
    ensures ErasedBox(b, c, name).MapBox?
    ensures forall s :: Current(ErasedBox(b, c, name).m, s) == if s == name then Empty else Current(b.m, s)
  {
    if Current(b.m, name) == Empty {
      ErasedBoxIdle(b, c, name);
    } else {
      assert ErasedBox(b, c, name) == MapBox(b.m[name := Empty]);
    }
  }

  lemma NotHeldMeans(m: map<string, XValue>, c: Id)
    ensures HoldsNot(MapBox(m), c) <==> forall s :: Current(m, s) != Object(c)
  {
    if forall s :: Current(m, s) != Object(c) {
      forall s | s in m ensures m[s] != Object(c) { assert Current(m, s) == m[s]; }
    }
  }

  lemma HeldOnceMeans(m: map<string, XValue>, c: Id, name: string)
    ensures HoldsOnce(MapBox(m), c, name) <==> forall s :: Current(m, s) == Object(c) <==> s == name
  {
    if forall s :: Current(m, s) == Object(c) <==> s == name {
      assert Current(m, name) == Object(c);
      forall s | s in m && s != name ensures m[s] != Object(c) { assert Current(m, s) == m[s]; }
    }
  }

  lemma NoneOfGone(u: World, p: Id)
    ensures forall s :: !NameOfGone(u, p, [], s)
  {
  }

  lemma {:induction false} DetachAllLeaves(u: World, p: Id, gone: seq<Id>)
    requires Outside(u, p) && u.box[p].MapBox? && (forall c | c in gone :: c in u.parent && GoesByName(u, p, c))
    requires OwnNames(u, p, gone)
    ensures var v := DetachAll(u, gone);
            && p in v.box && v.box[p].MapBox?
            && forall s :: Current(v.box[p].m, s) ==
                           if NameOfGone(u, p, gone, s) then Empty else Current(u.box[p].m, s)
    decreases |gone|
  {
    hide ParentDetach, ErasedBox, HoldsNot, Fits, Owning, RefersTo, NameOfGone;
    NoneOfGone(u, p);
    if gone != [] {
      var c := gone[0];
      var v := ParentDetach(u, c);
      DetachOutside(u, p, c);
      if u.parent[c] == Some(p) { ErasedByName(u.box[p], c, u.name[c]); }
      forall d | d in gone[1..] ensures d in v.parent && GoesByName(v, p, d) {
        assert d in gone;
        GoesByNameStays(u, v, p, c, d);
      }
      DetachAllLeaves(v, p, gone[1..]);
      forall s ensures NameOfGone(u, p, gone, s) <==>
                         (u.parent[c] == Some(p) && u.name[c] == s) || NameOfGone(v, p, gone[1..], s)
      {
        NameOfGoneStep(u, v, p, gone, s);
      }
    }
  }

  lemma NameOfGoneStep(u: World, v: World, p: Id, gone: seq<Id>, s: string)
    requires Shaped(u) && gone != [] && forall c | c in gone :: c in u.parent
    requires v.parent == u.parent[gone[0] := None] && v.name == u.name
    ensures NameOfGone(u, p, gone, s) <==>
              (u.parent[gone[0]] == Some(p) && u.name[gone[0]] == s) || NameOfGone(v, p, gone[1..], s)
  {
    var c := gone[0];
    if NameOfGone(u, p, gone, s) {
      var d :| d in gone && d in u.parent && d in u.name && u.parent[d] == Some(p) && u.name[d] == s;
      assert d == c || d in gone[1..];
    }
  }

  lemma GoesByNameStays(u: World, v: World, p: Id, c: Id, d: Id)
    requires Shaped(u) && Shaped(v) && p in u.parent && p in v.parent && u.box[p].MapBox? && v.box[p].MapBox?
    requires c in u.parent && d in u.parent && v.parent == u.parent[c := None] && v.name == u.name
    requires GoesByName(u, p, d)
    requires u.parent[c] == Some(p) && u.parent[d] == Some(p) && c != d ==> u.name[c] != u.name[d]
    requires forall s :: Current(v.box[p].m, s) ==
                         if u.parent[c] == Some(p) && s == u.name[c] then Empty else Current(u.box[p].m, s)
    ensures GoesByName(v, p, d)
  {
    NotHeldMeans(u.box[p].m, d);
    NotHeldMeans(v.box[p].m, d);
  }

  // ----- the condition for one node -----

  // A child of p that is displaced and put back elsewhere.
  ghost predicate Returns(w: World, p: Id, x: Writing, c: Id) {
    c in x.touched && c in x.gone && c in w.parent && w.parent[c] == Some(p)
  }

  // No such child leaves its old entry empty; it would be found and taken out by itself.
  ghost predicate NothingBare(w: World, p: Id, x: Writing)
    requires x.box.MapBox?
  {
    forall c | Returns(w, p, x, c) && c in w.name :: Current(x.box.m, w.name[c]) != Empty
  }

  // The node will be adopted: it was given a key, it is no child of p or no longer one, and it is neither p
  // nor above it.
  ghost predicate Enters(w: World, p: Id, x: Writing, c: Id)
    requires c in w.parent
  {
    Given(x.placed, c) && (w.parent[c] != Some(p) || c in x.gone) && !Below(Thin(w.parent, x.gone), p, c)
  }

  // The key that the node must have in the map in the end, if any.
  ghost function Home(w: World, p: Id, x: Writing, c: Id): Option<string>
    requires c in w.parent && c in w.name
  {
    if Enters(w, p, x, c) then Some(NameGiven(x.placed, c, w.name[c]))
    else if w.parent[c] == Some(p) && c !in x.gone then Some(w.name[c])
    else None
  }

  // The node remains under this key and no other.
  ghost predicate MapRight(w: World, p: Id, x: Writing, c: Id)
    requires p in w.box && w.box[p].MapBox? && x.box.MapBox? && c in w.parent && c in w.name
  {
    forall s :: Left(w.box[p].m, x.box.m, x.gone, s) == Object(c) <==> Home(w, p, x, c) == Some(s)
  }

  lemma GoneIsLost(w: World, p: Id, x: Writing, s: string)
    requires Agree(w) && p in w.parent && w.box[p].MapBox? && forall c | c in x.gone :: c in w.parent
    ensures NameOfGone(w, p, x.gone, s) <==> Lost(w.box[p].m, x.gone, s)
  {
    var m := w.box[p].m;
    if NameOfGone(w, p, x.gone, s) {
      var c :| c in x.gone && c in w.parent && c in w.name && w.parent[c] == Some(p) && w.name[c] == s;
      assert Fits(w, p, c);
    }
    if Lost(m, x.gone, s) {
      var c := Current(m, s).addr;
      assert RefersTo(w.box[p], c);
      assert Fits(w, p, c);
    }
  }

  lemma ChildHasName(w: World, p: Id, c: Id)
    requires Agree(w) && p in w.parent && w.box[p].MapBox? && c in w.parent && w.parent[c] == Some(p)
    ensures c in w.name && w.name[c] != "" && Current(w.box[p].m, w.name[c]) == Object(c)
    ensures HoldsOnce(w.box[p], c, w.name[c])
  {
    assert Fits(w, p, c);
    assert Owning(w.box[p]);
  }

  /** The container after the detaching, if no node leaves its old entry empty. */
  lemma CutLeaves(w: World, p: Id, x: Writing)
    requires Agree(w) && p in w.parent && w.box[p].MapBox? && Behaves(w, p, x) && NothingBare(w, p, x)
    ensures var u := Cut(w, p, x);
            && p in u.box && u.box[p].MapBox?
            && forall s :: Current(u.box[p].m, s) == Left(w.box[p].m, x.box.m, x.gone, s)
  {
    hide HoldsOnce, HoldsNot, Fits, Owning, RefersTo, Cleaned, Same, DetachAll;
    var u := WithBox(w, p, x.box);
    assert Cleaned(x.box, x.placed) == x.box by { CleanedMap(x.box, x.placed); }
    WrittenIsOutside(w, p, x);
    forall c | c in x.gone ensures c in u.parent && GoesByName(u, p, c) {
      if w.parent[c] == Some(p) {
        ChildHasName(w, p, c);
        if c !in x.touched { assert Tracked(w.box[p], x.box, x.gone, x.touched, c); }
      }
    }
    forall c, d | c in x.gone && d in x.gone && c != d && u.parent[c] == Some(p) && u.parent[d] == Some(p)
      ensures u.name[c] != u.name[d]
    {
      NamesDiffer(w, p, c, d);
    }
    DetachAllLeaves(u, p, x.gone);
    forall s ensures NameOfGone(u, p, x.gone, s) <==> Lost(w.box[p].m, x.gone, s) {
      GoneIsLost(w, p, x, s);
      assert NameOfGone(u, p, x.gone, s) <==> NameOfGone(w, p, x.gone, s);
    }
  }

  lemma {:induction false} CleanedMap(b: Box, placed: seq<(Id, Key)>)
    requires b.MapBox?
    ensures Cleaned(b, placed) == b
    decreases |placed|
  {
    if placed != [] { CleanedMap(b, placed[1..]); }
  }

  lemma MapStandsIff(w: World, p: Id, x: Writing, c: Id)
    requires Agree(w) && p in w.parent && w.box[p].MapBox? && Behaves(w, p, x) && NothingBare(w, p, x) && c in w.parent
    ensures var u := Cut(w, p, x);
            && p in u.box && c in u.parent && c in u.name && c in w.name
            && (Stands(u, p, x.placed, c) <==> MapRight(w, p, x, c))
  {
    hide Fits, Owning, RefersTo, NothingBare, Tracked, Left, Below, NameGiven, Lost;
    var u := Cut(w, p, x);
    CutLeaves(w, p, x);
    CutOutside(w, p, x);
    assert Joins(u, p, c) <==> (w.parent[c] != Some(p) || c in x.gone) && !Below(Thin(w.parent, x.gone), p, c);
    NotHeldMeans(u.box[p].m, c);
    match Home(w, p, x, c)
    case None =>
    case Some(name) => HeldOnceMeans(u.box[p].m, c, name);
  }

  // Every node that was put in or taken back is right.
  ghost predicate MapSafe(w: World, p: Id, x: Writing)
    requires p in w.box && w.box[p].MapBox? && x.box.MapBox?
  {
    forall c | c in x.touched && c in w.parent && c in w.name :: MapRight(w, p, x, c)
  }

  // ----- leaving the former parents -----

  // The same, but for the container of p.
  ghost predicate SameButFor(u: World, v: World, p: Id) {
    && u.parent == v.parent && u.name == v.name && u.box.Keys == v.box.Keys
    && forall q | q in u.box && q != p :: u.box[q] == v.box[q]
  }

  lemma DetachSameButFor(u: World, v: World, p: Id, c: Id)
    requires Shaped(u) && Shaped(v) && SameButFor(u, v, p) && c in u.parent
    ensures SameButFor(ParentDetach(u, c), ParentDetach(v, c), p)
  {
    hide ErasedBox;
  }

  lemma {:induction false} DetachAllSameButFor(u: World, v: World, p: Id, gone: seq<Id>)
    requires Shaped(u) && Shaped(v) && SameButFor(u, v, p) && forall c | c in gone :: c in u.parent
    ensures SameButFor(DetachAll(u, gone), DetachAll(v, gone), p)
    decreases |gone|
  {
    hide ParentDetach;
    if gone != [] {
      DetachAllShaped(u, [gone[0]]);
      DetachAllShaped(v, [gone[0]]);
      DetachOne(u, gone[0]);
      DetachOne(v, gone[0]);
      DetachSameButFor(u, v, p, gone[0]);
      DetachAllSameButFor(ParentDetach(u, gone[0]), ParentDetach(v, gone[0]), p, gone[1..]);
    }
  }

  lemma AllLeaveStep(u: World, p: Id, placed: seq<(Id, Key)>, leaving: set<Id>)
    requires Shaped(u) && p in u.parent && PlacedKnown(u, placed) && placed != []
    requires KeyFits(u.box[p].MapBox?, placed[0].1)
    ensures var c, name := placed[0].0, KeyName(placed[0].1).GetOr(u.name[placed[0].0]);
            var v := AfterOne(u, p, c, name);
            && Shaped(v) && p in v.parent && PlacedKnown(v, placed[1..]) && v.box[p] == u.box[p]
            && (LeavesNow(u, p, c) ==> u.parent[c].value in u.box)
            && (AllLeave(u, p, placed, leaving) <==>
                  (LeavesNow(u, p, c) ==> TakesOut(u.box[u.parent[c].value], c, name, leaving))
                  && AllLeave(v, p, placed[1..], leaving))
  {
    hide ErasedBox, TakesOut, Below, SetAsChild;
    SetAsChildShaped(u, p, placed[0].0, KeyName(placed[0].1));
    AdoptOne(u, p, placed[0].0, placed[0].1);
  }

  lemma AfterOneSame(u: World, v: World, p: Id, c: Id, name: string)
    requires Shaped(u) && Shaped(v) && SameButFor(u, v, p) && c in u.parent
    ensures SameButFor(AfterOne(u, p, c, name), AfterOne(v, p, c, name), p)
    ensures LeavesNow(u, p, c) <==> LeavesNow(v, p, c)
    ensures LeavesNow(u, p, c) ==>
              && u.parent[c].value in u.box && u.parent[c].value in v.box
              && u.box[u.parent[c].value] == v.box[u.parent[c].value]
  {
    hide ErasedBox, Below;
  }

  // Who leaves does not depend on the container of p.
  lemma {:induction false} AllLeaveSame(u: World, v: World, p: Id, placed: seq<(Id, Key)>, leaving: set<Id>)
    requires Shaped(u) && Shaped(v) && p in u.parent && SameButFor(u, v, p) && PlacedKnown(u, placed)
    requires KeysFit(u.box[p].MapBox?, placed) && u.box[p].MapBox? == v.box[p].MapBox?
    ensures AllLeave(u, p, placed, leaving) <==> AllLeave(v, p, placed, leaving)
    decreases |placed|
  {
    hide ErasedBox, TakesOut, Below, AfterOne, LeavesNow;
    if placed != [] {
      hide AllLeave;
      var c, k := placed[0].0, placed[0].1;
      assert KeyFits(u.box[p].MapBox?, k);
      var name := KeyName(k).GetOr(u.name[c]);
      AllLeaveStep(u, p, placed, leaving);
      AllLeaveStep(v, p, placed, leaving);
      AfterOneSame(u, v, p, c, name);
      AllLeaveSame(AfterOne(u, p, c, name), AfterOne(v, p, c, name), p, placed[1..], leaving);
    }
  }

  // In the order of their turn, the nodes that enter each take one of themselves out of a former parent; the
  // displaced nodes have been detached before.
  ghost predicate LeaveInTurn(w: World, p: Id, x: Writing)
    requires Shaped(w) && p in w.parent && PlacedKnown(w, x.placed) && forall c | c in x.gone :: c in w.parent
  {
    DetachAllShaped(w, x.gone);
    var u := DetachAll(w, x.gone);
    AllLeave(u, p, x.placed, Leaving(u, p, x.placed))
  }

  // The state between the detaching and the adopting, and the one that the detaching alone would leave.
  lemma CutSame(w: World, p: Id, x: Writing)
    requires Agree(w) && p in w.parent && Behaves(w, p, x)
    ensures var u, v := DetachAll(w, x.gone), Cut(w, p, x);
            && Shaped(u) && Shaped(v) && p in u.parent && p in v.parent && SameButFor(u, v, p)
            && PlacedKnown(u, x.placed) && PlacedKnown(v, x.placed)
            && u.box[p].MapBox? == v.box[p].MapBox? == w.box[p].MapBox?
  {
    var v := WithBox(w, p, Cleaned(x.box, x.placed));
    CutOutside(w, p, x);
    hide Fits, Owning, RefersTo, Below, Cleaned, Tracked, DetachAll;
    DetachAllSameButFor(w, v, p, x.gone);
    DetachAllShaped(w, x.gone);
    DetachAllKind(w, p, x.gone);
  }

  lemma LeaveInTurnIff(w: World, p: Id, x: Writing)
    requires Agree(w) && p in w.parent && Behaves(w, p, x)
    ensures Shaped(Cut(w, p, x)) && p in Cut(w, p, x).parent && PlacedKnown(Cut(w, p, x), x.placed)
    ensures AllLeave(Cut(w, p, x), p, x.placed, Leaving(Cut(w, p, x), p, x.placed)) <==> LeaveInTurn(w, p, x)
  {
    hide AllLeave, Fits, Owning, RefersTo, Below, Cleaned, Tracked, DetachAll, Cut;
    var u, v := DetachAll(w, x.gone), Cut(w, p, x);
    CutSame(w, p, x);
    assert Leaving(u, p, x.placed) == Leaving(v, p, x.placed);
    AllLeaveSame(u, v, p, x.placed, Leaving(v, p, x.placed));
  }

  lemma DetachAllKind(w: World, p: Id, gone: seq<Id>)
    requires Agree(w) && p in w.parent && forall c | c in gone :: c in w.parent
    ensures p in DetachAll(w, gone).box && DetachAll(w, gone).box[p].MapBox? == w.box[p].MapBox?
  {
    DetachAllOutside(w, p, gone);
  }

  /** Exactly when a call that writes a map keeps the agreement: every node that was put in remains under the
      key it must have, and all that come from elsewhere leave there. */
  lemma MapWriteIff(w: World, p: Id, x: Writing)
    requires Agree(w) && p in w.parent && w.box[p].MapBox? && Behaves(w, p, x) && NothingBare(w, p, x)
    ensures Agree(Settle(w, p, x)) <==> MapSafe(w, p, x) && LeaveInTurn(w, p, x)
  {
    SettleAgreesIff(w, p, x);
    CutOutside(w, p, x);
    LeaveInTurnIff(w, p, x);
    hide MapRight, Stands, Behaves, NothingBare, LeaveInTurn, AllLeave, Cut, Agree;
    forall c | c in x.touched && c in w.parent
      ensures var u := Cut(w, p, x);
              && p in u.box && c in u.parent && c in u.name && c in w.name
              && (Stands(u, p, x.placed, c) <==> MapRight(w, p, x, c))
    {
      MapStandsIff(w, p, x, c);
    }
  }

  // ----- a node that is lost with its old entry -----

  lemma {:induction false} BareIsDropped(u: World, p: Id, gone: seq<Id>, c: Id, k: string)
    requires Outside(u, p) && u.box[p].MapBox? && (forall d | d in gone :: d in u.parent) && c in gone
    requires u.parent[c] == Some(p) && Current(u.box[p].m, u.name[c]) == Empty && HeldAtMostOnce(u.box[p], c, k)
    ensures p in DetachAll(u, gone).box && HoldsNot(DetachAll(u, gone).box[p], c)
    decreases |gone|
  {
    var d := gone[0];
    var v := ParentDetach(u, d);
    DetachOutside(u, p, d);
    if d == c {
      BareGoes(u.box[p], c, u.name[c], k);
      DetachAllAddsNothing(v, p, gone[1..], c);
    } else {
      assert c in gone[1..];
      if u.parent[d] == Some(p) { ErasedKeepsFew(u.box[p], d, u.name[d], c, k, u.name[c]); }
      BareIsDropped(v, p, gone[1..], c, k);
    }
  }

  lemma BareGoes(b: Box, c: Id, name: string, k: string)
    requires b.MapBox? && Owning(b) && Current(b.m, name) == Empty && HeldAtMostOnce(b, c, k)
    ensures HoldsNot(ErasedBox(b, c, name), c)
  {
    if HoldsNot(b, c) { RemoveFirstIdle(b, c); } else { RemoveFirstRemoves(b, c, k); }
  }

  lemma ErasedKeepsFew(b: Box, d: Id, name: string, c: Id, k: string, bare: string)
    requires b.MapBox? && Owning(b) && HeldAtMostOnce(b, c, k) && Current(b.m, bare) == Empty
    ensures var o := ErasedBox(b, d, name); o.MapBox? && HeldAtMostOnce(o, c, k) && Current(o.m, bare) == Empty
  {
    if Current(b.m, name) != Empty && name != "" {
      assert ErasedBox(b, d, name) == MapBox(b.m[name := Empty]);
    }
  }

  /** A child that is put back under another key, while its old entry is left empty, is lost. */
  lemma BareIsLost(w: World, p: Id, x: Writing, c: Id, k: string)
    requires Agree(w) && Good(w) && p in w.parent && w.box[p].MapBox? && Behaves(w, p, x)
    requires Returns(w, p, x, c) && c in w.name && Given(x.placed, c)
    requires Current(x.box.m, w.name[c]) == Empty && HeldAtMostOnce(x.box, c, k)
    ensures !Agree(Settle(w, p, x))
  {
    var v := WithBox(w, p, x.box);
    assert Cleaned(x.box, x.placed) == x.box by { CleanedMap(x.box, x.placed); }
    WrittenIsOutside(w, p, x);
    BareIsDropped(v, p, x.gone, c, k);
    CutOutside(w, p, x);
    ChildNotAbove(w.parent, p, c);
    ThinNotBelow(w.parent, x.gone, p, c);
    var u := Cut(w, p, x);
    assert Joins(u, p, c) && !Stands(u, p, x.placed, c) by {
      OnceNeedsOne(u.box[p], c, NameGiven(x.placed, c, u.name[c]));
    }
    SettleAgreesIff(w, p, x);
  }

  lemma ChildNotAbove(parent: Parents, p: Id, c: Id)
    requires Closed(parent) && Acyclic(parent) && p in parent && c in parent && parent[c] == Some(p)
    ensures !Below(parent, p, c)
  {
    if Below(parent, p, c) {
      var k: nat :| Up(parent, p, c, k);
      UpExtends(parent, p, c, k);
      NoCycle(parent, p, k + 1);
    }
  }

  // Nobody gets above by detaching others.
  lemma ThinNotBelow(parent: Parents, gone: seq<Id>, p: Id, c: Id)
    requires !Below(parent, p, c)
    ensures !Below(Thin(parent, gone), p, c)
  {
    if Below(Thin(parent, gone), p, c) {
      var k: nat :| Up(Thin(parent, gone), p, c, k);
      ThinUp(parent, gone, p, c, k);
    }
  }

  lemma {:induction false} ThinUp(parent: Parents, gone: seq<Id>, p: Id, c: Id, k: nat)
    requires Up(Thin(parent, gone), p, c, k)
    ensures Up(parent, p, c, k)
    decreases k
  {
    if k > 0 { ThinUp(parent, gone, Thin(parent, gone)[p].value, c, k - 1); }
  }
}
