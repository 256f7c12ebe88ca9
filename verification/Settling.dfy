/** What detaching and adopting in turn come to, after p's container has been written: parents and names
    are as one expects, but a node that leaves a former parent erases there by its new name. */
module Settling {
  import opened Wrappers
  import opened XValues
  import opened Boxes
  import opened Holding
  import opened Worlds
  import opened Agreement
  import opened TreeOps
  import opened Forest
  import opened Writings

  // Everything agrees but what p's container holds.
  ghost predicate Outside(w: World, p: Id) {
    && Valid(w) && p in w.parent
    && forall x, y {:trigger Fits(w, x, y)} | x in w.parent && y in w.parent && x != p :: Fits(w, x, y)
  }

  // ----- detaching -----

  lemma DetachOutside(w: World, p: Id, c: Id)
    requires Outside(w, p) && c in w.parent
    ensures var v := ParentDetach(w, c);
            && Outside(v, p) && v.parent == w.parent[c := None] && v.name == w.name
            && v.box[p] == if w.parent[c] == Some(p) then ErasedBox(w.box[p], c, w.name[c]) else w.box[p]
  {
    var v := ParentDetach(w, c);
    var q := w.parent[c];
    assert w.name[c := w.name[c]] == w.name;
    if q.None? {
      assert w.parent[c := None] == w.parent;
    } else {
      ErasedKeepsValid(w, v, q.value, c, w.name[c]);
      forall x, y | x in v.parent && y in v.parent && x != p ensures Fits(v, x, y) {
        assert Fits(w, x, y);
        if x == q.value { DetachedFits(w, v, x, c, y); }
      }
    }
  }

  lemma DetachedFits(w: World, v: World, q: Id, c: Id, y: Id)
    requires Valid(w) && q in w.parent && c in w.parent && y in w.parent && w.parent[c] == Some(q)
    requires Fits(w, q, c) && Fits(w, q, y)
    requires v == World(w.parent[c := None], w.name, w.box[q := ErasedBox(w.box[q], c, w.name[c])])
    ensures Fits(v, q, y)
  {
    ErasedBoxIff(w.box[q], c, w.name[c], w.name[c]);
    if y != c { ErasedBoxSame(w.box[q], c, w.name[c], w.name[c], y); }
  }

  // The parents once the nodes of the list have lost theirs.
  ghost function Thin(parent: Parents, gone: seq<Id>): Parents {
    map n | n in parent :: if n in gone then None else parent[n]
  }

  lemma {:induction false} DetachAllOutside(w: World, p: Id, gone: seq<Id>)
    requires Outside(w, p) && forall c | c in gone :: c in w.parent
    ensures var v := DetachAll(w, gone);
            && Outside(v, p) && v.parent == Thin(w.parent, gone) && v.name == w.name
            && v.box[p].MapBox? == w.box[p].MapBox?
    decreases |gone|
  {
    if gone == [] {
      assert Thin(w.parent, gone) == w.parent;
    } else {
      DetachOutside(w, p, gone[0]);
      ErasedBoxOwning(w.box[p], gone[0], w.name[gone[0]]);
      var v := ParentDetach(w, gone[0]);
      hide Outside, ParentDetach;
      DetachAllOutside(v, p, gone[1..]);
      ThinStep(w.parent, gone);
    }
  }

  lemma ThinStep(parent: Parents, gone: seq<Id>)
    requires gone != [] && gone[0] in parent
    ensures Thin(parent[gone[0] := None], gone[1..]) == Thin(parent, gone)
  {
    assert forall n | n in parent :: n in gone <==> n == gone[0] || n in gone[1..];
  }

  lemma ErasedKeepsOther(b: Box, c: Id, name: string, y: Id, before: string)
    requires Owning(b) && HoldsOnce(b, y, before) && y != c && (b.MapBox? ==> name != before)
    ensures HoldsOnce(ErasedBox(b, c, name), y, before)
  {
    RemoveFirstSame(b, c, y);
  }

  // A child that is not detached stays in the container, for no other child has its name.
  lemma {:induction false} DetachAllKeeps(w: World, p: Id, gone: seq<Id>, y: Id)
    requires Outside(w, p) && (forall c | c in gone :: c in w.parent) && y in w.parent && y !in gone
    requires HoldsOnce(w.box[p], y, w.name[y])
    requires forall d | d in w.parent && d != y && w.parent[d] == Some(p) && w.box[p].MapBox? :: w.name[d] != w.name[y]
    ensures p in DetachAll(w, gone).box && HoldsOnce(DetachAll(w, gone).box[p], y, w.name[y])
    decreases |gone|
  {
    if gone != [] {
      var c := gone[0];
      DetachOutside(w, p, c);
      if w.parent[c] == Some(p) {
        ErasedKeepsOther(w.box[p], c, w.name[c], y, w.name[y]);
        ErasedBoxOwning(w.box[p], c, w.name[c]);
      }
      DetachAllKeeps(ParentDetach(w, c), p, gone[1..], y);
    }
  }

  lemma NotReferred(b: Box, c: Id)
    ensures HoldsNot(b, c) <==> !RefersTo(b, c)
  {
  }

  lemma {:induction false} DetachAllAddsNothing(w: World, p: Id, gone: seq<Id>, y: Id)
    requires Outside(w, p) && (forall c | c in gone :: c in w.parent) && HoldsNot(w.box[p], y)
    ensures p in DetachAll(w, gone).box && HoldsNot(DetachAll(w, gone).box[p], y)
    decreases |gone|
  {
    if gone != [] {
      var c := gone[0];
      DetachOutside(w, p, c);
      var v := ParentDetach(w, c);
      NotReferred(w.box[p], y);
      NotReferred(v.box[p], y);
      if RefersTo(v.box[p], y) && w.parent[c] == Some(p) { ErasedBoxRefers(w.box[p], c, w.name[c], y); }
      DetachAllAddsNothing(v, p, gone[1..], y);
    }
  }

  // ----- adopting -----

  // The node will be adopted: it is not a child of p, and neither p nor above p.
  ghost predicate Joins(u: World, p: Id, c: Id)
    requires c in u.parent
  {
    u.parent[c] != Some(p) && !Below(u.parent, p, c)
  }

  predicate Given(placed: seq<(Id, Key)>, c: Id) {
    exists i :: 0 <= i < |placed| && placed[i].0 == c
  }

  // The name a node gets: by the first key it went in under.
  function NameGiven(placed: seq<(Id, Key)>, c: Id, name: string): string
    decreases |placed|
  {
    if placed == [] then name
    else if placed[0].0 == c then KeyName(placed[0].1).GetOr(name)
    else NameGiven(placed[1..], c, name)
  }

  // The keys are such as the container takes.
  ghost predicate KeysFit(isMap: bool, placed: seq<(Id, Key)>) {
    forall i | 0 <= i < |placed| :: KeyFits(isMap, placed[i].1)
  }

  ghost predicate KeyFits(isMap: bool, k: Key) {
    if isMap then k.Name? && k.s != "" else !k.Name?
  }

  // The state after one adoption.
  ghost function AfterOne(u: World, p: Id, c: Id, name: string): World
    requires Shaped(u) && c in u.parent
  {
    if !Joins(u, p, c) then u
    else
      World(u.parent[c := Some(p)], u.name[c := name],
            if u.parent[c].None? then u.box
            else u.box[u.parent[c].value := ErasedBox(u.box[u.parent[c].value], c, name)])
  }

  lemma AdoptOne(u: World, p: Id, c: Id, k: Key)
    requires Shaped(u) && p in u.parent && c in u.parent && KeyFits(u.box[p].MapBox?, k)
    ensures SetAsChild(u, p, c, KeyName(k)) == AfterOne(u, p, c, KeyName(k).GetOr(u.name[c]))
  {
    if Joins(u, p, c) { SetAsChildEffect(u, p, c, KeyName(k)); }
  }

  lemma {:induction false} UpStays(parent: Parents, c: Id, q: Id, n: Id, a: Id, k: nat)
    requires Up(parent, n, a, k) && !Below(parent, n, c) && n in parent && Closed(parent)
    ensures Up(parent[c := Some(q)], n, a, k)
    decreases k
  {
    if k > 0 {
      BelowStep(parent, n, c);
      UpStays(parent, c, q, parent[n].value, a, k - 1);
    }
  }

  // Adopting one node does not change whether another will be adopted.
  lemma JoinsStays(u: World, v: World, p: Id, c: Id, d: Id)
    requires Shaped(u) && p in u.parent && c in u.parent && d in u.parent && c != d && Joins(u, p, c)
    requires v.parent == u.parent[c := Some(p)]
    ensures Joins(v, p, d) <==> Joins(u, p, d)
  {
    if Below(u.parent, p, d) {
      var k: nat :| Up(u.parent, p, d, k);
      UpStays(u.parent, c, p, p, d, k);
    } else {
      NotBelowAfterReparent(u.parent, c, p, p, d);
    }
  }

  lemma GivenStep(placed: seq<(Id, Key)>, c: Id)
    requires placed != []
    ensures Given(placed, c) <==> placed[0].0 == c || Given(placed[1..], c)
  {
    if i :| 0 <= i < |placed| && placed[i].0 == c { if i > 0 { assert placed[1..][i - 1].0 == c; } }
    if i :| 0 <= i < |placed[1..]| && placed[1..][i].0 == c { assert placed[i + 1].0 == c; }
  }

  // Parent and name that c ends up with.
  ghost predicate EndsUp(u: World, v: World, p: Id, placed: seq<(Id, Key)>, c: Id)
    requires c in u.parent && c in u.name
  {
    && c in v.parent && c in v.name
    && v.parent[c] == (if Given(placed, c) && Joins(u, p, c) then Some(p) else u.parent[c])
    && v.name[c] == (if Given(placed, c) && Joins(u, p, c) then NameGiven(placed, c, u.name[c]) else u.name[c])
  }

  lemma {:induction false} AdoptedEndsUp(u: World, p: Id, placed: seq<(Id, Key)>, c: Id)
    requires Shaped(u) && p in u.parent && PlacedKnown(u, placed) && KeysFit(u.box[p].MapBox?, placed) && c in u.parent
    ensures EndsUp(u, AdoptInTurn(u, p, placed), p, placed, c)
    decreases |placed|
  {
    if placed != [] {
      var d, k := placed[0].0, placed[0].1;
      var v := SetAsChild(u, p, d, KeyName(k));
      AdoptOne(u, p, d, k);
      SetAsChildShaped(u, p, d, KeyName(k));
      GivenStep(placed, c);
      assert v.box[p] == u.box[p];
      hide SetAsChild, Joins, Shaped;
      AdoptedEndsUp(v, p, placed[1..], c);
      EndsUpStep(u, v, AdoptInTurn(v, p, placed[1..]), p, placed, c);
    }
  }

  lemma EndsUpStep(u: World, v: World, o: World, p: Id, placed: seq<(Id, Key)>, c: Id)
    requires Shaped(u) && p in u.parent && PlacedKnown(u, placed) && placed != [] && c in u.parent && Shaped(v)
    requires var d := placed[0].0;
             if Joins(u, p, d) then
               v.parent == u.parent[d := Some(p)] && v.name == u.name[d := KeyName(placed[0].1).GetOr(u.name[d])]
             else v == u
    requires c in v.parent && EndsUp(v, o, p, placed[1..], c)
    ensures EndsUp(u, o, p, placed, c)
  {
    GivenStep(placed, c);
    var d := placed[0].0;
    if Joins(u, p, d) && c != d { JoinsStays(u, v, p, d, c); }
  }

  lemma {:induction false} AdoptedBox(u: World, p: Id, placed: seq<(Id, Key)>)
    requires Shaped(u) && p in u.parent && PlacedKnown(u, placed) && KeysFit(u.box[p].MapBox?, placed)
    ensures var v := AdoptInTurn(u, p, placed); v.box.Keys == u.box.Keys && v.box[p] == u.box[p]
    decreases |placed|
  {
    hide SetAsChild, Closed;
    if placed != [] {
      var d, k := placed[0].0, placed[0].1;
      assert KeyFits(u.box[p].MapBox?, k);
      AdoptOne(u, p, d, k);
      SetAsChildShaped(u, p, d, KeyName(k));
      AdoptedBox(SetAsChild(u, p, d, KeyName(k)), p, placed[1..]);
    }
  }

  // ----- leaving the former parents -----

  // What erasing the node c under the name it carries now takes out of a container.
  ghost function Taken(b: Box, c: Id, name: string): Option<XValue> {
    if b.MapBox? && name != "" && Current(b.m, name) != Empty then Some(Current(b.m, name))
    else if RefersTo(b, c) then Some(Object(c))
    else None
  }

  lemma TakenGoes(b: Box, c: Id, name: string, y: Id, before: string)
    requires Owning(b) && (HoldsOnce(b, y, before) || HoldsNot(b, y))
    ensures Taken(b, c, name) == Some(Object(y)) ==> HoldsNot(ErasedBox(b, c, name), y)
    ensures Taken(b, c, name) != Some(Object(y)) ==> Same(b, ErasedBox(b, c, name), y)
  {
    NotReferred(b, y);
    if b.MapBox? && name != "" && Current(b.m, name) != Empty {
      assert ErasedBox(b, c, name) == MapBox(b.m[name := Empty]);
    } else {
      assert ErasedBox(b, c, name) == RemoveFirst(b, c);
      if y != c {
        RemoveFirstSame(b, c, y);
      } else if HoldsNot(b, c) {
        RemoveFirstIdle(b, c);
      } else {
        RemoveFirstRemoves(b, c, before);
      }
    }
  }

  // At its turn each node that leaves a former parent takes out itself or another one that leaves too:
  // by its new name, or, where that leads to nothing, by itself.
  ghost predicate AllLeave(u: World, p: Id, placed: seq<(Id, Key)>, leaving: set<Id>)
    requires Shaped(u) && p in u.parent && PlacedKnown(u, placed)
    decreases |placed|
  {
    placed == [] ||
    (var c, k := placed[0].0, placed[0].1;
     SetAsChildShaped(u, p, c, KeyName(k));
     && (Joins(u, p, c) && u.parent[c].Some? ==>
           TakesOut(u.box[u.parent[c].value], c, KeyName(k).GetOr(u.name[c]), leaving))
     && AllLeave(SetAsChild(u, p, c, KeyName(k)), p, placed[1..], leaving))
  }

  ghost predicate TakesOut(b: Box, c: Id, name: string, leaving: set<Id>) {
    var t := Taken(b, c, name);
    t.Some? && t.value.Object? && t.value.addr in leaving
  }

  ghost function Leaving(u: World, p: Id, placed: seq<(Id, Key)>): set<Id> {
    set c | c in u.parent && Given(placed, c) && Joins(u, p, c) && u.parent[c].Some?
  }

  // In the middle of the adoptions that began in the state s: who of the leaving nodes has been adopted,
  // and who is still held by its former parent.
  ghost predicate Midway(s: World, u: World, p: Id, placed: seq<(Id, Key)>, leaving: set<Id>) {
    && Valid(u) && p in u.parent && PlacedKnown(u, placed) && KeysFit(u.box[p].MapBox?, placed)
    && u.parent.Keys == s.parent.Keys == s.name.Keys && leaving <= s.parent.Keys
    && (forall c | c in leaving :: MidwayAt(s, u, p, placed, c))
    && forall c | c in u.parent && Given(placed, c) && Joins(u, p, c) && u.parent[c].Some? :: c in leaving
  }

  ghost predicate MidwayAt(s: World, u: World, p: Id, placed: seq<(Id, Key)>, c: Id)
    requires c in s.parent && c in u.parent && c in s.name && c in u.name
  {
    && s.parent[c].Some? && s.parent[c] != Some(p) && s.parent[c].value in u.box
    && (u.parent[c] == Some(p) || (u.parent[c] == s.parent[c] && Given(placed, c) && Joins(u, p, c)))
    && (HoldsOnce(u.box[s.parent[c].value], c, s.name[c]) || HoldsNot(u.box[s.parent[c].value], c))
    && forall q | q in u.box && q != p && s.parent[c] != Some(q) :: HoldsNot(u.box[q], c)
  }

  ghost predicate StillHeld(s: World, u: World, c: Id) {
    c in s.parent && s.parent[c].Some? && s.parent[c].value in u.box && RefersTo(u.box[s.parent[c].value], c)
  }

  ghost function Held(s: World, u: World, leaving: set<Id>): set<Id> {
    set c | c in leaving && StillHeld(s, u, c)
  }

  ghost function Unmoved(u: World, p: Id, leaving: set<Id>): set<Id> {
    set c | c in leaving && c in u.parent && u.parent[c] != Some(p)
  }

  // The first of the pairs is a node that now leaves its former parent q, or it changes nothing there.
  ghost predicate LeavesNow(u: World, p: Id, c: Id)
    requires c in u.parent
  {
    Joins(u, p, c) && u.parent[c].Some?
  }

  // The adoption of one node c, seen from a node d that leaves.
  lemma MidwayAtStep(s: World, u: World, p: Id, placed: seq<(Id, Key)>, name: string, d: Id)
    requires Shaped(u) && p in u.parent && PlacedKnown(u, placed) && placed != []
    requires d in s.parent && d in s.name && d in u.parent && MidwayAt(s, u, p, placed, d)
    requires LeavesNow(u, p, placed[0].0) ==> Owning(u.box[u.parent[placed[0].0].value])
    ensures var c := placed[0].0;
            var v := AfterOne(u, p, c, name);
            && d in v.parent && d in v.name && MidwayAt(s, v, p, placed[1..], d)
            && (StillHeld(s, v, d) <==>
                  StillHeld(s, u, d)
                  && !(LeavesNow(u, p, c) && Taken(u.box[u.parent[c].value], c, name) == Some(Object(d))))
  {
    var c := placed[0].0;
    var v := AfterOne(u, p, c, name);
    hide HoldsOnce, HoldsNot, RefersTo, Taken, Below, ErasedBox, Owning, Given;
    GivenStep(placed, d);
    if Joins(u, p, c) && c != d { JoinsStays(u, v, p, c, d); }
    if LeavesNow(u, p, c) { BoxStep(s.parent[d].value, s.name[d], u.box, u.parent[c].value, p, c, name, d); }
  }

  // d is held at most by its home; what c takes out of the container of q is d or not.
  lemma BoxStep(home: Id, before: string, box: map<Id, Box>, q: Id, p: Id, c: Id, name: string, d: Id)
    requires home in box && q in box && home != p && q != p && Owning(box[q])
    requires HoldsOnce(box[home], d, before) || HoldsNot(box[home], d)
    requires forall r | r in box && r != p && r != home :: HoldsNot(box[r], d)
    ensures var after := box[q := ErasedBox(box[q], c, name)];
            && (HoldsOnce(after[home], d, before) || HoldsNot(after[home], d))
            && (forall r | r in after && r != p && r != home :: HoldsNot(after[r], d))
            && (RefersTo(after[home], d) <==> RefersTo(box[home], d) && Taken(box[q], c, name) != Some(Object(d)))
  {
    var after := box[q := ErasedBox(box[q], c, name)];
    NotReferred(box[home], d);
    NotReferred(after[home], d);
    NotReferred(box[q], d);
    if Taken(box[q], c, name) == Some(Object(d)) { TakenIsThere(box[q], c, name, d); }
    assert HoldsOnce(box[q], d, before) || HoldsNot(box[q], d);
    TakenGoes(box[q], c, name, d, before);
    OnceIsReferred(box[q], d, before);
    OnceIsReferred(after[q], d, before);
    hide HoldsOnce, HoldsNot, RefersTo, Taken, ErasedBox, Owning;
  }

  lemma OnceIsReferred(b: Box, c: Id, name: string)
    ensures HoldsOnce(b, c, name) ==> RefersTo(b, c)
  {
  }

  lemma TakenIsThere(b: Box, c: Id, name: string, d: Id)
    requires Taken(b, c, name) == Some(Object(d))
    ensures RefersTo(b, d)
  {
  }

  lemma AdoptKeepsValid(u: World, p: Id, c: Id, name: string)
    requires Valid(u) && p in u.parent && c in u.parent
    ensures Valid(AfterOne(u, p, c, name)) && AfterOne(u, p, c, name).parent.Keys == u.parent.Keys
    ensures p in AfterOne(u, p, c, name).box && AfterOne(u, p, c, name).box[p] == u.box[p]
  {
    hide ErasedBox;
    if LeavesNow(u, p, c) { ErasedKeepsValid(u, AfterOne(u, p, c, name), u.parent[c].value, c, name); }
  }

  lemma MidwayMeans(s: World, u: World, p: Id, placed: seq<(Id, Key)>, leaving: set<Id>)
    requires Midway(s, u, p, placed, leaving) && placed != []
    ensures Shaped(u) && p in u.parent && PlacedKnown(u, placed) && KeyFits(u.box[p].MapBox?, placed[0].1)
    ensures u.parent.Keys == s.parent.Keys == s.name.Keys && leaving <= s.parent.Keys
    ensures LeavesNow(u, p, placed[0].0) ==>
              && placed[0].0 in leaving && u.parent[placed[0].0].value in u.box
              && Owning(u.box[u.parent[placed[0].0].value])
  {
    assert Given(placed, placed[0].0);
  }

  lemma MidwayOf(s: World, u: World, p: Id, placed: seq<(Id, Key)>, leaving: set<Id>, d: Id)
    requires Midway(s, u, p, placed, leaving) && d in leaving
    ensures d in s.parent && d in u.parent && d in s.name && d in u.name && MidwayAt(s, u, p, placed, d)
  {
  }

  lemma MidwayStep(s: World, u: World, p: Id, placed: seq<(Id, Key)>, leaving: set<Id>, name: string)
    requires Midway(s, u, p, placed, leaving) && placed != []
    ensures Midway(s, AfterOne(u, p, placed[0].0, name), p, placed[1..], leaving)
  {
    hide MidwayAt, Valid, Given, Joins, Owning, Below, AfterOne, Shaped;
    var c := placed[0].0;
    MidwayMeans(s, u, p, placed, leaving);
    var v := AfterOne(u, p, c, name);
    AdoptKeepsValid(u, p, c, name);
    forall d | d in leaving
      ensures d in s.parent && d in v.parent && d in s.name && d in v.name && MidwayAt(s, v, p, placed[1..], d)
    {
      MidwayOf(s, u, p, placed, leaving, d);
      MidwayAtStep(s, u, p, placed, name, d);
    }
    forall d | d in v.parent && Given(placed[1..], d) && LeavesNow(v, p, d) ensures d in leaving {
      LaterLeaves(u, p, placed, name, d);
    }
  }

  lemma LaterLeaves(u: World, p: Id, placed: seq<(Id, Key)>, name: string, d: Id)
    requires Shaped(u) && p in u.parent && PlacedKnown(u, placed) && placed != [] && d in u.parent
    requires var v := AfterOne(u, p, placed[0].0, name); d in v.parent && Given(placed[1..], d) && LeavesNow(v, p, d)
    ensures Given(placed, d) && LeavesNow(u, p, d)
  {
    var c := placed[0].0;
    GivenStep(placed, d);
    if Joins(u, p, c) && c != d { JoinsStays(u, AfterOne(u, p, c, name), p, c, d); }
  }

  // Each step that lets a node leave moves one node, and takes at most one node out: one that leaves,
  // or else none of them.
  lemma CountStep(s: World, u: World, p: Id, placed: seq<(Id, Key)>, leaving: set<Id>, name: string)
    requires Midway(s, u, p, placed, leaving) && placed != []
    ensures var c := placed[0].0;
            var v := AfterOne(u, p, c, name);
            if LeavesNow(u, p, c) then
              && |Unmoved(v, p, leaving)| == |Unmoved(u, p, leaving)| - 1
              && |Held(s, v, leaving)| ==
                 |Held(s, u, leaving)| - if TakesOut(u.box[u.parent[c].value], c, name, leaving) then 1 else 0
            else Unmoved(v, p, leaving) == Unmoved(u, p, leaving) && Held(s, v, leaving) == Held(s, u, leaving)
  {
    hide Midway, MidwayAt, Valid, Given, Owning, Below, StillHeld, Taken, ErasedBox, TakesOut, Shaped,
         PlacedKnown, KeysFit;
    var c := placed[0].0;
    MidwayMeans(s, u, p, placed, leaving);
    var v := AfterOne(u, p, c, name);
    NotLeaving(s, u, p, placed, leaving);
    forall d | d in leaving
      ensures StillHeld(s, v, d) <==>
              StillHeld(s, u, d) && !(LeavesNow(u, p, c) && Taken(u.box[u.parent[c].value], c, name) == Some(Object(d)))
    {
      MidwayOf(s, u, p, placed, leaving, d);
      MidwayAtStep(s, u, p, placed, name, d);
    }
    if LeavesNow(u, p, c) {
      CountLeaves(s, u, v, p, c, name, placed, leaving);
    } else {
      assert Unmoved(v, p, leaving) == Unmoved(u, p, leaving);
    }
  }

  // A root that joins is none of those that leave.
  lemma NotLeaving(s: World, u: World, p: Id, placed: seq<(Id, Key)>, leaving: set<Id>)
    requires Midway(s, u, p, placed, leaving) && placed != []
    ensures var c := placed[0].0; c in u.parent && Joins(u, p, c) && !LeavesNow(u, p, c) ==> c !in leaving
  {
    if placed[0].0 in leaving { MidwayOf(s, u, p, placed, leaving, placed[0].0); }
  }

  lemma CountLeaves(s: World, u: World, v: World, p: Id, c: Id, name: string, placed: seq<(Id, Key)>, leaving: set<Id>)
    requires Midway(s, u, p, placed, leaving) && c in leaving && c in u.parent && LeavesNow(u, p, c)
    requires v.parent == u.parent[c := Some(p)] && u.parent[c].value in u.box
    requires forall d | d in leaving ::
               StillHeld(s, v, d) <==> StillHeld(s, u, d) && Taken(u.box[u.parent[c].value], c, name) != Some(Object(d))
    ensures |Unmoved(v, p, leaving)| == |Unmoved(u, p, leaving)| - 1
    ensures |Held(s, v, leaving)| ==
            |Held(s, u, leaving)| - if TakesOut(u.box[u.parent[c].value], c, name, leaving) then 1 else 0
  {
    hide Midway, Taken, RefersTo, HoldsOnce, HoldsNot, Below, Shaped, Valid, Given;
    var q := u.parent[c].value;
    var t := Taken(u.box[q], c, name);
    if TakesOut(u.box[q], c, name, leaving) {
      var d := t.value.addr;
      TakenIsThere(u.box[q], c, name, d);
      NotReferred(u.box[q], d);
      MidwayOf(s, u, p, placed, leaving, d);
      assert d in Held(s, u, leaving);
      assert Held(s, v, leaving) == Held(s, u, leaving) - {d};
    } else {
      assert Held(s, v, leaving) == Held(s, u, leaving);
    }
    assert c in Unmoved(u, p, leaving);
    hide Midway, Taken, StillHeld, Below, Held, TakesOut;
    assert Unmoved(v, p, leaving) == Unmoved(u, p, leaving) - {c};
  }

  /** The nodes that leave are all gone from their former parents in the end exactly when each of them
      took one of them out. */
  lemma {:induction false} LeaveCount(s: World, u: World, p: Id, placed: seq<(Id, Key)>, leaving: set<Id>)
    requires Midway(s, u, p, placed, leaving)
    ensures var v := AdoptInTurn(u, p, placed);
            && Valid(v)
            && |Held(s, v, leaving)| + |Unmoved(u, p, leaving)| >= |Held(s, u, leaving)|
            && (AllLeave(u, p, placed, leaving) <==>
                  |Held(s, v, leaving)| + |Unmoved(u, p, leaving)| == |Held(s, u, leaving)|)
    decreases |placed|
  {
    if placed == [] {
      forall c | c in leaving ensures c !in Unmoved(u, p, leaving) { assert MidwayAt(s, u, p, placed, c); }
      assert Unmoved(u, p, leaving) == {};
    } else {
      var c, k := placed[0].0, placed[0].1;
      var name := KeyName(k).GetOr(u.name[c]);
      assert Shaped(u) && KeyFits(u.box[p].MapBox?, k);
      SetAsChildShaped(u, p, c, KeyName(k));
      AdoptOne(u, p, c, k);
      MidwayStep(s, u, p, placed, leaving, name);
      CountStep(s, u, p, placed, leaving, name);
      hide Midway, SetAsChild, Held, Unmoved, TakesOut, Valid;
      LeaveCount(s, AfterOne(u, p, c, name), p, placed[1..], leaving);
    }
  }

  // ----- the tree afterwards -----

  // The first adoption of a list, seen from the container of q.
  lemma FirstAdoption(u: World, p: Id, placed: seq<(Id, Key)>, q: Id)
    requires Valid(u) && p in u.parent && PlacedKnown(u, placed) && KeysFit(u.box[p].MapBox?, placed)
    requires placed != [] && q in u.box
    ensures placed[0].0 in u.parent && placed[0].0 in u.name
    ensures var c, name := placed[0].0, KeyName(placed[0].1).GetOr(u.name[placed[0].0]);
            var v := AfterOne(u, p, c, name);
            && SetAsChild(u, p, c, KeyName(placed[0].1)) == v
            && Valid(v) && p in v.parent && PlacedKnown(v, placed[1..]) && KeysFit(v.box[p].MapBox?, placed[1..])
            && Owning(u.box[q]) && q in v.box
            && v.box[q] ==
               (if LeavesNow(u, p, c) && u.parent[c] == Some(q) then ErasedBox(u.box[q], c, name) else u.box[q])
            && AdoptInTurn(u, p, placed) == AdoptInTurn(v, p, placed[1..])
  {
    hide Valid, Below, ErasedBox, SetAsChild;
    var c, k := placed[0].0, placed[0].1;
    ValidMeans(u, q);
    assert KeyFits(u.box[p].MapBox?, k);
    SetAsChildShaped(u, p, c, KeyName(k));
    AdoptOne(u, p, c, k);
    AdoptKeepsValid(u, p, c, KeyName(k).GetOr(u.name[c]));
  }

  lemma AllLeaveFirst(u: World, p: Id, placed: seq<(Id, Key)>, leaving: set<Id>)
    requires Shaped(u) && p in u.parent && PlacedKnown(u, placed) && placed != [] && AllLeave(u, p, placed, leaving)
    ensures var c, k := placed[0].0, placed[0].1;
            var v := SetAsChild(u, p, c, KeyName(k));
            && (LeavesNow(u, p, c) ==>
                  u.parent[c].value in u.box
                  && TakesOut(u.box[u.parent[c].value], c, KeyName(k).GetOr(u.name[c]), leaving))
            && Shaped(v) && p in v.parent && PlacedKnown(v, placed[1..]) && AllLeave(v, p, placed[1..], leaving)
  {
    SetAsChildShaped(u, p, placed[0].0, KeyName(placed[0].1));
  }

  // A node that does not leave anything is not touched in any other container, if all that leave take
  // out one of them.
  lemma {:induction false} OthersStay(u: World, p: Id, placed: seq<(Id, Key)>, leaving: set<Id>, q: Id, y: Id,
                                      before: string)
    requires Valid(u) && p in u.parent && PlacedKnown(u, placed) && KeysFit(u.box[p].MapBox?, placed)
    requires AllLeave(u, p, placed, leaving) && y !in leaving && q in u.box
    requires HoldsOnce(u.box[q], y, before) || HoldsNot(u.box[q], y)
    ensures var v := AdoptInTurn(u, p, placed); q in v.box && Same(u.box[q], v.box[q], y)
    decreases |placed|
  {
    hide Valid, HoldsOnce, HoldsNot, Same, Taken, ErasedBox, KeysFit, PlacedKnown, AllLeave,
         SetAsChild, AfterOne, Joins, AdoptInTurn;
    ValidMeans(u, q);
    if placed == [] {
      NothingAdopted(u, p);
      SameSelf(u.box[q], y);
    } else {
      FirstAdoption(u, p, placed, q);
      AllLeaveFirst(u, p, placed, leaving);
      var c, name := placed[0].0, KeyName(placed[0].1).GetOr(u.name[placed[0].0]);
      var v := AfterOne(u, p, c, name);
      TakenGoes(u.box[q], c, name, y, before);
      SameSelf(u.box[q], y);
      SameHolds(u.box[q], v.box[q], y, before);
      OthersStay(v, p, placed[1..], leaving, q, y, before);
      SameTransitive(u.box[q], v.box[q], AdoptInTurn(v, p, placed[1..]).box[q], y);
    }
  }

  lemma NothingAdopted(u: World, p: Id)
    requires Shaped(u) && p in u.parent
    ensures AdoptInTurn(u, p, []) == u
  {
  }

  lemma ValidMeans(u: World, q: Id)
    requires Valid(u) && q in u.box
    ensures Shaped(u) && Owning(u.box[q]) && q in u.parent
  {
  }

  lemma SameSelf(b: Box, y: Id)
    ensures Same(b, b, y)
  {
  }

  lemma SameHolds(b: Box, o: Box, y: Id, before: string)
    requires Same(b, o, y) && (HoldsOnce(b, y, before) || HoldsNot(b, y))
    ensures HoldsOnce(o, y, before) || HoldsNot(o, y)
  {
  }

  // p's container holds c just as it must once all nodes of the list are adopted: one that joins under
  // the key it was given first, a child under its name, any other not at all.
  ghost predicate Stands(u: World, p: Id, placed: seq<(Id, Key)>, c: Id)
    requires p in u.box && c in u.parent && c in u.name
  {
    if Given(placed, c) && Joins(u, p, c) then HoldsOnce(u.box[p], c, NameGiven(placed, c, u.name[c]))
    else if u.parent[c] == Some(p) then HoldsOnce(u.box[p], c, u.name[c])
    else HoldsNot(u.box[p], c)
  }

  lemma StandsIff(u: World, p: Id, placed: seq<(Id, Key)>, c: Id)
    requires Shaped(u) && p in u.parent && PlacedKnown(u, placed) && KeysFit(u.box[p].MapBox?, placed) && c in u.parent
    ensures var v := AdoptInTurn(u, p, placed);
            && p in v.box && c in v.parent && c in v.name && (Stands(u, p, placed, c) <==> Fits(v, p, c))
  {
    AdoptedEndsUp(u, p, placed, c);
    AdoptedBox(u, p, placed);
  }

  lemma BeginsMidway(u: World, p: Id, placed: seq<(Id, Key)>)
    requires Outside(u, p) && PlacedKnown(u, placed) && KeysFit(u.box[p].MapBox?, placed)
    ensures Midway(u, u, p, placed, Leaving(u, p, placed))
    ensures Held(u, u, Leaving(u, p, placed)) == Unmoved(u, p, Leaving(u, p, placed)) == Leaving(u, p, placed)
  {
    var leaving := Leaving(u, p, placed);
    forall c | c in leaving ensures MidwayAt(u, u, p, placed, c) && StillHeld(u, u, c) {
      assert Fits(u, u.parent[c].value, c);
      OnceIsReferred(u.box[u.parent[c].value], c, u.name[c]);
      forall q | q in u.box && q != p && u.parent[c] != Some(q) ensures HoldsNot(u.box[q], c) { assert Fits(u, q, c); }
    }
  }

  lemma AllLeaveIff(u: World, p: Id, placed: seq<(Id, Key)>)
    requires Outside(u, p) && PlacedKnown(u, placed) && KeysFit(u.box[p].MapBox?, placed)
    ensures var leaving := Leaving(u, p, placed);
            && Valid(AdoptInTurn(u, p, placed))
            && (AllLeave(u, p, placed, leaving) <==> Held(u, AdoptInTurn(u, p, placed), leaving) == {})
  {
    hide Midway, Outside, Held, Unmoved, Leaving, AllLeave, KeysFit, PlacedKnown;
    BeginsMidway(u, p, placed);
    LeaveCount(u, u, p, placed, Leaving(u, p, placed));
  }

  // A container other than p's, and one node.
  lemma ElsewhereFits(u: World, p: Id, placed: seq<(Id, Key)>, x: Id, y: Id)
    requires Outside(u, p) && PlacedKnown(u, placed) && KeysFit(u.box[p].MapBox?, placed)
    requires AllLeave(u, p, placed, Leaving(u, p, placed))
    requires x in u.parent && y in u.parent && x != p
    requires Held(u, AdoptInTurn(u, p, placed), Leaving(u, p, placed)) == {}
    ensures var v := AdoptInTurn(u, p, placed); x in v.box && y in v.parent && y in v.name && Fits(v, x, y)
  {
    var leaving := Leaving(u, p, placed);
    var v := AdoptInTurn(u, p, placed);
    AdoptedBox(u, p, placed);
    AdoptedEndsUp(u, p, placed, y);
    assert Fits(u, x, y);
    if y in leaving {
      BeginsMidway(u, p, placed);
      LeftElsewhere(u, p, placed, x, y);
    } else {
      OthersStay(u, p, placed, leaving, x, y, u.name[y]);
    }
  }

  lemma LeftElsewhere(u: World, p: Id, placed: seq<(Id, Key)>, x: Id, y: Id)
    requires Outside(u, p) && PlacedKnown(u, placed) && KeysFit(u.box[p].MapBox?, placed)
    requires x in u.parent && x != p && y in Leaving(u, p, placed)
    requires var v := AdoptInTurn(u, p, placed); x in v.box && Held(u, v, Leaving(u, p, placed)) == {}
    ensures HoldsNot(AdoptInTurn(u, p, placed).box[x], y)
  {
    var v := AdoptInTurn(u, p, placed);
    if u.parent[y] == Some(x) {
      assert y !in Held(u, v, Leaving(u, p, placed));
      NotReferred(v.box[x], y);
    } else {
      NeverGains(u, p, placed, x, y);
      assert Fits(u, x, y);
    }
  }

  // Adopting adds nothing to any container.
  lemma {:induction false} NeverGains(u: World, p: Id, placed: seq<(Id, Key)>, x: Id, y: Id)
    requires Valid(u) && p in u.parent && PlacedKnown(u, placed) && KeysFit(u.box[p].MapBox?, placed) && x in u.box
    ensures x in AdoptInTurn(u, p, placed).box
    ensures HoldsNot(u.box[x], y) ==> HoldsNot(AdoptInTurn(u, p, placed).box[x], y)
    decreases |placed|
  {
    hide Valid, HoldsNot, ErasedBox, RefersTo, KeysFit, PlacedKnown, SetAsChild, AfterOne, Joins, AdoptInTurn;
    ValidMeans(u, x);
    if placed == [] {
      NothingAdopted(u, p);
    } else {
      FirstAdoption(u, p, placed, x);
      var c, name := placed[0].0, KeyName(placed[0].1).GetOr(u.name[placed[0].0]);
      var v := AfterOne(u, p, c, name);
      NotReferred(u.box[x], y);
      NotReferred(v.box[x], y);
      if RefersTo(ErasedBox(u.box[x], c, name), y) { ErasedBoxRefers(u.box[x], c, name, y); }
      NeverGains(v, p, placed[1..], x, y);
    }
  }

  /** Once the displaced nodes are detached, the tree agrees in the end exactly when p's container holds
      every node as it must, and all that leave a former parent take out one of them. */
  lemma AdoptIff(u: World, p: Id, placed: seq<(Id, Key)>)
    requires Outside(u, p) && PlacedKnown(u, placed) && KeysFit(u.box[p].MapBox?, placed)
    ensures Agree(AdoptInTurn(u, p, placed)) <==>
              (forall c | c in u.parent :: Stands(u, p, placed, c)) && AllLeave(u, p, placed, Leaving(u, p, placed))
  {
    var v, leaving := AdoptInTurn(u, p, placed), Leaving(u, p, placed);
    AdoptedBox(u, p, placed);
    AllLeaveIff(u, p, placed);
    forall c | c in u.parent
      ensures p in v.box && c in v.parent && c in v.name && (Stands(u, p, placed, c) <==> Fits(v, p, c))
    {
      StandsIff(u, p, placed, c);
    }
    hide Midway, Held, Stands, AllLeave, Fits, AdoptInTurn, KeysFit;
    if Agree(v) {
      AgreeingHoldsNone(u, p, placed);
    }
    if (forall c | c in u.parent :: Stands(u, p, placed, c)) && AllLeave(u, p, placed, leaving) {
      forall x, y | x in v.parent && y in v.parent ensures Fits(v, x, y) {
        if x != p { ElsewhereFits(u, p, placed, x, y); }
      }
    }
  }

  lemma AgreeingHoldsNone(u: World, p: Id, placed: seq<(Id, Key)>)
    requires Outside(u, p) && PlacedKnown(u, placed) && KeysFit(u.box[p].MapBox?, placed)
    requires Agree(AdoptInTurn(u, p, placed))
    ensures Held(u, AdoptInTurn(u, p, placed), Leaving(u, p, placed)) == {}
  {
    var v, leaving := AdoptInTurn(u, p, placed), Leaving(u, p, placed);
    AdoptedBox(u, p, placed);
    forall c | c in leaving ensures !StillHeld(u, v, c) {
      AdoptedEndsUp(u, p, placed, c);
      var q := u.parent[c].value;
      assert Fits(v, q, c);
      NotReferred(v.box[q], c);
    }
  }
}
