/** `BulkSet` and the mutating `ForEach` on a map when no node is written twice: exactly when the agreement is
    kept, in terms of the entries before the call, of what is written over them, and of where the written
    nodes come from. */
module MapBatches {
  import opened Wrappers
  import opened XValues
  import opened Boxes
  import opened Holding
  import opened Worlds
  import opened Agreement
  import opened TreeOps
  import opened Forest
  import opened Writings
  import opened Settling
  import opened WriteAgreement
  import opened MapWrites
  import Order

  // What is written under each key that changes; an erased entry becomes empty.
  type Writes = map<string, XValue>

  // A written key held the node.
  predicate Displaces(m: map<string, XValue>, writes: Writes, c: Id) {
    exists s :: s in writes && Current(m, s) == Object(c)
  }

  predicate Puts(writes: Writes, c: Id) {
    exists s :: s in writes && writes[s] == Object(c)
  }

  // No node is written twice.
  predicate Apart(writes: Writes) {
    forall s, t | s in writes && t in writes && writes[s].Object? && writes[s] == writes[t] :: s == t
  }

  ghost predicate Overwritten(m: map<string, XValue>, o: map<string, XValue>, writes: Writes) {
    forall s :: Current(o, s) == if s in writes then writes[s] else Current(m, s)
  }

  // The container part of the call has written just that.
  ghost predicate Overwrites(m: map<string, XValue>, x: Writing, writes: Writes) {
    && x.box.MapBox? && "" !in writes && Overwritten(m, x.box.m, writes)
    && (forall s | s in writes && writes[s].Object? :: writes[s] != Current(m, s))
    && (forall c :: c in x.gone <==> Displaces(m, writes, c))
    && (forall c :: c in x.touched <==> Puts(writes, c))
    && (forall c :: Given(x.placed, c) <==> Puts(writes, c))
    && forall i | 0 <= i < |x.placed| :: PlacedBy(writes, x.placed[i])
  }

  predicate PlacedBy(writes: Writes, pair: (Id, Key)) {
    pair.1.Name? && pair.1.s in writes && writes[pair.1.s] == Object(pair.0)
  }

  // ----- the condition -----

  // The node ends up as a child of p by this call: it is neither p nor above it, and if it is a child
  // already, its entry is overwritten.
  ghost predicate WillEnter(w: World, p: Id, writes: Writes, c: Id)
    requires c in w.parent && c in w.name
  {
    !Below(w.parent, p, c) && (w.parent[c] == Some(p) ==> w.name[c] in writes)
  }

  // Over a node the written one is lost, so it must not enter. Elsewhere it must enter, and if it leaves an
  // entry of the map for it, that one must not be left empty.
  ghost predicate Right(w: World, p: Id, writes: Writes, k: string)
    requires p in w.box && w.box[p].MapBox? && k in writes && writes[k].Object?
    requires writes[k].addr in w.parent && writes[k].addr in w.name
  {
    var c := writes[k].addr;
    if Current(w.box[p].m, k).Object? then !WillEnter(w, p, writes, c)
    else WillEnter(w, p, writes, c) && (w.parent[c] == Some(p) ==> writes[w.name[c]] != Empty)
  }

  ghost predicate AllRight(w: World, p: Id, writes: Writes)
    requires p in w.box && w.box[p].MapBox?
  {
    forall k | k in writes && writes[k].Object? && writes[k].addr in w.parent && writes[k].addr in w.name ::
      Right(w, p, writes, k)
  }

  lemma {:induction false} NameGivenIs(writes: Writes, placed: seq<(Id, Key)>, c: Id, k: string, name: string)
    requires Given(placed, c) && k in writes && writes[k] == Object(c) && Apart(writes)
    requires forall i | 0 <= i < |placed| :: PlacedBy(writes, placed[i])
    ensures NameGiven(placed, c, name) == k
    decreases |placed|
  {
    GivenStep(placed, c);
    assert PlacedBy(writes, placed[0]);
    if placed[0].0 != c {
      forall i | 0 <= i < |placed| - 1 ensures PlacedBy(writes, placed[1..][i]) {
        assert placed[1..][i] == placed[i + 1];
      }
      NameGivenIs(writes, placed[1..], c, k, name);
    }
  }

  lemma {:induction false} ThinKeepsUp(parent: Parents, gone: seq<Id>, n: Id, a: Id, k: nat)
    requires Closed(parent) && n in parent && Up(parent, n, a, k) && forall d | d in gone :: !Below(parent, n, d)
    ensures Up(Thin(parent, gone), n, a, k)
    decreases k
  {
    if k > 0 {
      BelowSelf(parent, n);
      forall d | d in gone ensures !Below(parent, parent[n].value, d) { BelowStep(parent, n, d); }
      ThinKeepsUp(parent, gone, parent[n].value, a, k - 1);
    }
  }

  // Detaching children of p changes nothing above p.
  lemma ThinKeepsAbove(parent: Parents, gone: seq<Id>, p: Id, c: Id)
    requires Closed(parent) && Acyclic(parent) && p in parent
    requires forall d | d in gone :: d in parent && parent[d] == Some(p)
    ensures Below(Thin(parent, gone), p, c) <==> Below(parent, p, c)
  {
    if Below(parent, p, c) {
      forall d | d in gone ensures !Below(parent, p, d) { ChildNotAbove(parent, p, d); }
      var k: nat :| Up(parent, p, c, k);
      ThinKeepsUp(parent, gone, p, c, k);
    } else {
      ThinNotBelow(parent, gone, p, c);
    }
  }

  // What a map holds, in an agreeing state.
  lemma HeldIsChild(w: World, p: Id, s: string, c: Id)
    requires Agree(w) && p in w.parent && w.box[p].MapBox? && Current(w.box[p].m, s) == Object(c)
    ensures c in w.parent && c in w.name && w.parent[c] == Some(p) && w.name[c] == s
  {
    assert RefersTo(w.box[p], c);
    assert Fits(w, p, c);
  }

  lemma DisplacedIff(w: World, p: Id, writes: Writes, c: Id)
    requires Agree(w) && p in w.parent && w.box[p].MapBox? && c in w.parent
    ensures c in w.name && (Displaces(w.box[p].m, writes, c) <==> w.parent[c] == Some(p) && w.name[c] in writes)
  {
    if Displaces(w.box[p].m, writes, c) {
      var s :| s in writes && Current(w.box[p].m, s) == Object(c);
      HeldIsChild(w, p, s, c);
    }
    if w.parent[c] == Some(p) && c in w.name { ChildHasName(w, p, c); }
  }

  // Where a written node is found in the written container, lost entries included.
  lemma FoundAt(w: World, p: Id, x: Writing, writes: Writes, k: string, c: Id, s: string)
    requires Agree(w) && p in w.parent && w.box[p].MapBox? && Overwrites(w.box[p].m, x, writes) && Apart(writes)
    requires k in writes && writes[k] == Object(c) && c in w.parent && c in w.name
    ensures Current(x.box.m, s) == Object(c) <==>
              s == k || (w.parent[c] == Some(p) && s == w.name[c] && s !in writes)
  {
    if s !in writes && Current(w.box[p].m, s) == Object(c) { HeldIsChild(w, p, s, c); }
    if w.parent[c] == Some(p) { ChildHasName(w, p, c); }
  }

  lemma LostIff(w: World, p: Id, x: Writing, writes: Writes, s: string)
    requires Agree(w) && p in w.parent && w.box[p].MapBox? && Overwrites(w.box[p].m, x, writes)
    ensures Lost(w.box[p].m, x.gone, s) <==> s in writes && Current(w.box[p].m, s).Object?
  {
    var v := Current(w.box[p].m, s);
    if v.Object? {
      HeldIsChild(w, p, s, v.addr);
      DisplacedIff(w, p, writes, v.addr);
    }
  }

  lemma EntersIff(w: World, p: Id, x: Writing, writes: Writes, k: string, c: Id)
    requires Agree(w) && Good(w) && p in w.parent && w.box[p].MapBox? && Overwrites(w.box[p].m, x, writes)
    requires Apart(writes) && k in writes && writes[k] == Object(c) && c in w.parent
    ensures c in w.name && (Enters(w, p, x, c) <==> WillEnter(w, p, writes, c))
    ensures Enters(w, p, x, c) ==> Home(w, p, x, c) == Some(k)
  {
    assert Puts(writes, c);
    DisplacedIff(w, p, writes, c);
    forall d | d in x.gone ensures d in w.parent && w.parent[d] == Some(p) {
      var s :| s in writes && Current(w.box[p].m, s) == Object(d);
      HeldIsChild(w, p, s, d);
    }
    ThinKeepsAbove(w.parent, x.gone, p, c);
    NameGivenIs(writes, x.placed, c, k, w.name[c]);
  }

  lemma RightIff(w: World, p: Id, x: Writing, writes: Writes, k: string, c: Id)
    requires Agree(w) && Good(w) && p in w.parent && w.box[p].MapBox? && Overwrites(w.box[p].m, x, writes)
    requires Apart(writes) && k in writes && writes[k] == Object(c) && c in w.parent && c in w.name
    requires w.parent[c] == Some(p) && w.name[c] in writes ==> writes[w.name[c]] != Empty
    ensures MapRight(w, p, x, c) <==> Right(w, p, writes, k)
  {
    var m := w.box[p].m;
    forall s ensures Left(m, x.box.m, x.gone, s) == Object(c) <==>
                       !(s in writes && Current(m, s).Object?)
                       && (s == k || (w.parent[c] == Some(p) && s == w.name[c] && s !in writes))
    {
      LostIff(w, p, x, writes, s);
      FoundAt(w, p, x, writes, k, c, s);
    }
    EntersIff(w, p, x, writes, k, c);
    DisplacedIff(w, p, writes, c);
    if w.parent[c] == Some(p) {
      ChildHasName(w, p, c);
      ChildNotAbove(w.parent, p, c);
    }
    hide Overwrites, Below, Enters, Good, Agree, Lost, Left, Apart;
    assert Left(m, x.box.m, x.gone, k) == Object(c) <==> !Current(m, k).Object?;
  }

  lemma BareBreaks(w: World, p: Id, x: Writing, writes: Writes, k: string, c: Id)
    requires Agree(w) && Good(w) && p in w.parent && w.box[p].MapBox? && Behaves(w, p, x)
    requires Overwrites(w.box[p].m, x, writes) && Apart(writes) && k in writes && writes[k] == Object(c)
    requires c in w.parent && c in w.name && w.parent[c] == Some(p) && w.name[c] in writes && writes[w.name[c]] == Empty
    ensures !Agree(Settle(w, p, x)) && !Right(w, p, writes, k)
  {
    assert Puts(writes, c);
    DisplacedIff(w, p, writes, c);
    forall s ensures Current(x.box.m, s) == Object(c) <==> s == k { FoundAt(w, p, x, writes, k, c, s); }
    HeldOnceMeans(x.box.m, c, k);
    ChildNotAbove(w.parent, p, c);
    BareIsLost(w, p, x, c, k);
  }

  // A node that leaves an empty entry for another one.
  ghost predicate Bare(w: World, p: Id, writes: Writes, k: string) {
    && k in writes && writes[k].Object? && writes[k].addr in w.parent && writes[k].addr in w.name
    && w.parent[writes[k].addr] == Some(p)
    && w.name[writes[k].addr] in writes && writes[w.name[writes[k].addr]] == Empty
  }

  /** Exactly when a call that writes each node once into a map keeps the agreement. */
  lemma OverwritesIff(w: World, p: Id, x: Writing, writes: Writes)
    requires Agree(w) && Good(w) && p in w.parent && w.box[p].MapBox? && Behaves(w, p, x)
    requires Overwrites(w.box[p].m, x, writes) && Apart(writes)
    ensures Agree(Settle(w, p, x)) <==> AllRight(w, p, writes) && LeaveInTurn(w, p, x)
  {
    if k :| Bare(w, p, writes, k) {
      BareBreaks(w, p, x, writes, k, writes[k].addr);
    } else {
      NotBare(w, p, x, writes);
      MapWriteIff(w, p, x);
      AllRightIff(w, p, x, writes);
    }
  }

  lemma NotBare(w: World, p: Id, x: Writing, writes: Writes)
    requires Agree(w) && p in w.parent && w.box[p].MapBox? && Overwrites(w.box[p].m, x, writes)
    requires forall k :: !Bare(w, p, writes, k)
    ensures NothingBare(w, p, x)
  {
    forall c | Returns(w, p, x, c) && c in w.name ensures Current(x.box.m, w.name[c]) != Empty {
      DisplacedIff(w, p, writes, c);
      var k :| k in writes && writes[k] == Object(c);
      assert !Bare(w, p, writes, k);
    }
  }

  lemma AllRightIff(w: World, p: Id, x: Writing, writes: Writes)
    requires Agree(w) && Good(w) && p in w.parent && w.box[p].MapBox? && Overwrites(w.box[p].m, x, writes)
    requires Apart(writes) && forall k :: !Bare(w, p, writes, k)
    ensures MapSafe(w, p, x) <==> AllRight(w, p, writes)
  {
    forall k | k in writes && writes[k].Object? && writes[k].addr in w.parent && writes[k].addr in w.name
      ensures MapRight(w, p, x, writes[k].addr) <==> Right(w, p, writes, k)
      ensures writes[k].addr in x.touched
    {
      assert !Bare(w, p, writes, k);
      assert Puts(writes, writes[k].addr);
      RightIff(w, p, x, writes, k, writes[k].addr);
    }
    hide MapRight, Right, Bare, Apart;
    forall c | c in x.touched && c in w.parent && c in w.name
      ensures exists k :: k in writes && writes[k] == Object(c)
    {
      assert Puts(writes, c);
    }
  }

  // ----- leaving the former parents -----

  lemma DetachChild(u: World, p: Id, c: Id)
    requires Shaped(u) && p in u.parent && c in u.parent && (u.parent[c] == Some(p) || u.parent[c] == None)
    ensures SameButFor(ParentDetach(u, c), u.(parent := u.parent[c := None]), p) && Shaped(ParentDetach(u, c))
  {
    hide ErasedBox;
    assert u.name[c := u.name[c]] == u.name;
    if u.parent[c] == None { assert u.parent[c := None] == u.parent; }
  }

  // Detaching children of p touches no other container.
  lemma {:induction false} DetachChildren(u: World, p: Id, gone: seq<Id>)
    requires Shaped(u) && p in u.parent
    requires forall c | c in gone :: c in u.parent && (u.parent[c] == Some(p) || u.parent[c] == None)
    ensures SameButFor(DetachAll(u, gone), u.(parent := Thin(u.parent, gone)), p)
    decreases |gone|
  {
    hide ParentDetach;
    if gone == [] {
      assert Thin(u.parent, gone) == u.parent;
    } else {
      DetachChild(u, p, gone[0]);
      DetachChildren(ParentDetach(u, gone[0]), p, gone[1..]);
      ThinStep(u.parent, gone);
    }
  }

  // The container that the node leaves holds it, and none of the others that leave.
  ghost predicate LeavesAlone(u: World, p: Id, leaving: set<Id>, d: Id)
    requires d in u.parent && d in u.name
  {
    LeavesNow(u, p, d) ==>
      && d in leaving && u.parent[d].value in u.box && Owning(u.box[u.parent[d].value])
      && HoldsOnce(u.box[u.parent[d].value], d, u.name[d])
      && forall e | e in leaving && e != d :: HoldsNot(u.box[u.parent[d].value], e)
  }

  ghost predicate AllAlone(u: World, p: Id, placed: seq<(Id, Key)>, leaving: set<Id>)
    requires Shaped(u)
  {
    && (forall d | d in u.parent && Given(placed, d) :: LeavesAlone(u, p, leaving, d))
    && forall d, e | d in u.parent && e in u.parent && d != e && Given(placed, d) && Given(placed, e)
                     && LeavesNow(u, p, d) && LeavesNow(u, p, e) :: u.parent[d] != u.parent[e]
  }

  // By its new name the node finds nothing but itself in the container that it leaves.
  ghost predicate FindsItself(u: World, p: Id, placed: seq<(Id, Key)>, d: Id)
    requires d in u.parent && d in u.name
  {
    LeavesNow(u, p, d) && u.parent[d].value in u.box ==>
      NameReaches(u.box[u.parent[d].value], u.name[d], NameGiven(placed, d, u.name[d]))
  }

  lemma TakesItself(b: Box, c: Id, before: string, name: string, leaving: set<Id>)
    requires Owning(b) && HoldsOnce(b, c, before) && c in leaving && forall e | e in leaving && e != c :: HoldsNot(b, e)
    ensures TakesOut(b, c, name, leaving) <==> NameReaches(b, before, name)
  {
    OnceIsReferred(b, c, before);
    var t := Taken(b, c, name);
    if t.Some? && t.value.Object? && t.value != Object(c) {
      TakenIsThere(b, c, name, t.value.addr);
      NotReferred(b, t.value.addr);
    }
  }

  lemma AloneStep(u: World, p: Id, placed: seq<(Id, Key)>, leaving: set<Id>, name: string, d: Id)
    requires Shaped(u) && p in u.parent && PlacedKnown(u, placed) && placed != [] && AllAlone(u, p, placed, leaving)
    requires d in u.parent && Given(placed[1..], d)
    ensures var v := AfterOne(u, p, placed[0].0, name);
            && d in v.parent && d in v.name && LeavesAlone(v, p, leaving, d)
            && (LeavesNow(v, p, d) ==> d != placed[0].0 && LeavesNow(u, p, d) && v.parent[d] == u.parent[d]
                                       && v.name[d] == u.name[d])
            && (LeavesNow(u, p, d) && d != placed[0].0 ==> LeavesNow(v, p, d))
            && (d != placed[0].0 ==> (FindsItself(v, p, placed[1..], d) <==> FindsItself(u, p, placed, d)))
  {
    hide ErasedBox, HoldsOnce, HoldsNot, Owning, Below, NameReaches;
    var c := placed[0].0;
    var v := AfterOne(u, p, c, name);
    GivenStep(placed, d);
    assert Given(placed, c) && Given(placed, d);
    if Joins(u, p, c) && c != d { JoinsStays(u, v, p, c, d); }
    assert LeavesAlone(u, p, leaving, d);
    if LeavesNow(u, p, c) && LeavesNow(u, p, d) && c != d { assert u.parent[c] != u.parent[d]; }
  }

  lemma AfterOneShaped(u: World, p: Id, c: Id, name: string)
    requires Shaped(u) && p in u.parent && c in u.parent
    ensures Shaped(AfterOne(u, p, c, name)) && AfterOne(u, p, c, name).parent.Keys == u.parent.Keys
  {
    hide ErasedBox, Below;
  }

  lemma AllAloneStep(u: World, p: Id, placed: seq<(Id, Key)>, leaving: set<Id>, name: string)
    requires Shaped(u) && p in u.parent && PlacedKnown(u, placed) && placed != [] && AllAlone(u, p, placed, leaving)
    ensures var v := AfterOne(u, p, placed[0].0, name); Shaped(v) && AllAlone(v, p, placed[1..], leaving)
  {
    var v := AfterOne(u, p, placed[0].0, name);
    AfterOneShaped(u, p, placed[0].0, name);
    hide AfterOne, LeavesAlone, LeavesNow, Closed, Given;
    forall d | d in v.parent && Given(placed[1..], d)
      ensures d in v.name && LeavesAlone(v, p, leaving, d) && Given(placed, d)
      ensures LeavesNow(v, p, d) ==> LeavesNow(u, p, d) && v.parent[d] == u.parent[d]
    {
      AloneStep(u, p, placed, leaving, name, d);
      GivenStep(placed, d);
    }
  }

  /** Nodes that come from different parents leave there exactly when each of them finds itself. */
  lemma NobodyLeaves(u: World, p: Id, leaving: set<Id>)
    requires Shaped(u) && p in u.parent
    ensures AllLeave(u, p, [], leaving) && forall d :: !Given([], d)
  {
  }

  lemma {:induction false} AloneIff(u: World, p: Id, placed: seq<(Id, Key)>, leaving: set<Id>)
    requires Shaped(u) && p in u.parent && PlacedKnown(u, placed) && KeysFit(u.box[p].MapBox?, placed)
    requires AllAlone(u, p, placed, leaving)
    ensures AllLeave(u, p, placed, leaving) <==>
              forall d | d in u.parent && Given(placed, d) :: FindsItself(u, p, placed, d)
    decreases |placed|
  {
    hide AllLeave, ErasedBox, TakesOut, KeyFits, Closed, Below, FindsItself, AllAlone, LeavesNow, Given;
    if placed == [] {
      NobodyLeaves(u, p, leaving);
    } else {
      var c, k := placed[0].0, placed[0].1;
      var name := KeyName(k).GetOr(u.name[c]);
      var v := AfterOne(u, p, c, name);
      assert KeyFits(u.box[p].MapBox?, k);
      AllLeaveStep(u, p, placed, leaving);
      AllAloneStep(u, p, placed, leaving, name);
      AloneIff(v, p, placed[1..], leaving);
      FirstFindsItself(u, p, placed, leaving, name);
      RestFindsItself(u, p, placed, leaving, name);
    }
  }

  lemma FirstFindsItself(u: World, p: Id, placed: seq<(Id, Key)>, leaving: set<Id>, name: string)
    requires Shaped(u) && p in u.parent && PlacedKnown(u, placed) && placed != [] && AllAlone(u, p, placed, leaving)
    requires name == KeyName(placed[0].1).GetOr(u.name[placed[0].0])
    ensures var c := placed[0].0;
            && c in u.parent && c in u.name && (LeavesNow(u, p, c) ==> u.parent[c].value in u.box)
            && ((LeavesNow(u, p, c) ==> TakesOut(u.box[u.parent[c].value], c, name, leaving)) <==>
                  FindsItself(u, p, placed, c))
  {
    hide TakesOut, NameReaches, Below, HoldsOnce, HoldsNot, Owning;
    var c := placed[0].0;
    assert Given(placed, c);
    assert LeavesAlone(u, p, leaving, c);
    FirstNameGiven(placed, u.name[c]);
    if LeavesNow(u, p, c) { TakesItself(u.box[u.parent[c].value], c, u.name[c], name, leaving); }
  }

  lemma RestFindsItself(u: World, p: Id, placed: seq<(Id, Key)>, leaving: set<Id>, name: string)
    requires Shaped(u) && p in u.parent && PlacedKnown(u, placed) && placed != [] && AllAlone(u, p, placed, leaving)
    ensures var v := AfterOne(u, p, placed[0].0, name);
            && Shaped(v)
            && ((forall d | d in u.parent && Given(placed, d) :: FindsItself(u, p, placed, d)) <==>
                  FindsItself(u, p, placed, placed[0].0)
                  && forall d | d in v.parent && Given(placed[1..], d) :: FindsItself(v, p, placed[1..], d))
  {
    var c := placed[0].0;
    var v := AfterOne(u, p, c, name);
    AfterOneShaped(u, p, c, name);
    assert Given(placed, c);
    hide AfterOne, LeavesAlone, LeavesNow, Closed, FindsItself, Given;
    forall d | d in u.parent
      ensures Given(placed, d) <==> d == c || Given(placed[1..], d)
      ensures Given(placed[1..], d) && d != c ==> (FindsItself(v, p, placed[1..], d) <==> FindsItself(u, p, placed, d))
      ensures Given(placed[1..], d) && d == c ==> FindsItself(v, p, placed[1..], d)
    {
      GivenStep(placed, d);
      if Given(placed[1..], d) {
        AloneStep(u, p, placed, leaving, name, d);
        if d == c { AdoptedFindsItself(u, p, placed, name); }
      }
    }
  }

  lemma AdoptedFindsItself(u: World, p: Id, placed: seq<(Id, Key)>, name: string)
    requires Shaped(u) && p in u.parent && PlacedKnown(u, placed) && placed != []
    ensures var v, c := AfterOne(u, p, placed[0].0, name), placed[0].0;
            c in v.parent && c in v.name && (!LeavesNow(v, p, c) ==> FindsItself(v, p, placed[1..], c))
  {
  }

  // The node written under k leaves its former parent by its new name.
  ghost predicate LeavesFree(w: World, p: Id, writes: Writes, k: string)
    requires Shaped(w) && k in writes && writes[k].Object? && writes[k].addr in w.parent
  {
    var c := writes[k].addr;
    w.parent[c] != Some(p) && !Below(w.parent, p, c) ==> NameFree(w, c, k)
  }

  ghost predicate AllLeaveFree(w: World, p: Id, writes: Writes)
    requires Shaped(w)
  {
    forall k | k in writes && writes[k].Object? && writes[k].addr in w.parent :: LeavesFree(w, p, writes, k)
  }

  // The written nodes come from different parents, apart from those that are children of p.
  ghost predicate DifferentParents(w: World, p: Id, writes: Writes) {
    forall k, l | k in writes && l in writes && k != l && writes[k].Object? && writes[l].Object?
                  && writes[k].addr in w.parent && writes[l].addr in w.parent && w.parent[writes[k].addr].Some? ::
      w.parent[writes[k].addr] == Some(p) || w.parent[writes[k].addr] != w.parent[writes[l].addr]
  }

  lemma GoneAreChildren(w: World, p: Id, x: Writing, writes: Writes)
    requires Agree(w) && p in w.parent && w.box[p].MapBox? && Overwrites(w.box[p].m, x, writes)
    ensures forall c | c in x.gone :: c in w.parent && w.parent[c] == Some(p)
  {
    forall c | c in x.gone ensures c in w.parent && w.parent[c] == Some(p) {
      var s :| s in writes && Current(w.box[p].m, s) == Object(c);
      HeldIsChild(w, p, s, c);
    }
  }

  // The state after the displaced children have been detached.
  lemma FreedState(w: World, p: Id, x: Writing, writes: Writes)
    requires Agree(w) && Good(w) && p in w.parent && w.box[p].MapBox? && Overwrites(w.box[p].m, x, writes)
    ensures forall c | c in x.gone :: c in w.parent
    ensures var u := DetachAll(w, x.gone);
            && Outside(u, p) && u.parent == Thin(w.parent, x.gone) && u.name == w.name && u.box.Keys == w.box.Keys
            && u.box[p].MapBox? && (forall q | q in w.box && q != p :: u.box[q] == w.box[q])
            && forall c | c in w.parent :: LeavesNow(u, p, c) <==>
                                           w.parent[c].Some? && w.parent[c] != Some(p) && !Below(w.parent, p, c)
  {
    GoneAreChildren(w, p, x, writes);
    DetachAllOutside(w, p, x.gone);
    DetachChildren(w, p, x.gone);
    var u := DetachAll(w, x.gone);
    forall c | c in w.parent
      ensures LeavesNow(u, p, c) <==> w.parent[c].Some? && w.parent[c] != Some(p) && !Below(w.parent, p, c)
    {
      ThinKeepsAbove(w.parent, x.gone, p, c);
    }
  }

  lemma WrittenUnder(w: World, p: Id, x: Writing, writes: Writes, c: Id) returns (k: string)
    requires p in w.box && w.box[p].MapBox? && Overwrites(w.box[p].m, x, writes) && Apart(writes)
    requires Given(x.placed, c) && c in w.name
    ensures k in writes && writes[k] == Object(c) && NameGiven(x.placed, c, w.name[c]) == k
  {
    assert Puts(writes, c);
    k :| k in writes && writes[k] == Object(c);
    NameGivenIs(writes, x.placed, c, k, w.name[c]);
  }

  /** Nodes that all leave by names that are free there do leave. */
  lemma FreeNodesLeave(w: World, p: Id, x: Writing, writes: Writes)
    requires Agree(w) && Good(w) && p in w.parent && w.box[p].MapBox? && Behaves(w, p, x)
    requires Overwrites(w.box[p].m, x, writes) && Apart(writes) && AllLeaveFree(w, p, writes)
    ensures LeaveInTurn(w, p, x)
  {
    hide Owning, RefersTo, HoldsOnce, HoldsNot, Below, Acyclic, NameGiven, Tracked, Lost;
    FreedState(w, p, x, writes);
    var u := DetachAll(w, x.gone);
    forall c | Given(x.placed, c) && c in u.parent
      ensures LeavesFreely(u, p, x.placed, c) && (LeavesNow(u, p, c) ==> c in Leaving(u, p, x.placed))
    {
      var k := WrittenUnder(w, p, x, writes, c);
      assert LeavesFree(w, p, writes, k);
      if LeavesNow(u, p, c) { assert Fits(w, w.parent[c].value, c); }
    }
    hide LeavesFreely, LeavesNow, Given, Overwrites, Fits;
    FreeNamesLeave(u, p, x.placed, Leaving(u, p, x.placed));
  }

  // u is the state w after the displaced nodes have been detached.
  ghost predicate IsFreed(w: World, u: World, p: Id, gone: seq<Id>) {
    && Valid(u) && u.parent == Thin(w.parent, gone) && u.name == w.name && u.box.Keys == w.box.Keys
    && forall q | q in w.box && q != p :: u.box[q] == w.box[q]
  }

  lemma LeaverIsOutside(w: World, u: World, p: Id, gone: seq<Id>, c: Id)
    requires Agree(w) && p in w.parent && IsFreed(w, u, p, gone) && c in w.parent && LeavesNow(u, p, c)
    ensures c in u.name && w.parent[c] == u.parent[c] && u.parent[c] != Some(p)
    ensures var q := u.parent[c].value; q in u.box && Owning(u.box[q]) && HoldsOnce(u.box[q], c, u.name[c])
  {
    hide Below, HoldsOnce, HoldsNot;
    assert Fits(w, u.parent[c].value, c);
  }

  lemma FreeIff(w: World, u: World, p: Id, x: Writing, writes: Writes, k: string)
    requires Agree(w) && p in w.parent && w.box[p].MapBox? && IsFreed(w, u, p, x.gone)
    requires Overwrites(w.box[p].m, x, writes) && Apart(writes)
    requires k in writes && writes[k].Object? && writes[k].addr in w.parent
    requires var c := writes[k].addr;
             LeavesNow(u, p, c) <==> w.parent[c].Some? && w.parent[c] != Some(p) && !Below(w.parent, p, c)
    ensures var c := writes[k].addr;
            && Given(x.placed, c) && c in u.parent && c in u.name
            && (LeavesFree(w, p, writes, k) <==> FindsItself(u, p, x.placed, c))
  {
    hide Below, LeavesNow, NameReaches;
    var c := writes[k].addr;
    assert Puts(writes, c);
    NameGivenIs(writes, x.placed, c, k, w.name[c]);
    if LeavesNow(u, p, c) { LeaverIsOutside(w, u, p, x.gone, c); }
  }

  /** Nodes that come from different parents leave exactly when their new names are free there. */
  lemma DifferentLeaveIff(w: World, p: Id, x: Writing, writes: Writes)
    requires Agree(w) && Good(w) && p in w.parent && w.box[p].MapBox? && Behaves(w, p, x)
    requires Overwrites(w.box[p].m, x, writes) && Apart(writes) && DifferentParents(w, p, writes)
    ensures LeaveInTurn(w, p, x) <==> AllLeaveFree(w, p, writes)
  {
    hide Below, Fits, Owning, RefersTo, AllAlone, AllLeave, FindsItself, LeavesFree, LeavesNow, DifferentParents;
    FreedState(w, p, x, writes);
    var u := DetachAll(w, x.gone);
    DifferentAreAlone(w, u, p, x, writes);
    AloneIff(u, p, x.placed, Leaving(u, p, x.placed));
    forall k | k in writes && writes[k].Object? && writes[k].addr in w.parent
      ensures Given(x.placed, writes[k].addr) && writes[k].addr in u.parent && writes[k].addr in u.name
      ensures LeavesFree(w, p, writes, k) <==> FindsItself(u, p, x.placed, writes[k].addr)
    {
      FreeIff(w, u, p, x, writes, k);
    }
    forall d | d in u.parent && Given(x.placed, d) ensures exists k :: k in writes && writes[k] == Object(d) {
      assert Puts(writes, d);
    }
  }

  lemma DifferentHomes(w: World, u: World, p: Id, x: Writing, writes: Writes, d: Id, e: Id)
    requires Agree(w) && p in w.parent && w.box[p].MapBox? && IsFreed(w, u, p, x.gone)
    requires Overwrites(w.box[p].m, x, writes) && Apart(writes) && DifferentParents(w, p, writes)
    requires d in w.parent && e in w.parent && d != e && Given(x.placed, d) && Given(x.placed, e)
    requires LeavesNow(u, p, d) && LeavesNow(u, p, e)
    ensures u.parent[d] != u.parent[e]
  {
    LeaverIsOutside(w, u, p, x.gone, d);
    LeaverIsOutside(w, u, p, x.gone, e);
    hide LeavesNow, Fits, HoldsOnce, NameGiven;
    var k := WrittenUnder(w, p, x, writes, d);
    var l := WrittenUnder(w, p, x, writes, e);
  }

  lemma DifferentAreAlone(w: World, u: World, p: Id, x: Writing, writes: Writes)
    requires Agree(w) && p in w.parent && w.box[p].MapBox? && IsFreed(w, u, p, x.gone)
    requires Overwrites(w.box[p].m, x, writes) && Apart(writes) && DifferentParents(w, p, writes)
    ensures AllAlone(u, p, x.placed, Leaving(u, p, x.placed))
  {
    hide Below, HoldsOnce, HoldsNot, NameGiven, Joins, Overwrites, Apart, DifferentParents, Owning, RefersTo;
    var leaving := Leaving(u, p, x.placed);
    forall d, e | d in u.parent && e in u.parent && d != e && Given(x.placed, d) && Given(x.placed, e)
                  && LeavesNow(u, p, d) && LeavesNow(u, p, e)
      ensures u.parent[d] != u.parent[e]
    {
      DifferentHomes(w, u, p, x, writes, d, e);
    }
    hide LeavesNow, LeavesAlone, IsFreed, Fits, Closed;
    forall d | d in u.parent && Given(x.placed, d) ensures d in u.name && LeavesAlone(u, p, leaving, d) {
      DifferentIsAlone(w, u, p, x, writes, d);
    }
  }

  lemma DifferentIsAlone(w: World, u: World, p: Id, x: Writing, writes: Writes, d: Id)
    requires Agree(w) && p in w.parent && w.box[p].MapBox? && IsFreed(w, u, p, x.gone)
    requires Overwrites(w.box[p].m, x, writes) && Apart(writes) && DifferentParents(w, p, writes)
    requires d in u.parent && Given(x.placed, d)
    ensures d in u.name && LeavesAlone(u, p, Leaving(u, p, x.placed), d)
  {
    hide Below, HoldsOnce, HoldsNot, NameGiven, Joins, Overwrites, Apart, DifferentParents, Owning, RefersTo;
    if LeavesNow(u, p, d) {
      LeaverIsOutside(w, u, p, x.gone, d);
      forall e | e in Leaving(u, p, x.placed) && e != d ensures HoldsNot(u.box[u.parent[d].value], e) {
        assert LeavesNow(u, p, e);
        DifferentHomes(w, u, p, x, writes, d, e);
        LeaverIsOutside(w, u, p, x.gone, e);
        assert Fits(w, u.parent[d].value, e);
      }
    }
  }

  /** The exact condition, when the written nodes come from different parents. */
  lemma OverwritesSafeIff(w: World, p: Id, x: Writing, writes: Writes)
    requires Agree(w) && Good(w) && p in w.parent && w.box[p].MapBox? && Behaves(w, p, x)
    requires Overwrites(w.box[p].m, x, writes) && Apart(writes) && DifferentParents(w, p, writes)
    ensures Agree(Settle(w, p, x)) <==> AllRight(w, p, writes) && AllLeaveFree(w, p, writes)
  {
    OverwritesIff(w, p, x, writes);
    DifferentLeaveIff(w, p, x, writes);
  }
}
