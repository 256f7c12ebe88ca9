/** What `BulkSet` and the mutating `ForEach` leave where they keep the agreement: parents, names and containers. */
module WriteEffects {
  import opened Wrappers
  import opened XValues
  import opened Boxes
  import opened Holding
  import opened Worlds
  import opened Agreement
  import opened TreeOps
  import opened Forest
  import opened Writings
  import opened Settling
  import opened WriteAgreement
  import opened MapWrites
  import opened MapBatches
  import opened MapCalls
  import opened ArrayWrites
  import opened ArrayCalls
  import opened BulkEffects

  // ----- containers without some nodes -----

  lemma {:induction false} OthersAlike(a: seq<XValue>, one: set<Id>, two: set<Id>)
    requires forall c | RefersTo(ArrayBox(a), c) :: c in one <==> c in two
    ensures Others(a, one) == Others(a, two)
  {
    if a != [] {
      forall c | RefersTo(ArrayBox(a[1..]), c) ensures c in one <==> c in two {
        var i :| 0 <= i < |a| - 1 && a[1..][i] == Object(c);
        assert a[i + 1] == Object(c);
      }
      assert a[0].Object? ==> RefersTo(ArrayBox(a), a[0].addr);
      OthersAlike(a[1..], one, two);
    }
  }

  lemma WithoutAlike(b: Box, one: set<Id>, two: set<Id>)
    requires forall c | RefersTo(b, c) :: c in one <==> c in two
    ensures Without(b, one) == Without(b, two)
  {
    match b
    case ArrayBox(a) => OthersAlike(a, one, two);
    case MapBox(m) =>
      forall s | s in m && m[s].Object? ensures m[s].addr in one <==> m[s].addr in two {
        assert RefersTo(b, m[s].addr);
      }
  }

  lemma {:induction false} OthersRefer(a: seq<XValue>, out: set<Id>, c: Id)
    requires RefersTo(ArrayBox(a), c) && c !in out
    ensures RefersTo(ArrayBox(Others(a, out)), c)
  {
    var i :| 0 <= i < |a| && a[i] == Object(c);
    var rest := Others(a[1..], out);
    if i == 0 {
      assert Others(a, out)[0] == Object(c);
    } else {
      assert a[1..][i - 1] == Object(c);
      OthersRefer(a[1..], out, c);
      var j :| 0 <= j < |rest| && rest[j] == Object(c);
      assert Others(a, out)[if |Others(a, out)| == |rest| then j else j + 1] == Object(c);
    }
  }

  lemma WithoutRefers(b: Box, out: set<Id>, c: Id)
    requires RefersTo(b, c) && c !in out
    ensures RefersTo(Without(b, out), c)
  {
    match b
    case ArrayBox(a) => OthersRefer(a, out, c);
    case MapBox(m) =>
      var s :| s in m && m[s] == Object(c);
      assert Without(b, out).m[s] == Object(c);
  }

  lemma RemoveFirstIsWithout(b: Box, c: Id, before: string)
    requires Owning(b) && HoldsOnce(b, c, before)
    ensures RemoveFirst(b, c) == Without(b, {c})
  {
    match b
    case MapBox(m) => assert KeysHolding(m, c) == {before};
    case ArrayBox(a) =>
      var i: nat :| OnlyAt(a, c, i);
      OthersOfOne(a, c, i);
      EqNode(a[i], c);
      var j := FindNode(a, c, NoKey).value;
      EqNode(a[j], c);
      assert i == j;
  }

  // What erasing a node by its name takes out, if that is a node held once.
  lemma TakenIsWithout(b: Box, c: Id, name: string, d: Id, before: string)
    requires Owning(b) && HeldAtMostOnce(b, d, before) && Taken(b, c, name) == Some(Object(d))
    ensures ErasedBox(b, c, name) == Without(b, {d})
  {
    if b.MapBox? && name != "" && Current(b.m, name) != Empty {
      assert HoldsOnce(b, d, name);
      assert ErasedBox(b, c, name) == MapBox(b.m[name := Empty]);
    } else {
      assert d == c && ErasedBox(b, c, name) == RemoveFirst(b, c);
      NotReferred(b, c);
      RemoveFirstIsWithout(b, c, before);
    }
  }

  // ----- the containers of other nodes -----

  // Detaching takes nodes of the list out of q's container.
  lemma {:induction false} DetachedFrom(u: World, p: Id, gone: seq<Id>, q: Id) returns (out: set<Id>)
    requires Outside(u, p) && (forall c | c in gone :: c in u.parent) && q in u.parent && q != p
    ensures (forall c | c in out :: c in gone) && q in DetachAll(u, gone).box
    ensures DetachAll(u, gone).box[q] == Without(u.box[q], out)
    decreases |gone|
  {
    hide Outside, Without, ErasedBox, ParentDetach;
    OutsideMeans(u, p, q, q);
    NoneWithout(u.box[q]);
    if gone == [] { return {}; }
    var c := gone[0];
    var v := ParentDetach(u, c);
    DetachOutside(u, p, c);
    OutsideMeans(u, p, c, q);
    DetachIs(u, c);
    var rest := DetachedFrom(v, p, gone[1..], q);
    if u.parent[c] == Some(q) {
      ErasedIsWithout(u.box[q], c, u.name[c]);
      WithoutTwice(u.box[q], {c}, rest);
      out := {c} + rest;
    } else {
      out := rest;
    }
  }

  lemma OutsideMeans(u: World, p: Id, c: Id, q: Id)
    requires Outside(u, p) && c in u.parent && q in u.parent && q != p
    ensures Shaped(u) && c in u.name && Owning(u.box[q])
    ensures u.parent[c] == Some(q) ==> HoldsOnce(u.box[q], c, u.name[c])
    ensures HeldAtMostOnce(u.box[q], c, u.name[c])
  {
    assert Fits(u, q, c);
  }

  lemma ErasedKeepsFewer(b: Box, c: Id, name: string, d: Id, before: string)
    requires Owning(b) && HeldAtMostOnce(b, d, before)
    ensures HeldAtMostOnce(ErasedBox(b, c, name), d, before)
  {
    hide Taken, ErasedBox, HoldsOnce, HoldsNot, Owning, RefersTo;
    TakenGoes(b, c, name, d, before);
  }

  // Adopting takes nodes that leave out of q's container.
  lemma {:induction false} AdoptedFrom(s: World, u: World, p: Id, placed: seq<(Id, Key)>, leaving: set<Id>, q: Id)
    returns (out: set<Id>)
    requires Valid(u) && p in u.parent && PlacedKnown(u, placed) && KeysFit(u.box[p].MapBox?, placed)
    requires AllLeave(u, p, placed, leaving) && q in u.box && leaving <= s.name.Keys
    requires forall d | d in leaving :: HeldAtMostOnce(u.box[q], d, s.name[d])
    ensures out <= leaving && q in AdoptInTurn(u, p, placed).box
    ensures AdoptInTurn(u, p, placed).box[q] == Without(u.box[q], out)
    decreases |placed|
  {
    hide Valid, Same, Taken, ErasedBox, KeysFit, PlacedKnown, AllLeave, SetAsChild, AfterOne, Joins, AdoptInTurn,
         Without, HoldsOnce, HoldsNot;
    ValidMeans(u, q);
    NoneWithout(u.box[q]);
    if placed == [] {
      NothingAdopted(u, p);
      return {};
    }
    FirstAdoption(u, p, placed, q);
    AllLeaveFirst(u, p, placed, leaving);
    var c, name := placed[0].0, KeyName(placed[0].1).GetOr(u.name[placed[0].0]);
    var v := AfterOne(u, p, c, name);
    forall d | d in leaving ensures HeldAtMostOnce(v.box[q], d, s.name[d]) {
      ErasedKeepsFewer(u.box[q], c, name, d, s.name[d]);
    }
    var rest := AdoptedFrom(s, v, p, placed[1..], leaving, q);
    if LeavesNow(u, p, c) && u.parent[c] == Some(q) {
      var d := Taken(u.box[q], c, name).value.addr;
      TakenIsWithout(u.box[q], c, name, d, s.name[d]);
      WithoutTwice(u.box[q], {d}, rest);
      out := {d} + rest;
    } else {
      out := rest;
    }
  }

  // The nodes that q has lost.
  ghost function Departed(w: World, v: World, q: Id): set<Id> {
    set c | c in w.parent && c in v.parent && w.parent[c] == Some(q) && v.parent[c] != Some(q)
  }

  // Between two states that agree, what is missing is what has departed.
  lemma MissingIsDeparted(w: World, v: World, q: Id, out: set<Id>)
    requires Agree(w) && Agree(v) && q in w.parent && v.parent.Keys == w.parent.Keys
    requires v.box[q] == Without(w.box[q], out)
    requires forall c | c in out && c in w.parent :: v.parent[c] != Some(q)
    ensures v.box[q] == Without(w.box[q], Departed(w, v, q))
  {
    forall c | RefersTo(w.box[q], c) ensures c in out <==> c in Departed(w, v, q) {
      assert Fits(w, q, c) && Fits(v, q, c);
      NotReferred(w.box[q], c);
      if c !in out {
        WithoutRefers(w.box[q], out, c);
        NotReferred(v.box[q], c);
      }
    }
    WithoutAlike(w.box[q], out, Departed(w, v, q));
  }

  // ----- parents, names, and other containers -----

  // A node that p holds now is its child, under its key if p is a map; a displaced one has no parent; every other
  // node has kept parent and name. The containers of all other nodes are without the nodes that have departed.
  ghost predicate Rearranged(w: World, v: World, p: Id, gone: seq<Id>)
    requires p in v.box
  {
    && v.parent.Keys == w.parent.Keys && v.name.Keys == w.name.Keys && v.box.Keys == w.box.Keys
    && (forall c | c in w.parent && c in w.name :: RearrangedAt(w, v, p, gone, c))
    && forall q | q in w.box && q != p :: v.box[q] == Without(w.box[q], Departed(w, v, q))
  }

  ghost predicate RearrangedAt(w: World, v: World, p: Id, gone: seq<Id>, c: Id)
    requires c in w.parent && c in w.name && p in v.box
  {
    && c in v.parent && c in v.name
    && v.parent[c] == (if RefersTo(v.box[p], c) then Some(p) else if c in gone then None else w.parent[c])
    && if v.box[p].MapBox? && RefersTo(v.box[p], c) then HoldsOnce(v.box[p], c, v.name[c]) else v.name[c] == w.name[c]
  }

  lemma NodeRearranged(w: World, p: Id, x: Writing, c: Id)
    requires Agree(w) && p in w.parent && Behaves(w, p, x) && Agree(Settle(w, p, x)) && c in w.parent
    ensures c in w.name && p in Settle(w, p, x).box && RearrangedAt(w, Settle(w, p, x), p, x.gone, c)
  {
    hide Outside, Tracked, AdoptInTurn, Settle, Joins, HoldsOnce, Cut, Owning;
    var u, v := Cut(w, p, x), Settle(w, p, x);
    CutOutside(w, p, x);
    AdoptedEndsUp(u, p, x.placed, c);
    AdoptedBox(u, p, x.placed);
    HeldByParent(v, p, c);
    if u.box[p].ArrayBox? { NameStays(x.placed, c, u.name[c]); }
  }

  lemma HeldByParent(v: World, p: Id, c: Id)
    requires Agree(v) && p in v.parent && c in v.parent
    ensures p in v.box && c in v.name && (RefersTo(v.box[p], c) <==> v.parent[c] == Some(p))
    ensures v.parent[c] == Some(p) ==> HoldsOnce(v.box[p], c, v.name[c])
  {
    assert Fits(v, p, c);
    NotReferred(v.box[p], c);
    if v.parent[c] == Some(p) { OnceIsReferred(v.box[p], c, v.name[c]); }
  }

  lemma OtherRearranged(w: World, p: Id, x: Writing, q: Id)
    requires Agree(w) && p in w.parent && Behaves(w, p, x) && Agree(Settle(w, p, x)) && q in w.box && q != p
    ensures var v := Settle(w, p, x);
            v.parent.Keys == w.parent.Keys && q in v.box && v.box[q] == Without(w.box[q], Departed(w, v, q))
  {
    hide Tracked, AdoptInTurn, Settle, Without, AllLeave, Departed, DetachAll, Fits, Owning, HoldsOnce, Below;
    var u, v := Cut(w, p, x), Settle(w, p, x);
    var o := WithBox(w, p, Cleaned(x.box, x.placed));
    var leaving := Leaving(u, p, x.placed);
    SettleAgreesIff(w, p, x);
    CutOutside(w, p, x);
    WrittenIsOutside(w, p, x);
    var one := DetachedFrom(o, p, x.gone, q);
    forall d | d in leaving ensures HeldAtMostOnce(u.box[q], d, u.name[d]) { OutsideMeans(u, p, d, q); }
    var two := AdoptedFrom(u, u, p, x.placed, leaving, q);
    WithoutTwice(w.box[q], one, two);
    forall c | c in one + two && c in w.parent ensures c in v.parent && v.parent[c] != Some(q) {
      AdoptedEndsUp(u, p, x.placed, c);
    }
    SettledKeys(w, p, x);
    MissingIsDeparted(w, v, q, one + two);
  }

  lemma SettledKeys(w: World, p: Id, x: Writing)
    requires Agree(w) && p in w.parent && Behaves(w, p, x)
    ensures Settle(w, p, x).parent.Keys == w.parent.Keys && Shaped(Settle(w, p, x))
  {
    CutOutside(w, p, x);
    InTurnShaped(Cut(w, p, x), p, x.placed);
  }

  lemma {:induction false} InTurnShaped(u: World, p: Id, placed: seq<(Id, Key)>)
    requires Shaped(u) && p in u.parent && PlacedKnown(u, placed)
    ensures Shaped(AdoptInTurn(u, p, placed)) && AdoptInTurn(u, p, placed).parent.Keys == u.parent.Keys
    decreases |placed|
  {
    if placed != [] {
      SetAsChildShaped(u, p, placed[0].0, KeyName(placed[0].1));
      InTurnShaped(SetAsChild(u, p, placed[0].0, KeyName(placed[0].1)), p, placed[1..]);
    }
  }

  /** A call that writes a container and keeps the agreement: what it does to parents, names and the containers of
      all other nodes. */
  lemma WriteRearranges(w: World, p: Id, x: Writing)
    requires Agree(w) && p in w.parent && Behaves(w, p, x) && Agree(Settle(w, p, x))
    ensures p in Settle(w, p, x).box && Rearranged(w, Settle(w, p, x), p, x.gone)
  {
    hide Settle, RearrangedAt, Without, Departed, Fits, Valid, Tracked, KeysFit, Owning, RefersTo, Given;
    SettledKeys(w, p, x);
    AgreeShaped(w);
    forall c | c in w.parent && c in w.name ensures RearrangedAt(w, Settle(w, p, x), p, x.gone, c) {
      NodeRearranged(w, p, x, c);
    }
    forall q | q in w.box && q != p
      ensures var v := Settle(w, p, x); v.box[q] == Without(w.box[q], Departed(w, v, q))
    {
      OtherRearranged(w, p, x, q);
    }
  }

  lemma AgreeShaped(w: World)
    requires Agree(w)
    ensures Shaped(w)
  {
  }

  // ----- the written map -----

  // What a map holds afterwards: what is written, but nothing where a node gave way.
  ghost predicate Rewritten(m: map<string, XValue>, o: Box, writes: Writes) {
    && o.MapBox?
    && forall s :: Current(o.m, s) ==
                   if s !in writes then Current(m, s) else if Current(m, s).Object? then Empty else writes[s]
  }

  lemma SettledMap(w: World, p: Id, x: Writing)
    requires Agree(w) && p in w.parent && w.box[p].MapBox? && Behaves(w, p, x) && NothingBare(w, p, x)
    ensures var v := Settle(w, p, x);
            && p in v.box && v.box[p].MapBox?
            && forall s :: Current(v.box[p].m, s) == Left(w.box[p].m, x.box.m, x.gone, s)
  {
    hide Fits, Cut, AdoptInTurn, Left, Owning, RefersTo, Tracked, Outside, NothingBare, Given, Valid;
    AgreeShaped(w);
    CutOutside(w, p, x);
    CutLeaves(w, p, x);
    AdoptedBox(Cut(w, p, x), p, x.placed);
  }

  lemma MapRewritten(w: World, p: Id, x: Writing, writes: Writes)
    requires Agree(w) && Good(w) && p in w.parent && w.box[p].MapBox? && Behaves(w, p, x)
    requires Overwrites(w.box[p].m, x, writes) && Apart(writes) && Agree(Settle(w, p, x))
    ensures p in Settle(w, p, x).box && Rewritten(w.box[p].m, Settle(w, p, x).box[p], writes)
  {
    hide Fits, Good, Settle, Bare, NothingBare, Apart, Lost, Owning, RefersTo, Tracked, Valid, Displaces, Puts, Given;
    AgreeShaped(w);
    forall k ensures !Bare(w, p, writes, k) { NoneBare(w, p, x, writes, k); }
    NotBare(w, p, x, writes);
    SettledMap(w, p, x);
    forall s ensures Lost(w.box[p].m, x.gone, s) <==> s in writes && Current(w.box[p].m, s).Object? {
      LostIff(w, p, x, writes, s);
    }
  }

  lemma NoneBare(w: World, p: Id, x: Writing, writes: Writes, k: string)
    requires Agree(w) && Good(w) && p in w.parent && w.box[p].MapBox? && Behaves(w, p, x)
    requires Overwrites(w.box[p].m, x, writes) && Apart(writes) && Agree(Settle(w, p, x))
    ensures !Bare(w, p, writes, k)
  {
    if Bare(w, p, writes, k) { BareBreaks(w, p, x, writes, k, writes[k].addr); }
  }

  /** `BulkSet` of named pairs into a map, where it keeps the agreement: every accepted pair is read back, except
      over a node; the node there loses its parent and the value is lost. */
  lemma BulkSetMapEffect(w: World, p: Id, kvs: seq<(Key, XValue)>)
    requires Agree(w) && Good(w) && p in w.parent && w.box[p].MapBox? && AllStorable(w, kvs) && NamedOnce(kvs)
    requires Agree(BulkSet(w, p, kvs))
    ensures var v, x := BulkSet(w, p, kvs), BulkSetWriting(w, p, kvs);
            && p in v.box && Rearranged(w, v, p, x.gone)
            && Rewritten(w.box[p].m, v.box[p], Accepted(w, p, w.box[p].m, kvs))
  {
    hide Settle, Behaves, Overwrites, Apart, Rearranged, Rewritten, Accepted;
    BulkSetBehaves(w, p, kvs);
    BulkSetOverwrites(w, p, kvs);
    WriteRearranges(w, p, BulkSetWriting(w, p, kvs));
    MapRewritten(w, p, BulkSetWriting(w, p, kvs), Accepted(w, p, w.box[p].m, kvs));
  }

  /** The mutating `ForEach` of a map, where it keeps the agreement. */
  lemma ForEachMapEffect(w: World, p: Id, f: OnEach, from: Key)
    requires Agree(w) && Good(w) && p in w.parent && w.box[p].MapBox? && GivesStorable(w, f)
    requires Apart(ForEachWrites(w.box[p], f, from)) && Agree(ForEach(w, p, f, from))
    ensures var v, x := ForEach(w, p, f, from), ForEachWriting(w.box[p], f, from);
            && p in v.box && Rearranged(w, v, p, x.gone)
            && Rewritten(w.box[p].m, v.box[p], ForEachWrites(w.box[p], f, from))
  {
    hide Settle, Behaves, Overwrites, Apart, Rearranged, Rewritten, ForEachWrites, ForEachWriting;
    ForEachBehaves(w, p, f, from);
    assert Owning(w.box[p]);
    ForEachOverwrites(w.box[p], f, from);
    WriteRearranges(w, p, ForEachWriting(w.box[p], f, from));
    MapRewritten(w, p, ForEachWriting(w.box[p], f, from), ForEachWrites(w.box[p], f, from));
  }

  // ----- the written array -----

  // Nodes that are held no more are detached without a trace in the array.
  lemma {:induction false} DetachAllIdle(u: World, p: Id, gone: seq<Id>)
    requires Outside(u, p) && u.box[p].ArrayBox? && forall c | c in gone :: c in u.parent && HoldsNot(u.box[p], c)
    ensures p in DetachAll(u, gone).box && DetachAll(u, gone).box[p] == u.box[p]
    decreases |gone|
  {
    if gone != [] {
      var c := gone[0];
      DetachOutside(u, p, c);
      ErasedBoxIdle(u.box[p], c, u.name[c]);
      DetachAllIdle(ParentDetach(u, c), p, gone[1..]);
    }
  }

  lemma ArrayRewritten(w: World, p: Id, x: Writing)
    requires Agree(w) && p in w.parent && w.box[p].ArrayBox? && Behaves(w, p, x) && NoneReturns(x)
    ensures p in Settle(w, p, x).box && Settle(w, p, x).box[p] == Cleaned(x.box, x.placed)
  {
    hide Outside, Settle, AdoptInTurn, DetachAll, Cleaned, Owning;
    var o := WithBox(w, p, Cleaned(x.box, x.placed));
    CutOutside(w, p, x);
    WrittenIsOutside(w, p, x);
    CleanedRefers(x.box, x.placed, 0);
    forall c | c in x.gone ensures c in o.parent && HoldsNot(o.box[p], c) {
      assert Tracked(w.box[p], x.box, x.gone, x.touched, c);
      CleanedRefers(x.box, x.placed, c);
      NotReferred(x.box, c);
      NotReferred(o.box[p], c);
    }
    DetachAllIdle(o, p, x.gone);
    AdoptedBox(Cut(w, p, x), p, x.placed);
  }

  // Slot by slot: what the pairs that did not stay behind have written, and else what was there.
  ghost predicate SlotsWritten(a: seq<XValue>, o: Box, kvs: seq<(Key, XValue)>, left: seq<(Key, XValue)>) {
    && o.ArrayBox? && |a| <= |o.a|
    && (forall i | 0 <= i < |kvs| && kvs[i] !in left && kvs[i].0.At? ::
          kvs[i].0.i < |o.a| && o.a[kvs[i].0.i] == kvs[i].1)
    && forall j: nat | j < |o.a| && (forall i | 0 <= i < |kvs| && kvs[i].0 == At(j) :: kvs[i] in left) ::
         o.a[j] == Before(a, j)
  }

  /** `BulkSet` of indexed pairs into an array, of nodes that are no children of it yet: every pair that does not
      stay behind is read back, every other slot as before, and a node that was overwritten loses its parent. */
  lemma BulkSetArrayEffect(w: World, p: Id, kvs: seq<(Key, XValue)>)
    requires Agree(w) && p in w.parent && w.box[p].ArrayBox? && AllStorable(w, kvs) && IndexedOnce(kvs)
    requires forall i | 0 <= i < |kvs| && kvs[i].1.Object? :: w.parent[kvs[i].1.addr] != Some(p)
    ensures var v, s := BulkSet(w, p, kvs), SetEach(w, p, Begin(w.box[p]), kvs);
            p in v.box && Rearranged(w, v, p, s.gone) && SlotsWritten(w.box[p].a, v.box[p], kvs, s.left)
  {
    hide Settle, Behaves, Rearranged, SlotsWritten, SetEach, AtKey, OneSlotEach, KeepsSlots, Divided, NoneReturns;
    var x := BulkSetWriting(w, p, kvs);
    IndexedBatchAgrees(w, p, kvs);
    BulkSetBehaves(w, p, kvs);
    WriteRearranges(w, p, x);
    var all := IndexedBatchKeeps(w, p, kvs);
    ArrayRewritten(w, p, x);
    assert Owning(x.box) by { KnownOwns(w, p, x); }
    AllKeyedStay(x.box.a, x.placed);
    DividedSlots(w.box[p].a, SetEach(w, p, Begin(w.box[p]), kvs), all, kvs);
  }

  /** The mutating `ForEach` of an array, under the conditions of `ForEachArrayIff`, where it keeps the agreement:
      the slots are as the caller's function left them, and a node that it wrote over loses its parent. */
  lemma ForEachArrayEffect(w: World, p: Id, f: OnEach, from: Key)
    requires Agree(w) && p in w.parent && w.box[p].ArrayBox? && GivesStorable(w, f) && Agree(ForEach(w, p, f, from))
    requires var x := ForEachWriting(w.box[p], f, from); PlacedOnce(x.placed) && FromElsewhere(w, p, x.placed)
    ensures var v, x := ForEach(w, p, f, from), ForEachWriting(w.box[p], f, from);
            p in v.box && Rearranged(w, v, p, x.gone) && v.box[p] == x.box
  {
    hide Settle, Behaves, Rearranged, EachSlot, AtKey, OneSlotEach, Passing, NoneReturns, PlacedOnce, FromElsewhere;
    var a, x := w.box[p].a, ForEachWriting(w.box[p], f, from);
    ForEachBehaves(w, p, f, from);
    WriteRearranges(w, p, x);
    ForEachArrayIff(w, p, f, from);
    PassingStarts(a, FirstSlot(a, from));
    var end := EachSlotPasses(a, Writing(w.box[p], [], [], {}), [], FirstSlot(a, from), f);
    PassedEach(w, p, a, x, end);
    ArrayRewritten(w, p, x);
    KnownOwns(w, p, x);
    AllKeyedStay(x.box.a, x.placed);
  }

  lemma KnownOwns(w: World, p: Id, x: Writing)
    requires p in w.box && Behaves(w, p, x)
    ensures Owning(x.box)
  {
  }

  lemma DividedSlots(a: seq<XValue>, s: Setting, all: map<nat, XValue>, kvs: seq<(Key, XValue)>)
    requires KeepsSlots(a, s, all) && Divided(kvs, s.left, all)
    requires forall j | j in all :: exists i :: 0 <= i < |kvs| && kvs[i].0 == At(j)
    ensures SlotsWritten(a, s.box, kvs, s.left)
  {
    forall j | j in all ensures exists i :: 0 <= i < |kvs| && kvs[i].0 == At(j) && kvs[i] !in s.left {
      var i :| 0 <= i < |kvs| && kvs[i].0 == At(j);
      assert kvs[i].0.i in all;
    }
  }
}
