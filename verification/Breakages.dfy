/** Inputs for which calls that succeed leave parents, names and containers in disagreement, for each kind of call
    that asks something of its caller. */
module Breakages {
  import opened Wrappers
  import opened XValues
  import opened Boxes
  import opened Holding
  import opened Worlds
  import opened Agreement
  import opened TreeOps
  import opened TreeRuns
  import opened Amends
  import opened Writings
  import opened SingleWrites
  import opened ArrayWrites
  import opened ArrayCalls
  import opened Forest
  import Order

  // Node 0 is a map with the nodes 2 and 3 under "a" and "b" and a plain value under "c"; 1 and 3 are maps with
  // a plain value under "b"; 4 is an array with a plain value and the node 5.
  const EXAMPLE := World(
    map[0 := None, 1 := None, 2 := Some(0), 3 := Some(0), 4 := None, 5 := Some(4)],
    map[0 := "", 1 := "", 2 := "a", 3 := "b", 4 := "", 5 := ""],
    map[0 := HOLDER, 1 := PLAIN, 2 := ArrayBox([]), 3 := PLAIN, 4 := ROW, 5 := ArrayBox([])])

  const HOLDER := MapBox(map["a" := Object(2), "b" := Object(3), "c" := Bool(true)])

  const PLAIN := MapBox(map["b" := Bool(true)])

  const ROW := ArrayBox([Bool(true), Object(5)])

  lemma HolderHolds(c: Id)
    ensures Owning(HOLDER) && (RefersTo(HOLDER, c) <==> c == 2 || c == 3)
    ensures HoldsOnce(HOLDER, 2, "a") && HoldsOnce(HOLDER, 3, "b")
    ensures c != 2 && c != 3 ==> HoldsNot(HOLDER, c)
  {
    assert "a" != "b" && "a" in HOLDER.m && "b" in HOLDER.m && HOLDER.m["a"] == Object(2) && HOLDER.m["b"] == Object(3);
  }

  lemma RowHolds(c: Id)
    ensures Owning(ROW) && (RefersTo(ROW, c) <==> c == 5) && HoldsOnce(ROW, 5, "")
    ensures c != 5 ==> HoldsNot(ROW, c)
  {
    assert ROW.a[1] == Object(5);
    assert OnlyAt(ROW.a, 5, 1);
  }

  lemma OthersHoldNothing(b: Box, c: Id)
    requires b == PLAIN || b == ArrayBox([])
    ensures HoldsNot(b, c) && !RefersTo(b, c) && Owning(b)
  {
  }

  // The example, entry by entry.
  lemma ExampleIs()
    ensures forall n: Id :: n in EXAMPLE.parent <==> n < 6
    ensures EXAMPLE.parent.Keys == EXAMPLE.name.Keys == EXAMPLE.box.Keys
    ensures EXAMPLE.parent[0] == EXAMPLE.parent[1] == EXAMPLE.parent[4] == None
    ensures EXAMPLE.parent[2] == EXAMPLE.parent[3] == Some(0) && EXAMPLE.parent[5] == Some(4)
    ensures EXAMPLE.name[1] == EXAMPLE.name[5] == "" && EXAMPLE.name[2] == "a" && EXAMPLE.name[3] == "b"
    ensures EXAMPLE.box[0] == HOLDER && EXAMPLE.box[1] == EXAMPLE.box[3] == PLAIN && EXAMPLE.box[4] == ROW
    ensures EXAMPLE.box[2] == EXAMPLE.box[5] == ArrayBox([])
  {
  }

  lemma ExampleFits(p: Id, c: Id)
    requires p in EXAMPLE.parent
    ensures p in EXAMPLE.box && Owning(EXAMPLE.box[p]) && (RefersTo(EXAMPLE.box[p], c) ==> c in EXAMPLE.parent)
    ensures c in EXAMPLE.parent ==> c in EXAMPLE.name && Fits(EXAMPLE, p, c)
  {
    hide EXAMPLE, HOLDER, ROW, PLAIN, HoldsOnce, HoldsNot, RefersTo, Owning;
    ExampleIs();
    if p == 0 {
      HolderHolds(c);
    } else if p == 4 {
      RowHolds(c);
    } else {
      OthersHoldNothing(EXAMPLE.box[p], c);
    }
  }

  lemma ExampleAgrees()
    ensures Agree(EXAMPLE) && Valid(EXAMPLE)
  {
    hide EXAMPLE, Fits, Owning, RefersTo;
    ExampleIs();
    forall p, c | p in EXAMPLE.box ensures RefersTo(EXAMPLE.box[p], c) ==> c in EXAMPLE.parent { ExampleFits(p, c); }
    forall p | p in EXAMPLE.box ensures Owning(EXAMPLE.box[p]) { ExampleFits(p, 0); }
    forall p, c | p in EXAMPLE.parent && c in EXAMPLE.parent ensures Fits(EXAMPLE, p, c) { ExampleFits(p, c); }
    forall n | n in EXAMPLE.parent && EXAMPLE.parent[n].Some? ensures EXAMPLE.parent[n].value in EXAMPLE.parent {
      assert n == 2 || n == 3 || n == 5;
    }
  }

  ghost predicate Breaks(call: Call) {
    Agree(EXAMPLE) && Possible(EXAMPLE, call) && Succeeds(EXAMPLE, call) && !Agree(Step(EXAMPLE, call))
  }

  lemma UnsafeBreaks(call: Call)
    requires Valid(EXAMPLE) && Possible(EXAMPLE, call) && Succeeds(EXAMPLE, call) && !Safe(EXAMPLE, call)
    ensures Breaks(call)
  {
    hide Agree, Possible, Succeeds, Safe, Step;
    ExampleAgrees();
    StepAgreesIff(EXAMPLE, call);
  }

  lemma AboveInExample(p: Id, a: Id)
    requires p in EXAMPLE.parent
    ensures Below(EXAMPLE.parent, p, a) <==> a == p || (p == 2 && a == 0) || (p == 3 && a == 0) || (p == 5 && a == 4)
  {
    hide EXAMPLE;
    ExampleIs();
    BelowStep(EXAMPLE.parent, p, a);
    BelowStep(EXAMPLE.parent, 0, a);
    BelowStep(EXAMPLE.parent, 4, a);
  }

  // ----- Set -----

  /** `Set` of a node out of a map, under a key that this map uses for another node. */
  lemma SetUnderUsedKeyBreaks()
    ensures Breaks(SetCall(1, Name("b"), Object(2)))
  {
    hide EXAMPLE, Agree, Valid, Below;
    ExampleIs();
    ExampleAgrees();
    AboveInExample(1, 2);
    UnsafeBreaks(SetCall(1, Name("b"), Object(2)));
  }

  /** `Set` of a node into the map that holds it already. */
  lemma SetAgainBreaks()
    ensures Breaks(SetCall(0, Name("d"), Object(2)))
  {
    hide EXAMPLE, Agree, Valid, Below;
    ExampleIs();
    ExampleAgrees();
    AboveInExample(0, 2);
    UnsafeBreaks(SetCall(0, Name("d"), Object(2)));
  }

  /** `Set` of a node at the last position of an array, given as kIdxLast. */
  lemma SetAtLastBreaks()
    ensures Breaks(SetCall(2, Last, Object(1)))
  {
    hide EXAMPLE, Agree, Valid, Below;
    ExampleIs();
    ExampleAgrees();
    AboveInExample(2, 1);
    UnsafeBreaks(SetCall(2, Last, Object(1)));
  }

  // ----- Insert -----

  /** `Insert` of a node out of a map, under a key that this map uses for another node. */
  lemma InsertUnderUsedKeyBreaks()
    ensures Breaks(InsertCall(1, Name("a"), Object(3)))
  {
    hide EXAMPLE, Agree, Valid, Below;
    ExampleIs();
    ExampleAgrees();
    AboveInExample(1, 3);
    UnsafeBreaks(InsertCall(1, Name("a"), Object(3)));
  }

  /** `Insert` of a node into the map that holds it already. */
  lemma InsertAgainBreaks()
    ensures Breaks(InsertCall(0, Name("d"), Object(2)))
  {
    hide EXAMPLE, Agree, Valid, Below;
    ExampleIs();
    ExampleAgrees();
    AboveInExample(0, 2);
    UnsafeBreaks(InsertCall(0, Name("d"), Object(2)));
  }

  // ----- ParentSet -----

  /** `ParentSet` into a map, under the name of another node there. */
  lemma ParentSetOnNodeBreaks()
    ensures Breaks(ParentSetCall(1, Some(0), Some("b")))
  {
    hide EXAMPLE, Agree, Valid, Below;
    ExampleIs();
    ExampleAgrees();
    AboveInExample(0, 1);
    UnsafeBreaks(ParentSetCall(1, Some(0), Some("b")));
  }

  /** `ParentSet` with a name that the former parent uses for another node. */
  lemma ParentSetUnderUsedNameBreaks()
    ensures Breaks(ParentSetCall(2, Some(1), Some("b")))
  {
    hide EXAMPLE, Agree, Valid, Below;
    ExampleIs();
    ExampleAgrees();
    AboveInExample(1, 2);
    UnsafeBreaks(ParentSetCall(2, Some(1), Some("b")));
  }

  // ----- KeyChange -----

  /** `KeyChange` of a node to the empty key. */
  lemma KeyChangeToNothingBreaks()
    ensures Breaks(KeyChangeCall(0, Name("a"), Name("")))
  {
    hide EXAMPLE, Agree, Valid, Below;
    ExampleIs();
    ExampleAgrees();
    UnsafeBreaks(KeyChangeCall(0, Name("a"), Name("")));
  }

  /** `KeyChange` of a node in an array to kIdxEnd. */
  lemma KeyChangeToEndBreaks()
    ensures Breaks(KeyChangeCall(4, At(1), End))
  {
    hide EXAMPLE, Agree, Valid, Below;
    ExampleIs();
    ExampleAgrees();
    UnsafeBreaks(KeyChangeCall(4, At(1), End));
  }

  lemma FirstOfHolder()
    ensures Resolve(HOLDER, At(0)) == Name("a")
  {
    var ks := LiveKeys(HOLDER.m);
    assert "a" in ks && ks[0] in ks;
    var i :| 0 <= i < |ks| && ks[i] == "a";
    if i > 0 { assert Order.Less(ks[0], ks[i]); }
    assert Order.Less("a", "b") && Order.Less("a", "c");
    Order.LessIsStrict("a", "a");
    if ks[0] == "b" { Order.LessIsStrict("b", "a"); }
    if ks[0] == "c" { Order.LessIsStrict("c", "a"); }
  }

  /** `KeyChange` of a node in a map to a position. */
  lemma KeyChangeToPositionBreaks()
    ensures Breaks(KeyChangeCall(0, At(0), At(5)))
  {
    hide EXAMPLE, Agree, Valid, Below, Resolve;
    ExampleIs();
    ExampleAgrees();
    FirstOfHolder();
    UnsafeBreaks(KeyChangeCall(0, At(0), At(5)));
  }

  /** `KeyChange` of a node in an array to an index out of its reach. */
  lemma KeyChangeFarBreaks()
    ensures Breaks(KeyChangeCall(4, At(1), At(1001)))
  {
    hide EXAMPLE, Agree, Valid, Below;
    ExampleIs();
    ExampleAgrees();
    UnsafeBreaks(KeyChangeCall(4, At(1), At(1001)));
  }

  // ----- CompareExchange -----

  /** `CompareExchange` of a node for a value. */
  lemma ExchangeOfNodeBreaks()
    ensures Breaks(CompareExchangeCall(0, Name("a"), Object(2), Bool(true)))
  {
    hide EXAMPLE, Agree, Valid, Below;
    ExampleIs();
    ExampleAgrees();
    UnsafeBreaks(CompareExchangeCall(0, Name("a"), Object(2), Bool(true)));
  }

  /** `CompareExchange` that stores a node under a second key of its map. */
  lemma ExchangeAgainBreaks()
    ensures Breaks(CompareExchangeCall(0, Name("d"), Empty, Object(2)))
  {
    hide EXAMPLE, Agree, Valid, Below;
    ExampleIs();
    ExampleAgrees();
    UnsafeBreaks(CompareExchangeCall(0, Name("d"), Empty, Object(2)));
  }

  /** `CompareExchange` that stores a node under a key that the map it leaves uses for another node. */
  lemma ExchangeUnderUsedKeyBreaks()
    ensures Breaks(CompareExchangeCall(1, Name("a"), Empty, Object(3)))
  {
    hide EXAMPLE, Agree, Valid, Below;
    ExampleIs();
    ExampleAgrees();
    AboveInExample(1, 3);
    UnsafeBreaks(CompareExchangeCall(1, Name("a"), Empty, Object(3)));
  }

  /** `CompareExchange` that stores the parent of the node in it. */
  lemma ExchangeForParentBreaks()
    ensures Breaks(CompareExchangeCall(2, At(0), Empty, Object(0)))
  {
    hide EXAMPLE, Agree, Valid, Below;
    ExampleIs();
    ExampleAgrees();
    AboveInExample(2, 0);
    UnsafeBreaks(CompareExchangeCall(2, At(0), Empty, Object(0)));
  }

  /** `CompareExchange` at kIdxEnd stores nothing, and yet gives the node a parent. */
  lemma ExchangeAtEndBreaks()
    ensures Breaks(CompareExchangeCall(4, End, Empty, Object(1)))
  {
    hide EXAMPLE, Agree, Valid, Below;
    ExampleIs();
    ExampleAgrees();
    AboveInExample(4, 1);
    UnsafeBreaks(CompareExchangeCall(4, End, Empty, Object(1)));
  }

  /** `CompareExchange` at a key that a map cannot have does the same, if the node has a name. */
  lemma ExchangeAtNoKeyBreaks()
    ensures Breaks(CompareExchangeCall(1, End, Empty, Object(2)))
  {
    hide EXAMPLE, Agree, Valid, Below;
    ExampleIs();
    ExampleAgrees();
    AboveInExample(1, 2);
    UnsafeBreaks(CompareExchangeCall(1, End, Empty, Object(2)));
  }

  // ----- BulkSet and ForEach -----

  /** `BulkSet` of a node over another one in a map: when the other one is detached, it takes the entry
      that was just written with it. */
  lemma BulkSetOverNodeBreaks()
    ensures Breaks(BulkSetCall(0, [(Name("a"), Object(1))]))
  {
    hide EXAMPLE, Agree, Valid, Below, BulkSet, StaysWithin;
    ExampleIs();
    ExampleAgrees();
    ExampleIsGood();
    AboveInExample(0, 1);
    BulkSetOneIff(EXAMPLE, 0, "a", 1);
  }

  /** `BulkSet` of a node out of a map, under a key that this map uses for another node. */
  lemma BulkSetUnderUsedKeyBreaks()
    ensures Breaks(BulkSetCall(1, [(Name("a"), Object(3))]))
  {
    hide EXAMPLE, Agree, Valid, Below, BulkSet, StaysWithin;
    ExampleIs();
    ExampleAgrees();
    ExampleIsGood();
    AboveInExample(1, 3);
    BulkSetOneIff(EXAMPLE, 1, "a", 3);
  }

  /** `BulkSet` of a node into the map that holds it already. */
  lemma BulkSetAgainBreaks()
    ensures Breaks(BulkSetCall(0, [(Name("d"), Object(2))]))
  {
    hide EXAMPLE, Agree, Valid, Below, BulkSet, StaysWithin;
    ExampleIs();
    ExampleAgrees();
    ExampleIsGood();
    AboveInExample(0, 2);
    BulkSetOneIff(EXAMPLE, 0, "d", 2);
  }

  /** The mutating `ForEach` that writes a node over another one in a map. */
  lemma ForEachOverNodeBreaks()
    ensures Breaks(ForEachCall(0, WriteAndStop(Object(1)), Name("a")))
  {
    hide EXAMPLE, Agree, Valid, Below, ForEach;
    ExampleIs();
    ExampleAgrees();
    ExampleIsGood();
    AboveInExample(0, 1);
    ForEachOneIff(EXAMPLE, 0, "a", 1);
  }

  /** The mutating `ForEach` that writes a node out of a map under a key that this map uses for another node. */
  lemma ForEachUnderUsedKeyBreaks()
    ensures Breaks(ForEachCall(1, WriteAndStop(Object(2)), Name("b")))
  {
    hide EXAMPLE, Agree, Valid, Below, ForEach;
    ExampleIs();
    ExampleAgrees();
    ExampleIsGood();
    AboveInExample(1, 2);
    ForEachOneIff(EXAMPLE, 1, "b", 2);
  }

  /** The mutating `ForEach` that writes the parent of the node into it. */
  lemma ForEachOverParentBreaks()
    ensures Breaks(ForEachCall(3, WriteAndStop(Object(0)), Name("b")))
  {
    hide EXAMPLE, Agree, Valid, Below, ForEach;
    ExampleIs();
    ExampleAgrees();
    ExampleIsGood();
    AboveInExample(3, 0);
    ForEachOneIff(EXAMPLE, 3, "b", 0);
  }

  /** The mutating `ForEach` that writes a child of the map again. */
  lemma ForEachAgainBreaks()
    ensures Breaks(ForEachCall(0, WriteAndStop(Object(2)), Name("c")))
  {
    hide EXAMPLE, Agree, Valid, Below, ForEach;
    ExampleIs();
    ExampleAgrees();
    ExampleIsGood();
    AboveInExample(0, 2);
    ForEachOneIff(EXAMPLE, 0, "c", 2);
  }

  // ----- BulkSet and ForEach on arrays -----

  /** `BulkSet` of a node at the last position of an array, given as kIdxLast. */
  lemma BulkSetAtLastBreaks()
    ensures Breaks(BulkSetCall(4, [(Last, Object(1))]))
  {
    hide EXAMPLE, Agree, Valid, Below, BulkSet, StaysWithin;
    ExampleIs();
    ExampleAgrees();
    ExampleIsGood();
    AboveInExample(4, 1);
    BulkSetSlotIff(EXAMPLE, 4, Last, 1);
  }

  /** The mutating `ForEach` of an array that begins behind the first slot and writes a node there: the key it
      was shown is no longer the position, so that the node is taken for a duplicate of itself. */
  lemma ForEachBehindFirstBreaks()
    ensures Breaks(ForEachCall(4, WriteAndStop(Object(1)), At(1)))
  {
    hide EXAMPLE, Agree, Valid, Below, ForEach;
    ExampleIs();
    ExampleAgrees();
    ExampleIsGood();
    AboveInExample(4, 1);
    ForEachSlotIff(EXAMPLE, 4, At(1), 1);
  }

  /** The mutating `ForEach` that writes the parent of the array into its first slot. */
  lemma ForEachOfParentBreaks()
    ensures Breaks(ForEachCall(4, WriteAndStop(Object(4)), NoKey))
  {
    hide EXAMPLE, Agree, Valid, Below, ForEach;
    ExampleIs();
    ExampleAgrees();
    ExampleIsGood();
    AboveInExample(4, 4);
    ForEachSlotIff(EXAMPLE, 4, NoKey, 4);
  }

  // The caller's function that erases what it is shown first, and writes a value over the next.
  function EraseAndWrite(v: XValue): OnEach {
    (h: seq<(Key, XValue)>, k: Key, x: XValue) => if h == [] then (EraseIt, x) else (Stop, v)
  }

  lemma EraseAndWriteStorable(w: World, v: XValue)
    requires Storable(w, v)
    ensures GivesStorable(w, EraseAndWrite(v))
  {
  }

  lemma EraseAndWriteOnRow()
    ensures ForEachWriting(ROW, EraseAndWrite(Object(1)), NoKey) ==
            Writing(ArrayBox([Object(1)]), [5], [(1, At(1))], {1})
  {
    var f := EraseAndWrite(Object(1));
    var x, y := Writing(ROW, [], [], {}), Writing(ArrayBox([Object(5)]), [], [], {});
    FirstIsErased(x, y);
    SecondIsWritten(y, [(At(0), Bool(true))]);
  }

  lemma FirstIsErased(x: Writing, y: Writing)
    requires x == Writing(ROW, [], [], {}) && y == Writing(ArrayBox([Object(5)]), [], [], {})
    ensures var f := EraseAndWrite(Object(1)); EachSlot(x, [], 0, f) == EachSlot(y, [(At(0), Bool(true))], 0, f)
  {
    var f, a := EraseAndWrite(Object(1)), ROW.a;
    assert f([], At(0), a[0]) == (EraseIt, a[0]) && Outcome(a[0], EraseIt, a[0]) == None;
    assert SlotAfter(a, 0, None) == [Object(5)];
    assert NodesOf([a[0]]) == [] by { assert [a[0]][1..] == []; }
    assert Noted(x, ArrayBox([Object(5)]), At(0), a[0], None) == y;
    assert [] + [(At(0), a[0])] == [(At(0), Bool(true))];
  }

  lemma SecondIsWritten(y: Writing, shown: seq<(Key, XValue)>)
    requires y == Writing(ArrayBox([Object(5)]), [], [], {}) && shown == [(At(0), Bool(true))]
    ensures EachSlot(y, shown, 0, EraseAndWrite(Object(1))) == Writing(ArrayBox([Object(1)]), [5], [(1, At(1))], {1})
  {
    var f, b := EraseAndWrite(Object(1)), [Object(5)];
    assert f(shown, At(1), b[0]) == (Stop, Object(1)) && Outcome(b[0], Stop, Object(1)) == Some(Object(1));
    assert SlotAfter(b, 0, Some(Object(1))) == [Object(1)];
    assert NodesOf([b[0]]) == [5] by { assert [b[0]][1..] == []; }
  }

  /** The mutating `ForEach` of an array that erases a slot and writes a node over the next one: the position
      has moved, the key that was shown has not. */
  lemma ForEachBehindErasedBreaks()
    ensures Breaks(ForEachCall(4, EraseAndWrite(Object(1)), NoKey))
  {
    hide EXAMPLE, Agree, Valid, Below, ForEach, ForEachWriting;
    ExampleIs();
    ExampleAgrees();
    AboveInExample(4, 1);
    EraseAndWriteOnRow();
    EraseAndWriteStorable(EXAMPLE, Object(1));
    var x := Writing(ArrayBox([Object(1)]), [5], [(1, At(1))], {1});
    assert !AtKey(x.box.a, x.placed[0]);
    ForEachArrayIff(EXAMPLE, 4, EraseAndWrite(Object(1)), NoKey);
  }

  // ----- Append, Increment and NameSet -----

  /** `Append` or `Increment` at the key of a node: the node gives way and keeps its parent. */
  lemma AmendOverNodeBreaks(change: XValue -> XValue, v: XValue)
    requires GivesPlain(change) && IsPlain(v)
    ensures Breaks(AmendCall(0, Name("a"), change, v))
  {
    hide EXAMPLE, Agree, Valid, Amend, GivesPlain;
    ExampleIs();
    ExampleAgrees();
    UnsafeBreaks(AmendCall(0, Name("a"), change, v));
  }

  /** `Increment` by a node at a key that is not there: the node is stored and gets no parent. */
  lemma AmendFromNodeBreaks(change: XValue -> XValue)
    requires GivesPlain(change)
    ensures Breaks(AmendCall(0, Name("d"), change, Object(1)))
  {
    hide EXAMPLE, Agree, Valid, Amend, GivesPlain;
    ExampleIs();
    ExampleAgrees();
    UnsafeBreaks(AmendCall(0, Name("d"), change, Object(1)));
  }

  /** `NameSet` to the empty name, with the map to follow: the map loses its child. */
  lemma NameSetToNothingBreaks()
    ensures Breaks(NameSetCall(2, "", true))
  {
    hide EXAMPLE, Agree, Valid, Put, Erase;
    ExampleIs();
    ExampleAgrees();
    ChildIsNamed(EXAMPLE, 0, 2);
    UnsafeBreaks(NameSetCall(2, "", true));
  }

  lemma ExampleIsGood()
    ensures Good(EXAMPLE)
  {
    hide EXAMPLE, Agree, Valid;
    ExampleIs();
    ExampleAgrees();
    assert Ranked(EXAMPLE.parent, map[0 := 0, 1 := 0, 2 := 1, 3 := 1, 4 := 0, 5 := 1]);
  }

  // A node goes in, its entry is emptied again, and the node goes in once more.
  function EmptiedBetween(c: Id): seq<(Key, XValue)> {
    [(Name("a"), Object(c)), (Name("a"), Empty), (Name("c"), Object(c))]
  }

  /** `BulkSet` reads past the end of its pairs when the last node was given an entry before that is empty
      again: in any map without the key "a". */
  lemma BulkSetRunsPastItsEnd(w: World, p: Id, c: Id)
    requires p in w.box && w.box[p].MapBox? && "a" !in w.box[p].m && ValidChild(w, p, Object(c))
    ensures !StaysWithin(w, p, EmptiedBetween(c))
  {
    hide ValidChild;
    var m, kvs := w.box[p].m, EmptiedBetween(c);
    PlainIsValid(w, p, Empty);
    assert kvs[1..] == [(Name("a"), Empty), (Name("c"), Object(c))] && kvs[1..][1..] == [(Name("c"), Object(c))];
    var one := Turn(w, p, Begin(w.box[p]), kvs).0;
    assert one.box == MapBox(m["a" := Object(c)]) && one.placed == map[c := Name("a")];
    var two := Turn(w, p, one, kvs[1..]).0;
    assert two.box == MapBox(m["a" := Object(c)]["a" := Empty]) && two.placed == one.placed;
    var last := Turn(w, p, two, kvs[1..][1..]).0;
    assert last.overrun;
    assert SetEach(w, p, two, kvs[1..][1..]) == SetEach(w, p, last, []) == last;
    assert SetEach(w, p, one, kvs[1..]) == SetEach(w, p, two, kvs[1..][1..]);
  }

  lemma PlainIsValid(w: World, p: Id, v: XValue)
    requires !v.Object?
    ensures ValidChild(w, p, v)
  {
  }
}
