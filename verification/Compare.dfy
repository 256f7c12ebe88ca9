/** `xnode::Compare` with unwrapping of nodes and without a callback: the three-way comparison of
    two trees. */
module Compares {
  import opened XValues
  import opened Boxes
  import opened Trees
  import Order

  // The value that a reader without write access sees: nodes are const links.
  function Value(t: Tree): XValue {
    if t.Leaf? then t.v else ConstObject(t.addr)
  }

  function ReadOnly(v: XValue): XValue {
    if v.Object? then ConstObject(v.addr) else v
  }

  predicate KeyLess(k: Key, l: Key) {
    if k.Name? && l.Name? then Order.Less(k.s, l.s)
    else if k.At? && l.At? then k.i < l.i
    else k.At? && l.Name?
  }

  predicate Paired(t: Tree) {
    t.MapTree? ==> |t.keys| == |t.subs|
  }

  // The pairs that iteration shows.
  function Kids(t: Tree): (r: seq<(Key, Tree)>)
    requires !t.Leaf? && Paired(t)
    ensures |r| == |t.subs|
    ensures forall i | 0 <= i < |r| :: r[i] == (if t.MapTree? then Name(t.keys[i]) else At(i), t.subs[i])
  {
    seq(|t.subs|, i requires 0 <= i < |t.subs| => (if t.MapTree? then Name(t.keys[i]) else At(i), t.subs[i]))
  }

  // The pairs of the right side, which are collected before: not the empty slots.
  function Present(kids: seq<(Key, Tree)>): (r: seq<(Key, Tree)>)
    ensures forall p | p in r :: p in kids
  {
    if kids == [] then []
    else (if kids[0].1 == Leaf(Empty) then [] else [kids[0]]) + Present(kids[1..])
  }

  predicate SameKind(t: Tree, u: Tree) {
    (t.MapTree? && u.MapTree?) || (t.ArrayTree? && u.ArrayTree?)
  }

  // ----- the comparison -----

  function Verdict(l: Tree, r: Tree): int {
    if Eq(Value(l), Value(r)) then 0 else Compare(Value(l), Value(r))
  }

  // One pass over both sides, up to the first difference; nodes of the same kind are kept for later.
  datatype Pass = Pass(c: int, later: seq<(Tree, Tree)>)

  function Joined(l: Tree, r: Tree, rest: Pass): Pass {
    var c := Verdict(l, r);
    if c == 0 then rest
    else if SameKind(l, r) then rest.(later := [(l, r)] + rest.later)
    else Pass(c, [])
  }

  function Walk(ls: seq<(Key, Tree)>, rs: seq<(Key, Tree)>): (r: Pass)
    ensures forall p | p in r.later :: SameKind(p.0, p.1) && exists i :: 0 <= i < |ls| && ls[i].1 == p.0
    decreases |ls|
  {
    if ls == [] then Pass(if rs == [] then 0 else -1, [])
    else if rs == [] || KeyLess(ls[0].0, rs[0].0) then Pass(1, [])
    else if KeyLess(rs[0].0, ls[0].0) then Pass(-1, [])
    else
      var rest := Walk(ls[1..], rs[1..]);
      assert forall i | 0 <= i < |ls| - 1 :: ls[1..][i] == ls[i + 1];
      Joined(ls[0].1, rs[0].1, rest)
  }

  ghost predicate Well(t: Tree)
    decreases t
  {
    !t.Leaf? ==> Paired(t) && forall i | 0 <= i < |t.subs| :: Well(t.subs[i])
  }

  // The order of the two node types.
  function KindOf(t: Tree): int { if t.MapTree? then 1 else 2 }

  ghost function CompareNodes(t: Tree, u: Tree): int
    requires !t.Leaf? && !u.Leaf? && Well(t) && Well(u)
    decreases t, 1, 0
  {
    if !SameKind(t, u) then KindOf(t) - KindOf(u)
    else
      var pass := Walk(Kids(t), Present(Kids(u)));
      if pass.c != 0 then pass.c
      else
        LaterIsWell(t, u);
        CompareLater(t, pass.later)
  }

  ghost predicate Queued(t: Tree, later: seq<(Tree, Tree)>) {
    forall i | 0 <= i < |later| ::
      (later[i].0 in if t.Leaf? then [] else t.subs) && Well(later[i].0) && Well(later[i].1)
      && SameKind(later[i].0, later[i].1)
  }

  ghost function CompareLater(t: Tree, later: seq<(Tree, Tree)>): int
    requires Queued(t, later)
    decreases t, 0, |later|
  {
    if later == [] then 0
    else
      assert later[0].0 in t.subs;
      var c := CompareNodes(later[0].0, later[0].1);
      if c != 0 then c else CompareLater(t, later[1..])
  }

  lemma {:induction false} WalkPairs(ls: seq<(Key, Tree)>, rs: seq<(Key, Tree)>, p: (Tree, Tree))
    requires p in Walk(ls, rs).later
    ensures exists j :: 0 <= j < |rs| && rs[j].1 == p.1
    decreases |ls|
  {
    if p == (ls[0].1, rs[0].1) {
      assert rs[0].1 == p.1;
    } else {
      WalkPairs(ls[1..], rs[1..], p);
      var j :| 0 <= j < |rs| - 1 && rs[1..][j].1 == p.1;
      assert rs[j + 1].1 == p.1;
    }
  }

  lemma LaterIsWell(t: Tree, u: Tree)
    requires !t.Leaf? && !u.Leaf? && Well(t) && Well(u)
    ensures Queued(t, Walk(Kids(t), Present(Kids(u))).later)
  {
    var ls, rs := Kids(t), Present(Kids(u));
    var later := Walk(ls, rs).later;
    forall k | 0 <= k < |later|
      ensures later[k].0 in t.subs && Well(later[k].0) && Well(later[k].1)
    {
      assert later[k] in later;
      var i :| 0 <= i < |ls| && ls[i].1 == later[k].0;
      assert ls[i].1 == t.subs[i];
      WalkPairs(ls, rs, later[k]);
      var j :| 0 <= j < |rs| && rs[j].1 == later[k].1;
      assert rs[j] in Kids(u);
    }
  }

  // ----- when it answers 0 -----

  // What the comparison takes for the same: kind and keys are the same, and under each key the values
  // compare as 0, or they are nodes that match.
  ghost predicate Matches(t: Tree, u: Tree)
    decreases t
  {
    && SameKind(t, u) && Well(t) && Well(u)
    && var rs := Present(Kids(u));
       && |t.subs| == |rs|
       && forall i | 0 <= i < |t.subs| ::
            && Kids(t)[i].0 == rs[i].0
            && (Compare(Value(t.subs[i]), Value(rs[i].1)) == 0 || Matches(t.subs[i], rs[i].1))
  }

  ghost predicate Aligned(ls: seq<(Key, Tree)>, rs: seq<(Key, Tree)>) {
    && |ls| == |rs|
    && forall i | 0 <= i < |ls| ::
         ls[i].0 == rs[i].0 && (Compare(Value(ls[i].1), Value(rs[i].1)) == 0 || SameKind(ls[i].1, rs[i].1))
  }

  ghost predicate OfNamesOrIndices(kids: seq<(Key, Tree)>) {
    forall i | 0 <= i < |kids| :: kids[i].0.Name? || kids[i].0.At?
  }

  lemma KeyLessTotal(k: Key, l: Key)
    requires (k.Name? || k.At?) && (l.Name? || l.At?)
    ensures !KeyLess(k, l) && !KeyLess(l, k) <==> k == l
    ensures !(KeyLess(k, l) && KeyLess(l, k))
  {
    if k.Name? && l.Name? { Order.LessIsStrict(k.s, l.s); }
  }

  lemma EqComparesZero(x: XValue, y: XValue)
    requires Eq(x, y)
    ensures Compare(x, y) == 0
  {
    Int32Facts(Distance(x, y));
  }

  lemma {:induction false} WalkZeroIff(ls: seq<(Key, Tree)>, rs: seq<(Key, Tree)>)
    requires OfNamesOrIndices(ls) && OfNamesOrIndices(rs)
    ensures Walk(ls, rs).c == 0 <==> Aligned(ls, rs)
    decreases |ls|
  {
    if ls != [] && rs != [] {
      KeyLessTotal(ls[0].0, rs[0].0);
      WalkZeroIff(ls[1..], rs[1..]);
      var x, y := Value(ls[0].1), Value(rs[0].1);
      if Eq(x, y) { EqComparesZero(x, y); }
      if Aligned(ls, rs) {
        assert forall i | 0 <= i < |ls| - 1 :: ls[1..][i] == ls[i + 1] && rs[1..][i] == rs[i + 1];
      }
      if Aligned(ls[1..], rs[1..]) {
        assert forall i | 0 < i < |ls| :: ls[i] == ls[1..][i - 1] && rs[i] == rs[1..][i - 1];
      }
    }
  }

  // The pairs kept for later are those that do not compare as 0.
  lemma {:induction false} KeptForLater(ls: seq<(Key, Tree)>, rs: seq<(Key, Tree)>, i: nat)
    requires Walk(ls, rs).c == 0 && i < |ls| && i < |rs| && Compare(Value(ls[i].1), Value(rs[i].1)) != 0
    ensures (ls[i].1, rs[i].1) in Walk(ls, rs).later
    decreases |ls|
  {
    if Eq(Value(ls[i].1), Value(rs[i].1)) { EqComparesZero(Value(ls[i].1), Value(rs[i].1)); }
    if i > 0 { KeptForLater(ls[1..], rs[1..], i - 1); }
  }

  lemma {:induction false} LaterIsAPlace(ls: seq<(Key, Tree)>, rs: seq<(Key, Tree)>, p: (Tree, Tree)) returns (i: nat)
    requires p in Walk(ls, rs).later
    ensures i < |ls| && i < |rs| && p == (ls[i].1, rs[i].1) && Compare(Value(p.0), Value(p.1)) != 0
    decreases |ls|
  {
    if p == (ls[0].1, rs[0].1) && !Eq(Value(p.0), Value(p.1)) && Compare(Value(p.0), Value(p.1)) != 0 {
      i := 0;
    } else {
      i := LaterIsAPlace(ls[1..], rs[1..], p);
      i := i + 1;
    }
  }

  lemma LaterStep(t: Tree, later: seq<(Tree, Tree)>)
    requires Queued(t, later) && later != []
    ensures Queued(t, later[1..])
    ensures forall i | 0 <= i < |later| ::
              !later[i].0.Leaf? && !later[i].1.Leaf? && Well(later[i].0) && Well(later[i].1)
  {
  }

  lemma {:induction false} LaterZeroIff(t: Tree, later: seq<(Tree, Tree)>)
    requires Queued(t, later)
    ensures CompareLater(t, later) == 0 <==> forall i | 0 <= i < |later| :: CompareNodes(later[i].0, later[i].1) == 0
    decreases |later|
  {
    hide CompareNodes, Queued;
    if later != [] {
      LaterStep(t, later);
      LaterZeroIff(t, later[1..]);
      assert forall i | 0 <= i < |later| - 1 :: later[1..][i] == later[i + 1];
      if forall i | 0 <= i < |later| - 1 :: CompareNodes(later[1..][i].0, later[1..][i].1) == 0 {
        assert forall i | 0 < i < |later| :: later[i] == later[1..][i - 1];
      }
    }
  }

  lemma KidsAreNamed(t: Tree)
    requires !t.Leaf? && Paired(t)
    ensures OfNamesOrIndices(Kids(t)) && OfNamesOrIndices(Present(Kids(t)))
  {
    forall i | 0 <= i < |Present(Kids(t))| ensures Present(Kids(t))[i].0.Name? || Present(Kids(t))[i].0.At? {
      assert Present(Kids(t))[i] in Kids(t);
    }
  }

  // At the i-th place: kept for later, the two nodes compare as 0 exactly when they match.
  ghost predicate PlaceMatches(t: Tree, u: Tree, i: nat)
    requires !t.Leaf? && !u.Leaf? && Paired(t) && Paired(u) && i < |t.subs| && i < |Present(Kids(u))|
  {
    Compare(Value(t.subs[i]), Value(Present(Kids(u))[i].1)) == 0 || Matches(t.subs[i], Present(Kids(u))[i].1)
  }

  lemma MatchesMeans(t: Tree, u: Tree)
    requires SameKind(t, u) && Well(t) && Well(u)
    ensures Matches(t, u) <==>
            && |t.subs| == |Present(Kids(u))|
            && forall i | 0 <= i < |t.subs| :: Kids(t)[i].0 == Present(Kids(u))[i].0 && PlaceMatches(t, u, i)
  {
  }

  lemma {:induction false} PlaceLater(t: Tree, u: Tree, i: nat)
    requires SameKind(t, u) && Well(t) && Well(u) && i < |t.subs| && i < |Present(Kids(u))|
    requires Walk(Kids(t), Present(Kids(u))).c == 0
    requires forall p | p in Walk(Kids(t), Present(Kids(u))).later ::
               !p.0.Leaf? && !p.1.Leaf? && Well(p.0) && Well(p.1) && CompareNodes(p.0, p.1) == 0
    ensures PlaceMatches(t, u, i)
    decreases t, 0, 0
  {
    hide Matches, CompareNodes;
    var ls, rs := Kids(t), Present(Kids(u));
    assert ls[i].1 == t.subs[i];
    if Compare(Value(t.subs[i]), Value(rs[i].1)) != 0 {
      KeptForLater(ls, rs, i);
      CompareZeroIffMatches(t.subs[i], rs[i].1);
    }
  }

  lemma {:induction false} LaterMatches(t: Tree, u: Tree, p: (Tree, Tree))
    requires SameKind(t, u) && Well(t) && Well(u)
    requires |t.subs| == |Present(Kids(u))| && forall i | 0 <= i < |t.subs| :: PlaceMatches(t, u, i)
    requires p in Walk(Kids(t), Present(Kids(u))).later && !p.0.Leaf? && !p.1.Leaf? && Well(p.0) && Well(p.1)
    ensures CompareNodes(p.0, p.1) == 0
    decreases t, 0, 0
  {
    hide Matches, CompareNodes;
    var i := LaterIsAPlace(Kids(t), Present(Kids(u)), p);
    assert Kids(t)[i].1 == t.subs[i] && PlaceMatches(t, u, i);
    CompareZeroIffMatches(t.subs[i], p.1);
  }

  /** Without any bound on the values: the comparison answers 0 exactly when the trees match. */
  lemma {:induction false} CompareZeroIffMatches(t: Tree, u: Tree)
    requires !t.Leaf? && !u.Leaf? && Well(t) && Well(u)
    ensures CompareNodes(t, u) == 0 <==> Matches(t, u)
    decreases t, 1
  {
    if SameKind(t, u) {
      KidsAreNamed(t);
      KidsAreNamed(u);
      WalkZeroIff(Kids(t), Present(Kids(u)));
      MatchesMeans(t, u);
      if Walk(Kids(t), Present(Kids(u))).c == 0 {
        SamePassIffMatches(t, u);
      } else if Matches(t, u) {
        MatchesAligned(t, u);
      }
    }
  }

  lemma MatchesAligned(t: Tree, u: Tree)
    requires Matches(t, u)
    ensures Aligned(Kids(t), Present(Kids(u)))
  {
    var ls, rs := Kids(t), Present(Kids(u));
    forall i | 0 <= i < |ls|
      ensures ls[i].0 == rs[i].0 && (Compare(Value(ls[i].1), Value(rs[i].1)) == 0 || SameKind(ls[i].1, rs[i].1))
    {
      assert ls[i].1 == t.subs[i];
    }
  }

  lemma CompareIsLater(t: Tree, u: Tree)
    requires SameKind(t, u) && Well(t) && Well(u) && Walk(Kids(t), Present(Kids(u))).c == 0
    ensures Queued(t, Walk(Kids(t), Present(Kids(u))).later)
    ensures CompareNodes(t, u) == CompareLater(t, Walk(Kids(t), Present(Kids(u))).later)
  {
    LaterIsWell(t, u);
  }

  lemma {:induction false} SamePassIffMatches(t: Tree, u: Tree)
    requires SameKind(t, u) && Well(t) && Well(u)
    requires Walk(Kids(t), Present(Kids(u))).c == 0 && Aligned(Kids(t), Present(Kids(u)))
    ensures CompareNodes(t, u) == 0 <==> Matches(t, u)
    decreases t, 0, 2
  {
    hide Matches, CompareNodes, CompareLater, Walk, Present, Aligned;
    CompareIsLater(t, u);
    if CompareNodes(t, u) == 0 { ZeroMatches(t, u); }
    if Matches(t, u) { MatchesZero(t, u); }
  }

  lemma {:induction false} ZeroMatches(t: Tree, u: Tree)
    requires SameKind(t, u) && Well(t) && Well(u)
    requires Walk(Kids(t), Present(Kids(u))).c == 0 && Aligned(Kids(t), Present(Kids(u)))
    requires Queued(t, Walk(Kids(t), Present(Kids(u))).later)
    requires CompareLater(t, Walk(Kids(t), Present(Kids(u))).later) == 0
    ensures Matches(t, u)
    decreases t, 0, 1
  {
    hide Matches, CompareNodes, CompareLater, Walk, Present;
    LaterZeroIff(t, Walk(Kids(t), Present(Kids(u))).later);
    MatchesMeans(t, u);
    forall i | 0 <= i < |t.subs| ensures PlaceMatches(t, u, i) { PlaceLater(t, u, i); }
  }

  lemma {:induction false} MatchesZero(t: Tree, u: Tree)
    requires Matches(t, u)
    requires Queued(t, Walk(Kids(t), Present(Kids(u))).later)
    ensures CompareLater(t, Walk(Kids(t), Present(Kids(u))).later) == 0
    decreases t, 0, 1
  {
    hide CompareNodes, CompareLater, Walk, Present;
    var later := Walk(Kids(t), Present(Kids(u))).later;
    LaterZeroIff(t, later);
    MatchesMeans(t, u);
    forall k | 0 <= k < |later| ensures CompareNodes(later[k].0, later[k].1) == 0 { LaterMatches(t, u, later[k]); }
  }

  // ----- deep equality -----

  ghost predicate DeepEqual(t: Tree, u: Tree)
    decreases t
  {
    if t.Leaf? || u.Leaf? then t.Leaf? && u.Leaf? && Eq(t.v, u.v)
    else
      && SameKind(t, u) && (t.MapTree? ==> t.keys == u.keys) && |t.subs| == |u.subs|
      && forall i | 0 <= i < |t.subs| :: DeepEqual(t.subs[i], u.subs[i])
  }

  // The values that meet under the same key are close enough for their 32-bit difference.
  ghost predicate Near(t: Tree, u: Tree)
    decreases t
  {
    SameKind(t, u) && Paired(t) && Paired(u) ==>
      forall i, j | 0 <= i < |t.subs| && 0 <= j < |u.subs| && Kids(t)[i].0 == Kids(u)[j].0 ::
        Close(Value(t.subs[i]), Value(u.subs[j])) && Near(t.subs[i], u.subs[j])
  }

  // No array in the tree has an empty slot.
  ghost predicate NoEmpty(t: Tree)
    decreases t
  {
    !t.Leaf? ==> forall i | 0 <= i < |t.subs| :: t.subs[i] != Leaf(Empty) && NoEmpty(t.subs[i])
  }

  lemma {:induction false} AllPresent(kids: seq<(Key, Tree)>)
    requires forall i | 0 <= i < |kids| :: kids[i].1 != Leaf(Empty)
    ensures Present(kids) == kids
  {
    if kids != [] {
      assert forall i | 0 <= i < |kids| - 1 :: kids[1..][i] == kids[i + 1];
      AllPresent(kids[1..]);
    }
  }

  lemma KidsPresent(t: Tree)
    requires !t.Leaf? && Paired(t) && NoEmpty(t)
    ensures Present(Kids(t)) == Kids(t)
  {
    AllPresent(Kids(t));
  }

  lemma {:induction false} DeepEqualSelf(t: Tree)
    ensures DeepEqual(t, t)
    decreases t
  {
    if !t.Leaf? { forall i | 0 <= i < |t.subs| ensures DeepEqual(t.subs[i], t.subs[i]) { DeepEqualSelf(t.subs[i]); } }
  }

  lemma {:induction false} RepresentsWell(boxes: Heap, v: XValue, t: Tree)
    requires Represents(boxes, v, t)
    ensures Well(t)
    decreases t
  {
    if !t.Leaf? {
      forall i | 0 <= i < |t.subs| ensures Well(t.subs[i]) {
        RepresentsWell(boxes, SubValue(boxes, v, t, i), t.subs[i]);
      }
    }
  }

  // The stored value of the i-th child.
  ghost function SubValue(boxes: Heap, v: XValue, t: Tree, i: nat): (x: XValue)
    requires Represents(boxes, v, t) && !t.Leaf? && i < |t.subs|
    ensures Represents(boxes, x, t.subs[i])
  {
    if t.MapTree? then boxes[t.addr].m[t.keys[i]] else boxes[t.addr].a[i]
  }

  lemma SameAddress(boxes: Heap, x: XValue, t: Tree, y: XValue, u: Tree)
    requires Represents(boxes, x, t) && Represents(boxes, y, u) && !t.Leaf? && !u.Leaf? && t.addr == u.addr
    ensures t == u
  {
    assert Represents(boxes, x, u);
    TreeIsUnique(boxes, x, t, u);
  }

  lemma CloseZeroIff(x: XValue, y: XValue)
    requires Close(x, y)
    ensures Compare(x, y) == 0 <==> Eq(x, y)
  {
    CompareIsTotalPreorder(x, y, y);
  }

  // Two children under the same key.
  lemma {:induction false} ChildIff(boxes: Heap, x: XValue, l: Tree, y: XValue, r: Tree)
    requires Represents(boxes, x, l) && Represents(boxes, y, r)
    requires NoEmpty(l) && NoEmpty(r) && Close(Value(l), Value(r)) && Near(l, r)
    ensures Compare(Value(l), Value(r)) == 0 || Matches(l, r) <==> DeepEqual(l, r)
    decreases l, 1
  {
    CloseZeroIff(Value(l), Value(r));
    if !l.Leaf? && !r.Leaf? {
      if l.addr == r.addr {
        SameAddress(boxes, x, l, y, r);
        DeepEqualSelf(l);
      } else {
        MatchesIffDeepEqual(boxes, x, l, y, r);
      }
    }
  }

  lemma {:induction false} MatchesIffDeepEqual(boxes: Heap, x: XValue, t: Tree, y: XValue, u: Tree)
    requires Represents(boxes, x, t) && Represents(boxes, y, u) && !t.Leaf? && !u.Leaf?
    requires NoEmpty(t) && NoEmpty(u) && Near(t, u)
    ensures Matches(t, u) <==> DeepEqual(t, u)
    decreases t, 0
  {
    RepresentsWell(boxes, x, t);
    RepresentsWell(boxes, y, u);
    KidsPresent(u);
    if SameKind(t, u) {
      MatchesMeans(t, u);
      if |t.subs| == |u.subs| {
        forall i | 0 <= i < |t.subs| && Kids(t)[i].0 == Kids(u)[i].0
          ensures PlaceMatches(t, u, i) <==> DeepEqual(t.subs[i], u.subs[i])
        {
          ChildIff(boxes, SubValue(boxes, x, t, i), t.subs[i], SubValue(boxes, y, u, i), u.subs[i]);
        }
        if t.MapTree? { SameKeysIff(t, u); }
      }
    }
  }

  lemma SameKeysIff(t: Tree, u: Tree)
    requires t.MapTree? && u.MapTree? && Paired(t) && Paired(u) && |t.subs| == |u.subs|
    ensures t.keys == u.keys <==> forall i | 0 <= i < |t.subs| :: Kids(t)[i].0 == Kids(u)[i].0
  {
    if forall i | 0 <= i < |t.subs| :: Kids(t)[i].0 == Kids(u)[i].0 {
      forall i | 0 <= i < |t.keys| ensures t.keys[i] == u.keys[i] {
        assert Kids(t)[i].0 == Name(t.keys[i]) && Kids(u)[i].0 == Name(u.keys[i]);
      }
    }
  }

  /** `Compare` answers 0 exactly when the two trees are deeply equal, provided that no array slot is
      empty and the values that meet are less than 2^31 apart. */
  lemma CompareZeroIffDeepEqual(boxes: Heap, l: Id, t: Tree, r: Id, u: Tree)
    requires Represents(boxes, ConstObject(l), t) && Represents(boxes, ConstObject(r), u)
    requires NoEmpty(t) && NoEmpty(u) && Near(t, u)
    ensures Well(t) && Well(u) && (CompareNodes(t, u) == 0 <==> DeepEqual(t, u))
  {
    RepresentsWell(boxes, ConstObject(l), t);
    RepresentsWell(boxes, ConstObject(r), u);
    CompareZeroIffMatches(t, u);
    MatchesIffDeepEqual(boxes, ConstObject(l), t, ConstObject(r), u);
  }

  // ----- which way the order goes -----

  // Both sides are in line up to the i-th pair, and there one side has ended, the keys differ, or values differ that
  // are not two nodes of one kind.
  ghost predicate FirstDifference(ls: seq<(Key, Tree)>, rs: seq<(Key, Tree)>, i: nat) {
    && i <= |ls| && i <= |rs| && Aligned(ls[..i], rs[..i])
    && !(i == |ls| == |rs|)
    && (i < |ls| && i < |rs| && ls[i].0 == rs[i].0 ==>
          Compare(Value(ls[i].1), Value(rs[i].1)) != 0 && !SameKind(ls[i].1, rs[i].1))
  }

  /** At the first difference the side comes first that has ended, that has the larger key, or that has the smaller
      value. */
  lemma {:induction false} WalkOrders(ls: seq<(Key, Tree)>, rs: seq<(Key, Tree)>, i: nat)
    requires OfNamesOrIndices(ls) && OfNamesOrIndices(rs) && FirstDifference(ls, rs, i)
    ensures Walk(ls, rs).c < 0 <==>
              if i == |ls| then true
              else if i == |rs| then false
              else if ls[i].0 != rs[i].0 then KeyLess(rs[i].0, ls[i].0)
              else Compare(Value(ls[i].1), Value(rs[i].1)) < 0
    ensures Walk(ls, rs).c != 0
    decreases |ls|
  {
    if ls != [] && rs != [] {
      KeyLessTotal(ls[0].0, rs[0].0);
      if Eq(Value(ls[0].1), Value(rs[0].1)) { EqComparesZero(Value(ls[0].1), Value(rs[0].1)); }
      if i > 0 {
        assert ls[..i][0] == ls[0] && rs[..i][0] == rs[0];
        RestDiffers(ls, rs, i);
        WalkOrders(ls[1..], rs[1..], i - 1);
      }
    }
  }

  lemma RestDiffers(ls: seq<(Key, Tree)>, rs: seq<(Key, Tree)>, i: nat)
    requires FirstDifference(ls, rs, i) && i > 0
    ensures FirstDifference(ls[1..], rs[1..], i - 1)
  {
    assert ls[1..][..i - 1] == ls[..i][1..] && rs[1..][..i - 1] == rs[..i][1..];
  }

  /** Maps come before arrays, and two nodes of one kind are in the order of their first difference. */
  lemma CompareNodesOrders(t: Tree, u: Tree, i: nat)
    requires !t.Leaf? && !u.Leaf? && Well(t) && Well(u)
    ensures !SameKind(t, u) ==> (CompareNodes(t, u) < 0 <==> t.MapTree?)
    ensures SameKind(t, u) && FirstDifference(Kids(t), Present(Kids(u)), i) ==>
              (CompareNodes(t, u) < 0 <==> Walk(Kids(t), Present(Kids(u))).c < 0) && CompareNodes(t, u) != 0
  {
    if SameKind(t, u) && FirstDifference(Kids(t), Present(Kids(u)), i) {
      KidsAreNamed(t);
      KidsAreNamed(u);
      WalkOrders(Kids(t), Present(Kids(u)), i);
    }
  }

  // At the i-th place two nodes of one kind meet that differ.
  ghost predicate DiffersBelow(t: Tree, u: Tree, i: nat)
    requires !t.Leaf? && !u.Leaf? && Well(t) && Well(u) && i < |t.subs| && i < |Present(Kids(u))|
  {
    var r := Present(Kids(u))[i].1;
    && SameKind(t.subs[i], r) && Compare(Value(t.subs[i]), Value(r)) != 0
    && Well(r) && CompareNodes(t.subs[i], r) != 0
  }

  /** Two nodes that are in line are in the order of the first nodes below them that differ. */
  lemma CompareNodesOrdersBelow(t: Tree, u: Tree, i: nat)
    requires SameKind(t, u) && Well(t) && Well(u) && Aligned(Kids(t), Present(Kids(u))) && i < |t.subs|
    requires DiffersBelow(t, u, i) && forall j: nat | j < i :: !DiffersBelow(t, u, j)
    ensures CompareNodes(t, u) == CompareNodes(t.subs[i], Present(Kids(u))[i].1)
  {
    hide CompareNodes, CompareLater, Matches, Walk, Present, Postponed, DiffersBelow;
    var ls, rs := Kids(t), Present(Kids(u));
    KidsAreNamed(t);
    KidsAreNamed(u);
    WalkZeroIff(ls, rs);
    CompareIsLater(t, u);
    forall j | 0 <= j < |ls|
      ensures Well(ls[j].1) && Well(rs[j].1) && (Postponed(ls, rs, j) ==> !ls[j].1.Leaf? && !rs[j].1.Leaf?)
      ensures Postponed(ls, rs, j) && CompareNodes(ls[j].1, rs[j].1) != 0 <==> DiffersBelow(t, u, j)
    {
      IsBelow(t, u, j);
    }
    assert ls[0..] == ls && rs[0..] == rs && ls[i].1 == t.subs[i];
    LaterInTurn(t, u, ls, rs, 0, i, Walk(ls, rs).later);
  }

  lemma IsBelow(t: Tree, u: Tree, j: nat)
    requires SameKind(t, u) && Well(t) && Well(u) && j < |t.subs| == |Present(Kids(u))|
    ensures var ls, rs := Kids(t), Present(Kids(u));
            && Well(ls[j].1) && Well(rs[j].1) && (Postponed(ls, rs, j) ==> !ls[j].1.Leaf? && !rs[j].1.Leaf?)
            && (Postponed(ls, rs, j) && CompareNodes(ls[j].1, rs[j].1) != 0 <==> DiffersBelow(t, u, j))
  {
    hide CompareNodes;
    assert Kids(t)[j].1 == t.subs[j] && Present(Kids(u))[j] in Kids(u);
  }

  // The nodes kept for later, from the n-th pair on.
  lemma {:induction false} LaterInTurn(t: Tree, u: Tree, ls: seq<(Key, Tree)>, rs: seq<(Key, Tree)>, n: nat, i: nat,
                                       later: seq<(Tree, Tree)>)
    requires SameKind(t, u) && Well(t) && Well(u) && |ls| == |rs| && n <= i < |ls| && Walk(ls[n..], rs[n..]).c == 0
    requires later == Walk(ls[n..], rs[n..]).later && Queued(t, later)
    requires forall j | 0 <= j < |ls| :: Well(ls[j].1) && Well(rs[j].1)
    requires forall j | n <= j < i :: !Postponed(ls, rs, j) || CompareNodes(ls[j].1, rs[j].1) == 0
    requires Postponed(ls, rs, i) && CompareNodes(ls[i].1, rs[i].1) != 0
    ensures CompareLater(t, later) == CompareNodes(ls[i].1, rs[i].1)
    decreases i - n
  {
    hide CompareNodes, Queued;
    assert ls[n..][0] == ls[n] && rs[n..][0] == rs[n] && ls[n..][1..] == ls[n + 1..] && rs[n..][1..] == rs[n + 1..];
    WalkOne(ls, rs, n);
    var rest := Walk(ls[n + 1..], rs[n + 1..]).later;
    if Postponed(ls, rs, n) {
      assert later == [(ls[n].1, rs[n].1)] + rest;
      LaterStep(t, later);
      assert later[1..] == rest && later[0] == (ls[n].1, rs[n].1);
    }
    if n < i { LaterInTurn(t, u, ls, rs, n + 1, i, rest); }
  }

  // The pair is one of nodes of one kind that do not compare as 0 at once.
  predicate Postponed(ls: seq<(Key, Tree)>, rs: seq<(Key, Tree)>, j: nat)
    requires j < |ls| && j < |rs|
  {
    SameKind(ls[j].1, rs[j].1) && Compare(Value(ls[j].1), Value(rs[j].1)) != 0
  }

  lemma WalkOne(ls: seq<(Key, Tree)>, rs: seq<(Key, Tree)>, n: nat)
    requires n < |ls| == |rs| && Walk(ls[n..], rs[n..]).c == 0
    ensures var rest := Walk(ls[n + 1..], rs[n + 1..]);
            && rest.c == 0
            && Walk(ls[n..], rs[n..]).later ==
               (if Postponed(ls, rs, n) then [(ls[n].1, rs[n].1)] else []) + rest.later
  {
    assert ls[n..][0] == ls[n] && rs[n..][0] == rs[n] && ls[n..][1..] == ls[n + 1..] && rs[n..][1..] == rs[n + 1..];
    if Eq(Value(ls[n].1), Value(rs[n].1)) { EqComparesZero(Value(ls[n].1), Value(rs[n].1)); }
  }

  // ----- the sign -----

  ghost predicate Flipped(later: seq<(Tree, Tree)>, other: seq<(Tree, Tree)>) {
    |later| == |other| && forall k | 0 <= k < |later| :: other[k] == (later[k].1, later[k].0)
  }

  ghost predicate NearKids(ls: seq<(Key, Tree)>, rs: seq<(Key, Tree)>) {
    forall i, j | 0 <= i < |ls| && 0 <= j < |rs| && ls[i].0 == rs[j].0 :: Close(Value(ls[i].1), Value(rs[j].1))
  }

  lemma EqFlips(x: XValue, y: XValue)
    ensures Eq(x, y) <==> Eq(y, x)
  {
    if x.Str? && y.Str? { StrCmpFlips(x.s, y.s); }
  }

  lemma CloseFlips(x: XValue, y: XValue)
    requires Close(x, y)
    ensures Sign(Compare(y, x)) == -Sign(Compare(x, y))
  {
    Int32Facts(Distance(x, y));
    CompareFlips(x, y);
  }

  lemma VerdictFlips(l: Tree, r: Tree)
    requires Close(Value(l), Value(r))
    ensures Sign(Verdict(r, l)) == -Sign(Verdict(l, r))
  {
    CloseFlips(Value(l), Value(r));
    EqFlips(Value(l), Value(r));
  }

  lemma JoinedFlips(l: Tree, r: Tree, p: Pass, q: Pass)
    requires Sign(Verdict(r, l)) == -Sign(Verdict(l, r))
    requires Sign(q.c) == -Sign(p.c) && (p.c == 0 ==> Flipped(p.later, q.later))
    ensures Sign(Joined(r, l, q).c) == -Sign(Joined(l, r, p).c)
    ensures Joined(l, r, p).c == 0 ==> Flipped(Joined(l, r, p).later, Joined(r, l, q).later)
  {
    hide Verdict;
  }

  lemma NearRest(ls: seq<(Key, Tree)>, rs: seq<(Key, Tree)>)
    requires OfNamesOrIndices(ls) && OfNamesOrIndices(rs) && NearKids(ls, rs) && ls != [] && rs != []
    ensures OfNamesOrIndices(ls[1..]) && OfNamesOrIndices(rs[1..]) && NearKids(ls[1..], rs[1..])
  {
    assert forall i | 0 <= i < |ls| - 1 :: ls[1..][i] == ls[i + 1];
    assert forall i | 0 <= i < |rs| - 1 :: rs[1..][i] == rs[i + 1];
  }

  lemma {:induction false} WalkFlips(ls: seq<(Key, Tree)>, rs: seq<(Key, Tree)>)
    requires OfNamesOrIndices(ls) && OfNamesOrIndices(rs) && NearKids(ls, rs)
    ensures Sign(Walk(rs, ls).c) == -Sign(Walk(ls, rs).c)
    ensures Walk(ls, rs).c == 0 ==> Flipped(Walk(ls, rs).later, Walk(rs, ls).later)
    decreases |ls|
  {
    hide Joined, NearKids, Flipped;
    if ls == [] || rs == [] {
      assert Flipped([], []) by { NothingFlipped(); }
    } else {
      KeyLessTotal(ls[0].0, rs[0].0);
      KeyLessAsym(ls[0].0, rs[0].0);
      if ls[0].0 == rs[0].0 {
        NearFirst(ls, rs);
        NearRest(ls, rs);
        WalkFlips(ls[1..], rs[1..]);
        JoinedFlips(ls[0].1, rs[0].1, Walk(ls[1..], rs[1..]), Walk(rs[1..], ls[1..]));
      }
    }
  }

  lemma NothingFlipped()
    ensures Flipped([], [])
  {
  }

  lemma NearFirst(ls: seq<(Key, Tree)>, rs: seq<(Key, Tree)>)
    requires NearKids(ls, rs) && ls != [] && rs != [] && ls[0].0 == rs[0].0
    ensures Sign(Verdict(rs[0].1, ls[0].1)) == -Sign(Verdict(ls[0].1, rs[0].1))
  {
    VerdictFlips(ls[0].1, rs[0].1);
  }

  lemma KeyLessAsym(k: Key, l: Key)
    ensures !(KeyLess(k, l) && KeyLess(l, k))
  {
    if k.Name? && l.Name? { Order.LessIsStrict(k.s, l.s); }
  }

  lemma {:induction false} LaterFlips(t: Tree, later: seq<(Tree, Tree)>, u: Tree, other: seq<(Tree, Tree)>)
    requires Queued(t, later) && Queued(u, other) && Flipped(later, other)
    requires forall k | 0 <= k < |later| :: NoEmpty(later[k].0) && NoEmpty(later[k].1) && Near(later[k].0, later[k].1)
    ensures Sign(CompareLater(u, other)) == -Sign(CompareLater(t, later))
    decreases t, 0, |later|
  {
    if later != [] {
      CompareSignFlips(later[0].0, later[0].1);
      LaterFlips(t, later[1..], u, other[1..]);
    }
  }

  lemma {:induction false} LaterIsNear(t: Tree, u: Tree)
    requires SameKind(t, u) && Well(t) && Well(u) && NoEmpty(t) && NoEmpty(u) && Near(t, u)
    requires Walk(Kids(t), Kids(u)).c == 0
    ensures forall p | p in Walk(Kids(t), Kids(u)).later :: NoEmpty(p.0) && NoEmpty(p.1) && Near(p.0, p.1)
  {
    KidsAreNamed(t);
    KidsAreNamed(u);
    WalkZeroIff(Kids(t), Kids(u));
    forall p | p in Walk(Kids(t), Kids(u)).later ensures NoEmpty(p.0) && NoEmpty(p.1) && Near(p.0, p.1) {
      var i := LaterIsAPlace(Kids(t), Kids(u), p);
      assert Kids(t)[i].1 == t.subs[i] && Kids(u)[i].1 == u.subs[i];
    }
  }

  /** Swapping the arguments flips the sign, under the same bound. */
  lemma {:induction false} CompareSignFlips(t: Tree, u: Tree)
    requires !t.Leaf? && !u.Leaf? && Well(t) && Well(u) && NoEmpty(t) && NoEmpty(u) && Near(t, u)
    ensures Sign(CompareNodes(u, t)) == -Sign(CompareNodes(t, u))
    decreases t, 1
  {
    if SameKind(t, u) {
      KidsPresent(t);
      KidsPresent(u);
      KidsAreNamed(t);
      KidsAreNamed(u);
      WalkFlips(Kids(t), Kids(u));
      if Walk(Kids(t), Kids(u)).c == 0 {
        CompareIsLater(t, u);
        CompareIsLater(u, t);
        LaterIsNear(t, u);
        LaterFlips(t, Walk(Kids(t), Kids(u)).later, u, Walk(Kids(u), Kids(t)).later);
      }
    }
  }

  // ----- empty slots -----

  lemma {:induction false} FewerPresent(kids: seq<(Key, Tree)>, i: nat)
    requires i < |kids| && kids[i].1 == Leaf(Empty)
    ensures |Present(kids)| < |kids|
  {
    PresentIsShorter(kids[1..]);
    if i > 0 { FewerPresent(kids[1..], i - 1); }
  }

  lemma {:induction false} PresentIsShorter(kids: seq<(Key, Tree)>)
    ensures |Present(kids)| <= |kids|
  {
    if kids != [] { PresentIsShorter(kids[1..]); }
  }

  /** The pass drops the empty slots of the right side only: an array with an empty slot differs from
      every array of its length, from itself and its copies too. */
  lemma EmptySlotDiffers(t: Tree, u: Tree, i: nat)
    requires t.ArrayTree? && u.ArrayTree? && Well(t) && Well(u)
    requires |t.subs| == |u.subs| && i < |u.subs| && u.subs[i] == Leaf(Empty)
    ensures CompareNodes(t, u) != 0
  {
    assert Kids(u)[i].1 == Leaf(Empty);
    FewerPresent(Kids(u), i);
    CompareZeroIffMatches(t, u);
  }

  // ----- carried out on the containers -----

  // The pairs of one container, and the trees that they are.
  ghost predicate Lists(boxes: Heap, pairs: seq<(Key, XValue)>, kids: seq<(Key, Tree)>) {
    && |pairs| == |kids|
    && forall i | 0 <= i < |pairs| :: pairs[i].0 == kids[i].0 && Represents(boxes, pairs[i].1, kids[i].1)
  }

  lemma SeenReadOnly(boxes: Heap, v: XValue, t: Tree)
    requires Represents(boxes, v, t)
    ensures Represents(boxes, ReadOnly(v), t)
  {
  }

  lemma MapPairs(boxes: Heap, n: Id, t: Tree)
    requires Represents(boxes, ConstObject(n), t) && boxes[n].MapBox?
    ensures t.MapTree? && t.keys == LiveKeys(boxes[n].m) && |t.subs| == |t.keys|
    ensures forall i | 0 <= i < |t.keys| ::
              t.keys[i] in boxes[n].m && Represents(boxes, ReadOnly(boxes[n].m[t.keys[i]]), t.subs[i])
  {
    forall i | 0 <= i < |t.keys| ensures Represents(boxes, ReadOnly(boxes[n].m[t.keys[i]]), t.subs[i]) {
      SeenReadOnly(boxes, boxes[n].m[t.keys[i]], t.subs[i]);
    }
  }

  lemma ArrayPairs(boxes: Heap, n: Id, t: Tree)
    requires Represents(boxes, ConstObject(n), t) && boxes[n].ArrayBox?
    ensures t.ArrayTree? && |t.subs| == |boxes[n].a|
    ensures forall i | 0 <= i < |t.subs| :: Represents(boxes, ReadOnly(boxes[n].a[i]), t.subs[i])
  {
    forall i | 0 <= i < |t.subs| ensures Represents(boxes, ReadOnly(boxes[n].a[i]), t.subs[i]) {
      SeenReadOnly(boxes, boxes[n].a[i], t.subs[i]);
    }
  }

  method ReadAll(boxes: Heap, n: Id, ghost t: Tree) returns (pairs: seq<(Key, XValue)>)
    requires Represents(boxes, ConstObject(n), t) && Well(t) && n in boxes
    ensures Lists(boxes, pairs, Kids(t))
  {
    hide Represents, LiveKeys, ReadOnly;
    if boxes[n].MapBox? {
      MapPairs(boxes, n, t);
      var m, keys := boxes[n].m, LiveKeys(boxes[n].m);
      pairs := seq(|keys|, i requires 0 <= i < |keys| && keys[i] in m => (Name(keys[i]), ReadOnly(m[keys[i]])));
    } else {
      ArrayPairs(boxes, n, t);
      var a := boxes[n].a;
      pairs := seq(|a|, i requires 0 <= i < |a| => (At(i), ReadOnly(a[i])));
    }
  }

  method ReadPresent(boxes: Heap, n: Id, ghost t: Tree) returns (pairs: seq<(Key, XValue)>)
    requires Represents(boxes, ConstObject(n), t) && Well(t) && n in boxes
    ensures Lists(boxes, pairs, Present(Kids(t)))
  {
    var all := ReadAll(boxes, n, t);
    pairs := Filter(boxes, all, Kids(t));
  }

  lemma PresentAt(kids: seq<(Key, Tree)>, i: nat)
    requires i < |kids|
    ensures Present(kids[i..]) == (if kids[i].1 == Leaf(Empty) then [] else [kids[i]]) + Present(kids[i + 1..])
  {
    assert kids[i..][0] == kids[i] && kids[i..][1..] == kids[i + 1..];
  }

  method Filter(boxes: Heap, all: seq<(Key, XValue)>, ghost kids: seq<(Key, Tree)>) returns (pairs: seq<(Key, XValue)>)
    requires Lists(boxes, all, kids)
    ensures Lists(boxes, pairs, Present(kids))
  {
    hide Represents, Present;
    pairs := [];
    ghost var done: seq<(Key, Tree)> := [];
    assert kids[0..] == kids;
    for i := 0 to |all|
      invariant Lists(boxes, pairs, done) && done + Present(kids[i..]) == Present(kids)
    {
      PresentAt(kids, i);
      Shape(boxes, all[i].1, kids[i].1);
      if all[i].1 != Empty {
        pairs, done := pairs + [all[i]], done + [kids[i]];
      }
    }
    NonePresent(kids[|all|..]);
  }

  lemma NonePresent(kids: seq<(Key, Tree)>)
    requires kids == []
    ensures Present(kids) == []
  {
  }

  // The nodes kept for later, and the trees that they are.
  ghost predicate Kept(boxes: Heap, nodes: seq<(Id, Id)>, trees: seq<(Tree, Tree)>) {
    && |nodes| == |trees|
    && forall k | 0 <= k < |nodes| ::
         Represents(boxes, ConstObject(nodes[k].0), trees[k].0)
         && Represents(boxes, ConstObject(nodes[k].1), trees[k].1)
  }

  predicate SameBoxKind(boxes: Heap, x: XValue, y: XValue) {
    x.IsObject() && y.IsObject() && x.addr in boxes && y.addr in boxes
    && boxes[x.addr].MapBox? == boxes[y.addr].MapBox?
  }

  lemma Shape(boxes: Heap, x: XValue, t: Tree)
    requires Represents(boxes, x, t)
    ensures x.IsObject() <==> !t.Leaf?
    ensures if t.Leaf? then x == t.v else x.addr == t.addr && x.addr in boxes && (boxes[x.addr].MapBox? <==> t.MapTree?)
  {
  }

  lemma SameBoxKindIff(boxes: Heap, x: XValue, l: Tree, y: XValue, r: Tree)
    requires Represents(boxes, x, l) && Represents(boxes, y, r)
    ensures SameBoxKind(boxes, x, y) <==> SameKind(l, r)
  {
    hide Represents;
    Shape(boxes, x, l);
    Shape(boxes, y, r);
  }

  lemma SameVerdict(boxes: Heap, x: XValue, l: Tree, y: XValue, r: Tree)
    requires Represents(boxes, x, l) && Represents(boxes, y, r)
    ensures Verdict(l, r) == if Eq(x, y) then 0 else Compare(x, y)
  {
    hide Represents;
    Shape(boxes, x, l);
    Shape(boxes, y, r);
  }

  lemma WalkAt(ls: seq<(Key, Tree)>, rs: seq<(Key, Tree)>, i: nat)
    requires i < |ls| && i <= |rs|
    ensures Walk(ls[i..], rs[i..]) ==
            if i == |rs| || KeyLess(ls[i].0, rs[i].0) then Pass(1, [])
            else if KeyLess(rs[i].0, ls[i].0) then Pass(-1, [])
            else Joined(ls[i].1, rs[i].1, Walk(ls[i + 1..], rs[i + 1..]))
  {
    assert ls[i..][0] == ls[i] && ls[i..][1..] == ls[i + 1..];
    if i < |rs| { assert rs[i..][0] == rs[i] && rs[i..][1..] == rs[i + 1..]; }
  }

  // The pass has come to the i-th pairs, and has left these trees for later.
  ghost predicate Along(ls: seq<(Key, Tree)>, rs: seq<(Key, Tree)>, i: nat, trees: seq<(Tree, Tree)>) {
    && i <= |ls| && i <= |rs|
    && var all, rest := Walk(ls, rs), Walk(ls[i..], rs[i..]);
       all.c == rest.c && (all.c == 0 ==> all.later == trees + rest.later)
  }

  lemma WalkBegins(ls: seq<(Key, Tree)>, rs: seq<(Key, Tree)>)
    ensures Along(ls, rs, 0, [])
  {
    hide Walk;
    assert ls[0..] == ls && rs[0..] == rs;
  }

  // One turn: an end, or the next pairs, perhaps with one more left for later.
  lemma WalkGoesOn(ls: seq<(Key, Tree)>, rs: seq<(Key, Tree)>, i: nat, trees: seq<(Tree, Tree)>)
    requires i < |ls| && Along(ls, rs, i, trees)
    ensures i == |rs| || KeyLess(ls[i].0, rs[i].0) ==> Walk(ls, rs).c == 1
    ensures i < |rs| && !KeyLess(ls[i].0, rs[i].0) ==>
              var v := Verdict(ls[i].1, rs[i].1);
              if KeyLess(rs[i].0, ls[i].0) then Walk(ls, rs).c == -1
              else if v == 0 then Along(ls, rs, i + 1, trees)
              else if SameKind(ls[i].1, rs[i].1) then Along(ls, rs, i + 1, trees + [(ls[i].1, rs[i].1)])
              else Walk(ls, rs).c == v
  {
    hide Walk, Verdict, KeyLess, SameKind;
    WalkAt(ls, rs, i);
  }

  /** The pass over both containers: the first difference, or the nodes that are left to compare. */
  method WalkBoxes(boxes: Heap, left: seq<(Key, XValue)>, right: seq<(Key, XValue)>,
                   ghost ls: seq<(Key, Tree)>, ghost rs: seq<(Key, Tree)>)
    returns (c: int, nodes: seq<(Id, Id)>, ghost trees: seq<(Tree, Tree)>)
    requires Lists(boxes, left, ls) && Lists(boxes, right, rs)
    ensures c == Walk(ls, rs).c && (c == 0 ==> trees == Walk(ls, rs).later && Kept(boxes, nodes, trees))
  {
    hide Represents, Walk, Verdict, Compare, Eq, KeyLess, Along, Kept, SameKind, SameBoxKind;
    nodes, trees := [], [];
    var it := 0;
    WalkBegins(ls, rs);
    NothingKept(boxes);
    for i := 0 to |left|
      invariant it == i <= |right|
      invariant Kept(boxes, nodes, trees) && Along(ls, rs, i, trees)
    {
      WalkGoesOn(ls, rs, i, trees);
      if it == |right| || KeyLess(left[i].0, right[it].0) { return 1, [], []; }
      if KeyLess(right[it].0, left[i].0) { return -1, [], []; }
      var x, y := left[i].1, right[it].1;
      SameBoxKindIff(boxes, x, ls[i].1, y, rs[i].1);
      SameVerdict(boxes, x, ls[i].1, y, rs[i].1);
      if !Eq(x, y) {
        var v := Compare(x, y);
        if v != 0 {
          if SameBoxKind(boxes, x, y) {
            KeptMore(boxes, nodes, trees, x, ls[i].1, y, rs[i].1);
            nodes, trees := nodes + [(x.addr, y.addr)], trees + [(ls[i].1, rs[i].1)];
          } else {
            return v, [], [];
          }
        }
      }
      it := it + 1;
    }
    WalkEnds(ls, rs, it, trees);
    c := if it != |right| then -1 else 0;
  }

  lemma NothingKept(boxes: Heap)
    ensures Kept(boxes, [], [])
  {
  }

  lemma KeptMore(boxes: Heap, nodes: seq<(Id, Id)>, trees: seq<(Tree, Tree)>, x: XValue, l: Tree, y: XValue, r: Tree)
    requires Kept(boxes, nodes, trees) && Represents(boxes, x, l) && Represents(boxes, y, r)
    requires SameBoxKind(boxes, x, y)
    ensures x.IsObject() && y.IsObject() && Kept(boxes, nodes + [(x.addr, y.addr)], trees + [(l, r)])
  {
    assert Represents(boxes, ConstObject(x.addr), l) && Represents(boxes, ConstObject(y.addr), r);
  }

  lemma WalkEnds(ls: seq<(Key, Tree)>, rs: seq<(Key, Tree)>, i: nat, trees: seq<(Tree, Tree)>)
    requires i == |ls| && Along(ls, rs, i, trees)
    ensures if i == |rs| then Walk(ls, rs) == Pass(0, trees) else Walk(ls, rs).c == -1
  {
    assert Walk(ls[i..], rs[i..]) == Pass(if i == |rs| then 0 else -1, []);
  }

  /** `xnode::Compare` on the containers. */
  method CompareBoxes(boxes: Heap, l: Id, r: Id, ghost t: Tree, ghost u: Tree) returns (c: int)
    requires Represents(boxes, ConstObject(l), t) && Represents(boxes, ConstObject(r), u) && Well(t) && Well(u)
    ensures c == CompareNodes(t, u)
    decreases t, 1, 0
  {
    if boxes[l].MapBox? != boxes[r].MapBox? {
      return (if boxes[l].MapBox? then 1 else 2) - (if boxes[r].MapBox? then 1 else 2);
    }
    var right := ReadPresent(boxes, r, u);
    var left := ReadAll(boxes, l, t);
    var nodes;
    ghost var later;
    c, nodes, later := WalkBoxes(boxes, left, right, Kids(t), Present(Kids(u)));
    if c != 0 { return; }
    CompareIsLater(t, u);
    c := CompareKept(boxes, nodes, t, later);
  }

  lemma LaterAt(t: Tree, later: seq<(Tree, Tree)>, k: nat)
    requires Queued(t, later) && k < |later|
    ensures Queued(t, later[k..]) && Queued(t, later[k + 1..]) && later[k].0 in t.subs
    ensures CompareLater(t, later[k..]) ==
            var c := CompareNodes(later[k].0, later[k].1); if c != 0 then c else CompareLater(t, later[k + 1..])
  {
    assert later[k..][0] == later[k] && later[k..][1..] == later[k + 1..];
  }

  method CompareKept(boxes: Heap, nodes: seq<(Id, Id)>, ghost t: Tree, ghost later: seq<(Tree, Tree)>) returns (c: int)
    requires Kept(boxes, nodes, later) && Queued(t, later) && !t.Leaf?
    ensures c == CompareLater(t, later)
    decreases t, 0, 0
  {
    assert later[0..] == later;
    for k := 0 to |nodes|
      invariant Queued(t, later[k..]) && CompareLater(t, later[k..]) == CompareLater(t, later)
    {
      LaterAt(t, later, k);
      c := CompareBoxes(boxes, nodes[k].0, nodes[k].1, later[k].0, later[k].1);
      if c != 0 { return; }
    }
    c := 0;
  }
}
