/** `BulkSet` and the mutating `ForEach` of a node: the container is written first; then the nodes that
    went out of it are detached, and last the nodes that went into it are adopted. */
module Writings {
  import opened Wrappers
  import opened XValues
  import opened Boxes
  import opened Holding
  import opened Worlds
  import opened TreeOps
  import opened Forest
  import Order

  // What the container part of a call leaves: the container, the nodes displaced from it and the nodes
  // that went in with their keys, both in the order of their turn, and every node that was put in or
  // taken back on the way.
  datatype Writing = Writing(box: Box, gone: seq<Id>, placed: seq<(Id, Key)>, touched: set<Id>)

  function NodeIn(v: XValue): set<Id> {
    if v.Object? then {v.addr} else {}
  }

  // ----- after the container part -----

  // `RemoveDuplicates` for each node that went in.
  function Cleaned(b: Box, placed: seq<(Id, Key)>): Box
    decreases |placed|
  {
    if placed == [] then b else Cleaned(RemoveDuplicate(b, placed[0].0, placed[0].1), placed[1..])
  }

  ghost predicate PlacedKnown(w: World, placed: seq<(Id, Key)>) {
    forall i | 0 <= i < |placed| :: placed[i].0 in w.parent
  }

  ghost function AdoptInTurn(w: World, p: Id, placed: seq<(Id, Key)>): World
    requires Shaped(w) && p in w.parent && PlacedKnown(w, placed)
    decreases |placed|
  {
    if placed == [] then w
    else
      SetAsChildShaped(w, p, placed[0].0, KeyName(placed[0].1));
      AdoptInTurn(SetAsChild(w, p, placed[0].0, KeyName(placed[0].1)), p, placed[1..])
  }

  lemma RestKnown(w: World, placed: seq<(Id, Key)>)
    requires PlacedKnown(w, placed) && placed != []
    ensures PlacedKnown(w, placed[1..])
  {
  }

  lemma SetAsChildShaped(w: World, p: Id, c: Id, rename: Option<string>)
    requires Shaped(w) && c in w.parent && p in w.parent
    ensures Shaped(SetAsChild(w, p, c, rename)) && SetAsChild(w, p, c, rename).parent.Keys == w.parent.Keys
  {
  }

  lemma {:induction false} DetachAllShaped(w: World, cs: seq<Id>)
    requires Shaped(w) && forall c | c in cs :: c in w.parent
    ensures Shaped(DetachAll(w, cs)) && DetachAll(w, cs).parent.Keys == w.parent.Keys
    decreases |cs|
  {
    if cs != [] { DetachAllShaped(ParentDetach(w, cs[0]), cs[1..]); }
  }

  // The nodes in a writing exist and the container is one that p may have.
  ghost predicate Known(w: World, x: Writing) {
    && Owning(x.box) && (forall c | RefersTo(x.box, c) :: c in w.parent)
    && (forall c | c in x.gone :: c in w.parent)
    && PlacedKnown(w, x.placed)
  }

  // The state between the detaching and the adopting.
  ghost function Cut(w: World, p: Id, x: Writing): World
    requires Shaped(w) && p in w.parent && Known(w, x)
  {
    DetachAll(WithBox(w, p, Cleaned(x.box, x.placed)), x.gone)
  }

  ghost function Settle(w: World, p: Id, x: Writing): World
    requires Shaped(w) && p in w.parent && Known(w, x)
  {
    DetachAllShaped(WithBox(w, p, Cleaned(x.box, x.placed)), x.gone);
    AdoptInTurn(Cut(w, p, x), p, x.placed)
  }

  lemma {:induction false} CleanedRefers(b: Box, placed: seq<(Id, Key)>, c: Id)
    requires Owning(b)
    ensures Owning(Cleaned(b, placed)) && Cleaned(b, placed).MapBox? == b.MapBox?
    ensures RefersTo(Cleaned(b, placed), c) ==> RefersTo(b, c)
    decreases |placed|
  {
    if placed != [] {
      var o := RemoveDuplicate(b, placed[0].0, placed[0].1);
      RemoveDuplicateSame(b, placed[0].0, placed[0].1, placed[0].0 + 1);
      CleanedRefers(o, placed[1..], c);
      if RefersTo(o, c) { RemoveDuplicateRefers(b, placed[0].0, placed[0].1, c); }
    }
  }

  lemma {:induction false} AdoptInTurnGood(w: World, p: Id, placed: seq<(Id, Key)>)
    requires Good(w) && p in w.parent && PlacedKnown(w, placed)
    ensures Good(AdoptInTurn(w, p, placed)) && AdoptInTurn(w, p, placed).parent.Keys == w.parent.Keys
    decreases |placed|
  {
    if placed != [] {
      SetAsChildGood(w, p, placed[0].0, KeyName(placed[0].1));
      AdoptInTurnGood(SetAsChild(w, p, placed[0].0, KeyName(placed[0].1)), p, placed[1..]);
    }
  }

  lemma CleanedValid(w: World, p: Id, x: Writing)
    requires Valid(w) && p in w.parent && Known(w, x)
    ensures Valid(WithBox(w, p, Cleaned(x.box, x.placed)))
  {
    CleanedRefers(x.box, x.placed, 0);
    forall c | RefersTo(Cleaned(x.box, x.placed), c) ensures c in w.parent { CleanedRefers(x.box, x.placed, c); }
    WithBoxValid(w, p, Cleaned(x.box, x.placed));
  }

  lemma SettleGood(w: World, p: Id, x: Writing)
    requires Good(w) && p in w.parent && Known(w, x)
    ensures Good(Settle(w, p, x))
  {
    CleanedValid(w, p, x);
    DetachAllShaped(WithBox(w, p, Cleaned(x.box, x.placed)), x.gone);
    DetachAllGood(WithBox(w, p, Cleaned(x.box, x.placed)), x.gone);
    AdoptInTurnGood(Cut(w, p, x), p, x.placed);
  }

  // ----- BulkSet -----

  // `placed` remembers the key of every node that went in, `left` are the pairs that stay behind.
  // `overrun` says that the loop has gone past the end of its pairs.
  datatype Setting = Setting(box: Box, gone: seq<Id>, placed: map<Id, Key>, touched: set<Id>, left: seq<(Key, XValue)>,
                             overrun: bool)

  function Leave(s: Setting, pair: (Key, XValue)): Setting {
    s.(left := s.left + [pair])
  }

  // The entry that the node c was given before is taken back.
  function TakeBack(s: Setting, c: Id, e: EraseRes): Setting
    requires e.erased.Some?
  {
    s.(box := e.box, placed := s.placed - {c}, touched := s.touched + NodeIn(e.erased.value))
  }

  // One pair goes into the container; `node` is the node that the loop has in hand.
  function Store(s: Setting, pair: (Key, XValue), node: Option<Id>): Setting {
    var k := Resolve(s.box, pair.0);
    var r := Put(s.box, k, pair.1);
    if !r.ok then Leave(s.(box := r.box), pair)
    else
      s.(box := r.box,
         gone := s.gone + NodesOf([r.prev]),
         placed := if node.Some? && node.value !in s.placed then s.placed[node.value := k] else s.placed,
         touched := s.touched + NodeIn(pair.1))
  }

  function InHand(v: XValue): Option<Id> {
    if v.Object? then Some(v.addr) else None
  }

  // One turn of the loop: the state it leaves and the pairs that are still to come. When the earlier entry
  // of a node cannot be taken back, the pair is passed over, but the loop does not start anew: it stores
  // the next pair, unchecked and with the node still in hand. If there is no next pair, it reads past
  // the end.
  ghost function Turn(w: World, p: Id, s: Setting, kvs: seq<(Key, XValue)>): (r: (Setting, seq<(Key, XValue)>))
    requires kvs != []
    ensures |r.1| < |kvs|
  {
    var v := kvs[0].1;
    if !ValidChild(w, p, v) then (Leave(s, kvs[0]), kvs[1..])
    else if v.Object? && v.addr in s.placed then
      var e := Erase(s.box, s.placed[v.addr]);
      if e.erased.Some? then (Store(TakeBack(s, v.addr, e), kvs[0], InHand(v)), kvs[1..])
      else if |kvs| > 1 then (Store(Leave(s, kvs[0]), kvs[1], InHand(v)), kvs[2..])
      else (Leave(s, kvs[0]).(overrun := true), [])
    else (Store(s, kvs[0], InHand(v)), kvs[1..])
  }

  ghost function SetEach(w: World, p: Id, s: Setting, kvs: seq<(Key, XValue)>): Setting
    decreases |kvs|
  {
    if kvs == [] then s
    else
      var (n, rest) := Turn(w, p, s, kvs);
      SetEach(w, p, n, rest)
  }

  lemma NoTurn(w: World, p: Id, s: Setting, kvs: seq<(Key, XValue)>)
    requires kvs == []
    ensures SetEach(w, p, s, kvs) == s
  {
  }

  // The turn that begins with the i-th pair, unless the loop runs past its end.
  lemma OneTurn(w: World, p: Id, s: Setting, kvs: seq<(Key, XValue)>, i: nat)
    requires i < |kvs|
    ensures var v, all := kvs[i].1, SetEach(w, p, s, kvs[i..]);
            if !ValidChild(w, p, v) then all == SetEach(w, p, Leave(s, kvs[i]), kvs[i + 1..])
            else if v.Object? && v.addr in s.placed then
              var e := Erase(s.box, s.placed[v.addr]);
              if e.erased.Some? then
                all == SetEach(w, p, Store(TakeBack(s, v.addr, e), kvs[i], InHand(v)), kvs[i + 1..])
              else
                all.overrun
                || (i + 1 < |kvs|
                    && all == SetEach(w, p, Store(Leave(s, kvs[i]), kvs[i + 1], InHand(v)), kvs[i + 2..]))
            else all == SetEach(w, p, Store(s, kvs[i], InHand(v)), kvs[i + 1..])
  {
    hide Store, Erase, ValidChild, TakeBack;
    assert kvs[i..][0] == kvs[i] && kvs[i..][1..] == kvs[i + 1..];
    if i + 1 < |kvs| {
      assert kvs[i..][1] == kvs[i + 1] && kvs[i..][2..] == kvs[i + 2..];
    }
  }

  function Begin(b: Box): Setting {
    Setting(b, [], map[], {}, [], false)
  }

  // The placed nodes in the order of their addresses.
  function ByAddress(placed: map<Id, Key>): (r: seq<(Id, Key)>)
    ensures forall i | 0 <= i < |r| :: r[i].0 in placed && r[i].1 == placed[r[i].0]
    ensures forall c | c in placed :: (c, placed[c]) in r
    decreases placed.Keys
  {
    if placed == map[] then []
    else
      var c := Order.Least(placed.Keys);
      var rest := ByAddress(placed - {c});
      assert forall d | d in placed && d != c :: d in placed - {c} && (d, placed[d]) in rest;
      [(c, placed[c])] + rest
  }

  lemma ByAddressStep(placed: map<Id, Key>, i: nat)
    requires i < |ByAddress(placed)|
    ensures placed != map[]
    ensures var c := Order.Least(placed.Keys);
            var rest := ByAddress(placed - {c});
            |ByAddress(placed)| == |rest| + 1 && ByAddress(placed)[i].0 == if i == 0 then c else rest[i - 1].0
  {
  }

  lemma {:induction false} ByAddressAscends(placed: map<Id, Key>, i: nat, j: nat)
    requires i < j < |ByAddress(placed)|
    ensures ByAddress(placed)[i].0 < ByAddress(placed)[j].0
    decreases i
  {
    hide ByAddress;
    ByAddressStep(placed, i);
    ByAddressStep(placed, j);
    var c := Order.Least(placed.Keys);
    assert ByAddress(placed - {c})[j - 1].0 in placed - {c};
    if i > 0 { ByAddressAscends(placed - {c}, i - 1, j - 1); }
  }

  ghost function BulkSetWriting(w: World, p: Id, kvs: seq<(Key, XValue)>): Writing
    requires p in w.box
  {
    var s := SetEach(w, p, Begin(w.box[p]), kvs);
    Writing(s.box, s.gone, ByAddress(s.placed), s.touched)
  }

  // The loop stays within its pairs.
  ghost predicate StaysWithin(w: World, p: Id, kvs: seq<(Key, XValue)>)
    requires p in w.box
  {
    !SetEach(w, p, Begin(w.box[p]), kvs).overrun
  }

  ghost function BulkSet(w: World, p: Id, kvs: seq<(Key, XValue)>): World
    requires Valid(w) && p in w.parent && AllStorable(w, kvs)
  {
    BulkSetKnown(w, p, kvs);
    Settle(w, p, BulkSetWriting(w, p, kvs))
  }

  // ----- the mutating iteration -----

  // The caller's function sees what it was shown before, a key and its value; it may change the value
  // and says how to go on.
  type OnEach = (seq<(Key, XValue)>, Key, XValue) -> (EachRes, XValue)

  // What becomes of an entry: None when it is erased.
  function Outcome(v: XValue, res: EachRes, given: XValue): Option<XValue> {
    if res.EraseIt? || res.EraseStop? then None else if Eq(given, v) then Some(v) else Some(given)
  }

  // The entry v under k has got its outcome, and the container is now b.
  function Noted(x: Writing, b: Box, k: Key, v: XValue, to: Option<XValue>): Writing {
    if to == Some(v) then x.(box := b)
    else
      Writing(b, x.gone + NodesOf([v]),
              if to.Some? && to.value.Object? then x.placed + [(to.value.addr, k)] else x.placed,
              x.touched + NodeIn(to.GetOr(Empty)))
  }

  predicate Stops(res: EachRes) {
    res.Stop? || res.EraseStop?
  }

  function MapAfter(b: Box, key: string, to: Option<XValue>): Box
    requires b.MapBox?
  {
    MapBox(b.m[key := to.GetOr(Empty)])
  }

  // Over the entries of a map. An erased one is passed over, but it ends the iteration if it is the
  // one asked for.
  ghost function EachKey(x: Writing, shown: seq<(Key, XValue)>, keys: seq<string>, f: OnEach,
                         from: Option<string>): Writing
    requires x.box.MapBox? && forall k | k in keys :: k in x.box.m
    decreases |keys|
  {
    if keys == [] then x
    else
      var v := x.box.m[keys[0]];
      if v.IsEmpty() then
        if shown == [] && from == Some(keys[0]) then x else EachKey(x, shown, keys[1..], f, from)
      else
        var (res, given) := f(shown, Name(keys[0]), v);
        var to := Outcome(v, res, given);
        var y := Noted(x, MapAfter(x.box, keys[0], to), Name(keys[0]), v, to);
        if Stops(res) then y else EachKey(y, shown + [(Name(keys[0]), v)], keys[1..], f, from)
  }

  function SlotAfter(a: seq<XValue>, i: nat, to: Option<XValue>): seq<XValue>
    requires i < |a|
  {
    if to.None? then RemoveAt(a, i) else a[i := to.value]
  }

  // Over the slots of an array from slot i on; the caller is shown how many slots it has seen.
  ghost function EachSlot(x: Writing, shown: seq<(Key, XValue)>, i: nat, f: OnEach): Writing
    requires x.box.ArrayBox? && i <= |x.box.a|
    decreases |x.box.a| - i
  {
    if i == |x.box.a| then x
    else
      var v := x.box.a[i];
      var (res, given) := f(shown, At(|shown|), v);
      var to := Outcome(v, res, given);
      var y := Noted(x, ArrayBox(SlotAfter(x.box.a, i, to)), At(|shown|), v, to);
      if Stops(res) then y else EachSlot(y, shown + [(At(|shown|), v)], if to.None? then i else i + 1, f)
  }

  // The keys of a map from the given one on; none when it is missing.
  function KeysFrom(m: map<string, XValue>, from: Option<string>): (ks: seq<string>)
    ensures forall k | k in ks :: k in m
  {
    var all := Order.SortedKeys(m.Keys);
    match from
    case None => all
    case Some(k) => if k == "" || k !in m then [] else Order.SkipTo(all, k)
  }

  // The key that the iteration of a map starts from, if one is given.
  function FromKey(b: Box, from: Key): Option<string> {
    if from == NoKey then None else Some(KeyName(Resolve(b, from)).GetOr(""))
  }

  // Whether the iteration shows anything.
  predicate FindsAny(b: Box, from: Key) {
    match b
    case ArrayBox(a) => if from == NoKey then a != [] else Position(a, from).Some?
    case MapBox(m) =>
      var k := FromKey(b, from);
      if k.Some? then k.value != "" && k.value in m && !m[k.value].IsEmpty() else LiveKeys(m) != []
  }

  ghost function ForEachWriting(b: Box, f: OnEach, from: Key): Writing {
    var x := Writing(b, [], [], {});
    match b
    case MapBox(m) => EachKey(x, [], KeysFrom(m, FromKey(b, from)), f, FromKey(b, from))
    case ArrayBox(a) => EachSlot(x, [], if from == NoKey then 0 else Position(a, from).GetOr(|a|), f)
  }

  // The caller's function gives only values that may be stored, given such values.
  ghost predicate GivesStorable(w: World, f: OnEach) {
    forall h, k, v | Storable(w, v) :: Storable(w, f(h, k, v).1)
  }

  ghost function ForEach(w: World, p: Id, f: OnEach, from: Key): World
    requires Valid(w) && p in w.parent && GivesStorable(w, f)
  {
    ForEachKnown(w, p, f, from);
    Settle(w, p, ForEachWriting(w.box[p], f, from))
  }

  // ----- what the container part refers to -----

  ghost predicate SettingKnown(w: World, s: Setting) {
    && Owning(s.box) && (forall c | RefersTo(s.box, c) :: c in w.parent)
    && (forall c | c in s.gone :: c in w.parent) && s.placed.Keys <= w.parent.Keys
  }

  lemma StoreKnown(w: World, s: Setting, pair: (Key, XValue), node: Option<Id>)
    requires SettingKnown(w, s) && Storable(w, pair.1) && (node.Some? ==> node.value in w.parent)
    ensures SettingKnown(w, Store(s, pair, node))
  {
    var k := Resolve(s.box, pair.0);
    var r := Put(s.box, k, pair.1);
    PutOwning(s.box, k, pair.1);
    forall c | RefersTo(r.box, c) ensures c in w.parent { PutRefers(s.box, k, pair.1, c); }
    if r.ok && r.prev.Object? { assert RefersTo(s.box, r.prev.addr) by { PutPrevIsHeld(s.box, k, pair.1); } }
  }

  lemma PutPrevIsHeld(b: Box, k: Key, v: XValue)
    requires Put(b, k, v).prev.Object?
    ensures RefersTo(b, Put(b, k, v).prev.addr)
  {
    if b.ArrayBox? {
      var i := Position(Grown(b.a, k), k).value;
      assert i < |b.a| && b.a[i] == Put(b, k, v).prev;
    }
  }

  lemma TakeBackKnown(w: World, s: Setting, c: Id)
    requires SettingKnown(w, s) && c in s.placed && Erase(s.box, s.placed[c]).erased.Some?
    ensures SettingKnown(w, TakeBack(s, c, Erase(s.box, s.placed[c])))
  {
    EraseOwning(s.box, s.placed[c]);
    forall d | RefersTo(Erase(s.box, s.placed[c]).box, d) ensures d in w.parent { EraseRefers(s.box, s.placed[c], d); }
  }

  lemma LeaveKnown(w: World, s: Setting, pair: (Key, XValue))
    requires SettingKnown(w, s)
    ensures SettingKnown(w, Leave(s, pair)) && SettingKnown(w, Leave(s, pair).(overrun := true))
  {
  }

  lemma TurnKnown(w: World, p: Id, s: Setting, kvs: seq<(Key, XValue)>)
    requires kvs != [] && SettingKnown(w, s) && AllStorable(w, kvs)
    ensures var (n, rest) := Turn(w, p, s, kvs); SettingKnown(w, n) && AllStorable(w, rest)
  {
    var v := kvs[0].1;
    assert Storable(w, v) && AllStorable(w, kvs[1..]);
    hide SettingKnown, Store, TakeBack, ValidChild, Erase;
    LeaveKnown(w, s, kvs[0]);
    if ValidChild(w, p, v) {
      if v.Object? && v.addr in s.placed {
        var e := Erase(s.box, s.placed[v.addr]);
        if e.erased.Some? {
          TakeBackKnown(w, s, v.addr);
          StoreKnown(w, TakeBack(s, v.addr, e), kvs[0], InHand(v));
        } else if |kvs| > 1 {
          assert Storable(w, kvs[1].1) && AllStorable(w, kvs[2..]);
          StoreKnown(w, Leave(s, kvs[0]), kvs[1], InHand(v));
        }
      } else {
        StoreKnown(w, s, kvs[0], InHand(v));
      }
    }
  }

  lemma {:induction false} SetEachKnown(w: World, p: Id, s: Setting, kvs: seq<(Key, XValue)>)
    requires SettingKnown(w, s) && AllStorable(w, kvs)
    ensures SettingKnown(w, SetEach(w, p, s, kvs))
    decreases |kvs|
  {
    if kvs != [] {
      hide SettingKnown, Turn;
      TurnKnown(w, p, s, kvs);
      SetEachKnown(w, p, Turn(w, p, s, kvs).0, Turn(w, p, s, kvs).1);
    }
  }

  lemma BulkSetKnown(w: World, p: Id, kvs: seq<(Key, XValue)>)
    requires Valid(w) && p in w.parent && AllStorable(w, kvs)
    ensures Known(w, BulkSetWriting(w, p, kvs))
  {
    SetEachKnown(w, p, Begin(w.box[p]), kvs);
  }

  lemma NotedKnown(w: World, x: Writing, b: Box, k: Key, v: XValue, to: Option<XValue>)
    requires Known(w, x) && (v.Object? ==> RefersTo(x.box, v.addr)) && (to.Some? ==> Storable(w, to.value))
    requires Owning(b) && forall c | RefersTo(b, c) :: RefersTo(x.box, c) || to == Some(Object(c))
    ensures Known(w, Noted(x, b, k, v, to))
  {
    var y := Noted(x, b, k, v, to);
    forall c | c in y.gone ensures c in w.parent { if c !in x.gone { assert c in NodesOf([v]); } }
  }

  lemma MapAfterHolds(b: Box, key: string, to: Option<XValue>)
    requires b.MapBox? && Owning(b) && key in b.m && (to.Some? ==> !to.value.ConstObject?)
    ensures Owning(MapAfter(b, key, to))
    ensures forall c | RefersTo(MapAfter(b, key, to), c) :: RefersTo(b, c) || to == Some(Object(c))
  {
  }

  lemma SlotAfterHolds(a: seq<XValue>, i: nat, to: Option<XValue>)
    requires i < |a| && Owning(ArrayBox(a)) && (to.Some? ==> !to.value.ConstObject?)
    ensures Owning(ArrayBox(SlotAfter(a, i, to)))
    ensures forall c | RefersTo(ArrayBox(SlotAfter(a, i, to)), c) :: RefersTo(ArrayBox(a), c) || to == Some(Object(c))
  {
    var o := SlotAfter(a, i, to);
    assert forall j | 0 <= j < |o| :: to.None? ==> o[j] == a[if j < i then j else j + 1];
    forall c | RefersTo(ArrayBox(o), c) ensures RefersTo(ArrayBox(a), c) || to == Some(Object(c)) {
      var j :| 0 <= j < |o| && o[j] == Object(c);
      assert to.None? || j != i ==> a[if to.Some? || j < i then j else j + 1] == Object(c);
    }
  }

  lemma OutcomeStorable(w: World, v: XValue, res: EachRes, given: XValue)
    requires !v.ConstObject? && (v.Object? ==> v.addr in w.parent) && Storable(w, given)
    ensures var to := Outcome(v, res, given); to.Some? ==> Storable(w, to.value)
  {
  }

  lemma {:induction false} EachKeyKnown(w: World, x: Writing, shown: seq<(Key, XValue)>, keys: seq<string>, f: OnEach,
                                        from: Option<string>)
    requires Known(w, x) && GivesStorable(w, f) && x.box.MapBox? && forall k | k in keys :: k in x.box.m
    ensures Known(w, EachKey(x, shown, keys, f, from))
    decreases |keys|
  {
    if keys != [] {
      var v := x.box.m[keys[0]];
      if v.IsEmpty() {
        EachKeyKnown(w, x, shown, keys[1..], f, from);
      } else {
        var (res, given) := f(shown, Name(keys[0]), v);
        var to := Outcome(v, res, given);
        assert v.Object? ==> RefersTo(x.box, v.addr);
        assert Storable(w, v);
        OutcomeStorable(w, v, res, f(shown, Name(keys[0]), v).1);
        MapAfterHolds(x.box, keys[0], to);
        NotedKnown(w, x, MapAfter(x.box, keys[0], to), Name(keys[0]), v, to);
        var y := Noted(x, MapAfter(x.box, keys[0], to), Name(keys[0]), v, to);
        if !Stops(res) { EachKeyKnown(w, y, shown + [(Name(keys[0]), v)], keys[1..], f, from); }
      }
    }
  }

  lemma {:induction false} EachSlotKnown(w: World, x: Writing, shown: seq<(Key, XValue)>, i: nat, f: OnEach)
    requires Known(w, x) && GivesStorable(w, f) && x.box.ArrayBox? && i <= |x.box.a|
    ensures Known(w, EachSlot(x, shown, i, f))
    decreases |x.box.a| - i
  {
    if i < |x.box.a| {
      var v := x.box.a[i];
      var (res, given) := f(shown, At(|shown|), v);
      var to := Outcome(v, res, given);
      assert v.Object? ==> RefersTo(x.box, v.addr);
      assert Storable(w, v);
      OutcomeStorable(w, v, res, f(shown, At(|shown|), v).1);
      SlotAfterHolds(x.box.a, i, to);
      NotedKnown(w, x, ArrayBox(SlotAfter(x.box.a, i, to)), At(|shown|), v, to);
      var y := Noted(x, ArrayBox(SlotAfter(x.box.a, i, to)), At(|shown|), v, to);
      if !Stops(res) { EachSlotKnown(w, y, shown + [(At(|shown|), v)], if to.None? then i else i + 1, f); }
    }
  }

  lemma ForEachKnown(w: World, p: Id, f: OnEach, from: Key)
    requires Valid(w) && p in w.parent && GivesStorable(w, f)
    ensures Known(w, ForEachWriting(w.box[p], f, from))
  {
    var b := w.box[p];
    var x := Writing(b, [], [], {});
    assert Known(w, x);
    match b
    case MapBox(m) => EachKeyKnown(w, x, [], KeysFrom(m, FromKey(b, from)), f, FromKey(b, from));
    case ArrayBox(a) => EachSlotKnown(w, x, [], if from == NoKey then 0 else Position(a, from).GetOr(|a|), f);
  }

  // ----- the forest -----

  lemma BulkSetGood(w: World, p: Id, kvs: seq<(Key, XValue)>)
    requires Good(w) && p in w.parent && AllStorable(w, kvs)
    ensures Good(BulkSet(w, p, kvs))
  {
    BulkSetKnown(w, p, kvs);
    SettleGood(w, p, BulkSetWriting(w, p, kvs));
  }

  lemma ForEachGood(w: World, p: Id, f: OnEach, from: Key)
    requires Good(w) && p in w.parent && GivesStorable(w, f)
    ensures Good(ForEach(w, p, f, from))
  {
    ForEachKnown(w, p, f, from);
    SettleGood(w, p, ForEachWriting(w.box[p], f, from));
  }
}
