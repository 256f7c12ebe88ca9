/** `xnode::PatchApply` for patches of maps, on targets of any kind. The patch is read without write
    access, so that its nodes show up as const links; where the target has no node of its own, it gets
    such a link, unless the link leads to the target or above it. An array stores nothing under a string
    key, and live map entries are never null, so that a map patch erases nothing. */
module Patches {
  import opened Wrappers
  import opened XValues
  import opened Boxes
  import opened Worlds
  import opened Agreement
  import opened Trees
  import Order
  import A = TreeAgreement
  import C = Compares
  import P = TreePaths
  import T = TreeOps

  // ----- the state -----

  // Owning links go down in the forest of parents, and a map holds a node under one key. Const links
  // may lead anywhere.
  ghost predicate Hung(w: World) {
    && w.parent.Keys == w.name.Keys == w.box.Keys && Closed(w.parent) && Acyclic(w.parent)
    && forall n, c {:trigger RefersTo(w.box[n], c)} | n in w.box && RefersTo(w.box[n], c) :: HungAt(w, n, c)
  }

  ghost predicate HungAt(w: World, n: Id, c: Id)
    requires n in w.box
  {
    && c in w.parent && w.parent[c] == Some(n)
    && (w.box[n].MapBox? ==>
          forall s, r | s in w.box[n].m && r in w.box[n].m && w.box[n].m[s] == w.box[n].m[r] == Object(c) :: s == r)
  }

  lemma HeldHung(w: World, n: Id, key: string)
    requires Hung(w) && n in w.box && w.box[n].MapBox? && Current(w.box[n].m, key).Object?
    ensures var c := Current(w.box[n].m, key).addr;
            c in w.box && c in w.parent && w.parent[c] == Some(n) && HungAt(w, n, c)
  {
    assert w.box[n].m[key] == Current(w.box[n].m, key);
    assert RefersTo(w.box[n], Current(w.box[n].m, key).addr);
  }

  /** Every agreeing forest is such a state. */
  lemma AgreeingIsHung(w: World)
    requires Agree(w) && Acyclic(w.parent)
    ensures Hung(w)
  {
    forall n, c | n in w.box && RefersTo(w.box[n], c) ensures HungAt(w, n, c) { assert Fits(w, n, c); }
  }

  datatype Res = Res(w: World, added: nat)

  // A link to the node t or to one above it (`IsValidChild_` refuses it, const or not).
  ghost predicate Leads(w: World, t: Id, v: XValue) {
    v.IsObject() && Worlds.Below(w.parent, t, v.addr)
  }

  // `Set` of a value that is no owning link, under a key of a map: a node that was there loses its parent.
  ghost function SetValue(w: World, t: Id, key: string, v: XValue): Res
    requires t in w.box && w.box[t].MapBox?
  {
    var x := Current(w.box[t].m, key);
    if key == "" || Eq(x, v) || Leads(w, t, v) then Res(w, 0)
    else
      Res(w.(parent := if x.Object? && x.addr in w.parent then w.parent[x.addr := None] else w.parent,
             box := w.box[t := MapBox(w.box[t].m[key := v])]), 1)
  }

  /** For plain values this is the `Set` of the tree operations; an array takes nothing under a string key. */
  lemma PlainSetIsSet(w: World, t: Id, key: string, v: XValue)
    requires Valid(w) && t in w.parent && v.IsAttribute()
    ensures T.Storable(w, v)
    ensures var r := T.Set(w, t, Name(key), v);
            if w.box[t].MapBox? then r.w == SetValue(w, t, key, v).w && (r.ok <==> SetValue(w, t, key, v).added == 1)
            else r == T.Res(w, false)
  {
    hide Owning, Closed, T.Orphan, Worlds.Below, Worlds.SetAsChild, Grown;
    if w.box[t].MapBox? {
      var x := Current(w.box[t].m, key);
      if x.Object? { assert RefersTo(w.box[t], x.addr); }
      A.OrphanEffect(T.WithBox(w, t, MapBox(w.box[t].m[key := v])), x);
    } else {
      assert w.box[t := w.box[t]] == w.box;
    }
  }

  // Both sides are nodes: the patch goes on below.
  predicate Meet(x: XValue, p: Tree) {
    x.Object? && !p.Leaf?
  }

  // ----- the procedure -----

  // The first pass over the first n entries of the patch.
  ghost function FirstPass(w: World, t: Id, p: Tree, n: nat): (r: Res)
    requires t in w.box && w.box[t].MapBox? && p.MapTree? && |p.keys| == |p.subs| && n <= |p.keys|
    ensures t in r.w.box && r.w.box[t].MapBox?
  {
    if n == 0 then Res(w, 0)
    else
      var r := FirstPass(w, t, p, n - 1);
      var key, sub := p.keys[n - 1], p.subs[n - 1];
      if Meet(Current(r.w.box[t].m, key), sub) then r
      else
        var s := SetValue(r.w, t, key, C.Value(sub));
        Res(s.w, r.added + s.added)
  }

  // The second pass: the nodes met in the first n entries of the container m that t had.
  ghost function SecondPass(w: World, m: map<string, XValue>, p: Tree, n: nat): Res
    requires p.MapTree? && |p.keys| == |p.subs| && n <= |p.keys|
    decreases p, 0, n
  {
    if n == 0 then Res(w, 0)
    else
      var r := SecondPass(w, m, p, n - 1);
      var x := Current(m, p.keys[n - 1]);
      if Meet(x, p.subs[n - 1]) then
        var s := PatchApply(r.w, x.addr, p.subs[n - 1]);
        Res(s.w, r.added + s.added)
      else r
  }

  ghost function PatchApply(w: World, t: Id, p: Tree): Res
    decreases p, 1, 0
  {
    if t !in w.box || !w.box[t].MapBox? || !p.MapTree? || |p.keys| != |p.subs| then Res(w, 0)
    else
      var r := FirstPass(w, t, p, |p.keys|);
      var s := SecondPass(r.w, w.box[t].m, p, |p.keys|);
      Res(s.w, r.added + s.added)
  }

  // ----- the effect of the passes on the forest -----

  // Some nodes have lost their parent, nothing else happened to the parents.
  ghost predicate Thinned(parent: Parents, after: Parents) {
    && parent.Keys == after.Keys
    && forall n | n in parent :: after[n] == parent[n] || after[n] == None
  }

  lemma {:induction false} UpThinned(parent: Parents, after: Parents, n: Id, a: Id, k: nat)
    requires Thinned(parent, after) && Up(after, n, a, k)
    ensures Up(parent, n, a, k)
    decreases k
  {
    if k > 0 { UpThinned(parent, after, parent[n].value, a, k - 1); }
  }

  lemma BelowThinned(parent: Parents, after: Parents, n: Id, a: Id)
    requires Thinned(parent, after) && Worlds.Below(after, n, a)
    ensures Worlds.Below(parent, n, a)
  {
    var k: nat :| Up(after, n, a, k);
    UpThinned(parent, after, n, a, k);
  }

  lemma ThinnedAcyclic(parent: Parents, after: Parents)
    requires Acyclic(parent) && Thinned(parent, after)
    ensures Acyclic(after)
  {
    var rank :| Ranked(parent, rank);
    assert Ranked(after, rank);
  }

  // x.addr is a child of t, so that neither t nor anything above t loses its parent.
  lemma SetValueParents(w: World, t: Id, key: string, v: XValue, x: Id)
    requires Hung(w) && t in w.box && w.box[t].MapBox? && x in w.parent
    ensures x in SetValue(w, t, key, v).w.parent
    ensures SetValue(w, t, key, v).w.parent[x] != w.parent[x] ==> w.parent[x] == Some(t)
  {
    if Current(w.box[t].m, key).Object? { HeldHung(w, t, key); }
  }

  lemma SetValueHung(w: World, t: Id, key: string, v: XValue)
    requires Hung(w) && t in w.box && w.box[t].MapBox? && !v.Object?
    ensures Hung(SetValue(w, t, key, v).w) && Thinned(w.parent, SetValue(w, t, key, v).w.parent)
  {
    var r := SetValue(w, t, key, v).w;
    if Current(w.box[t].m, key).Object? { HeldHung(w, t, key); }
    ThinnedAcyclic(w.parent, r.parent);
    hide HungAt;
    forall n, c | n in r.box && RefersTo(r.box[n], c) ensures HungAt(r, n, c) {
      SetValueHungAt(w, t, key, v, n, c);
    }
  }

  lemma SetValueHungAt(w: World, t: Id, key: string, v: XValue, n: Id, c: Id)
    requires Hung(w) && t in w.box && w.box[t].MapBox? && !v.Object?
    requires var r := SetValue(w, t, key, v).w; n in r.box && RefersTo(r.box[n], c)
    ensures HungAt(SetValue(w, t, key, v).w, n, c)
  {
    if Current(w.box[t].m, key).Object? { HeldHung(w, t, key); }
    if n == t && SetValue(w, t, key, v).added == 1 {
      var s :| s in w.box[t].m && s != key && w.box[t].m[s] == Object(c);
    }
    assert RefersTo(w.box[n], c);
    assert HungAt(w, n, c);
  }

  // ----- what is touched -----

  // Containers of t and below, and parents of nodes below t.
  ghost predicate Framed(w: World, v: World, t: Id) {
    && Hung(v) && Thinned(w.parent, v.parent) && v.box.Keys == w.box.Keys
    && (forall x | x in w.box && !Worlds.Below(w.parent, x, t) :: v.box[x] == w.box[x])
    && forall x | x in w.parent && (x == t || !Worlds.Below(w.parent, x, t)) :: v.parent[x] == w.parent[x]
  }

  lemma ThinnedTwice(a: Parents, b: Parents, c: Parents)
    requires Thinned(a, b) && Thinned(b, c)
    ensures Thinned(a, c)
  {
  }

  // A change below c, which is t or a child of t, seen from one node.
  lemma FramedThenAt(w: World, u: World, v: World, t: Id, c: Id, x: Id)
    requires Framed(w, u, t) && Framed(u, v, c) && Acyclic(w.parent) && t in w.parent
    requires c == t || (c in u.parent && u.parent[c] == Some(t))
    ensures x in w.box && !Worlds.Below(w.parent, x, t) ==> v.box[x] == w.box[x]
    ensures x in w.parent && (x == t || !Worlds.Below(w.parent, x, t)) ==> v.parent[x] == w.parent[x]
  {
    if x in w.parent && Worlds.Below(u.parent, x, c) {
      if c != t { P.BelowParent(u.parent, x, c, t); }
      BelowThinned(w.parent, u.parent, x, t);
      if x == t && c != t {
        BelowThinned(w.parent, u.parent, t, c);
        assert w.parent[c] == Some(t);
        P.ParentNotBelowChild(w.parent, t, c);
      }
    }
    if x in w.box && Worlds.Below(u.parent, x, c) {
      if c != t { P.BelowParent(u.parent, x, c, t); }
      BelowThinned(w.parent, u.parent, x, t);
    }
  }

  lemma FramedThen(w: World, u: World, v: World, t: Id, c: Id)
    requires Framed(w, u, t) && Framed(u, v, c) && Acyclic(w.parent) && t in w.parent
    requires c == t || (c in u.parent && u.parent[c] == Some(t))
    ensures Framed(w, v, t)
  {
    FramedMeans(w, u, t);
    FramedMeans(u, v, c);
    ThinnedTwice(w.parent, u.parent, v.parent);
    forall x
      ensures x in w.box && !Worlds.Below(w.parent, x, t) ==> v.box[x] == w.box[x]
      ensures x in w.parent && (x == t || !Worlds.Below(w.parent, x, t)) ==> v.parent[x] == w.parent[x]
    {
      FramedThenAt(w, u, v, t, c, x);
    }
    hide Worlds.Below, Acyclic;
  }

  lemma FramedSelf(w: World, t: Id)
    requires Hung(w)
    ensures Framed(w, w, t)
  {
  }

  lemma FramedMeans(w: World, v: World, t: Id)
    requires Framed(w, v, t)
    ensures Hung(v) && v.box.Keys == w.box.Keys && Thinned(w.parent, v.parent) && Acyclic(v.parent)
    ensures v.parent.Keys == v.box.Keys
  {
  }

  lemma SetValueFramed(w: World, t: Id, key: string, v: XValue)
    requires Hung(w) && t in w.box && w.box[t].MapBox? && !v.Object?
    ensures Framed(w, SetValue(w, t, key, v).w, t)
    ensures forall x | x in w.box && x != t :: SetValue(w, t, key, v).w.box[x] == w.box[x]
  {
    SetValueHung(w, t, key, v);
    BelowSelf(w.parent, t);
    var r := SetValue(w, t, key, v).w;
    forall x | x in w.parent && (x == t || !Worlds.Below(w.parent, x, t)) ensures r.parent[x] == w.parent[x] {
      SetValueParents(w, t, key, v, x);
      if w.parent[x] == Some(t) {
        BelowStep(w.parent, x, t);
        P.ParentNotBelowChild(w.parent, t, x);
      }
    }
  }

  // Nothing above the target changes.
  lemma AboveSame(w: World, v: World, t: Id, a: Id)
    requires Framed(w, v, t) && Acyclic(w.parent) && t in w.parent
    ensures Worlds.Below(v.parent, t, a) <==> Worlds.Below(w.parent, t, a)
  {
    if Worlds.Below(v.parent, t, a) { BelowThinned(w.parent, v.parent, t, a); }
    if Worlds.Below(w.parent, t, a) {
      var k: nat :| Up(w.parent, t, a, k);
      forall x | x in w.parent && Worlds.Below(w.parent, t, x) ensures x in v.parent && v.parent[x] == w.parent[x] {
        if Worlds.Below(w.parent, x, t) { BelowBothWays(w.parent, t, x); }
      }
      UpDependsAbove(w.parent, v.parent, t, a, k);
    }
  }

  lemma FirstPassStep(w: World, t: Id, p: Tree, n: nat)
    requires t in w.box && w.box[t].MapBox? && p.MapTree? && |p.keys| == |p.subs| && n < |p.keys|
    ensures var r := FirstPass(w, t, p, n);
            FirstPass(w, t, p, n + 1) ==
            if Meet(Current(r.w.box[t].m, p.keys[n]), p.subs[n]) then r
            else var s := SetValue(r.w, t, p.keys[n], C.Value(p.subs[n])); Res(s.w, r.added + s.added)
  {
  }

  lemma NoOwningLink(p: Tree, i: nat)
    requires WellFormed(p) && p.MapTree? && i < |p.subs|
    ensures !C.Value(p.subs[i]).Object? && !C.Value(p.subs[i]).IsEmpty()
  {
    assert WellFormed(p.subs[i]);
  }

  lemma WellFormedMeans(p: Tree)
    requires WellFormed(p) && p.MapTree?
    ensures |p.keys| == |p.subs|
  {
  }

  lemma HungIsForest(w: World, t: Id)
    requires Hung(w) && t in w.box
    ensures t in w.parent && Acyclic(w.parent)
  {
  }

  lemma {:induction false} FirstPassFramed(w: World, t: Id, p: Tree, n: nat)
    requires Hung(w) && t in w.box && w.box[t].MapBox? && p.MapTree? && WellFormed(p) && n <= |p.keys|
    ensures Framed(w, FirstPass(w, t, p, n).w, t)
  {
    hide Hung, SetValue, Framed, FirstPass, WellFormed, Eq, Meet, Acyclic, C.Value;
    HungIsForest(w, t);
    WellFormedMeans(p);
    if n == 0 {
      FirstPassStarts(w, t, p);
      FramedSelf(w, t);
    } else {
      FirstPassFramed(w, t, p, n - 1);
      FirstPassStep(w, t, p, n - 1);
      var u := FirstPass(w, t, p, n - 1).w;
      FramedMeans(w, u, t);
      NoOwningLink(p, n - 1);
      SetValueFramed(u, t, p.keys[n - 1], C.Value(p.subs[n - 1]));
      FramedThen(w, u, SetValue(u, t, p.keys[n - 1], C.Value(p.subs[n - 1])).w, t, t);
    }
  }

  lemma {:induction false} FirstPassElsewhere(w: World, t: Id, p: Tree, n: nat, x: Id)
    requires t in w.box && w.box[t].MapBox? && p.MapTree? && |p.keys| == |p.subs| && n <= |p.keys| && x in w.box
    requires x != t
    ensures x in FirstPass(w, t, p, n).w.box && FirstPass(w, t, p, n).w.box[x] == w.box[x]
  {
    if n > 0 {
      hide Leads, Eq;
      FirstPassElsewhere(w, t, p, n - 1, x);
    }
  }

  // The nodes met in the first n entries are still held by t under the same keys.
  ghost predicate StillHeld(w: World, t: Id, m: map<string, XValue>, p: Tree)
    requires p.MapTree? && |p.keys| == |p.subs|
  {
    && t in w.box && w.box[t].MapBox?
    && forall i | 0 <= i < |p.keys| && Meet(Current(m, p.keys[i]), p.subs[i]) ::
         Current(w.box[t].m, p.keys[i]) == Current(m, p.keys[i])
  }

  // The first pass takes the parent of children of t only.
  lemma {:induction false} FirstPassParents(w: World, t: Id, p: Tree, n: nat, x: Id)
    requires Hung(w) && t in w.box && w.box[t].MapBox? && p.MapTree? && WellFormed(p) && n <= |p.keys| && x in w.parent
    ensures var v := FirstPass(w, t, p, n).w; x in v.parent && (v.parent[x] != w.parent[x] ==> w.parent[x] == Some(t))
    decreases n
  {
    hide Hung, SetValue, Framed, FirstPass, WellFormed, Eq, Meet, C.Value, Closed, Acyclic;
    WellFormedMeans(p);
    if n == 0 {
      FirstPassStarts(w, t, p);
      HungIsForest(w, t);
    } else {
      FirstPassParents(w, t, p, n - 1, x);
      FirstPassFramed(w, t, p, n - 1);
      FirstPassStep(w, t, p, n - 1);
      var u := FirstPass(w, t, p, n - 1).w;
      FramedMeans(w, u, t);
      SetValueParents(u, t, p.keys[n - 1], C.Value(p.subs[n - 1]), x);
    }
  }

  lemma NotBelowItsChild(w: World, t: Id, c: Id)
    requires Hung(w) && t in w.box && c in w.parent && w.parent[c] == Some(t)
    ensures !Worlds.Below(w.parent, t, c)
  {
    P.ParentNotBelowChild(w.parent, t, c);
  }

  lemma SecondPassStep(w: World, m: map<string, XValue>, p: Tree, n: nat)
    requires p.MapTree? && |p.keys| == |p.subs| && n < |p.keys|
    ensures var r, x := SecondPass(w, m, p, n), Current(m, p.keys[n]);
            SecondPass(w, m, p, n + 1) ==
            if Meet(x, p.subs[n]) then var s := PatchApply(r.w, x.addr, p.subs[n]); Res(s.w, r.added + s.added) else r
  {
  }

  lemma SecondPassStarts(w: World, m: map<string, XValue>, p: Tree)
    requires p.MapTree? && |p.keys| == |p.subs|
    ensures SecondPass(w, m, p, 0) == Res(w, 0)
  {
  }

  lemma HeldIsMap(w: World, t: Id, m: map<string, XValue>, p: Tree)
    requires p.MapTree? && |p.keys| == |p.subs| && StillHeld(w, t, m, p)
    ensures t in w.box && w.box[t].MapBox?
  {
  }

  lemma {:induction false} SecondPassFramed(w: World, t: Id, m: map<string, XValue>, p: Tree, n: nat)
    requires Hung(w) && p.MapTree? && WellFormed(p) && n <= |p.keys| && StillHeld(w, t, m, p)
    ensures Framed(w, SecondPass(w, m, p, n).w, t)
    ensures t in SecondPass(w, m, p, n).w.box && SecondPass(w, m, p, n).w.box[t] == w.box[t]
    decreases p, 0, n
  {
    hide Hung, PatchApply, SecondPass, Framed, WellFormed, Acyclic, Eq;
    WellFormedMeans(p);
    HeldIsMap(w, t, m, p);
    HungIsForest(w, t);
    if n == 0 {
      SecondPassStarts(w, m, p);
      FramedSelf(w, t);
    } else {
      SubIsWellFormed(p, n - 1);
      SecondPassFramed(w, t, m, p, n - 1);
      SecondPassStep(w, m, p, n - 1);
      var u := SecondPass(w, m, p, n - 1).w;
      FramedMeans(w, u, t);
      if MetAt(m, p, n - 1) {
        MetIsChild(u, t, m, p, n - 1);
        var c := Current(m, p.keys[n - 1]).addr;
        PatchFramed(u, c, p.subs[n - 1]);
        NotBelowItsChild(u, t, c);
        FramedBox(u, PatchApply(u, c, p.subs[n - 1]).w, c, t);
        FramedThen(w, u, PatchApply(u, c, p.subs[n - 1]).w, t, c);
      }
    }
  }

  lemma FramedBox(w: World, v: World, c: Id, x: Id)
    requires Framed(w, v, c) && x in w.box && !Worlds.Below(w.parent, x, c)
    ensures x in v.box && v.box[x] == w.box[x]
  {
  }

  /** A patch of t touches the containers of t and the nodes below it only, and takes parents of nodes below
      t only. */
  lemma {:induction false} PatchFramed(w: World, t: Id, p: Tree)
    requires Hung(w) && t in w.box && WellFormed(p)
    ensures Framed(w, PatchApply(w, t, p).w, t)
    decreases p, 1, 0
  {
    FramedSelf(w, t);
    HungIsForest(w, t);
    if w.box[t].MapBox? && p.MapTree? {
      var u := FirstPass(w, t, p, |p.keys|).w;
      hide Framed, Hung, Acyclic, WellFormed;
      FirstPassFramed(w, t, p, |p.keys|);
      FirstPassHolds(w, t, p);
      FramedMeans(w, u, t);
      SecondPassFramed(u, t, w.box[t].m, p, |p.keys|);
      FramedThen(w, u, SecondPass(u, w.box[t].m, p, |p.keys|).w, t, t);
    }
  }

  // ----- the container after the first pass -----

  lemma {:induction false} FirstPassOther(w: World, t: Id, p: Tree, n: nat, key: string)
    requires t in w.box && w.box[t].MapBox? && p.MapTree? && |p.keys| == |p.subs| && n <= |p.keys|
    requires key !in FirstKeys(p.keys, n)
    ensures var m := FirstPass(w, t, p, n).w.box[t].m;
            (key in m <==> key in w.box[t].m) && Current(m, key) == Current(w.box[t].m, key)
  {
    if n > 0 { FirstPassOther(w, t, p, n - 1, key); }
  }

  // What the first pass makes of one entry: it stays if a node is met, or if it is equal, or if the link
  // is refused.
  ghost predicate Stays(w: World, t: Id, p: Tree, i: nat)
    requires t in w.box && w.box[t].MapBox? && p.MapTree? && |p.keys| == |p.subs| && i < |p.keys|
  {
    var x := Current(w.box[t].m, p.keys[i]);
    Meet(x, p.subs[i]) || Eq(x, C.Value(p.subs[i])) || Leads(w, t, C.Value(p.subs[i]))
  }

  lemma {:induction false} FirstPassGives(w: World, t: Id, p: Tree, n: nat, i: nat)
    requires Hung(w) && t in w.box && w.box[t].MapBox? && p.MapTree? && WellFormed(p) && i < n <= |p.keys|
    ensures |p.keys| == |p.subs|
    ensures Current(FirstPass(w, t, p, n).w.box[t].m, p.keys[i]) ==
              if Stays(w, t, p, i) then Current(w.box[t].m, p.keys[i]) else C.Value(p.subs[i])
    decreases n
  {
    hide Hung, Framed, FirstPass, WellFormed, Eq, Acyclic, Worlds.Below, C.Value, Leads;
    HungIsForest(w, t);
    WellFormedMeans(p);
    NextKeyIsNew(p, n - 1);
    FirstPassStep(w, t, p, n - 1);
    FirstPassFramed(w, t, p, n - 1);
    var u := FirstPass(w, t, p, n - 1).w;
    if i < n - 1 {
      FirstPassGives(w, t, p, n - 1, i);
      KeysDiffer(p, i, n - 1);
      SetValueOther(u, t, p.keys[n - 1], C.Value(p.subs[n - 1]), p.keys[i]);
    } else {
      FirstPassOther(w, t, p, n - 1, p.keys[i]);
      AboveSame(w, u, t, if p.subs[i].Leaf? then 0 else p.subs[i].addr);
      SubIsWellFormed(p, i);
      ValueLeads(w, u, t, p.subs[i]);
    }
  }

  lemma KeysDiffer(p: Tree, i: nat, j: nat)
    requires p.MapTree? && WellFormed(p) && i < |p.keys| && j < |p.keys| && i != j
    ensures p.keys[i] != p.keys[j]
  {
    if p.keys[i] == p.keys[j] { Order.SortedDistinct(p.keys, i, j); }
  }

  lemma SetValueOther(w: World, t: Id, key: string, v: XValue, other: string)
    requires t in w.box && w.box[t].MapBox? && other != key
    ensures var r := SetValue(w, t, key, v).w;
            t in r.box && r.box[t].MapBox? && Current(r.box[t].m, other) == Current(w.box[t].m, other)
  {
  }

  lemma ValueLeads(w: World, v: World, t: Id, p: Tree)
    requires WellFormed(p)
    requires !p.Leaf? ==> (Worlds.Below(v.parent, t, p.addr) <==> Worlds.Below(w.parent, t, p.addr))
    ensures Leads(v, t, C.Value(p)) <==> Leads(w, t, C.Value(p))
  {
  }

  lemma FirstPassHolds(w: World, t: Id, p: Tree)
    requires Hung(w) && t in w.box && w.box[t].MapBox? && p.MapTree? && WellFormed(p)
    ensures StillHeld(FirstPass(w, t, p, |p.keys|).w, t, w.box[t].m, p)
  {
    hide FirstPass, Hung, Eq, Leads;
    forall i | 0 <= i < |p.keys| && Meet(Current(w.box[t].m, p.keys[i]), p.subs[i])
      ensures Current(FirstPass(w, t, p, |p.keys|).w.box[t].m, p.keys[i]) == Current(w.box[t].m, p.keys[i])
    {
      FirstPassGives(w, t, p, |p.keys|, i);
    }
  }

  // A node that is there after the first pass was there before.
  lemma FirstPassKeepsNodes(w: World, t: Id, p: Tree, i: nat)
    requires Hung(w) && t in w.box && w.box[t].MapBox? && p.MapTree? && WellFormed(p) && i < |p.keys|
    ensures |p.keys| == |p.subs|
    ensures var m := FirstPass(w, t, p, |p.keys|).w.box[t].m;
            Meet(Current(m, p.keys[i]), p.subs[i]) <==> Meet(Current(w.box[t].m, p.keys[i]), p.subs[i])
  {
    hide FirstPass, Hung, Eq, Leads;
    FirstPassGives(w, t, p, |p.keys|, i);
    NoOwningLink(p, i);
  }

  // ----- the result -----

  // Wherever both sides are nodes, the one of the patch is a map.
  ghost predicate MapsMet(boxes: Heap, t: Id, p: Tree)
    decreases p
  {
    && p.MapTree? && |p.keys| == |p.subs| && t in boxes
    && (boxes[t].MapBox? ==>
          forall i | 0 <= i < |p.keys| && Meet(Current(boxes[t].m, p.keys[i]), p.subs[i]) ::
            MapsMet(boxes, Current(boxes[t].m, p.keys[i]).addr, p.subs[i]))
  }

  // Wherever both sides are nodes, the target is a map, or the patch has nothing for it: an array stores
  // nothing under a string key.
  ghost predicate Takes(boxes: Heap, t: Id, p: Tree)
    decreases p
  {
    && p.MapTree? && |p.keys| == |p.subs| && t in boxes
    && if boxes[t].MapBox? then
         forall i | 0 <= i < |p.keys| && Meet(Current(boxes[t].m, p.keys[i]), p.subs[i]) ::
           Takes(boxes, Current(boxes[t].m, p.keys[i]).addr, p.subs[i])
       else p.keys == []
  }

  // Every key of the patch is there and equal in the target; where both sides are nodes, this holds
  // below.
  ghost predicate Covers(boxes: Heap, t: Id, p: Tree)
    decreases p
  {
    && p.MapTree? && |p.keys| == |p.subs| && t in boxes
    && if boxes[t].MapBox? then
         forall i | 0 <= i < |p.keys| ::
           var x := Current(boxes[t].m, p.keys[i]);
           if Meet(x, p.subs[i]) then Covers(boxes, x.addr, p.subs[i]) else Eq(x, C.Value(p.subs[i]))
       else p.keys == []
  }

  // No entry that would be stored is refused, as a link to the target or above it, or by an array.
  ghost predicate Free(w: World, t: Id, p: Tree)
    decreases p
  {
    && p.MapTree? && |p.keys| == |p.subs| && t in w.box
    && if w.box[t].MapBox? then
         forall i | 0 <= i < |p.keys| ::
           var x := Current(w.box[t].m, p.keys[i]);
           if Meet(x, p.subs[i]) then Free(w, x.addr, p.subs[i])
           else Eq(x, C.Value(p.subs[i])) || !Leads(w, t, C.Value(p.subs[i]))
       else p.keys == []
  }

  // Every entry is equal or refused; where both sides are nodes, this holds below. An array refuses all.
  ghost predicate Done(w: World, t: Id, p: Tree)
    decreases p
  {
    && p.MapTree? && |p.keys| == |p.subs| && t in w.box
    && (w.box[t].MapBox? ==>
          forall i | 0 <= i < |p.keys| ::
            var x := Current(w.box[t].m, p.keys[i]);
            if Meet(x, p.subs[i]) then Done(w, x.addr, p.subs[i])
            else Eq(x, C.Value(p.subs[i])) || Leads(w, t, C.Value(p.subs[i])))
  }

  lemma {:induction false} DoneMeets(w: World, t: Id, p: Tree)
    requires Done(w, t, p)
    ensures MapsMet(w.box, t, p)
    decreases p
  {
    if w.box[t].MapBox? {
      forall i | 0 <= i < |p.keys| && Meet(Current(w.box[t].m, p.keys[i]), p.subs[i])
        ensures MapsMet(w.box, Current(w.box[t].m, p.keys[i]).addr, p.subs[i])
      {
        DoneMeets(w, Current(w.box[t].m, p.keys[i]).addr, p.subs[i]);
      }
    }
  }

  /** Covered means done, with nothing refused. */
  lemma {:induction false} CoversIff(w: World, t: Id, p: Tree)
    ensures Covers(w.box, t, p) <==> Done(w, t, p) && Free(w, t, p)
    decreases p
  {
    if p.MapTree? && |p.keys| == |p.subs| && t in w.box && w.box[t].MapBox? {
      forall i | 0 <= i < |p.keys| && Meet(Current(w.box[t].m, p.keys[i]), p.subs[i])
        ensures var c := Current(w.box[t].m, p.keys[i]).addr;
                Covers(w.box, c, p.subs[i]) <==> Done(w, c, p.subs[i]) && Free(w, c, p.subs[i])
      {
        CoversIff(w, Current(w.box[t].m, p.keys[i]).addr, p.subs[i]);
      }
    }
  }

  // Containers of t and below, parents below t, and what is above t are the same.
  ghost predicate SameBelow(w: World, v: World, t: Id) {
    && (forall x | x in w.box && Worlds.Below(w.parent, x, t) :: x in v.box && v.box[x] == w.box[x])
    && (forall x | x in w.parent && Worlds.Below(w.parent, x, t) && x != t ::
          x in v.parent && v.parent[x] == w.parent[x])
    && t in v.parent && forall a :: Worlds.Below(v.parent, t, a) <==> Worlds.Below(w.parent, t, a)
  }

  lemma SameBelowChild(w: World, v: World, t: Id, c: Id)
    requires SameBelow(w, v, t) && Acyclic(w.parent) && t in w.parent && c in w.parent && w.parent[c] == Some(t)
    ensures SameBelow(w, v, c)
  {
    BelowSelf(w.parent, t);
    BelowStep(w.parent, c, t);
    if c == t { P.ParentNotBelowChild(w.parent, t, t); }
    forall x | Worlds.Below(w.parent, x, c) ensures Worlds.Below(w.parent, x, t) { P.BelowParent(w.parent, x, c, t); }
    forall x | Worlds.Below(w.parent, x, c) ensures x != t { P.ParentNotBelowChild(w.parent, t, c); }
    forall a ensures Worlds.Below(v.parent, c, a) <==> Worlds.Below(w.parent, c, a) {
      BelowStep(v.parent, c, a);
      BelowStep(w.parent, c, a);
    }
  }

  // All three relations depend on that only.
  lemma {:induction false} RelationsStay(w: World, v: World, t: Id, p: Tree)
    requires Hung(w) && t in w.parent && SameBelow(w, v, t) && WellFormed(p) && MapsMet(w.box, t, p)
    ensures MapsMet(v.box, t, p) && (Free(v, t, p) <==> Free(w, t, p)) && (Done(v, t, p) <==> Done(w, t, p))
    decreases p
  {
    BelowSelf(w.parent, t);
    HungIsForest(w, t);
    assert t in v.box && v.box[t] == w.box[t];
    hide Hung, Acyclic, Worlds.Below, Eq;
    if w.box[t].MapBox? {
      forall i | 0 <= i < |p.keys|
        ensures Leads(v, t, C.Value(p.subs[i])) <==> Leads(w, t, C.Value(p.subs[i]))
        ensures Meet(Current(w.box[t].m, p.keys[i]), p.subs[i]) ==>
                  var c, sub := Current(w.box[t].m, p.keys[i]).addr, p.subs[i];
                  MapsMet(v.box, c, sub) && (Free(v, c, sub) <==> Free(w, c, sub))
                  && (Done(v, c, sub) <==> Done(w, c, sub))
      {
        SameLeads(w, v, t, C.Value(p.subs[i]));
        if Meet(Current(w.box[t].m, p.keys[i]), p.subs[i]) {
          HeldHung(w, t, p.keys[i]);
          SameBelowChild(w, v, t, Current(w.box[t].m, p.keys[i]).addr);
          RelationsStay(w, v, Current(w.box[t].m, p.keys[i]).addr, p.subs[i]);
        }
      }
    }
  }

  lemma SameLeads(w: World, v: World, t: Id, x: XValue)
    requires SameBelow(w, v, t)
    ensures Leads(v, t, x) <==> Leads(w, t, x)
  {
  }

  // ----- the second pass -----

  // The i-th entry is met at a node that t holds.
  ghost predicate MetAt(m: map<string, XValue>, p: Tree, i: nat)
    requires p.MapTree? && |p.keys| == |p.subs|
  {
    i < |p.keys| && Meet(Current(m, p.keys[i]), p.subs[i])
  }

  lemma MetIsChild(w: World, t: Id, m: map<string, XValue>, p: Tree, i: nat)
    requires Hung(w) && p.MapTree? && |p.keys| == |p.subs| && StillHeld(w, t, m, p) && MetAt(m, p, i)
    ensures var c := Current(m, p.keys[i]).addr; c in w.box && c in w.parent && w.parent[c] == Some(t) && t in w.parent
  {
    HeldHung(w, t, p.keys[i]);
  }

  lemma MetDistinct(w: World, t: Id, m: map<string, XValue>, p: Tree, i: nat, j: nat)
    requires Hung(w) && p.MapTree? && WellFormed(p) && StillHeld(w, t, m, p) && MetAt(m, p, i) && MetAt(m, p, j)
    requires i != j
    ensures Current(m, p.keys[i]).addr != Current(m, p.keys[j]).addr
  {
    HeldHung(w, t, p.keys[i]);
    HeldHung(w, t, p.keys[j]);
    if p.keys[i] == p.keys[j] { Order.SortedDistinct(p.keys, i, j); }
  }

  // A patch of one child leaves everything below another child alone.
  lemma SiblingSame(w: World, t: Id, c: Id, d: Id, p: Tree)
    requires Hung(w) && c != d && t in w.parent && c in w.parent && d in w.parent && d in w.box && WellFormed(p)
    requires w.parent[c] == Some(t) && w.parent[d] == Some(t)
    ensures SameBelow(w, PatchApply(w, d, p).w, c)
  {
    hide PatchApply;
    PatchFramed(w, d, p);
    ElsewhereSame(w, PatchApply(w, d, p).w, t, c, d);
  }

  lemma ElsewhereSame(w: World, v: World, t: Id, c: Id, d: Id)
    requires Hung(w) && c != d && t in w.parent && c in w.parent && d in w.parent && Framed(w, v, d)
    requires w.parent[c] == Some(t) && w.parent[d] == Some(t)
    ensures SameBelow(w, v, c)
  {
    forall x | Worlds.Below(w.parent, x, c) ensures !Worlds.Below(w.parent, x, d) {
      P.SiblingsApart(w.parent, t, c, d, x);
    }
    forall a ensures Worlds.Below(v.parent, c, a) <==> Worlds.Below(w.parent, c, a) {
      if Worlds.Below(v.parent, c, a) { BelowThinned(w.parent, v.parent, c, a); }
      if Worlds.Below(w.parent, c, a) {
        var k: nat :| Up(w.parent, c, a, k);
        forall x | x in w.parent && Worlds.Below(w.parent, c, x) ensures x in v.parent && v.parent[x] == w.parent[x] {
          if Worlds.Below(w.parent, x, d) && x != d {
            BelowTransitive(w.parent, c, x, d);
            BelowSelf(w.parent, c);
            P.SiblingsApart(w.parent, t, c, d, c);
          }
        }
        UpDependsAbove(w.parent, v.parent, c, a, k);
      }
    }
  }

  lemma StillHeldAfter(w: World, t: Id, m: map<string, XValue>, p: Tree, n: nat)
    requires Hung(w) && p.MapTree? && WellFormed(p) && n <= |p.keys| && StillHeld(w, t, m, p)
    ensures Hung(SecondPass(w, m, p, n).w) && StillHeld(SecondPass(w, m, p, n).w, t, m, p)
  {
    hide SecondPass, Hung, Framed;
    SecondPassFramed(w, t, m, p, n);
    FramedMeans(w, SecondPass(w, m, p, n).w, t);
  }

  // One turn of the second pass does nothing to another entry that is met.
  lemma TurnSame(w: World, t: Id, m: map<string, XValue>, p: Tree, j: nat, i: nat)
    requires Hung(w) && p.MapTree? && WellFormed(p) && StillHeld(w, t, m, p) && MetAt(m, p, i) && MetAt(m, p, j)
    requires i != j
    requires MapsMet(w.box, Current(m, p.keys[i]).addr, p.subs[i])
    ensures var c, sub := Current(m, p.keys[i]).addr, p.subs[i];
            var v := PatchApply(w, Current(m, p.keys[j]).addr, p.subs[j]).w;
            MapsMet(v.box, c, sub) && (Free(v, c, sub) <==> Free(w, c, sub)) && (Done(v, c, sub) <==> Done(w, c, sub))
  {
    hide PatchApply, Hung, StillHeld, MapsMet, Free, Done, SameBelow;
    MetIsChild(w, t, m, p, i);
    MetIsChild(w, t, m, p, j);
    MetDistinct(w, t, m, p, i, j);
    SubIsWellFormed(p, i);
    SubIsWellFormed(p, j);
    var c, d := Current(m, p.keys[i]).addr, Current(m, p.keys[j]).addr;
    SiblingSame(w, t, c, d, p.subs[j]);
    RelationsStay(w, PatchApply(w, d, p.subs[j]).w, c, p.subs[i]);
  }

  // An entry that the second pass has not come to yet.
  lemma {:induction false} LaterSame(w: World, t: Id, m: map<string, XValue>, p: Tree, n: nat, i: nat)
    requires Hung(w) && p.MapTree? && WellFormed(p) && n <= i && StillHeld(w, t, m, p) && MetAt(m, p, i)
    requires MapsMet(w.box, Current(m, p.keys[i]).addr, p.subs[i])
    ensures var c, sub, v := Current(m, p.keys[i]).addr, p.subs[i], SecondPass(w, m, p, n).w;
            MapsMet(v.box, c, sub) && (Free(v, c, sub) <==> Free(w, c, sub))
    decreases n
  {
    hide SecondPass, Hung, PatchApply, StillHeld, MapsMet, WellFormed, Free, Done, Eq;
    WellFormedMeans(p);
    if n == 0 {
      SecondPassStarts(w, m, p);
    } else {
      LaterSame(w, t, m, p, n - 1, i);
      StillHeldAfter(w, t, m, p, n - 1);
      SecondPassStep(w, m, p, n - 1);
      if MetAt(m, p, n - 1) { TurnSame(SecondPass(w, m, p, n - 1).w, t, m, p, n - 1, i); }
    }
  }

  lemma SubIsWellFormed(p: Tree, i: nat)
    requires WellFormed(p) && p.MapTree? && i < |p.subs|
    ensures WellFormed(p.subs[i]) && |p.keys| == |p.subs|
  {
  }

  // An entry that it has passed.
  lemma {:induction false} SecondPassDone(w: World, t: Id, m: map<string, XValue>, p: Tree, n: nat, i: nat)
    requires Hung(w) && p.MapTree? && WellFormed(p) && i < n <= |p.keys| && StillHeld(w, t, m, p) && MetAt(m, p, i)
    requires MapsMet(w.box, Current(m, p.keys[i]).addr, p.subs[i])
    ensures var c, sub, v := Current(m, p.keys[i]).addr, p.subs[i], SecondPass(w, m, p, n).w;
            MapsMet(v.box, c, sub) && Done(v, c, sub) && (Free(v, c, sub) <==> Free(w, c, sub))
    decreases p, 0, n
  {
    hide SecondPass, Hung, PatchApply, StillHeld, MapsMet, WellFormed, Free, Done, Eq;
    WellFormedMeans(p);
    StillHeldAfter(w, t, m, p, n - 1);
    SecondPassStep(w, m, p, n - 1);
    SubIsWellFormed(p, n - 1);
    var u := SecondPass(w, m, p, n - 1).w;
    if i == n - 1 {
      MetIsChild(u, t, m, p, i);
      LaterSame(w, t, m, p, n - 1, i);
      PatchDone(u, Current(m, p.keys[i]).addr, p.subs[i]);
      DoneMeets(PatchApply(u, Current(m, p.keys[i]).addr, p.subs[i]).w, Current(m, p.keys[i]).addr, p.subs[i]);
    } else {
      SecondPassDone(w, t, m, p, n - 1, i);
      if MetAt(m, p, n - 1) { TurnSame(u, t, m, p, n - 1, i); }
    }
  }

  // The first pass changes nothing below a node that is met: not the parents there, nor what is above.
  lemma FirstPassBelow(w: World, t: Id, p: Tree, i: nat)
    requires Hung(w) && t in w.box && w.box[t].MapBox? && p.MapTree? && WellFormed(p) && MetAt(w.box[t].m, p, i)
    ensures SameBelow(w, FirstPass(w, t, p, |p.keys|).w, Current(w.box[t].m, p.keys[i]).addr)
  {
    hide FirstPass, Hung, Framed, StillHeld, WellFormed, Worlds.Below, Acyclic;
    WellFormedMeans(p);
    var c, u := Current(w.box[t].m, p.keys[i]).addr, FirstPass(w, t, p, |p.keys|).w;
    HungIsForest(w, t);
    HeldHung(w, t, p.keys[i]);
    FirstPassFramed(w, t, p, |p.keys|);
    FirstPassHolds(w, t, p);
    FramedMeans(w, u, t);
    MetIsChild(u, t, w.box[t].m, p, i);
    NotBelowItsChild(w, t, c);
    forall x | x in w.box && Worlds.Below(w.parent, x, c) ensures x in u.box && u.box[x] == w.box[x] {
      FirstPassElsewhere(w, t, p, |p.keys|, x);
    }
    forall x | x in w.parent && Worlds.Below(w.parent, x, c) && x != c
      ensures x in u.parent && u.parent[x] == w.parent[x]
    {
      FirstPassParents(w, t, p, |p.keys|, x);
      BelowStep(w.parent, x, c);
    }
    forall a ensures Worlds.Below(u.parent, c, a) <==> Worlds.Below(w.parent, c, a) {
      BelowStep(u.parent, c, a);
      BelowStep(w.parent, c, a);
      AboveSame(w, u, t, a);
    }
  }

  lemma MetAfterFirstPass(w: World, t: Id, p: Tree, i: nat)
    requires Hung(w) && t in w.box && w.box[t].MapBox? && p.MapTree? && WellFormed(p)
    requires MapsMet(w.box, t, p) && MetAt(w.box[t].m, p, i)
    ensures var c, sub, u := Current(w.box[t].m, p.keys[i]).addr, p.subs[i], FirstPass(w, t, p, |p.keys|).w;
            MapsMet(u.box, c, sub) && (Free(u, c, sub) <==> Free(w, c, sub))
  {
    hide FirstPass, Free, Done, SameBelow;
    HeldHung(w, t, p.keys[i]);
    SubIsWellFormed(p, i);
    FirstPassBelow(w, t, p, i);
    RelationsStay(w, FirstPass(w, t, p, |p.keys|).w, Current(w.box[t].m, p.keys[i]).addr, p.subs[i]);
  }

  // One entry, before and after the patch.
  ghost predicate EntryDone(w: World, v: World, t: Id, p: Tree, i: nat)
    requires t in w.box && w.box[t].MapBox? && p.MapTree? && |p.keys| == |p.subs| && i < |p.keys|
  {
    && t in v.box && v.box[t].MapBox?
    && var x, y, sub := Current(w.box[t].m, p.keys[i]), Current(v.box[t].m, p.keys[i]), p.subs[i];
       && (Meet(x, sub) <==> Meet(y, sub))
       && (Meet(x, sub) ==> y == x && Done(v, x.addr, sub) && (Free(v, x.addr, sub) <==> Free(w, x.addr, sub)))
       && (!Meet(x, sub) ==> y == if Stays(w, t, p, i) then x else C.Value(sub))
  }

  lemma {:induction false} EntryIsDone(w: World, t: Id, p: Tree, i: nat)
    requires Hung(w) && t in w.box && w.box[t].MapBox? && p.MapTree? && WellFormed(p)
    requires MapsMet(w.box, t, p) && i < |p.keys|
    ensures |p.keys| == |p.subs| && EntryDone(w, PatchApply(w, t, p).w, t, p, i)
    decreases p, 0, |p.keys| + 1
  {
    var m, n := w.box[t].m, |p.keys|;
    var u := FirstPass(w, t, p, n).w;
    PatchIsPasses(w, t, p);
    hide FirstPass, SecondPass, Hung, PatchApply, Free, Done, Framed, Stays, Eq;
    FirstPassFramed(w, t, p, n);
    FirstPassHolds(w, t, p);
    FramedMeans(w, u, t);
    SecondPassFramed(u, t, m, p, n);
    FirstPassGives(w, t, p, n, i);
    FirstPassKeepsNodes(w, t, p, i);
    if MetAt(m, p, i) {
      MetAfterFirstPass(w, t, p, i);
      SecondPassDone(u, t, m, p, n, i);
    }
  }

  lemma EntriesDone(w: World, v: World, t: Id, p: Tree)
    requires p.MapTree? && |p.keys| == |p.subs| && t in w.box && w.box[t].MapBox? && WellFormed(p)
    requires forall i | 0 <= i < |p.keys| :: EntryDone(w, v, t, p, i)
    requires t in v.box && v.box[t].MapBox?
    requires forall a :: Worlds.Below(v.parent, t, a) <==> Worlds.Below(w.parent, t, a)
    ensures Done(v, t, p) && (Free(v, t, p) <==> Free(w, t, p))
  {
    hide Worlds.Below;
    forall i | 0 <= i < |p.keys|
      ensures EntryDone(w, v, t, p, i) && Eq(C.Value(p.subs[i]), C.Value(p.subs[i]))
      ensures Leads(v, t, C.Value(p.subs[i])) <==> Leads(w, t, C.Value(p.subs[i]))
    {
    }
  }

  lemma ArrayTakesNothing(w: World, t: Id, p: Tree)
    requires t in w.box && w.box[t].ArrayBox? && p.MapTree? && |p.keys| == |p.subs|
    ensures PatchApply(w, t, p) == Res(w, 0) && Done(w, t, p)
  {
  }

  /** After the patch every entry of it is equal in the target, or it leads to the target or above it, or
      meets an array, and was refused; where both sides are nodes, this holds below. Which entries are free
      is the same as before. */
  lemma {:induction false} PatchDone(w: World, t: Id, p: Tree)
    requires Hung(w) && t in w.box && WellFormed(p) && MapsMet(w.box, t, p)
    ensures var v := PatchApply(w, t, p).w; Done(v, t, p) && (Free(v, t, p) <==> Free(w, t, p))
    decreases p, 1, 0
  {
    var v := PatchApply(w, t, p).w;
    HungIsForest(w, t);
    PatchFramed(w, t, p);
    hide PatchApply, Free, Done, Framed, Hung, EntryDone, Acyclic, Worlds.Below, WellFormed;
    FramedMeans(w, v, t);
    if w.box[t].MapBox? {
      assert |p.keys| == |p.subs|;
      forall i | 0 <= i < |p.keys| ensures EntryDone(w, v, t, p, i) { EntryIsDone(w, t, p, i); }
      forall a ensures Worlds.Below(v.parent, t, a) <==> Worlds.Below(w.parent, t, a) { AboveSame(w, v, t, a); }
      PatchKeepsMap(w, t, p);
      EntriesDone(w, v, t, p);
    } else {
      ArrayTakesNothing(w, t, p);
    }
  }

  lemma PatchKeepsMap(w: World, t: Id, p: Tree)
    requires Hung(w) && t in w.box && w.box[t].MapBox? && WellFormed(p)
    ensures var v := PatchApply(w, t, p).w; t in v.box && v.box[t].MapBox?
  {
    if p.MapTree? {
      var u := FirstPass(w, t, p, |p.keys|).w;
      FirstPassFramed(w, t, p, |p.keys|);
      FirstPassHolds(w, t, p);
      FramedMeans(w, u, t);
      SecondPassFramed(u, t, w.box[t].m, p, |p.keys|);
    }
  }

  /** The target covers the patch afterwards, with every live key of it equal in the target, exactly when no
      entry that would be stored leads to its target node or above it, or meets an array. */
  lemma PatchCoversIff(w: World, t: Id, p: Tree)
    requires Hung(w) && t in w.box && WellFormed(p) && MapsMet(w.box, t, p)
    ensures Covers(PatchApply(w, t, p).w.box, t, p) <==> Free(w, t, p)
  {
    PatchDone(w, t, p);
    CoversIff(PatchApply(w, t, p).w, t, p);
  }

  // ----- applied again -----

  lemma {:induction false} FirstPassIdle(w: World, t: Id, p: Tree, n: nat)
    requires p.MapTree? && Done(w, t, p) && w.box[t].MapBox? && n <= |p.keys|
    ensures FirstPass(w, t, p, n) == Res(w, 0)
  {
    if n > 0 { FirstPassIdle(w, t, p, n - 1); }
  }

  lemma {:induction false} SecondPassIdle(w: World, t: Id, p: Tree, n: nat)
    requires p.MapTree? && Done(w, t, p) && w.box[t].MapBox? && n <= |p.keys|
    ensures SecondPass(w, w.box[t].m, p, n) == Res(w, 0)
    decreases p, 0, n
  {
    if n > 0 {
      SecondPassIdle(w, t, p, n - 1);
      if Meet(Current(w.box[t].m, p.keys[n - 1]), p.subs[n - 1]) {
        PatchIdle(w, Current(w.box[t].m, p.keys[n - 1]).addr, p.subs[n - 1]);
      }
    }
  }

  lemma {:induction false} PatchIdle(w: World, t: Id, p: Tree)
    requires Done(w, t, p)
    ensures PatchApply(w, t, p) == Res(w, 0)
    decreases p, 1, 0
  {
    if w.box[t].MapBox? {
      FirstPassIdle(w, t, p, |p.keys|);
      SecondPassIdle(w, t, p, |p.keys|);
    }
  }

  lemma {:induction false} FirstPassCounts(w: World, t: Id, p: Tree, n: nat)
    requires t in w.box && w.box[t].MapBox? && p.MapTree? && |p.keys| == |p.subs| && n <= |p.keys|
    ensures FirstPass(w, t, p, n).added == 0 ==> FirstPass(w, t, p, n).w == w
  {
    if n > 0 { FirstPassCounts(w, t, p, n - 1); }
  }

  lemma {:induction false} SecondPassCounts(w: World, m: map<string, XValue>, p: Tree, n: nat)
    requires p.MapTree? && |p.keys| == |p.subs| && n <= |p.keys|
    ensures SecondPass(w, m, p, n).added == 0 ==> SecondPass(w, m, p, n).w == w
    decreases p, 0, n
  {
    if n > 0 {
      SecondPassCounts(w, m, p, n - 1);
      PatchCounts(SecondPass(w, m, p, n - 1).w,
                  if Current(m, p.keys[n - 1]).Object? then Current(m, p.keys[n - 1]).addr else 0, p.subs[n - 1]);
    }
  }

  lemma {:induction false} PatchCounts(w: World, t: Id, p: Tree)
    ensures PatchApply(w, t, p).added == 0 ==> PatchApply(w, t, p).w == w
    decreases p, 1, 0
  {
    if t in w.box && w.box[t].MapBox? && p.MapTree? && |p.keys| == |p.subs| {
      FirstPassCounts(w, t, p, |p.keys|);
      SecondPassCounts(FirstPass(w, t, p, |p.keys|).w, w.box[t].m, p, |p.keys|);
    }
  }

  /** A patch counts nothing exactly when every entry is equal in the target or refused, and then it changes
      nothing. */
  lemma PatchIdleIff(w: World, t: Id, p: Tree)
    requires Hung(w) && t in w.box && WellFormed(p) && MapsMet(w.box, t, p)
    ensures PatchApply(w, t, p).added == 0 <==> Done(w, t, p)
    ensures PatchApply(w, t, p).added == 0 ==> PatchApply(w, t, p).w == w
  {
    PatchCounts(w, t, p);
    if PatchApply(w, t, p).added == 0 { PatchDone(w, t, p); }
    if Done(w, t, p) { PatchIdle(w, t, p); }
  }

  /** The second application of a patch changes nothing and counts nothing. */
  lemma PatchTwice(w: World, t: Id, p: Tree)
    requires Hung(w) && t in w.box && WellFormed(p) && MapsMet(w.box, t, p)
    ensures var r := PatchApply(w, t, p); PatchApply(r.w, t, p) == Res(r.w, 0)
  {
    PatchDone(w, t, p);
    PatchIdle(PatchApply(w, t, p).w, t, p);
  }

  /** Keys that the patch does not have keep their values; nodes that are not below t keep their containers. */
  lemma PatchLeavesOthers(w: World, t: Id, p: Tree, key: string)
    requires Hung(w) && t in w.box && w.box[t].MapBox? && p.MapTree? && WellFormed(p) && key !in p.keys
    ensures var v := PatchApply(w, t, p).w;
            t in v.box && v.box[t].MapBox? && (key in v.box[t].m <==> key in w.box[t].m)
            && Current(v.box[t].m, key) == Current(w.box[t].m, key)
    ensures forall x | x in w.box && !Worlds.Below(w.parent, x, t) ::
              x in PatchApply(w, t, p).w.box && PatchApply(w, t, p).w.box[x] == w.box[x]
  {
    hide FirstPass, SecondPass, Hung, Framed, StillHeld, WellFormed, Acyclic;
    WellFormedMeans(p);
    PatchIsPasses(w, t, p);
    FirstPassFramed(w, t, p, |p.keys|);
    FirstPassHolds(w, t, p);
    FramedMeans(w, FirstPass(w, t, p, |p.keys|).w, t);
    SecondPassFramed(FirstPass(w, t, p, |p.keys|).w, t, w.box[t].m, p, |p.keys|);
    FirstKeysAre(p.keys, |p.keys|, key);
    assert p.keys[..|p.keys|] == p.keys;
    FirstPassOther(w, t, p, |p.keys|, key);
    PatchFramed(w, t, p);
    forall x | x in w.box && !Worlds.Below(w.parent, x, t)
      ensures x in PatchApply(w, t, p).w.box && PatchApply(w, t, p).w.box[x] == w.box[x]
    {
      FramedBox(w, PatchApply(w, t, p).w, t, x);
    }
  }

  // ----- patches in an agreeing state -----

  // All nodes of the tree are a or below it.
  ghost predicate NodesBelow(parent: Parents, p: Tree, a: Id)
    decreases p
  {
    !p.Leaf? ==> Worlds.Below(parent, p.addr, a) && forall i | 0 <= i < |p.subs| :: NodesBelow(parent, p.subs[i], a)
  }

  lemma {:induction false} TreeIsBelow(w: World, x: XValue, p: Tree, a: Id)
    requires Agree(w) && Represents(w.box, x, p) && (!p.Leaf? ==> Worlds.Below(w.parent, p.addr, a))
    ensures NodesBelow(w.parent, p, a)
    decreases p
  {
    if !p.Leaf? {
      var b := w.box[p.addr];
      forall i | 0 <= i < |p.subs| ensures NodesBelow(w.parent, p.subs[i], a) {
        var y := C.SubValue(w.box, x, p, i);
        C.Shape(w.box, y, p.subs[i]);
        if !p.subs[i].Leaf? {
          assert Owning(b) && y.Object?;
          assert RefersTo(b, y.addr) && Fits(w, p.addr, y.addr);
          BelowStep(w.parent, y.addr, a);
        }
        TreeIsBelow(w, y, p.subs[i], a);
      }
    }
  }

  // Neither of two nodes is above the other.
  ghost predicate Beside(parent: Parents, t: Id, a: Id) {
    !Worlds.Below(parent, t, a) && !Worlds.Below(parent, a, t)
  }

  lemma NotBelowBoth(parent: Parents, t: Id, a: Id, x: Id)
    requires Beside(parent, t, a) && Worlds.Below(parent, x, t)
    ensures !Worlds.Below(parent, x, a)
  {
    if Worlds.Below(parent, x, a) {
      var i: nat :| Up(parent, x, t, i);
      var j: nat :| Up(parent, x, a, j);
      if i <= j { P.UpIsOneWay(parent, x, t, a, i, j); } else { P.UpIsOneWay(parent, x, a, t, j, i); }
    }
  }

  // Where patch and target lie beside each other, no link of the patch leads to the target or above it.
  lemma {:induction false} BesideIsFree(w: World, t: Id, p: Tree, top: Id, a: Id)
    requires Hung(w) && t in w.parent && MapsMet(w.box, t, p) && NodesBelow(w.parent, p, a) && WellFormed(p)
    requires Beside(w.parent, top, a) && Worlds.Below(w.parent, t, top)
    ensures Free(w, t, p) <==> Takes(w.box, t, p)
    decreases p
  {
    if w.box[t].MapBox? {
      forall i | 0 <= i < |p.keys|
        ensures !Leads(w, t, C.Value(p.subs[i]))
        ensures Meet(Current(w.box[t].m, p.keys[i]), p.subs[i]) ==>
                  var c := Current(w.box[t].m, p.keys[i]).addr; Free(w, c, p.subs[i]) <==> Takes(w.box, c, p.subs[i])
      {
        if !p.subs[i].Leaf? && Worlds.Below(w.parent, t, p.subs[i].addr) {
          BelowTransitive(w.parent, t, p.subs[i].addr, a);
          NotBelowBoth(w.parent, top, a, t);
        }
        if Meet(Current(w.box[t].m, p.keys[i]), p.subs[i]) {
          HeldHung(w, t, p.keys[i]);
          var c := Current(w.box[t].m, p.keys[i]).addr;
          BelowStep(w.parent, c, top);
          BesideIsFree(w, c, p.subs[i], top, a);
        }
      }
    }
  }

  lemma AgreeingIsKeyed(w: World)
    requires Valid(w)
    ensures Keyed(w.box)
  {
    forall n | n in w.box && w.box[n].MapBox? ensures "" !in w.box[n].m { assert Owning(w.box[n]); }
  }

  /** In an agreeing state, a patch that lies beside the target is covered afterwards, with every live key of
      it equal in the target and so on below, exactly when no array of the target meets an entry of it. */
  lemma PatchBesideCovers(w: World, t: Id, a: Id, p: Tree)
    requires Agree(w) && Acyclic(w.parent) && t in w.parent && a in w.parent && Beside(w.parent, t, a)
    requires Represents(w.box, Object(a), p) && MapsMet(w.box, t, p)
    ensures Covers(PatchApply(w, t, p).w.box, t, p) <==> Takes(w.box, t, p)
  {
    AgreeingIsHung(w);
    AgreeingIsKeyed(w);
    RepresentsWellFormed(w.box, Object(a), p);
    BelowSelf(w.parent, a);
    BelowSelf(w.parent, t);
    TreeIsBelow(w, Object(a), p, a);
    BesideIsFree(w, t, p, t, a);
    PatchCoversIff(w, t, p);
  }

  // Node 2 is a map that holds 0 under "z", 0 a map that holds 1 under "t", and 1 an empty map.
  const CHAIN := World(
    map[0 := Some(2), 1 := Some(0), 2 := None], map[0 := "z", 1 := "t", 2 := ""],
    map[0 := MapBox(map["t" := Object(1)]), 1 := MapBox(map[]), 2 := MapBox(map["z" := Object(0)])])

  const CHAIN_TREE := MapTree(2, ["z"], [MapTree(0, ["t"], [MapTree(1, [], [])])])

  lemma ChainIs()
    ensures CHAIN.parent.Keys == CHAIN.name.Keys == CHAIN.box.Keys == {0, 1, 2}
    ensures CHAIN.parent[0] == Some(2) && CHAIN.parent[1] == Some(0) && CHAIN.parent[2] == None
    ensures CHAIN.name[0] == "z" && CHAIN.name[1] == "t"
    ensures CHAIN.box[0] == MapBox(map["t" := Object(1)]) && CHAIN.box[1] == MapBox(map[])
    ensures CHAIN.box[2] == MapBox(map["z" := Object(0)])
  {
  }

  lemma ChainFits(n: Id, c: Id)
    requires n in {0, 1, 2} && c in {0, 1, 2}
    ensures n in CHAIN.box && c in CHAIN.parent && c in CHAIN.name && Fits(CHAIN, n, c)
  {
    hide CHAIN;
    ChainIs();
    assert "z" != "t";
  }

  lemma ChainValid()
    ensures Valid(CHAIN)
  {
    hide CHAIN;
    ChainIs();
  }

  lemma ChainAgrees()
    ensures Agree(CHAIN) && Acyclic(CHAIN.parent)
  {
    hide CHAIN, Fits, Valid;
    ChainIs();
    ChainValid();
    assert Ranked(CHAIN.parent, map[0 := 1, 1 := 2, 2 := 0]);
    forall n, c | n in CHAIN.parent && c in CHAIN.parent ensures Fits(CHAIN, n, c) { ChainFits(n, c); }
  }

  lemma OneLiveKey(k: string, v: XValue)
    requires !v.IsEmpty()
    ensures LiveKeys(map[k := v]) == [k]
  {
    var m := map[k := v];
    assert (set s | s in m && !m[s].IsEmpty()) == {k};
    assert LiveKeys(m)[0] in LiveKeys(m);
  }

  lemma ChainHasTree()
    ensures Represents(CHAIN.box, Object(2), CHAIN_TREE)
  {
    hide CHAIN, LiveKeys;
    ChainIs();
    OneLiveKey("z", Object(0));
    OneLiveKey("t", Object(1));
    NoLiveKey();
    assert Represents(CHAIN.box, Object(1), MapTree(1, [], []));
    assert Represents(CHAIN.box, Object(0), MapTree(0, ["t"], [MapTree(1, [], [])]));
  }

  lemma NoLiveKey()
    ensures LiveKeys(map[]) == []
  {
  }

  /** A patch with its own target below it: the link is refused, so that nothing is counted and the patch is
      not covered. */
  lemma PatchFromAboveIsRefused()
    ensures Agree(CHAIN) && Acyclic(CHAIN.parent) && Represents(CHAIN.box, Object(2), CHAIN_TREE)
    ensures PatchApply(CHAIN, 1, CHAIN_TREE) == Res(CHAIN, 0) && !Covers(CHAIN.box, 1, CHAIN_TREE)
  {
    hide CHAIN, Agree, Acyclic, Represents, Worlds.Below, PatchApply;
    ChainIs();
    ChainAgrees();
    ChainHasTree();
    BelowStep(CHAIN.parent, 1, 0);
    BelowSelf(CHAIN.parent, 0);
    assert Leads(CHAIN, 1, ConstObject(0));
    assert Done(CHAIN, 1, CHAIN_TREE);
    PatchIdle(CHAIN, 1, CHAIN_TREE);
    assert CHAIN_TREE.keys[0] == "z" && !Eq(Empty, ConstObject(0));
  }

  // ----- the procedure, reading the patch from its containers -----

  // The patch lies apart from the target: none of its nodes is t or below it.
  ghost predicate Aside(w: World, t: Id, p: Tree)
    decreases p
  {
    !p.Leaf? ==>
      && p.addr in w.box && !Worlds.Below(w.parent, p.addr, t)
      && forall i | 0 <= i < |p.subs| :: Aside(w, t, p.subs[i])
  }

  lemma {:induction false} AsideStays(w: World, v: World, t: Id, x: XValue, p: Tree)
    requires Framed(w, v, t) && Aside(w, t, p) && Represents(w.box, x, p)
    ensures Aside(v, t, p) && Represents(v.box, x, p)
    decreases p
  {
    if !p.Leaf? {
      if Worlds.Below(v.parent, p.addr, t) { BelowThinned(w.parent, v.parent, p.addr, t); }
      forall i | 0 <= i < |p.subs|
        ensures Aside(v, t, p.subs[i]) && Represents(v.box, C.SubValue(w.box, x, p, i), p.subs[i])
      {
        AsideStays(w, v, t, C.SubValue(w.box, x, p, i), p.subs[i]);
      }
    }
  }

  lemma {:induction false} AsideOfChild(w: World, t: Id, c: Id, p: Tree)
    requires Aside(w, t, p) && c in w.parent && w.parent[c] == Some(t)
    ensures Aside(w, c, p)
    decreases p
  {
    if !p.Leaf? {
      if Worlds.Below(w.parent, p.addr, c) { P.BelowParent(w.parent, p.addr, c, t); }
      forall i | 0 <= i < |p.subs| ensures Aside(w, c, p.subs[i]) { AsideOfChild(w, t, c, p.subs[i]); }
    }
  }

  /** In an agreeing state, a patch that lies beside the target lies apart from it. */
  lemma {:induction false} BesideIsAside(w: World, t: Id, x: XValue, p: Tree, a: Id)
    requires Agree(w) && Represents(w.box, x, p) && Beside(w.parent, t, a) && NodesBelow(w.parent, p, a)
    ensures Aside(w, t, p)
    decreases p
  {
    if !p.Leaf? {
      if Worlds.Below(w.parent, p.addr, t) { NotBelowBoth(w.parent, t, a, p.addr); }
      forall i | 0 <= i < |p.subs| ensures Aside(w, t, p.subs[i]) {
        BesideIsAside(w, t, C.SubValue(w.box, x, p, i), p.subs[i], a);
      }
    }
  }

  // What the first pass leaves for the second: target and patch node of each entry that is met.
  ghost predicate Noted(met: seq<Option<(Id, Id)>>, m: map<string, XValue>, p: Tree)
    requires p.MapTree? && |p.keys| == |p.subs|
  {
    && |met| <= |p.keys|
    && forall i | 0 <= i < |met| ::
         met[i] ==
         if Meet(Current(m, p.keys[i]), p.subs[i]) then Some((Current(m, p.keys[i]).addr, p.subs[i].addr)) else None
  }

  lemma NotedMore(met: seq<Option<(Id, Id)>>, m: map<string, XValue>, p: Tree, more: Option<(Id, Id)>)
    requires p.MapTree? && |p.keys| == |p.subs| && Noted(met, m, p) && |met| < |p.keys|
    requires more ==
             if Meet(Current(m, p.keys[|met|]), p.subs[|met|])
              then Some((Current(m, p.keys[|met|]).addr, p.subs[|met|].addr)) else None
    ensures Noted(met + [more], m, p)
  {
  }

  // `IsValidChild_` of t, for a link to a: the walk up from t does not meet a.
  method IsAbove(parent: Parents, t: Id, a: Id) returns (above: bool)
    requires Closed(parent) && Acyclic(parent) && t in parent
    ensures above <==> Worlds.Below(parent, t, a)
  {
    var check := Some(t);
    ghost var rank :| Ranked(parent, rank);
    while check.Some?
      invariant check.Some? ==> check.value in parent
      invariant Worlds.Below(parent, t, a) <==> check.Some? && Worlds.Below(parent, check.value, a)
      decreases if check.Some? then rank[check.value] + 1 else 0
    {
      BelowStep(parent, check.value, a);
      if check.value == a { return true; }
      check := parent[check.value];
    }
    above := false;
  }

  method SetOne(w: World, t: Id, key: string, v: XValue) returns (u: World, added: nat)
    requires Hung(w) && t in w.box && w.box[t].MapBox?
    ensures Res(u, added) == SetValue(w, t, key, v)
  {
    var refused := false;
    if v.IsObject() { refused := IsAbove(w.parent, t, v.addr); }
    var x := Current(w.box[t].m, key);
    if refused || key == "" || Eq(x, v) { return w, 0; }
    u, added := w.(box := w.box[t := MapBox(w.box[t].m[key := v])]), 1;
    if x.Object? && x.addr in w.parent { u := u.(parent := w.parent[x.addr := None]); }
  }

  method RunFirstPass(w: World, t: Id, pn: Id, keys: seq<string>, ghost p: Tree)
    returns (v: World, added: nat, met: seq<Option<(Id, Id)>>)
    requires Hung(w) && t in w.box && w.box[t].MapBox? && t != pn && pn in w.box && w.box[pn].MapBox?
    requires Represents(w.box, ConstObject(pn), p) && WellFormed(p) && p.MapTree? && keys == p.keys
    requires |keys| == |p.subs|
    ensures Res(v, added) == FirstPass(w, t, p, |p.keys|)
    ensures |met| == |p.keys| && Noted(met, w.box[t].m, p)
  {
    hide FirstPass, SetValue, Represents, WellFormed, Noted, Eq, Hung, Framed;
    v, added, met := w, 0, [];
    FirstPassStarts(w, t, p);
    for i := 0 to |keys|
      invariant Res(v, added) == FirstPass(w, t, p, i)
      invariant pn in v.box && v.box[pn] == w.box[pn]
      invariant |met| == i && Noted(met, w.box[t].m, p)
    {
      PatchEntry(w, pn, p, i);
      var val := v.box[pn].m[keys[i]];
      var x := Current(v.box[t].m, keys[i]);
      FirstPassStep(w, t, p, i);
      FirstPassSees(w, t, p, i);
      FirstPassFramed(w, t, p, i);
      if x.Object? && val.IsObject() {
        NotedMore(met, w.box[t].m, p, Some((x.addr, val.addr)));
        met := met + [Some((x.addr, val.addr))];
      } else {
        SetValueElsewhere(v, t, keys[i], C.ReadOnly(val), pn);
        FramedMeans(w, v, t);
        var b;
        v, b := SetOne(v, t, keys[i], C.ReadOnly(val));
        added := added + b;
        NotedMore(met, w.box[t].m, p, None);
        met := met + [None];
      }
    }
  }

  lemma FirstPassStarts(w: World, t: Id, p: Tree)
    requires t in w.box && w.box[t].MapBox? && p.MapTree? && |p.keys| == |p.subs|
    ensures FirstPass(w, t, p, 0) == Res(w, 0) && Noted([], w.box[t].m, p)
  {
  }

  lemma SetValueElsewhere(w: World, t: Id, key: string, v: XValue, n: Id)
    requires t in w.box && w.box[t].MapBox? && n in w.box && n != t
    ensures n in SetValue(w, t, key, v).w.box && SetValue(w, t, key, v).w.box[n] == w.box[n]
  {
  }

  lemma PatchEntry(w: World, pn: Id, p: Tree, i: nat)
    requires Represents(w.box, ConstObject(pn), p) && p.MapTree? && i < |p.keys|
    ensures pn in w.box && w.box[pn].MapBox? && p.keys[i] in w.box[pn].m && i < |p.subs|
    ensures var x := w.box[pn].m[p.keys[i]];
            && C.ReadOnly(x) == C.Value(p.subs[i]) && (x.IsObject() <==> !p.subs[i].Leaf?)
            && (x.IsObject() ==> x.addr == p.subs[i].addr)
  {
    C.Shape(w.box, w.box[pn].m[p.keys[i]], p.subs[i]);
  }

  // The first pass finds under each key what was there before it.
  lemma FirstPassSees(w: World, t: Id, p: Tree, i: nat)
    requires t in w.box && w.box[t].MapBox? && p.MapTree? && WellFormed(p) && i < |p.keys|
    ensures Current(FirstPass(w, t, p, i).w.box[t].m, p.keys[i]) == Current(w.box[t].m, p.keys[i])
  {
    NextKeyIsNew(p, i);
    FirstPassOther(w, t, p, i, p.keys[i]);
  }

  /** `PatchApply`, for a patch that lies apart from the target. */
  method ApplyPatch(w: World, t: Id, pn: Id, ghost p: Tree) returns (v: World, added: nat)
    requires Hung(w) && t in w.parent && WellFormed(p) && MapsMet(w.box, t, p)
    requires Represents(w.box, ConstObject(pn), p) && Aside(w, t, p)
    ensures Res(v, added) == PatchApply(w, t, p)
    decreases p
  {
    if w.box[t].ArrayBox? {
      ArrayTakesNothing(w, t, p);
      return w, 0;
    }
    BelowSelf(w.parent, t);
    var met;
    v, added, met := RunFirstPass(w, t, pn, LiveKeys(w.box[pn].m), p);
    ghost var u, a, m := v, added, w.box[t].m;
    FirstPassFramed(w, t, p, |p.keys|);
    FramedMeans(w, u, t);
    FirstPassHolds(w, t, p);
    hide FirstPass, SecondPass, PatchApply, Hung, Framed, Aside, Represents, WellFormed, MapsMet;
    for i := 0 to |met|
      invariant v == SecondPass(u, m, p, i).w && added == a + SecondPass(u, m, p, i).added
    {
      SecondPassStep(u, m, p, i);
      if met[i].Some? {
        BeforeMet(w, u, v, t, pn, p, i);
        var b;
        v, b := ApplyPatch(v, met[i].value.0, met[i].value.1, p.subs[i]);
        added := added + b;
      }
    }
    PatchIsPasses(w, t, p);
  }

  lemma PatchIsPasses(w: World, t: Id, p: Tree)
    requires t in w.box && w.box[t].MapBox? && p.MapTree? && |p.keys| == |p.subs|
    ensures var r := FirstPass(w, t, p, |p.keys|);
            var s := SecondPass(r.w, w.box[t].m, p, |p.keys|);
            PatchApply(w, t, p) == Res(s.w, r.added + s.added)
  {
  }

  // What the patch below needs.
  lemma BeforeMet(w: World, u: World, v: World, t: Id, pn: Id, p: Tree, i: nat)
    requires Hung(w) && t in w.parent && t in w.box && w.box[t].MapBox? && p.MapTree?
    requires WellFormed(p) && MapsMet(w.box, t, p)
    requires Represents(w.box, ConstObject(pn), p) && Aside(w, t, p)
    requires u == FirstPass(w, t, p, |p.keys|).w && Framed(w, u, t) && StillHeld(u, t, w.box[t].m, p)
    requires MetAt(w.box[t].m, p, i) && v == SecondPass(u, w.box[t].m, p, i).w
    ensures var c, sub := Current(w.box[t].m, p.keys[i]).addr, p.subs[i];
            && Hung(v) && c in v.parent && WellFormed(sub) && MapsMet(v.box, c, sub)
            && Represents(v.box, ConstObject(sub.addr), sub) && Aside(v, c, sub)
  {
    hide FirstPass, SecondPass, Hung, Represents, WellFormed, Aside, StillHeld, Framed;
    WellFormedMeans(p);
    var m := w.box[t].m;
    var c, sub := Current(m, p.keys[i]).addr, p.subs[i];
    HungIsForest(w, t);
    SubOfPatch(w, t, pn, p, i);
    FramedMeans(w, u, t);
    StillHeldAfter(u, t, m, p, i);
    MetIsChild(v, t, m, p, i);
    MetAfterFirstPass(w, t, p, i);
    LaterSame(u, t, m, p, i, i);
    SecondPassFramed(u, t, m, p, i);
    FramedThen(w, u, v, t, t);
    AsideStays(w, v, t, ConstObject(sub.addr), sub);
    AsideOfChild(v, t, c, sub);
  }

  lemma SubOfPatch(w: World, t: Id, pn: Id, p: Tree, i: nat)
    requires Represents(w.box, ConstObject(pn), p) && Aside(w, t, p) && WellFormed(p) && p.MapTree? && i < |p.subs|
    ensures WellFormed(p.subs[i]) && Aside(w, t, p.subs[i])
    ensures !p.subs[i].Leaf? ==> Represents(w.box, ConstObject(p.subs[i].addr), p.subs[i])
  {
    if !p.subs[i].Leaf? { SameNode(w.box, C.SubValue(w.box, ConstObject(pn), p, i), p.subs[i]); }
  }

  lemma SameNode(boxes: Heap, x: XValue, p: Tree)
    requires Represents(boxes, x, p) && !p.Leaf?
    ensures Represents(boxes, ConstObject(p.addr), p)
  {
  }
}
