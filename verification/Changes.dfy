/** What the count of a patch stands for: the entries that are different afterwards. */
module Changes {
  import opened Wrappers
  import opened XValues
  import opened Boxes
  import opened Worlds
  import opened Trees
  import opened Patches
  import C = Compares
  import P = TreePaths

  type Place = (Id, string)

  // What is under a key of a map.
  function EntryAt(w: World, n: Id, s: string): XValue {
    if n in w.box && w.box[n].MapBox? then Current(w.box[n].m, s) else Empty
  }

  // The entries of maps in v that are not what they were in w.
  function Changed(w: World, v: World): set<Place> {
    set n, s | n in v.box && v.box[n].MapBox? && s in v.box[n].m && EntryAt(w, n, s) != EntryAt(v, n, s) :: (n, s)
  }

  // No map has lost a key.
  ghost predicate Grew(w: World, v: World) {
    forall n | n in w.box && w.box[n].MapBox? :: n in v.box && v.box[n].MapBox? && w.box[n].m.Keys <= v.box[n].m.Keys
  }

  lemma ChangedTwice(w: World, v: World, u: World)
    requires Grew(w, v) && Grew(v, u) && Changed(w, v) !! Changed(v, u)
    ensures Grew(w, u) && Changed(w, u) == Changed(w, v) + Changed(v, u)
    ensures |Changed(w, u)| == |Changed(w, v)| + |Changed(v, u)|
  {
    forall n, s
      ensures (n, s) in Changed(w, u) <==> (n, s) in Changed(w, v) || (n, s) in Changed(v, u)
    {
      assert (n, s) in Changed(w, v) ==> (n, s) !in Changed(v, u);
    }
    assert Changed(w, u) == Changed(w, v) + Changed(v, u);
  }

  lemma NothingInCommon(a: set<Place>, b: set<Place>)
    requires forall n, s | (n, s) in a :: (n, s) !in b
    ensures a !! b
  {
    forall x | x in a ensures x !in b { assert (x.0, x.1) in a; }
  }

  lemma NothingChanged(w: World)
    ensures Grew(w, w) && Changed(w, w) == {}
  {
  }

  lemma SetChanges(w: World, t: Id, key: string, v: XValue)
    requires t in w.box && w.box[t].MapBox?
    ensures var r := SetValue(w, t, key, v);
            && Grew(w, r.w) && |Changed(w, r.w)| == r.added
            && forall n, s | (n, s) in Changed(w, r.w) :: n == t && s == key
  {
    var r := SetValue(w, t, key, v);
    if r.added == 1 {
      assert Changed(w, r.w) == {(t, key)};
    } else {
      NothingChanged(w);
    }
  }

  // Everything that has changed is in t, under one of the keys.
  ghost predicate ChangedIn(w: World, v: World, t: Id, keys: set<string>) {
    forall n, s | (n, s) in Changed(w, v) :: n == t && s in keys
  }

  lemma {:induction false} FirstPassChanges(w: World, t: Id, p: Tree, n: nat)
    requires t in w.box && w.box[t].MapBox? && p.MapTree? && WellFormed(p) && n <= |p.keys|
    ensures |p.keys| == |p.subs|
    ensures var r := FirstPass(w, t, p, n);
            && Grew(w, r.w) && |Changed(w, r.w)| == r.added
            && ChangedIn(w, r.w, t, FirstKeys(p.keys, n))
    decreases n
  {
    hide SetValue, FirstPass, WellFormed, Meet, C.Value, Changed, Grew;
    WellFormedMeans(p);
    if n == 0 {
      FirstPassStarts(w, t, p);
      NothingChanged(w);
    } else {
      FirstPassChanges(w, t, p, n - 1);
      FirstPassStep(w, t, p, n - 1);
      NextKeyIsNew(p, n - 1);
      var r, r1 := FirstPass(w, t, p, n - 1), FirstPass(w, t, p, n);
      if r1 != r {
        SetChanges(r.w, t, p.keys[n - 1], C.Value(p.subs[n - 1]));
        NothingInCommon(Changed(w, r.w), Changed(r.w, r1.w));
        ChangedTwice(w, r.w, r1.w);
      }
    }
  }

  // Everything that has changed is in a container below one of the nodes that are met in the first n entries.
  ghost predicate ChangedBelow(w: World, v: World, m: map<string, XValue>, p: Tree, n: nat)
    requires p.MapTree? && |p.keys| == |p.subs|
  {
    forall x, s | (x, s) in Changed(w, v) :: BelowMet(w, m, p, n, x)
  }

  ghost predicate BelowMet(w: World, m: map<string, XValue>, p: Tree, n: nat, x: Id)
    requires p.MapTree? && |p.keys| == |p.subs|
  {
    exists i :: 0 <= i < n && MetAt(m, p, i) && Worlds.Below(w.parent, x, Current(m, p.keys[i]).addr)
  }

  lemma FramedChanges(w: World, v: World, c: Id, x: Id, s: string)
    requires Framed(w, v, c) && (x, s) in Changed(w, v)
    ensures x in w.box && Worlds.Below(w.parent, x, c)
  {
  }

  // What changes below the next node that is met has not changed before.
  lemma NextChangesApart(w: World, u: World, v: World, t: Id, m: map<string, XValue>, p: Tree, n: nat)
    requires Hung(w) && p.MapTree? && WellFormed(p) && |p.keys| == |p.subs| && StillHeld(w, t, m, p)
    requires MetAt(m, p, n) && Framed(w, u, t) && ChangedBelow(w, u, m, p, n)
    requires Framed(u, v, Current(m, p.keys[n]).addr)
    ensures Changed(w, u) !! Changed(u, v)
    ensures forall x, s | (x, s) in Changed(u, v) :: Worlds.Below(w.parent, x, Current(m, p.keys[n]).addr)
  {
    hide Hung, StillHeld, WellFormed, Worlds.Below, Acyclic, Changed, Framed;
    var c := Current(m, p.keys[n]).addr;
    FramedMeans(w, u, t);
    MetIsChild(w, t, m, p, n);
    HungIsForest(w, t);
    forall x, s | (x, s) in Changed(u, v) ensures Worlds.Below(w.parent, x, c) && (x, s) !in Changed(w, u) {
      FramedChanges(u, v, c, x, s);
      BelowThinned(w.parent, u.parent, x, c);
      if (x, s) in Changed(w, u) {
        var i :| 0 <= i < n && MetAt(m, p, i) && Worlds.Below(w.parent, x, Current(m, p.keys[i]).addr);
        MetDistinct(w, t, m, p, i, n);
        MetIsChild(w, t, m, p, i);
        P.SiblingsApart(w.parent, t, c, Current(m, p.keys[i]).addr, x);
      }
    }
    NothingInCommon(Changed(u, v), Changed(w, u));
  }

  lemma {:induction false} SecondPassChanges(w: World, t: Id, m: map<string, XValue>, p: Tree, n: nat)
    requires Hung(w) && p.MapTree? && WellFormed(p) && n <= |p.keys| && StillHeld(w, t, m, p)
    ensures |p.keys| == |p.subs|
    ensures var r := SecondPass(w, m, p, n);
            && Grew(w, r.w) && |Changed(w, r.w)| == r.added
            && ChangedBelow(w, r.w, m, p, n)
    decreases p, 0, n
  {
    hide Hung, PatchApply, SecondPass, Framed, WellFormed, StillHeld, Worlds.Below, Changed, Grew;
    WellFormedMeans(p);
    if n == 0 {
      SecondPassStarts(w, m, p);
      NothingChanged(w);
    } else {
      SecondPassChanges(w, t, m, p, n - 1);
      SecondPassFramed(w, t, m, p, n - 1);
      SecondPassStep(w, m, p, n - 1);
      SubIsWellFormed(p, n - 1);
      var u, v := SecondPass(w, m, p, n - 1).w, SecondPass(w, m, p, n).w;
      assert forall x | BelowMet(w, m, p, n - 1, x) :: BelowMet(w, m, p, n, x);
      if MetAt(m, p, n - 1) {
        var c := Current(m, p.keys[n - 1]).addr;
        FramedMeans(w, u, t);
        StillHeldAfter(w, u, t, m, p, n - 1);
        MetIsChild(u, t, m, p, n - 1);
        PatchChanges(u, c, p.subs[n - 1]);
        PatchFramed(u, c, p.subs[n - 1]);
        NextChangesApart(w, u, v, t, m, p, n - 1);
        ChangedTwice(w, u, v);
      }
    }
  }

  lemma StillHeldAfter(w: World, u: World, t: Id, m: map<string, XValue>, p: Tree, n: nat)
    requires p.MapTree? && |p.keys| == |p.subs| && StillHeld(w, t, m, p)
    requires t in u.box && u.box[t] == w.box[t]
    ensures StillHeld(u, t, m, p)
  {
  }

  // What the second pass changes is below t, but not in t.
  lemma PassesApart(w: World, u: World, v: World, t: Id, p: Tree)
    requires t in w.box && p.MapTree? && ChangedIn(w, u, t, FirstKeys(p.keys, |p.keys|))
    requires t in u.box && t in v.box && v.box[t] == u.box[t]
    ensures Changed(w, u) !! Changed(u, v)
  {
    assert forall s :: (t, s) !in Changed(u, v);
    forall x, s | (x, s) in Changed(w, u) ensures (x, s) !in Changed(u, v) { assert x == t; }
    NothingInCommon(Changed(w, u), Changed(u, v));
  }

  /** A patch counts the entries, in the target and below it, that are different afterwards; no map loses a key. */
  lemma {:induction false} PatchChanges(w: World, t: Id, p: Tree)
    requires Hung(w) && t in w.box && WellFormed(p)
    ensures var r := PatchApply(w, t, p); Grew(w, r.w) && r.added == |Changed(w, r.w)|
    decreases p, 1, 0
  {
    hide Framed, Hung, WellFormed, FirstPass, SecondPass, Changed, Grew, StillHeld, ChangedIn, ChangedBelow;
    NothingChanged(w);
    if w.box[t].MapBox? && p.MapTree? {
      WellFormedMeans(p);
      var u := FirstPass(w, t, p, |p.keys|).w;
      var v := SecondPass(u, w.box[t].m, p, |p.keys|).w;
      FirstPassFramed(w, t, p, |p.keys|);
      FramedMeans(w, u, t);
      FirstPassHolds(w, t, p);
      FirstPassChanges(w, t, p, |p.keys|);
      SecondPassFramed(u, t, w.box[t].m, p, |p.keys|);
      SecondPassChanges(u, t, w.box[t].m, p, |p.keys|);
      PassesApart(w, u, v, t, p);
      ChangedTwice(w, u, v);
    }
  }
}
