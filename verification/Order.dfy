/** The order of map keys: `operator<` of `std::string`, and the iteration order of a map. Nodes and
    listeners are walked in the order of their numbers. */
module Order {
  import opened Wrappers

  // ----- first elements -----

  ghost predicate IsTotal<T(!new)>(le: (T, T) -> bool) {
    && (forall x, y :: le(x, y) || le(y, x))
    && forall x, y, z :: le(x, y) && le(y, z) ==> le(x, z)
  }

  ghost predicate IsFirstIn<T(!new)>(f: T, s: set<T>, le: (T, T) -> bool) {
    f in s && forall x | x in s :: le(f, x)
  }

  lemma FirstOfMore<T(!new)>(f: T, x: T, s: set<T>, le: (T, T) -> bool)
    requires IsTotal(le) && x in s && IsFirstIn(f, s - {x}, le)
    ensures IsFirstIn(if le(x, f) then x else f, s, le)
  {
    forall y | y in s ensures le(if le(x, f) then x else f, y) {
      assert le(x, x) && (le(x, f) || le(f, x));
      if y != x { assert y in s - {x}; }
    }
  }

  /** A finite set has a first element in any total order. */
  lemma {:induction false} FirstExists<T(!new)>(s: set<T>, le: (T, T) -> bool)
    requires s != {} && IsTotal(le)
    ensures exists f :: IsFirstIn(f, s, le)
  {
    var x :| x in s;
    if s == {x} {
      assert IsFirstIn(x, s, le);
    } else {
      hide IsTotal, IsFirstIn;
      FirstExists(s - {x}, le);
      var f :| IsFirstIn(f, s - {x}, le);
      FirstOfMore(f, x, s, le);
    }
  }

  ghost predicate IsLeast(n: nat, s: set<nat>) { n in s && forall x | x in s :: n <= x }

  function Least(s: set<nat>): (n: nat)
    requires s != {}
    ensures IsLeast(n, s)
  {
    FirstExists(s, (x: nat, y: nat) => x <= y);
    assert exists n :: n in s && forall x | x in s :: n <= x by {
      var n :| IsFirstIn(n, s, (x: nat, y: nat) => x <= y);
    }
    var n :| n in s && forall x | x in s :: n <= x;
    n
  }

  function Greatest(s: set<nat>): (n: nat)
    requires s != {}
    ensures n in s && forall x | x in s :: x <= n
  {
    FirstExists(s, (x: nat, y: nat) => y <= x);
    assert exists n :: n in s && forall x | x in s :: x <= n by {
      var n :| IsFirstIn(n, s, (x: nat, y: nat) => y <= x);
    }
    var n :| n in s && forall x | x in s :: x <= n;
    n
  }

  // ----- strings -----

  predicate Less(s: string, t: string) {
    t != "" && (s == "" || s[0] < t[0] || (s[0] == t[0] && Less(s[1..], t[1..])))
  }

  lemma {:induction false} LessIsStrict(s: string, t: string)
    ensures !(Less(s, t) && Less(t, s))
    ensures s != t ==> Less(s, t) || Less(t, s)
    ensures s == t ==> !Less(s, t)
  {
    if s != "" && t != "" && s[0] == t[0] {
      LessIsStrict(s[1..], t[1..]);
      if s != t { assert s == [s[0]] + s[1..] && t == [t[0]] + t[1..]; }
    }
  }

  lemma {:induction false} LessIsTransitive(s: string, t: string, u: string)
    requires Less(s, t) && Less(t, u)
    ensures Less(s, u)
  {
    if s != "" && s[0] == t[0] == u[0] { LessIsTransitive(s[1..], t[1..], u[1..]); }
  }

  // The two strings are the same before position i, and there the left one has ended or has the smaller character.
  predicate PrecedesAt(s: string, t: string, i: nat) {
    i <= |s| && i < |t| && s[..i] == t[..i] && (i == |s| || s[i] < t[i])
  }

  lemma PrecedesFurther(s: string, t: string, i: nat)
    requires s != "" && t != "" && s[0] == t[0]
    ensures PrecedesAt(s, t, i + 1) <==> PrecedesAt(s[1..], t[1..], i)
  {
    if i + 1 <= |s| && i + 1 < |t| {
      assert s[..i + 1] == [s[0]] + s[1..][..i] && t[..i + 1] == [t[0]] + t[1..][..i];
      assert s[..i + 1][1..] == s[1..][..i] && t[..i + 1][1..] == t[1..][..i];
    }
  }

  lemma PrecedesBegins(s: string, t: string, i: nat)
    requires PrecedesAt(s, t, i)
    ensures i > 0 ==> s != "" && t != "" && s[0] == t[0]
  {
    if i > 0 { assert s[..i][0] == s[0] && t[..i][0] == t[0]; }
  }

  /** A string is less than another exactly when it has ended, or has the smaller character, at the first difference. */
  lemma {:induction false} LessOrders(s: string, t: string)
    ensures Less(s, t) <==> exists i :: PrecedesAt(s, t, i)
  {
    if s != "" && t != "" && s[0] == t[0] {
      LessOrders(s[1..], t[1..]);
      if i: nat :| PrecedesAt(s[1..], t[1..], i) { PrecedesFurther(s, t, i); }
      if i: nat :| PrecedesAt(s, t, i) { PrecedesFurther(s, t, i - 1); }
    } else {
      forall i: nat | PrecedesAt(s, t, i) ensures i == 0 { PrecedesBegins(s, t, i); }
      assert s[..0] == t[..0];
      assert Less(s, t) <==> PrecedesAt(s, t, 0);
    }
  }

  predicate IsFirst(k: string, s: set<string>) {
    k in s && forall x | x in s :: x == k || Less(k, x)
  }

  lemma LessIsTotal()
    ensures IsTotal((x: string, y: string) => x == y || Less(x, y))
  {
    forall x: string, y: string ensures x == y || Less(x, y) || Less(y, x) { LessIsStrict(x, y); }
    forall x: string, y: string, z: string | Less(x, y) && Less(y, z) ensures Less(x, z) { LessIsTransitive(x, y, z); }
  }

  lemma FirstIsUnique(k: string, l: string, s: set<string>)
    requires IsFirst(k, s) && IsFirst(l, s)
    ensures k == l
  {
    LessIsStrict(k, l);
  }

  function First(s: set<string>): (k: string)
    requires s != {}
    ensures IsFirst(k, s)
  {
    LessIsTotal();
    FirstExists(s, (x: string, y: string) => x == y || Less(x, y));
    assert exists k :: IsFirst(k, s) by {
      var k :| IsFirstIn(k, s, (x: string, y: string) => x == y || Less(x, y));
      assert IsFirst(k, s);
    }
    assert forall k, l | IsFirst(k, s) && IsFirst(l, s) :: k == l by {
      forall k, l | IsFirst(k, s) && IsFirst(l, s) ensures k == l { FirstIsUnique(k, l, s); }
    }
    var k :| k in s && IsFirst(k, s);
    k
  }

  ghost predicate Sorted(ks: seq<string>) {
    forall i, j | 0 <= i < j < |ks| :: Less(ks[i], ks[j])
  }

  /** The keys of a map in iteration order: strictly increasing, each key once, no other key. */
  function SortedKeys(s: set<string>): (ks: seq<string>)
    ensures Sorted(ks)
    ensures |ks| == |s|
    ensures forall k :: k in ks <==> k in s
  {
    if s == {} then []
    else
      var k := First(s);
      var rest := SortedKeys(s - {k});
      assert forall i | 0 <= i < |rest| :: rest[i] in rest;
      [k] + rest
  }

  // The key is not before the one to begin with, if there is one.
  predicate FromOn(from: Option<string>, key: string) {
    from.None? || key == from.value || Less(from.value, key)
  }

  // The keys from k on.
  function SkipTo(ks: seq<string>, k: string): (r: seq<string>)
    ensures forall x | x in r :: x in ks
  {
    if ks == [] || ks[0] == k then ks else SkipTo(ks[1..], k)
  }

  lemma {:induction false} SkipToIt(ks: seq<string>, k: string)
    requires k in ks
    ensures SkipTo(ks, k) != [] && SkipTo(ks, k)[0] == k
  {
    if ks[0] != k { SkipToIt(ks[1..], k); }
  }

  /** Skipping to a key of a sorted list leaves just the keys that are not before it, in the same order. */
  lemma {:induction false} SkipToLeaves(ks: seq<string>, k: string)
    requires Sorted(ks)
    ensures Sorted(SkipTo(ks, k))
    ensures k in ks ==> forall s :: s in SkipTo(ks, k) <==> s in ks && (s == k || Less(k, s))
    ensures k !in ks ==> SkipTo(ks, k) == []
  {
    if ks != [] && ks[0] != k {
      var rest := ks[1..];
      assert forall s :: s in ks <==> s == ks[0] || s in rest;
      SkipToLeaves(rest, k);
      if k in rest {
        var i :| 0 <= i < |rest| && rest[i] == k;
        assert Less(ks[0], ks[i + 1]);
        LessIsStrict(ks[0], k);
      }
    } else if ks != [] {
      forall s | s in ks ensures s == k || Less(k, s) { var i :| 0 <= i < |ks| && ks[i] == s; }
    }
  }

  lemma SortedDistinct(ks: seq<string>, i: nat, j: nat)
    requires Sorted(ks) && i < |ks| && j < |ks| && ks[i] == ks[j]
    ensures i == j
  {
    if i < j { LessIsStrict(ks[i], ks[j]); } else if j < i { LessIsStrict(ks[j], ks[i]); }
  }

  lemma HeadIsFirst(ks: seq<string>, s: set<string>)
    requires Sorted(ks) && ks != [] && s == set k | k in ks
    ensures IsFirst(ks[0], s)
  {
    forall x | x in s ensures x == ks[0] || Less(ks[0], x) {
      var i :| 0 <= i < |ks| && ks[i] == x;
    }
  }

  lemma FirstIsNotLater(ks: seq<string>)
    requires Sorted(ks) && ks != []
    ensures ks[0] !in ks[1..]
  {
    forall x | 0 <= x < |ks| - 1 ensures ks[1..][x] != ks[0] { LessIsStrict(ks[0], ks[x + 1]); }
  }

  /** There is only one increasing listing of a set of keys. */
  lemma {:induction false} SortedIsUnique(ks: seq<string>, ls: seq<string>)
    requires Sorted(ks) && Sorted(ls)
    requires forall k :: k in ks <==> k in ls
    ensures ks == ls
  {
    assert |ks| > 0 ==> ks[0] in ks;
    assert |ls| > 0 ==> ls[0] in ls;
    if ks != [] {
      var s := set k | k in ks;
      assert s == set k | k in ls;
      HeadIsFirst(ks, s);
      HeadIsFirst(ls, s);
      FirstIsUnique(ks[0], ls[0], s);
      forall k ensures k in ks[1..] <==> k in ls[1..] {
        if k == ks[0] {
          FirstIsNotLater(ks);
          FirstIsNotLater(ls);
        } else {
          assert k in ks <==> k in ks[1..];
          assert k in ls <==> k in ls[1..];
        }
      }
      SortedIsUnique(ks[1..], ls[1..]);
    }
  }
}
