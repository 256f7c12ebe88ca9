/** The variant value (`XValue`): emptiness, equality and the three-way comparison.

    Objects are identified by their address, counted in units of the pointer type, so that the
    difference of two pointers is the difference of two addresses. Doubles are an ordered type
    without NaN. */
module XValues {
  type int64 = i: int | -0x8000_0000_0000_0000 <= i < 0x8000_0000_0000_0000
  type uint64 = u: int | 0 <= u < 0x1_0000_0000_0000_0000

  const INT64_MAX := 0x7FFF_FFFF_FFFF_FFFF
  const INT32_MODULUS := 0x1_0000_0000
  const INT32_MIN := -0x8000_0000

  // The order of the constructors is the order of the alternatives of the variant.
  datatype XValue =
    | Empty
    | Null
    | Bool(b: bool)
    | Int64(i: int64)
    | Uint64(u: uint64)
    | Double(d: real)
    | Str(s: string)
    | ConstObject(addr: nat)
    | Object(addr: nat)
  {
    predicate IsInteger() { Int64? || Uint64? }

    predicate IsObject() { ConstObject? || Object? }

    predicate IsAttribute() { Bool? || Int64? || Uint64? || Double? || Str? }

    // What a map node counts as erased: nothing, null, or the empty string.
    predicate IsEmpty() { Empty? || Null? || (Str? && s == "") }

    // A 64-bit unsigned value saturates when it is read as a signed one.
    function Integer(): int64
      requires IsInteger()
    {
      match this
      case Int64(i) => i
      case Uint64(u) => if u <= INT64_MAX then u else INT64_MAX
    }

    // The position of the alternative in the variant.
    function Index(): nat {
      match this
      case Empty => 0
      case Null => 1
      case Bool(_) => 2
      case Int64(_) => 3
      case Uint64(_) => 4
      case Double(_) => 5
      case Str(_) => 6
      case ConstObject(_) => 7
      case Object(_) => 8
    }
  }

  // Two's complement truncation to 32 bits.
  function Int32(n: int): int {
    var r := n % INT32_MODULUS;
    if r < 0x8000_0000 then r else r - INT32_MODULUS
  }

  // `strcmp`: only the sign is specified, and both strings end at their first NUL.
  function StrCmp(s: string, t: string): int
  {
    if (s == "" || s[0] == '\0') && (t == "" || t[0] == '\0') then 0
    else if s == "" || s[0] == '\0' then -1
    else if t == "" || t[0] == '\0' then 1
    else if s[0] < t[0] then -1
    else if s[0] > t[0] then 1
    else StrCmp(s[1..], t[1..])
  }

  function Sign(n: int): int { if n < 0 then -1 else if n > 0 then 1 else 0 }

  predicate Eq(x: XValue, y: XValue) {
    if x == y then true
    else if x.IsInteger() && y.IsInteger() then x.Integer() == y.Integer()
    else if x.Str? && y.Str? then StrCmp(x.s, y.s) == 0
    else if x.IsObject() && y.IsObject() then x.addr == y.addr
    else false
  }

  function Compare(x: XValue, y: XValue): int {
    if x == y then 0
    else if x.IsInteger() && y.IsInteger() then Int32(x.Integer() - y.Integer())
    else if x.Str? && y.Str? then StrCmp(x.s, y.s)
    else if x.IsObject() && y.IsObject() then Int32(x.addr - y.addr)
    else if VariantLess(x, y) then -1
    else 1
  }

  // `operator<` of the variant: the alternative first, then the content.
  predicate VariantLess(x: XValue, y: XValue)
  {
    if x.Index() != y.Index() then x.Index() < y.Index()
    else match x
      case Bool(b) => !b && y.b
      case Double(d) => d < y.d
      case _ => false
  }

  // The difference that `Compare` truncates, when it subtracts at all.
  function Distance(x: XValue, y: XValue): int {
    if x.IsInteger() && y.IsInteger() then x.Integer() - y.Integer()
    else if x.IsObject() && y.IsObject() then x.addr - y.addr
    else 0
  }

  predicate Close(x: XValue, y: XValue) {
    INT32_MIN < Distance(x, y) < -INT32_MIN
  }

  lemma Int32Facts(n: int)
    ensures INT32_MIN <= Int32(n) < -INT32_MIN
    ensures Int32(n) == 0 <==> n % INT32_MODULUS == 0
    ensures INT32_MIN < n < -INT32_MIN ==> Int32(n) == n
    ensures Int32(-n) == if Int32(n) == INT32_MIN then INT32_MIN else -Int32(n)
  {
    var q, r := n / INT32_MODULUS, n % INT32_MODULUS;
    assert n == q * INT32_MODULUS + r;
    if r == 0 {
      assert -n == (-q) * INT32_MODULUS + 0;
      assert (-n) % INT32_MODULUS == 0;
    } else {
      assert -n == (-q - 1) * INT32_MODULUS + (INT32_MODULUS - r);
      assert (-n) % INT32_MODULUS == INT32_MODULUS - r;
    }
  }

  lemma {:induction false} StrCmpFlips(s: string, t: string)
    ensures StrCmp(t, s) == -StrCmp(s, t)
  {
    if s != "" && t != "" && s[0] == t[0] && s[0] != '\0' {
      StrCmpFlips(s[1..], t[1..]);
    }
  }

  lemma {:induction false} StrCmpTransitive(s: string, t: string, u: string)
    requires StrCmp(s, t) <= 0 && StrCmp(t, u) <= 0
    ensures StrCmp(s, u) <= 0
    ensures StrCmp(s, u) == 0 ==> StrCmp(s, t) == 0 && StrCmp(t, u) == 0
    ensures StrCmp(s, t) == 0 && StrCmp(t, u) == 0 ==> StrCmp(s, u) == 0
  {
    if s != "" && t != "" && u != "" && s[0] == t[0] == u[0] && s[0] != '\0' {
      StrCmpTransitive(s[1..], t[1..], u[1..]);
    }
  }

  /** `Compare` answers 0 exactly when `operator==` holds, except for two integers (or two objects)
      whose distance is a non-zero multiple of 2^32: those it calls equal although they are not. */
  lemma CompareZeroIffEqual(x: XValue, y: XValue)
    ensures (Compare(x, y) == 0 <==> Eq(x, y)) <==> (Distance(x, y) % INT32_MODULUS == 0 ==> Distance(x, y) == 0)
  {
    Int32Facts(Distance(x, y));
  }

  /** Swapping the arguments flips the sign, except where the truncated distance is the smallest
      32-bit integer, which has no opposite. */
  lemma CompareFlips(x: XValue, y: XValue)
    ensures Sign(Compare(y, x)) == -Sign(Compare(x, y)) <==> Int32(Distance(x, y)) != INT32_MIN
  {
    Int32Facts(Distance(x, y));
    assert Distance(y, x) == -Distance(x, y);
    if x.Str? && y.Str? { StrCmpFlips(x.s, y.s); }
  }

  // The alternatives that are compared by content: the two integers, and the two objects, share one.
  function Group(x: XValue): nat {
    if x.IsInteger() then 3 else if x.IsObject() then 7 else x.Index()
  }

  lemma CompareAcrossGroups(x: XValue, y: XValue)
    requires Group(x) != Group(y)
    ensures Compare(x, y) == if Group(x) < Group(y) then -1 else 1
  {
  }

  lemma CompareWithinGroup(x: XValue, y: XValue, z: XValue)
    requires Group(x) == Group(y) == Group(z)
    requires Close(x, y) && Close(y, z) && Close(x, z)
    ensures Compare(x, y) <= 0 && Compare(y, z) <= 0 ==> Compare(x, z) <= 0
  {
    Int32Facts(Distance(x, y));
    Int32Facts(Distance(y, z));
    Int32Facts(Distance(x, z));
    if x.Str? && StrCmp(x.s, y.s) <= 0 && StrCmp(y.s, z.s) <= 0 {
      StrCmpTransitive(x.s, y.s, z.s);
    }
  }

  /** Within the 32-bit bound the comparison is a total preorder across all value types. */
  lemma CompareIsTotalPreorder(x: XValue, y: XValue, z: XValue)
    requires Close(x, y) && Close(y, z) && Close(x, z)
    ensures Compare(x, x) == 0
    ensures Compare(x, y) <= 0 || Compare(y, x) <= 0
    ensures Compare(x, y) <= 0 && Compare(y, z) <= 0 ==> Compare(x, z) <= 0
    ensures Compare(x, y) == 0 <==> Eq(x, y)
  {
    assert Sign(Compare(y, x)) == -Sign(Compare(x, y)) by {
      Int32Facts(Distance(x, y));
      CompareFlips(x, y);
    }
    assert Distance(x, y) % INT32_MODULUS == 0 ==> Distance(x, y) == 0;
    CompareZeroIffEqual(x, y);
    if Group(x) == Group(y) == Group(z) {
      CompareWithinGroup(x, y, z);
    } else {
      if Group(x) != Group(y) { CompareAcrossGroups(x, y); }
      if Group(y) != Group(z) { CompareAcrossGroups(y, z); }
      if Group(x) != Group(z) { CompareAcrossGroups(x, z); }
    }
  }

  /** Two integers that differ by 2^32 compare as equal. */
  lemma FarIntegersCompareEqual()
    ensures Compare(Int64(0x1_0000_0000), Int64(0)) == 0 && !Eq(Int64(0x1_0000_0000), Int64(0))
  {
    Int32Facts(0x1_0000_0000);
  }

  // ----- which way the order goes -----

  // The character that a C string has at a position: it ends with a NUL.
  function CharAt(s: string, i: nat): char
    requires i <= |s|
  {
    if i < |s| then s[i] else '\0'
  }

  // Before position i the two texts are the same and do not end.
  predicate SameUpTo(s: string, t: string, i: nat) {
    i <= |s| && i <= |t| && s[..i] == t[..i] && '\0' !in s[..i]
  }

  // The first difference of the two texts is at position i, and there the left one is smaller or ends.
  predicate SmallerAt(s: string, t: string, i: nat) {
    SameUpTo(s, t, i) && CharAt(s, i) < CharAt(t, i)
  }

  predicate BothEndAt(s: string, t: string, i: nat) {
    SameUpTo(s, t, i) && CharAt(s, i) == CharAt(t, i) == '\0'
  }

  lemma SameFurther(s: string, t: string, i: nat)
    requires s != "" && t != "" && s[0] == t[0] != '\0' && 0 < i <= |s| && i <= |t|
    ensures SameUpTo(s, t, i) <==> SameUpTo(s[1..], t[1..], i - 1)
    ensures CharAt(s, i) == CharAt(s[1..], i - 1) && CharAt(t, i) == CharAt(t[1..], i - 1)
  {
    assert s[..i] == [s[0]] + s[1..][..i - 1] && t[..i] == [t[0]] + t[1..][..i - 1];
    assert s[..i][1..] == s[1..][..i - 1] && t[..i][1..] == t[1..][..i - 1];
  }

  lemma SameBegins(s: string, t: string)
    ensures forall i: nat | SameUpTo(s, t, i) && i > 0 :: s != "" && t != "" && s[0] == t[0] != '\0'
  {
    forall i: nat | SameUpTo(s, t, i) && i > 0 ensures s != "" && t != "" && s[0] == t[0] != '\0' {
      assert s[..i][0] == s[0] && t[..i][0] == t[0] && s[0] in s[..i];
    }
  }

  /** Two strings compare as less exactly when at their first difference the left one has the smaller character
      or has ended, and as the same exactly when they end without a difference. */
  lemma {:induction false} StrCmpOrders(s: string, t: string)
    ensures StrCmp(s, t) < 0 <==> exists i :: SmallerAt(s, t, i)
    ensures StrCmp(s, t) == 0 <==> exists i :: BothEndAt(s, t, i)
  {
    if s != "" && t != "" && s[0] == t[0] && s[0] != '\0' {
      StrCmpOrders(s[1..], t[1..]);
      forall i: nat
        ensures 0 < i ==> (SmallerAt(s, t, i) <==> SmallerAt(s[1..], t[1..], i - 1))
        ensures 0 < i ==> (BothEndAt(s, t, i) <==> BothEndAt(s[1..], t[1..], i - 1))
      {
        if 0 < i <= |s| && i <= |t| { SameFurther(s, t, i); }
      }
      assert !SmallerAt(s, t, 0) && !BothEndAt(s, t, 0);
      if i: nat :| SmallerAt(s[1..], t[1..], i) { assert SmallerAt(s, t, i + 1); }
      if i: nat :| BothEndAt(s[1..], t[1..], i) { assert BothEndAt(s, t, i + 1); }
      if i: nat :| SmallerAt(s, t, i) { assert SmallerAt(s[1..], t[1..], i - 1); }
      if i: nat :| BothEndAt(s, t, i) { assert BothEndAt(s[1..], t[1..], i - 1); }
    } else {
      SameBegins(s, t);
      assert SameUpTo(s, t, 0);
      assert SmallerAt(s, t, 0) <==> StrCmp(s, t) < 0;
      assert BothEndAt(s, t, 0) <==> StrCmp(s, t) == 0;
    }
  }

  /** An integer is read as the largest signed number that is not above it. */
  lemma IntegerIsNearest(x: XValue, i: int64)
    requires x.IsInteger()
    ensures var n: int := if x.Int64? then x.i else x.u;
            x.Integer() <= n && (i <= n ==> i <= x.Integer())
  {
  }

  /** Which of two values of the same type is less: the smaller number, false before true, the lower address, and
      the string that is smaller at the first difference. Integers and addresses more than 2^31 apart are left out. */
  lemma CompareOrders(x: XValue, y: XValue)
    ensures x.IsInteger() && y.IsInteger() && Close(x, y) ==> (Compare(x, y) < 0 <==> x.Integer() < y.Integer())
    ensures x.IsObject() && y.IsObject() && Close(x, y) ==> (Compare(x, y) < 0 <==> x.addr < y.addr)
    ensures x.Double? && y.Double? ==> (Compare(x, y) < 0 <==> x.d < y.d)
    ensures x.Bool? && y.Bool? ==> (Compare(x, y) < 0 <==> !x.b && y.b)
    ensures x.Str? && y.Str? ==> (Compare(x, y) < 0 <==> exists i :: SmallerAt(x.s, y.s, i))
  {
    Int32Facts(Distance(x, y));
    if x.Str? && y.Str? { StrCmpOrders(x.s, y.s); }
    if x == y && x.Str? { assert forall i :: !SmallerAt(x.s, x.s, i); }
  }

  /** Across types: nothing, null, bools, integers, doubles, strings, objects. */
  lemma CompareOrdersTypes(x: XValue, y: XValue)
    ensures x.Empty? && !y.Empty? ==> Compare(x, y) < 0
    ensures x.Null? && (y.IsAttribute() || y.IsObject()) ==> Compare(x, y) < 0
    ensures x.Bool? && (y.IsInteger() || y.Double? || y.Str? || y.IsObject()) ==> Compare(x, y) < 0
    ensures x.IsInteger() && (y.Double? || y.Str? || y.IsObject()) ==> Compare(x, y) < 0
    ensures x.Double? && (y.Str? || y.IsObject()) ==> Compare(x, y) < 0
    ensures x.Str? && y.IsObject() ==> Compare(x, y) < 0
  {
  }

  /** Two values are equal exactly when they are the same, two integers of the same number, two strings that end
      without a difference, or two links to one object. */
  lemma EqMeans(x: XValue, y: XValue)
    ensures Eq(x, y) <==>
              || x == y
              || (x.IsInteger() && y.IsInteger() && x.Integer() == y.Integer())
              || (x.Str? && y.Str? && exists i :: BothEndAt(x.s, y.s, i))
              || (x.IsObject() && y.IsObject() && x.addr == y.addr)
  {
    if x.Str? && y.Str? { StrCmpOrders(x.s, y.s); }
  }
}
