/** The text form of a path: `XPath::to_string` and the parser `_split_key` / `_add_keys_str`. */
module XPaths {

  // A key of a path (`XKeyVariant`).
  datatype PathKey = NoKey | Index(i: nat) | Str(s: string)

  const INT_MAX := 0x7FFF_FFFF

  // ----- searching -----

  // The first position of the character, or the length.
  function FindChar(s: string, c: char): (r: nat)
    ensures r <= |s| && (r < |s| ==> s[r] == c) && forall i | 0 <= i < r :: s[i] != c
  {
    if s == "" || s[0] == c then 0 else FindChar(s[1..], c) + 1
  }

  predicate DotsAt(s: string, i: nat) {
    i + 1 < |s| && s[i] == ':' && s[i + 1] == ':'
  }

  // The first position of the delimiter "::", or the length.
  function FindDots(s: string): (r: nat)
    ensures r <= |s| && (r < |s| ==> DotsAt(s, r)) && forall i | 0 <= i < r :: !DotsAt(s, i)
  {
    if |s| < 2 then |s|
    else if DotsAt(s, 0) then 0
    else
      var r := FindDots(s[1..]);
      assert forall i | 0 < i <= r :: DotsAt(s, i) <==> DotsAt(s[1..], i - 1);
      r + 1
  }

  predicate IsDigit(c: char) { '0' <= c <= '9' }

  // ----- numbers -----

  function DigitValue(c: char): nat
    requires IsDigit(c)
  {
    c as int - '0' as int
  }

  function DigitsOf(n: nat): (s: string)
    ensures s != "" && forall i | 0 <= i < |s| :: IsDigit(s[i])
  {
    var last := [('0' as int + n % 10) as char];
    if n < 10 then last else DigitsOf(n / 10) + last
  }

  // The longest prefix of digits.
  function Leading(s: string): (r: string)
    ensures r <= s && forall i | 0 <= i < |r| :: IsDigit(r[i])
    ensures |r| < |s| ==> !IsDigit(s[|r|])
  {
    if s == "" || !IsDigit(s[0]) then "" else [s[0]] + Leading(s[1..])
  }

  function Value(s: string): nat
    requires forall i | 0 <= i < |s| :: IsDigit(s[i])
  {
    if s == "" then 0 else 10 * Value(s[..|s| - 1]) + DigitValue(s[|s| - 1])
  }

  // `atoi` on a text that begins with a digit. What it gives for a number above INT_MAX is
  // undefined; `huge` stands for it.
  function Atoi(s: string, huge: string -> nat): nat {
    var v := Value(Leading(s));
    if v <= INT_MAX then v else huge(s)
  }

  lemma {:induction false} ValueOfDigits(n: nat)
    ensures Value(DigitsOf(n)) == n
  {
    var d := DigitsOf(n);
    if n >= 10 {
      ValueOfDigits(n / 10);
      assert d[..|d| - 1] == DigitsOf(n / 10);
    } else {
      assert d[..0] == "";
    }
  }

  predicate Canonical(d: string) {
    d != "" && (forall i | 0 <= i < |d| :: IsDigit(d[i])) && (|d| > 1 ==> d[0] != '0')
  }

  /** The digits of a number are those without a leading zero, and there are no others. */
  lemma {:induction false} DigitsAreCanonical(n: nat)
    ensures Canonical(DigitsOf(n))
  {
    if n >= 10 {
      DigitsAreCanonical(n / 10);
      var d := DigitsOf(n / 10);
      ValueOfDigits(n / 10);
      if |d| == 1 { assert d[..0] == "" && Value(d) == DigitValue(d[0]); }
    }
  }

  lemma {:induction false} DigitsAreUnique(d: string)
    requires Canonical(d)
    ensures d == DigitsOf(Value(d))
    decreases |d|
  {
    var front, last := d[..|d| - 1], d[|d| - 1];
    assert d == front + [last];
    if |d| == 1 {
      assert front == "" && Value(front) == 0;
      DigitsStep(0, last);
    } else {
      LeadingDigitCounts(front);
      DigitsAreUnique(front);
      DigitsStep(Value(front), last);
    }
  }

  lemma DigitsStep(n: nat, c: char)
    requires IsDigit(c)
    ensures DigitsOf(10 * n + DigitValue(c)) == (if n == 0 then "" else DigitsOf(n)) + [c]
  {
    var v := DigitValue(c);
    assert (10 * n + v) / 10 == n && (10 * n + v) % 10 == v;
  }

  lemma {:induction false} LeadingDigitCounts(d: string)
    requires d != "" && (forall i | 0 <= i < |d| :: IsDigit(d[i])) && d[0] != '0'
    ensures Value(d) > 0
    decreases |d|
  {
    if |d| > 1 { LeadingDigitCounts(d[..|d| - 1]); }
  }

  lemma {:induction false} LeadingStops(d: string, rest: string)
    requires forall i | 0 <= i < |d| :: IsDigit(d[i])
    requires rest == "" || !IsDigit(rest[0])
    ensures Leading(d + rest) == d
  {
    if d == "" {
      assert d + rest == rest;
    } else {
      assert (d + rest)[1..] == d[1..] + rest;
      LeadingStops(d[1..], rest);
    }
  }

  // ----- the parser -----

  // `_split_key`: the first key and the text behind it.
  function SplitKey(s: string, huge: string -> nat): (r: (PathKey, string))
    ensures s != "" ==> |r.1| < |s|
    ensures s == "" ==> r == (Str(""), "")
    ensures r.0 != NoKey
    decreases |s|
  {
    var dots := FindDots(s);
    var brace := FindChar(s, '[');
    if DotsAt(s, 0) then SplitKey(s[2..], huge)
    else if brace == 0 && |s| > 1 then
      var close := FindChar(s, ']');
      var rest := if close + 1 >= |s| then "" else s[close + 1..];
      if IsDigit(s[1]) then (Index(Atoi(s[1..], huge)), rest) else (Str(s[1..close]), rest)
    else if brace < dots then
      if brace + 1 >= |s| then (Str(s), "") else (Str(s[..brace]), s[brace..])
    else if dots + 2 >= |s| then (Str(s[..dots]), "")
    else (Str(s[..dots]), s[dots + 2..])
  }

  // `_add_keys_str`: key after key, dropping the empty ones.
  function Parse(s: string, huge: string -> nat): (keys: seq<PathKey>)
    ensures forall k | k in keys :: k != NoKey && k != Str("")
    decreases |s|
  {
    if s == "" then []
    else
      var (key, rest) := SplitKey(s, huge);
      var more := Parse(rest, huge);
      if key == Str("") then more else [key] + more
  }

  method AddKeys(s: string, huge: string -> nat) returns (keys: seq<PathKey>)
    ensures keys == Parse(s, huge)
  {
    hide SplitKey;
    keys := [];
    var text := s;
    while text != ""
      invariant keys + Parse(text, huge) == Parse(s, huge)
      decreases |text|
    {
      var (key, next) := SplitKey(text, huge);
      if key != Str("") { keys := keys + [key]; }
      text := next;
    }
  }

  // ----- the printer -----

  predicate Braced(s: string) {
    FindDots(s) < |s| || ']' in s || '[' in s
  }

  // What a key adds to the text that is already there.
  function Chunk(key: PathKey, first: bool): string {
    match key
    case NoKey => ""
    case Index(i) => "[" + DigitsOf(i) + "]"
    case Str(s) => if Braced(s) then "[" + s + "]" else (if first then "" else "::") + s
  }

  function PrintOnto(text: string, path: seq<PathKey>): string
    decreases |path|
  {
    if path == [] then text else PrintOnto(text + Chunk(path[0], text == ""), path[1..])
  }

  function Print(path: seq<PathKey>): string {
    PrintOnto("", path)
  }

  method ToString(path: seq<PathKey>) returns (text: string)
    ensures text == Print(path)
  {
    text := "";
    for i := 0 to |path|
      invariant PrintOnto(text, path[i..]) == Print(path)
    {
      assert path[i..][0] == path[i] && path[i..][1..] == path[i + 1..];
      match path[i] {
        case Str(s) =>
          if Braced(s) {
            text := text + ("[" + s + "]");
          } else {
            text := text + ((if text == "" then "" else "::") + s);
          }
        case Index(n) => text := text + ("[" + DigitsOf(n) + "]");
        case NoKey => text := text + "";
      }
    }
  }

  lemma {:induction false} PrintOntoMore(text: string, path: seq<PathKey>, key: PathKey)
    ensures PrintOnto(text, path + [key]) == PrintOnto(text, path) + Chunk(key, PrintOnto(text, path) == "")
    decreases |path|
  {
    hide Chunk;
    if path == [] {
      assert ([key])[1..] == [] && path + [key] == [key];
    } else {
      assert (path + [key])[0] == path[0] && (path + [key])[1..] == path[1..] + [key];
      PrintOntoMore(text + Chunk(path[0], text == ""), path[1..], key);
    }
  }

  /** What one more key adds to the text: an index its digits in braces; a string itself, in braces exactly when a
      delimiter or a brace is in it, else behind a delimiter exactly when there is some text before. */
  lemma PrintGrows(path: seq<PathKey>, key: PathKey)
    ensures Print([]) == ""
    ensures var text, more := Print(path), Print(path + [key]);
            match key
            case NoKey => more == text
            case Index(i) => exists d :: Canonical(d) && Value(d) == i && more == text + ("[" + d + "]")
            case Str(s) =>
              if exists i | 0 <= i < |s| :: DotsAt(s, i) || s[i] == '[' || s[i] == ']' then
                more == text + ("[" + s + "]")
              else if text == "" then more == s
              else more == text + ("::" + s)
  {
    PrintOntoMore("", path, key);
    match key
    case Index(i) =>
      DigitsAreCanonical(i);
      ValueOfDigits(i);
    case _ =>
  }

  // The text of the keys behind a non-empty text.
  function Tail(path: seq<PathKey>): string
    decreases |path|
  {
    if path == [] then "" else Chunk(path[0], false) + Tail(path[1..])
  }

  lemma ChunkIsText(key: PathKey)
    ensures Chunk(key, false) != "" || key == NoKey
  {
  }

  lemma {:induction false} PrintOntoText(text: string, path: seq<PathKey>)
    requires text != ""
    ensures PrintOnto(text, path) == text + Tail(path)
    decreases |path|
  {
    hide Chunk;
    if path == [] {
      assert text + "" == text;
    } else {
      ChunkIsText(path[0]);
      PrintOntoText(text + Chunk(path[0], false), path[1..]);
      assert text + Chunk(path[0], false) + Tail(path[1..]) == text + (Chunk(path[0], false) + Tail(path[1..]));
    }
  }

  lemma PrintFirst(path: seq<PathKey>)
    requires path != [] && path[0] != NoKey && path[0] != Str("")
    ensures Print(path) == Chunk(path[0], true) + Tail(path[1..])
  {
    assert "" + Chunk(path[0], true) == Chunk(path[0], true);
    PrintOntoText(Chunk(path[0], true), path[1..]);
  }

  // ----- which keys survive -----

  predicate AllClosing(s: string) {
    forall i | 0 <= i < |s| :: s[i] == ']'
  }

  // A string key that can be read back: not empty, without ']' (unless it is nothing but those), and
  // if it is printed in braces not like a number.
  predicate KeyOk(s: string) {
    s != "" && if ']' in s then AllClosing(s) else (Braced(s) ==> !IsDigit(s[0]))
  }

  predicate PrintsBraced(key: PathKey) {
    key.Index? || (key.Str? && Braced(key.s))
  }

  predicate HasKeyOk(key: PathKey) {
    key.Index? || (key.Str? && KeyOk(key.s))
  }

  // A plain key that ends in ':' runs into the delimiter before the next plain key.
  predicate ColonOk(key: PathKey, rest: seq<PathKey>) {
    key.Str? && !Braced(key.s) && key.s != "" && key.s[|key.s| - 1] == ':' ==> rest == [] || PrintsBraced(rest[0])
  }

  predicate Printable(path: seq<PathKey>)
    decreases |path|
  {
    path != [] ==> HasKeyOk(path[0]) && ColonOk(path[0], path[1..]) && Printable(path[1..])
  }

  // The indices that the parser may be given.
  predicate IndicesFit(path: seq<PathKey>) {
    forall i | 0 <= i < |path| && path[i].Index? :: path[i].i <= INT_MAX
  }

  // ----- reading one key back -----

  // What follows a chunk: nothing, a brace, or a delimiter with something behind it.
  predicate Follows(t: string) {
    t == "" || (t[0] == '[' && |t| > 1) || (DotsAt(t, 0) && |t| > 2)
  }

  // The three ways in which a key is split off.
  lemma SplitSkips(s: string, huge: string -> nat)
    requires DotsAt(s, 0)
    ensures SplitKey(s, huge) == SplitKey(s[2..], huge)
  {
    hide FindDots, FindChar;
  }

  lemma SplitBraces(s: string, huge: string -> nat)
    requires |s| > 1 && s[0] == '['
    ensures var close := FindChar(s, ']');
            SplitKey(s, huge) ==
            (if IsDigit(s[1]) then Index(Atoi(s[1..], huge)) else Str(s[1..close]),
             if close + 1 >= |s| then "" else s[close + 1..])
  {
    hide FindDots, FindChar;
  }

  lemma SplitCut(s: string, huge: string -> nat)
    requires !DotsAt(s, 0) && !(|s| > 1 && s[0] == '[')
    ensures var dots, brace := FindDots(s), FindChar(s, '[');
            SplitKey(s, huge) ==
            if brace < dots then (if brace + 1 >= |s| then (Str(s), "") else (Str(s[..brace]), s[brace..]))
            else (Str(s[..dots]), if dots + 2 >= |s| then "" else s[dots + 2..])
  {
    hide FindDots, FindChar;
  }

  lemma FindCharAt(s: string, c: char, i: nat)
    requires i < |s| && s[i] == c && forall j | 0 <= j < i :: s[j] != c
    ensures FindChar(s, c) == i
  {
  }

  lemma FindDotsAt(s: string, i: nat)
    requires DotsAt(s, i) && forall j | 0 <= j < i :: !DotsAt(s, j)
    ensures FindDots(s) == i
  {
  }

  lemma Braces(k: string, t: string)
    ensures var s := "[" + k + "]" + t;
            && |s| == |k| + 2 + |t| && s[0] == '[' && s[1..|k| + 1] == k && s[|k| + 1] == ']' && s[|k| + 2..] == t
            && s[1..] == k + ("]" + t) && (k != "" ==> s[1] == k[0])
  {
  }

  lemma SplitBetween(s: string, k: string, t: string, huge: string -> nat)
    requires |s| == |k| + 2 + |t| && s[0] == '[' && s[1..|k| + 1] == k && s[|k| + 1] == ']' && s[|k| + 2..] == t
    requires ']' !in k
    ensures SplitKey(s, huge) == (if IsDigit(s[1]) then Index(Atoi(s[1..], huge)) else Str(k), t)
  {
    hide SplitKey, FindChar, Atoi;
    SplitBraces(s, huge);
    forall j | 0 <= j < |k| + 1 ensures s[j] != ']' {
      if j > 0 { assert s[1..|k| + 1][j - 1] == s[j] && k[j - 1] in k; }
    }
    FindCharAt(s, ']', |k| + 1);
  }

  lemma SplitIndex(i: nat, t: string, huge: string -> nat)
    requires i <= INT_MAX
    ensures SplitKey("[" + DigitsOf(i) + "]" + t, huge) == (Index(i), t)
  {
    hide SplitKey, DigitsOf, Leading;
    var d := DigitsOf(i);
    Braces(d, t);
    SplitBetween("[" + d + "]" + t, d, t, huge);
    LeadingStops(d, "]" + t);
    ValueOfDigits(i);
  }

  lemma SplitBraced(k: string, t: string, huge: string -> nat)
    requires k != "" && ']' !in k && !IsDigit(k[0])
    ensures SplitKey("[" + k + "]" + t, huge) == (Str(k), t)
  {
    hide SplitKey;
    Braces(k, t);
    SplitBetween("[" + k + "]" + t, k, t, huge);
  }

  // A text without delimiter and opening brace is read up to what follows it.
  lemma SplitPlain(k: string, t: string, huge: string -> nat)
    requires k != "" && FindDots(k) == |k| && '[' !in k
    requires Follows(t) && (DotsAt(t, 0) ==> k[|k| - 1] != ':')
    ensures SplitKey(k + t, huge) == (Str(k), if DotsAt(t, 0) then t[2..] else t)
  {
    var s := k + t;
    assert forall j | 0 <= j < |k| :: s[j] == k[j] && s[j] != '[' by {
      forall j | 0 <= j < |k| ensures s[j] == k[j] && s[j] != '[' { assert k[j] in k; }
    }
    assert forall j | 0 <= j && j + 1 < |k| :: !DotsAt(s, j) by {
      forall j | 0 <= j && j + 1 < |k| ensures !DotsAt(s, j) { assert !DotsAt(k, j); }
    }
    assert s[|k|..] == t && s[..|k|] == k;
    if t == "" {
      assert s == k;
    } else if t[0] == '[' {
      FindCharAt(s, '[', |k|);
      assert s[|k|] == '[';
      assert FindDots(s) > |k| by { assert forall j | 0 <= j <= |k| :: !DotsAt(s, j); }
    } else {
      assert s[|k|] == ':' && s[|k| + 1] == ':';
      assert !DotsAt(s, |k| - 1) by { assert s[|k| - 1] == k[|k| - 1]; }
      FindDotsAt(s, |k|);
      assert FindChar(s, '[') > |k|;
      assert s[|k| + 2..] == t[2..];
    }
  }

  lemma TailFollows(path: seq<PathKey>)
    requires path != [] ==> path[0] != NoKey && path[0] != Str("")
    ensures Follows(Tail(path))
    ensures path == [] ==> Tail(path) == ""
    ensures path != [] && PrintsBraced(path[0]) ==> Tail(path) != "" && Tail(path)[0] == '['
    ensures path != [] && !PrintsBraced(path[0]) ==> DotsAt(Tail(path), 0)
  {
  }

  lemma ParseStripsDots(t: string, huge: string -> nat)
    ensures Parse("::" + t, huge) == Parse(t, huge)
  {
    assert ("::" + t)[2..] == t;
  }

  lemma ChunkBehind(key: PathKey)
    requires key != NoKey
    ensures Chunk(key, false) == if PrintsBraced(key) then Chunk(key, true) else "::" + Chunk(key, true)
  {
  }

  // The text of keys behind others is read like the same keys at the beginning.
  lemma ParseTail(path: seq<PathKey>, huge: string -> nat)
    requires path != [] && path[0] != NoKey && path[0] != Str("")
    ensures Parse(Tail(path), huge) == Parse(Print(path), huge)
  {
    hide Parse, Print, Chunk, PrintsBraced;
    var first, rest := Chunk(path[0], true), Tail(path[1..]);
    PrintFirst(path);
    ChunkBehind(path[0]);
    if !PrintsBraced(path[0]) {
      DotsInFront(first, rest);
      ParseStripsDots(first + rest, huge);
    }
  }

  lemma DotsInFront(a: string, b: string)
    ensures "::" + a + b == "::" + (a + b)
  {
  }

  lemma ParseAfterDots(t: string, huge: string -> nat)
    requires DotsAt(t, 0)
    ensures Parse(t[2..], huge) == Parse(t, huge)
  {
    assert t == "::" + t[2..];
    ParseStripsDots(t[2..], huge);
  }

  lemma ParseStep(x: string, key: PathKey, rest: string, huge: string -> nat)
    requires x != "" && SplitKey(x, huge) == (key, rest) && key != Str("")
    ensures Parse(x, huge) == [key] + Parse(rest, huge)
  {
  }

  // A chunk that survives is read first, and then the rest.
  lemma ParseGoodChunk(key: PathKey, t: string, huge: string -> nat)
    requires HasKeyOk(key) && Follows(t) && (key.Index? ==> key.i <= INT_MAX)
    requires DotsAt(t, 0) && key.Str? && !Braced(key.s) ==> key.s[|key.s| - 1] != ':'
    ensures Parse(Chunk(key, true) + t, huge) == [key] + Parse(t, huge)
  {
    if key.Index? {
      SplitIndex(key.i, t, huge);
      ParseStep("[" + DigitsOf(key.i) + "]" + t, key, t, huge);
    } else {
      ParseGoodString(key.s, t, huge);
    }
  }

  lemma ParseGoodString(k: string, t: string, huge: string -> nat)
    requires KeyOk(k) && Follows(t) && (DotsAt(t, 0) && !Braced(k) ==> k[|k| - 1] != ':')
    ensures Parse(Chunk(Str(k), true) + t, huge) == [Str(k)] + Parse(t, huge)
  {
    if !Braced(k) {
      assert Chunk(Str(k), true) == k;
      ParsePlain(k, t, huge);
    } else if ']' !in k {
      SplitBraced(k, t, huge);
      ParseStep("[" + k + "]" + t, Str(k), t, huge);
    } else {
      ParseClosing(k, t, huge);
    }
  }

  lemma ParseGoodKey(path: seq<PathKey>, huge: string -> nat)
    requires path != [] && HasKeyOk(path[0]) && ColonOk(path[0], path[1..])
    requires path[0].Index? ==> path[0].i <= INT_MAX
    requires path[1..] != [] ==> path[1] != NoKey && path[1] != Str("")
    ensures Parse(Print(path), huge) == [path[0]] + Parse(Tail(path[1..]), huge)
  {
    PrintFirst(path);
    TailFollows(path[1..]);
    ParseGoodChunk(path[0], Tail(path[1..]), huge);
  }

  lemma ParsePlain(k: string, t: string, huge: string -> nat)
    requires k != "" && FindDots(k) == |k| && '[' !in k
    requires Follows(t) && (DotsAt(t, 0) ==> k[|k| - 1] != ':')
    ensures Parse(k + t, huge) == [Str(k)] + Parse(t, huge)
  {
    SplitPlain(k, t, huge);
    if DotsAt(t, 0) { ParseAfterDots(t, huge); }
  }

  // A key of closing braces only: the first brace closes an empty key, and what is left of the
  // printed braces is the key itself.
  lemma ClosingMoves(k: string, t: string)
    requires k != "" && AllClosing(k)
    ensures ("[" + k + "]" + t)[2..] == k + t
  {
    assert k[1..] + "]" == k;
    assert "[" + k + "]" + t == "[]" + (k[1..] + "]") + t;
  }

  lemma ParseDrops(s: string, rest: string, huge: string -> nat)
    requires s != "" && SplitKey(s, huge) == (Str(""), rest)
    ensures Parse(s, huge) == Parse(rest, huge)
  {
    hide SplitKey;
  }

  lemma ParseClosing(k: string, t: string, huge: string -> nat)
    requires k != "" && AllClosing(k) && Follows(t)
    ensures Parse("[" + k + "]" + t, huge) == [Str(k)] + Parse(t, huge)
  {
    hide SplitKey, Parse;
    var s := "[" + k + "]" + t;
    Braces(k, t);
    assert s[2..] == k + t by { ClosingMoves(k, t); }
    assert s[1..1] == "";
    SplitBetween(s, "", k + t, huge);
    ParseDrops(s, k + t, huge);
    assert FindDots(k) == |k| && '[' !in k;
    ParsePlain(k, t, huge);
  }

  // ----- which paths do not survive -----

  // Keys that stand for something; the parser yields no others.
  predicate Real(path: seq<PathKey>) {
    forall i | 0 <= i < |path| :: path[i] != NoKey && path[i] != Str("")
  }

  // The first key read from a text is not the given one.
  ghost predicate ReadsOther(text: string, key: PathKey, huge: string -> nat) {
    var keys := Parse(text, huge);
    keys == [] || keys[0] != key
  }

  // A key that has a closing brace has neither a delimiter nor an opening brace.
  ghost predicate Shapely(key: string) {
    ']' in key ==> FindDots(key) == |key| && '[' !in key
  }

  // What stands in braces ends before the first closing one.
  lemma InBracesIsShapely(x: string, close: nat)
    requires 1 <= close <= |x| && forall j | 0 <= j < close :: x[j] != ']'
    ensures Shapely(x[1..close])
  {
    assert forall j | 0 <= j < close - 1 :: x[1..close][j] == x[j + 1];
  }

  // What stands before the first opening brace and the first delimiter.
  lemma BeforeMarksIsShapely(x: string, cut: nat)
    requires cut <= |x| && cut <= FindDots(x) && cut <= FindChar(x, '[')
    ensures Shapely(x[..cut])
  {
    var k := x[..cut];
    assert forall j | 0 <= j < cut :: k[j] == x[j];
    forall j | 0 <= j < cut ensures !DotsAt(k, j) { assert !DotsAt(x, j); }
  }

  // The key that is read is shapely, and the rest ends like the text.
  lemma {:induction false} SplitShape(x: string, huge: string -> nat)
    requires x != ""
    ensures var (key, rest) := SplitKey(x, huge);
            && (rest != "" ==> rest[|rest| - 1] == x[|x| - 1])
            && (key.Str? && x[|x| - 1] != '[' ==> Shapely(key.s))
    decreases |x|
  {
    hide Shapely, SplitKey, FindDots, FindChar;
    if DotsAt(x, 0) {
      SplitSkips(x, huge);
      if x[2..] != "" { SplitShape(x[2..], huge); } else { NothingIsShapely(); }
    } else if |x| > 1 && x[0] == '[' {
      SplitBraces(x, huge);
      InBracesIsShapely(x, FindChar(x, ']'));
    } else {
      SplitCut(x, huge);
      var dots, brace := FindDots(x), FindChar(x, '[');
      var cut := if brace < dots then brace else dots;
      BeforeMarksIsShapely(x, cut);
    }
  }

  lemma NothingIsShapely()
    ensures Shapely("")
  {
  }

  // A key read from a text that does not end in an opening brace has no closing brace together with
  // a delimiter or an opening brace.
  lemma {:induction false} FirstKeyShape(x: string, huge: string -> nat)
    requires x != "" && x[|x| - 1] != '['
    ensures Parse(x, huge) != [] && Parse(x, huge)[0].Str? ==> Shapely(Parse(x, huge)[0].s)
    decreases |x|
  {
    SplitShape(x, huge);
    var (key, rest) := SplitKey(x, huge);
    if key == Str("") && rest != "" { FirstKeyShape(rest, huge); }
  }

  lemma {:induction false} ShiftedIsAllClosing(s: string, i: nat)
    requires i < |s| && s == s[1..] + "]"
    ensures s[i] == ']'
    decreases |s| - i
  {
    if i + 1 < |s| {
      ShiftedIsAllClosing(s, i + 1);
      assert s[i] == (s[1..] + "]")[i] == s[i + 1];
    } else {
      assert s[i] == (s[1..] + "]")[i];
    }
  }

  lemma ClosingFirstSkips(s: string, t: string, huge: string -> nat)
    requires s != "" && s[0] == ']'
    ensures Parse("[" + s + "]" + t, huge) == Parse(s[1..] + "]" + t, huge)
  {
    hide SplitKey;
    var x := "[" + s + "]" + t;
    assert x[0] == '[' && x[1] == ']';
    FindCharAt(x, ']', 1);
    SplitBraces(x, huge);
    assert x[1..1] == "" && x[2..] == s[1..] + "]" + t;
  }

  lemma ClosingFirstBreaks(s: string, t: string, huge: string -> nat)
    requires s != "" && s[0] == ']' && !AllClosing(s)
    requires Follows(t) && (t != "" ==> t[|t| - 1] != '[')
    ensures ReadsOther("[" + s + "]" + t, Str(s), huge)
  {
    var x := "[" + s + "]" + t;
    var y := s[1..] + "]";
    ClosingFirstSkips(s, t, huge);
    hide Parse, SplitKey, FindChar, FindDots;
    assert (y + t)[|y + t| - 1] != '[';
    FirstKeyShape(y + t, huge);
    if Parse(y + t, huge) != [] && Parse(y + t, huge)[0] == Str(s) {
      PlainShift(s);
      ParsePlain(y, t, huge);
      forall i | 0 <= i < |s| ensures s[i] == ']' { ShiftedIsAllClosing(s, i); }
    }
  }

  lemma PlainShift(s: string)
    requires s != "" && FindDots(s) == |s| && '[' !in s
    ensures FindDots(s[1..] + "]") == |s| && '[' !in s[1..] + "]"
  {
    var y := s[1..] + "]";
    forall i | 0 <= i < |y| ensures !DotsAt(y, i) { assert i + 2 < |s| ==> !DotsAt(s, i + 1); }
  }

  lemma BadKeyBreaks(s: string, t: string, huge: string -> nat)
    requires s != "" && !KeyOk(s) && Follows(t) && (t != "" ==> t[|t| - 1] != '[')
    ensures ReadsOther(Chunk(Str(s), true) + t, Str(s), huge)
  {
    var x := "[" + s + "]" + t;
    assert Chunk(Str(s), true) + t == x;
    assert x[0] == '[' && x[1] == s[0];
    FindCharAt(x, '[', 0);
    if s[0] == ']' {
      ClosingFirstBreaks(s, t, huge);
    } else if !IsDigit(s[0]) {
      var close := FindChar(x, ']');
      var j :| 0 <= j < |s| && s[j] == ']';
      assert x[j + 1] == ']' && 1 < close <= j + 1;
      assert |x[1..close]| == close - 1 < |s|;
    }
  }

  // A plain key of more than one character that ends in ':' loses it before a delimiter.
  lemma LongColonKeySplits(s: string, t: string, huge: string -> nat)
    requires |s| > 1 && !Braced(s) && s[|s| - 1] == ':' && t != "" && t[0] == ':'
    ensures SplitKey(s + t, huge).0 == Str(s[..|s| - 1]) && s[..|s| - 1] != ":"
  {
    var x := s + t;
    assert !DotsAt(s, 0) && s[..|s| - 1][0] == s[0];
    assert forall j | 0 <= j < |s| :: x[j] == s[j] && s[j] in s;
    forall j | 0 <= j && j + 1 < |s| ensures !DotsAt(x, j) { assert !DotsAt(s, j); }
    assert x[|s|] == ':';
    FindDotsAt(x, |s| - 1);
    assert FindChar(x, '[') >= |s|;
    assert x[..|s| - 1] == s[..|s| - 1];
  }

  lemma FirstKeyDiffers(x: string, k: string, other: string, huge: string -> nat)
    requires x != "" && SplitKey(x, huge).0 == Str(k) && k != "" && k != other
    ensures ReadsOther(x, Str(other), huge)
  {
    hide SplitKey;
  }

  // A plain key that ends in ':' before another plain key (two keys ":" in a row are treated below).
  lemma ColonBreaks(s: string, u: string, t: string, huge: string -> nat)
    requires s != "" && !Braced(s) && s[|s| - 1] == ':'
    requires u != "" && !Braced(u) && !(s == ":" && u == ":")
    ensures ReadsOther(s + ("::" + u + t), Str(s), huge)
    ensures ReadsOther(s + ("::" + u + t), Str(":"), huge)
  {
    hide Parse, SplitKey;
    var x := s + ("::" + u + t);
    if |s| > 1 {
      LongColonKeySplits(s, "::" + u + t, huge);
      FirstKeyDiffers(x, s[..|s| - 1], s, huge);
      FirstKeyDiffers(x, s[..|s| - 1], ":", huge);
    } else {
      var w := ":" + u + t;
      assert x[2..] == w && DotsAt(x, 0);
      ParseAfterDots(x, huge);
      LoneColonBreaks(u, t, huge);
    }
  }

  lemma LoneColonBreaks(u: string, t: string, huge: string -> nat)
    requires u != "" && !Braced(u) && u != ":"
    ensures ReadsOther(":" + u + t, Str(":"), huge)
  {
    var w := ":" + u + t;
    if u[0] != ':' {
      assert w[1] == u[0];
      assert forall j | 0 <= j < |u| :: w[j + 1] == u[j] && u[j] in u;
      assert FindChar(w, '[') > |u| && FindDots(w) >= 2;
      LongKeyDiffers(w, huge);
    } else {
      assert |u| >= 2 && !DotsAt(u, 0);
      var z := u[1..] + t;
      assert w[2..] == z && DotsAt(w, 0) && |w| > 2;
      ParseAfterDots(w, huge);
      assert z[0] == u[1] && u[1] in u;
      OtherStartDiffers(z, huge);
    }
  }

  lemma LongKeyDiffers(w: string, huge: string -> nat)
    requires |w| >= 2 && FindChar(w, '[') >= 2 && FindDots(w) >= 2
    ensures ReadsOther(w, Str(":"), huge)
  {
    assert !DotsAt(w, 0);
    var key := SplitKey(w, huge).0;
    assert key.Str? && |key.s| >= 2;
  }

  lemma OtherStartDiffers(z: string, huge: string -> nat)
    requires z != "" && z[0] != ':' && z[0] != '['
    ensures ReadsOther(z, Str(":"), huge)
  {
    assert FindChar(z, '[') >= 1 && FindDots(z) >= 1;
    var key := SplitKey(z, huge).0;
    assert key.Str? && key.s != "" && key.s[0] == z[0];
  }

  lemma {:induction false} TailEnd(path: seq<PathKey>)
    requires Real(path)
    ensures Tail(path) != "" ==> Tail(path)[|Tail(path)| - 1] != '['
    decreases |path|
  {
    if path != [] {
      assert Real(path[1..]) by { assert forall i | 0 <= i < |path| - 1 :: path[1..][i] == path[i + 1]; }
      TailEnd(path[1..]);
      var c := Chunk(path[0], false);
      if Tail(path[1..]) == "" {
        assert Tail(path) == c;
        if path[0].Str? && !Braced(path[0].s) { assert c[|c| - 1] == path[0].s[|path[0].s| - 1]; }
      }
    }
  }

  lemma FirstBadBreaks(path: seq<PathKey>, huge: string -> nat)
    requires path != [] && Real(path) && !(|path| > 1 && path[0] == path[1] == Str(":"))
    requires !HasKeyOk(path[0]) || !ColonOk(path[0], path[1..])
    ensures ReadsOther(Print(path), path[0], huge)
  {
    assert path[0] != NoKey && path[0] != Str("");
    if !HasKeyOk(path[0]) {
      FirstKeyBreaks(path, huge);
    } else {
      assert path[1..][0] == path[1] && path[1] != NoKey && path[1] != Str("");
      ColonKeyReadsOther(path, path[0].s, path[1].s, huge);
    }
  }

  lemma FirstKeyBreaks(path: seq<PathKey>, huge: string -> nat)
    requires path != [] && Real(path) && path[0].Str? && path[0].s != "" && !KeyOk(path[0].s)
    ensures ReadsOther(Print(path), path[0], huge)
  {
    var rest := path[1..];
    assert Real(rest) by { assert forall i | 0 <= i < |path| - 1 :: rest[i] == path[i + 1]; }
    PrintFirst(path);
    TailFollows(rest);
    TailEnd(rest);
    BadKeyBreaks(path[0].s, Tail(rest), huge);
  }

  lemma PlainTail(u: string, rest: seq<PathKey>)
    requires rest != [] && rest[0] == Str(u) && !Braced(u)
    ensures Tail(rest) == "::" + u + Tail(rest[1..])
  {
  }

  // ----- two keys ":" in a row -----

  function Colons(n: nat): seq<PathKey> {
    seq(n, _ => Str(":"))
  }

  lemma {:induction false} KeysShape(x: string, huge: string -> nat, k: string)
    requires x != "" && x[|x| - 1] != '[' && Str(k) in Parse(x, huge)
    ensures Shapely(k)
    decreases |x|
  {
    SplitShape(x, huge);
    var (key, rest) := SplitKey(x, huge);
    if key != Str(k) { KeysShape(rest, huge, k); }
  }

  lemma NothingParsed(huge: string -> nat)
    ensures Parse(Tail([]), huge) == []
  {
  }

  // Keys ":" in front of a path are not what its text is read as.
  lemma {:induction false} NoColonsInFront(path: seq<PathKey>, n: nat, huge: string -> nat)
    requires Real(path) && IndicesFit(path) && n >= 1
    ensures Parse(Tail(path), huge) != Colons(n) + path
    decreases |path|
  {
    hide Parse, Print, Tail, KeyOk, Braced;
    if path == [] {
      assert Colons(n)[0] == Str(":");
      NothingParsed(huge);
    } else if Parse(Tail(path), huge) == Colons(n) + path {
      var rest := path[1..];
      assert Real(rest) && IndicesFit(rest) by { assert forall i | 0 <= i < |path| - 1 :: rest[i] == path[i + 1]; }
      assert path[0] != NoKey && path[0] != Str("");
      ParseTail(path, huge);
      assert (Colons(n) + path)[0] == Str(":");
      if HasKeyOk(path[0]) && ColonOk(path[0], rest) {
        ParseGoodKey(path, huge);
        assert (Colons(n) + path)[1..] == Colons(n) + rest;
        NoColonsInFront(rest, n, huge);
      } else if !HasKeyOk(path[0]) {
        assert Str(path[0].s) in Parse(Print(path), huge) by { assert (Colons(n) + path)[n] == path[0]; }
        BadKeyAfterColons(path, n, huge);
      } else {
        assert path[1] == rest[0] && path[1] != NoKey && path[1] != Str("");
        ColonAfterColons(path, n, huge);
      }
    }
  }

  lemma BadKeyPrinted(path: seq<PathKey>)
    requires path != [] && Real(path) && path[0].Str? && path[0].s != "" && !KeyOk(path[0].s)
    ensures var s, t := path[0].s, Tail(path[1..]);
            var x := "[" + s + "]" + t;
            Print(path) == x && Follows(t) && x[|x| - 1] != '['
  {
    hide Tail, Print, Real, Follows;
    assert Real(path[1..]) by { RealRest(path); }
    PrintFirst(path);
    FollowsRest(path);
    TailEnd(path[1..]);
  }

  lemma RealRest(path: seq<PathKey>)
    requires path != [] && Real(path)
    ensures Real(path[1..])
  {
    assert forall i | 0 <= i < |path| - 1 :: path[1..][i] == path[i + 1];
  }

  lemma FollowsRest(path: seq<PathKey>)
    requires path != [] && Real(path)
    ensures Follows(Tail(path[1..]))
  {
    hide Tail;
    RealRest(path);
    TailFollows(path[1..]);
  }

  lemma BadKeyAfterColons(path: seq<PathKey>, n: nat, huge: string -> nat)
    requires path != [] && Real(path) && path[0].Str? && path[0].s != "" && !KeyOk(path[0].s) && n >= 1
    requires path[0] in Parse(Print(path), huge)
    ensures Parse(Print(path), huge) != Colons(n) + path
  {
    hide SplitKey, Parse, Print, FindDots, Follows, Tail, Colons;
    var s, t := path[0].s, Tail(path[1..]);
    var x := "[" + s + "]" + t;
    BadKeyPrinted(path);
    if IsDigit(s[0]) {
      IndexIsNotColons(path, n, x, s, t, huge);
    } else if ']' in s {
      KeysShape(x, huge, s);
      var j := BraceSplits(s, t, huge);
      LeftOverIsPlain(s, j, t, huge);
      NotTheseKeys(s, j, Parse(t, huge), path, n);
      if s[..j] == "" {
        ParseDrops(x, s[j + 1..] + "]" + t, huge);
      } else {
        ParseStep(x, Str(s[..j]), s[j + 1..] + "]" + t, huge);
      }
    }
  }

  lemma IndexIsNotColons(path: seq<PathKey>, n: nat, x: string, s: string, t: string, huge: string -> nat)
    requires n >= 1 && s != "" && IsDigit(s[0]) && x == "[" + s + "]" + t
    ensures Parse(x, huge) != Colons(n) + path
  {
    hide SplitKey, Parse, IsDigit;
    DigitSplits(s, t, huge);
    var (key, rest) := SplitKey(x, huge);
    ParseStep(x, key, rest, huge);
    assert Parse(x, huge)[0] == key && (Colons(n) + path)[0] == Str(":");
  }

  lemma DigitSplits(s: string, t: string, huge: string -> nat)
    requires s != "" && IsDigit(s[0])
    ensures SplitKey("[" + s + "]" + t, huge).0.Index?
  {
    hide SplitKey, FindChar;
    Braces(s, t);
    SplitBraces("[" + s + "]" + t, huge);
  }

  // The first closing brace ends the key.
  lemma BracesAt(s: string, t: string, j: nat)
    requires j < |s|
    ensures var x := "[" + s + "]" + t;
            x[j + 1] == s[j] && x[1..j + 1] == s[..j] && x[j + 2..] == s[j + 1..] + "]" + t
  {
  }

  lemma FirstClosing(x: string, s: string, huge: string -> nat) returns (j: nat)
    requires s != "" && |x| > |s| + 1 && x[0] == '[' && x[1..|s| + 1] == s && !IsDigit(s[0]) && ']' in s
    ensures j < |s| && s[j] == ']' && SplitKey(x, huge) == (Str(x[1..j + 1]), x[j + 2..])
  {
    hide SplitKey;
    SplitBraces(x, huge);
    var i :| 0 <= i < |s| && s[i] == ']';
    assert x[1..|s| + 1][i] == x[i + 1];
    j := FindChar(x, ']') - 1;
    assert x[1..|s| + 1][j] == x[j + 1];
  }

  lemma BraceSplits(s: string, t: string, huge: string -> nat) returns (j: nat)
    requires s != "" && !IsDigit(s[0]) && ']' in s
    ensures j < |s| && s[j] == ']'
    ensures SplitKey("[" + s + "]" + t, huge) == (Str(s[..j]), s[j + 1..] + "]" + t)
  {
    hide SplitKey, IsDigit;
    Braces(s, t);
    j := FirstClosing("[" + s + "]" + t, s, huge);
    BracesAt(s, t, j);
  }

  // What the first closing brace of a key leaves over is read as one plain key.
  lemma LeftOverIsPlain(s: string, j: nat, t: string, huge: string -> nat)
    requires j < |s| && FindDots(s) == |s| && '[' !in s && Follows(t)
    ensures Parse(s[j + 1..] + "]" + t, huge) == [Str(s[j + 1..] + "]")] + Parse(t, huge)
  {
    var y := s[j + 1..] + "]";
    forall i | 0 <= i < |y| ensures !DotsAt(y, i) { assert i + j + 2 < |s| ==> !DotsAt(s, i + j + 1); }
    ParsePlain(y, t, huge);
  }

  lemma NotTheseKeys(s: string, j: nat, more: seq<PathKey>, path: seq<PathKey>, n: nat)
    requires n >= 1 && path != [] && path[0] == Str(s) && j < |s|
    ensures (if s[..j] == "" then [] else [Str(s[..j])]) + ([Str(s[j + 1..] + "]")] + more) != Colons(n) + path
  {
    var y := s[j + 1..] + "]";
    assert |y| == |s| - j && y[|y| - 1] == ']';
    var keys := Colons(n) + path;
    var read := (if s[..j] == "" then [] else [Str(s[..j])]) + ([Str(y)] + more);
    assert keys[0] == Str(":") && keys[1] == if n == 1 then Str(s) else Str(":");
    if s[..j] == "" {
      assert read[0] == Str(y);
    } else {
      assert read[0] == Str(s[..j]) && read[1] == Str(y) && |s[..j]| == j;
    }
  }

  lemma ColonAfterColons(path: seq<PathKey>, n: nat, huge: string -> nat)
    requires |path| > 1 && Real(path) && IndicesFit(path) && n >= 1
    requires HasKeyOk(path[0]) && !ColonOk(path[0], path[1..])
    requires path[1] == path[1..][0] && path[1] != NoKey && path[1] != Str("")
    ensures Parse(Print(path), huge) != Colons(n) + path
    decreases |path|, 0
  {
    hide Parse, Print, Tail;
    if path[0] == path[1] == Str(":") {
      PairVanishes(path, huge);
      assert Real(path[2..]) && IndicesFit(path[2..]) by {
        assert forall i | 0 <= i < |path| - 2 :: path[2..][i] == path[i + 2];
      }
      NoColonsInFront(path[2..], n + 2, huge);
      assert Colons(n) + path == Colons(n + 2) + path[2..];
    } else {
      ColonKeyReadsOther(path, path[0].s, path[1].s, huge);
      assert (Colons(n) + path)[0] == Str(":");
    }
  }

  lemma ColonKeyReadsOther(path: seq<PathKey>, s: string, u: string, huge: string -> nat)
    requires |path| > 1 && path[0] == Str(s) && path[1] == Str(u)
    requires s != "" && !Braced(s) && s[|s| - 1] == ':'
    requires u != "" && !Braced(u) && !(s == ":" && u == ":")
    ensures ReadsOther(Print(path), path[0], huge) && ReadsOther(Print(path), Str(":"), huge)
  {
    var t := Tail(path[1..][1..]);
    PrintFirst(path);
    PlainTail(u, path[1..]);
    ColonBreaks(s, u, t, huge);
    assert Chunk(path[0], true) == s;
  }

  // Two keys ":" in a row are swallowed by the delimiters.
  lemma PairVanishes(path: seq<PathKey>, huge: string -> nat)
    requires |path| > 1 && path[0] == path[1] == Str(":")
    ensures Parse(Print(path), huge) == Parse(Tail(path[2..]), huge)
  {
    var t := Tail(path[2..]);
    PrintFirst(path);
    PlainTail(":", path[1..]);
    assert path[1..][1..] == path[2..];
    assert Print(path) == "::" + ("::" + t);
    ParseStripsDots("::" + t, huge);
    ParseStripsDots(t, huge);
  }

  // ----- the law -----

  /** Reading the text of a path gives the path back exactly when it is printable: every string key
      is non-empty, has no ']' (or consists of them), does not begin with a digit if it is printed in
      braces, and does not run into the delimiter with a ':' at its end. */
  lemma {:induction false} RoundTripIff(path: seq<PathKey>, huge: string -> nat)
    requires IndicesFit(path)
    ensures Parse(Print(path), huge) == path <==> Printable(path)
    decreases |path|
  {
    if !Real(path) {
      NotRealBreaks(path, huge);
    } else if path != [] {
      var rest := path[1..];
      assert forall i | 0 <= i < |path| - 1 :: rest[i] == path[i + 1];
      if HasKeyOk(path[0]) && ColonOk(path[0], rest) {
        ParseGoodKey(path, huge);
        if rest != [] { ParseTail(rest, huge); }
        assert IndicesFit(rest) && Real(rest);
        RoundTripIff(rest, huge);
        assert path == [path[0]] + rest;
      } else if |path| > 1 && path[0] == path[1] == Str(":") {
        ColonPairBreaks(path, huge);
      } else {
        FirstBadBreaks(path, huge);
      }
    }
  }

  lemma ColonPairBreaks(path: seq<PathKey>, huge: string -> nat)
    requires Real(path) && IndicesFit(path) && |path| > 1 && path[0] == path[1] == Str(":")
    ensures Parse(Print(path), huge) != path
  {
    var rest := path[2..];
    PairVanishes(path, huge);
    assert Real(rest) && IndicesFit(rest) by { assert forall i | 0 <= i < |rest| :: rest[i] == path[i + 2]; }
    NoColonsInFront(rest, 2, huge);
    assert path == Colons(2) + rest;
  }

  lemma {:induction false} NotRealBreaks(path: seq<PathKey>, huge: string -> nat)
    requires !Real(path)
    ensures !Printable(path) && Parse(Print(path), huge) != path
    decreases |path|
  {
    var i :| 0 <= i < |path| && (path[i] == NoKey || path[i] == Str(""));
    assert path[i] in path;
    if i > 0 {
      assert path[1..][i - 1] == path[i];
      NotRealBreaks(path[1..], huge);
    }
  }
}
