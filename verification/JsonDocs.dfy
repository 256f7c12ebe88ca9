/** The events that are written make a JSON document: objects and arrays are closed by their own kind of event, and in
    an object, and only there, each value comes behind a key. */
module JsonDocs {
  import opened Wrappers
  import opened XValues
  import opened Trees
  import opened Json

  // What is open, the innermost last; and whether a key waits for its value.
  datatype Doc = Doc(open: seq<bool>, keyed: bool, done: bool)

  const IN_OBJECT := true
  const IN_ARRAY := false

  function Innermost(d: Doc): Option<bool> {
    if d.open == [] then None else Some(d.open[|d.open| - 1])
  }

  // A value may come: the only one of the document, the next of an array, or the one behind a key.
  predicate TakesValue(d: Doc) {
    match Innermost(d)
    case None => !d.done
    case Some(inObject) => inObject == d.keyed
  }

  function Taken(d: Doc): Doc {
    d.(keyed := false, done := d.open == [])
  }

  function Next(d: Doc, e: Event): Option<Doc> {
    match e
    case KeyEvent(_) => if Innermost(d) == Some(IN_OBJECT) && !d.keyed then Some(d.(keyed := true)) else None
    case StartObject => if TakesValue(d) then Some(Doc(d.open + [IN_OBJECT], false, false)) else None
    case StartArray => if TakesValue(d) then Some(Doc(d.open + [IN_ARRAY], false, false)) else None
    case EndObject => if Innermost(d) == Some(IN_OBJECT) && !d.keyed then Some(Closed(d)) else None
    case EndArray => if Innermost(d) == Some(IN_ARRAY) then Some(Closed(d)) else None
    case _ => if TakesValue(d) then Some(Taken(d)) else None
  }

  function Closed(d: Doc): Doc
    requires d.open != []
  {
    var rest := d.open[..|d.open| - 1];
    Doc(rest, false, rest == [])
  }

  function Reads(d: Doc, es: seq<Event>): Option<Doc>
    decreases |es|
  {
    if es == [] then Some(d)
    else
      var n := Next(d, es[0]);
      if n.None? then None else Reads(n.value, es[1..])
  }

  lemma {:induction false} ReadsOn(d: Doc, a: seq<Event>, b: seq<Event>)
    requires Reads(d, a).Some?
    ensures Reads(d, a + b) == Reads(Reads(d, a).value, b)
    decreases |a|
  {
    if a == [] {
      assert a + b == b;
    } else {
      assert (a + b)[0] == a[0] && (a + b)[1..] == a[1..] + b;
      ReadsOn(Next(d, a[0]).value, a[1..], b);
    }
  }

  lemma ReadsOne(d: Doc, e: Event)
    ensures Reads(d, [e]) == Next(d, e)
  {
    assert [e][1..] == [];
  }

  // A node of a tree, once it is opened.
  function Opened(d: Doc, t: Tree): Doc {
    Doc(d.open + [t.MapTree?], false, false)
  }

  /** Where a value may come, the events of a tree are one value. */
  lemma {:induction false} TreeIsValue(d: Doc, t: Tree)
    requires Plain(t) && TakesValue(d)
    ensures Reads(d, EventsOf(t)) == Some(Taken(d))
    decreases t, 1
  {
    hide ChildEvents, Next;
    if t.Leaf? {
      ReadsOne(d, ValueEvent(t.v));
      LeafIsTaken(d, t.v);
    } else {
      var first, inner, last := Start(t), ChildEvents(t, |t.subs|), Stop(t);
      EventsOfNode(t);
      Opens(d, t);
      ReadsOne(d, first);
      ChildrenAreValues(Opened(d, t), t, |t.subs|);
      Closes(d, t);
      ReadsOne(Opened(d, t), last);
      ReadsOn(d, [first], inner);
      ReadsOn(d, [first] + inner, [last]);
    }
  }

  lemma LeafIsTaken(d: Doc, x: XValue)
    requires !x.IsObject() && TakesValue(d)
    ensures Next(d, ValueEvent(x)) == Some(Taken(d))
  {
  }

  lemma Opens(d: Doc, t: Tree)
    requires !t.Leaf? && TakesValue(d)
    ensures Next(d, Start(t)) == Some(Opened(d, t))
  {
  }

  lemma Closes(d: Doc, t: Tree)
    requires !t.Leaf?
    ensures Next(Opened(d, t), Stop(t)) == Some(Taken(d.(keyed := false)))
  {
    assert Opened(d, t).open[..|d.open|] == d.open;
  }

  // Between two children.
  lemma {:induction false} ChildrenAreValues(d: Doc, t: Tree, n: nat)
    requires Plain(t) && !t.Leaf? && n <= |t.subs| && d.open != [] && d == Doc(d.open, false, false)
    requires Innermost(d) == Some(t.MapTree?)
    ensures Reads(d, ChildEvents(t, n)) == Some(d)
    decreases t, 0, n
  {
    hide EventsOf, Next;
    if n > 0 {
      ChildrenAreValues(d, t, n - 1);
      var key, sub := KeyEvents(t, n - 1), t.subs[n - 1];
      KeyWaits(d, t, n - 1);
      var k := d.(keyed := t.MapTree?);
      TreeIsValue(k, sub);
      ReadsOn(d, key, EventsOf(sub));
      ReadsOn(d, ChildEvents(t, n - 1), key + EventsOf(sub));
    }
  }

  lemma KeyWaits(d: Doc, t: Tree, n: nat)
    requires Plain(t) && !t.Leaf? && n < |t.subs| && d.open != [] && !d.keyed && Innermost(d) == Some(t.MapTree?)
    ensures Reads(d, KeyEvents(t, n)) == Some(d.(keyed := t.MapTree?)) && TakesValue(d.(keyed := t.MapTree?))
  {
    if t.MapTree? { ReadsOne(d, KeyEvent(t.keys[n])); }
  }

  /** What the writer writes for a node is a whole document. */
  lemma NodeIsDocument(t: Tree)
    requires Plain(t)
    ensures Reads(Doc([], false, false), EventsOf(t)) == Some(Doc([], false, true))
  {
    TreeIsValue(Doc([], false, false), t);
  }

  /** An unsigned number is written as the signed one that is the same modulo 2^64. */
  lemma WrapsAround(u: uint64, i: int64)
    ensures AsInt64(u) == i <==> (u - i) % 0x1_0000_0000_0000_0000 == 0
  {
  }
}
