/** `NodeGetByKey` run by any number of threads for the same key of one node: each reads the key,
    creates a node if it must, and tries to put it in with `CompareExchange`, again and again. The
    steps of different threads interleave at will; nobody else writes the key and nobody vetoes. */
module CreateOnce {
  import opened Wrappers
  import opened XValues

  type Id = nat
  type Thread = nat

  datatype Kind = MapKind | ArrayKind

  // What all threads ask for: a node of this kind (or of any), and whether another value may be
  // replaced by it.
  datatype Request = Request(want: Option<Kind>, convert: bool)

  datatype Phase =
    | Starting
    | Have(xval: XValue, mine: Option<Id>, fails: nat)
    | Trying(expected: XValue, node: Id, fails: nat)
    | Returned(result: Option<Id>)

  // `slot` is the value under the key (empty when missing or erased), `next` the next address to be
  // given to a created node, `stored` the created nodes that were ever put in.
  datatype State = State(slot: XValue, kind: map<Id, Kind>, next: Id, phase: map<Thread, Phase>, stored: seq<Id>)

  // A thread starts; reads the key; decides what to do with what it has; tries the exchange.
  datatype Action = Start(t: Thread) | Read(t: Thread) | Decide(t: Thread) | Exchange(t: Thread)

  predicate Enabled(s: State, a: Action) {
    match a
    case Start(t) => t !in s.phase
    case Read(t) => t in s.phase && s.phase[t].Starting?
    case Decide(t) => t in s.phase && s.phase[t].Have?
    case Exchange(t) => t in s.phase && s.phase[t].Trying?
  }

  // A node of the kind that is asked for.
  predicate Suits(s: State, r: Request, x: XValue) {
    x.Object? && x.addr in s.kind && (r.want == None || r.want == Some(s.kind[x.addr]))
  }

  // A node as the threads create it: of the kind that is asked for, or a map.
  predicate IsMade(s: State, r: Request, n: Id) {
    n in s.kind && s.kind[n] == if r.want.Some? then r.want.value else MapKind
  }

  function Step(s: State, r: Request, a: Action): State
    requires Enabled(s, a)
  {
    match a
    case Start(t) => s.(phase := s.phase[t := Starting])
    case Read(t) => s.(phase := s.phase[t := Have(s.slot, None, 0)])
    case Decide(t) =>
      var p := s.phase[t];
      if Suits(s, r, p.xval) then s.(phase := s.phase[t := Returned(Some(p.xval.addr))])
      else if !p.xval.IsEmpty() && !r.convert then s.(phase := s.phase[t := Returned(None)])
      else if p.mine.Some? then s.(phase := s.phase[t := Trying(p.xval, p.mine.value, p.fails)])
      else
        s.(kind := s.kind[s.next := r.want.GetOr(MapKind)], next := s.next + 1,
           phase := s.phase[t := Trying(p.xval, s.next, p.fails)])
    case Exchange(t) =>
      var p := s.phase[t];
      if !s.slot.IsEmpty() then
        if Eq(s.slot, p.expected) then Stored(s, t, p.node)
        else s.(phase := s.phase[t := Have(s.slot, Some(p.node), p.fails + 1)])
      else if !p.expected.IsEmpty() then s.(phase := s.phase[t := Have(Empty, Some(p.node), p.fails + 1)])
      else Stored(s, t, p.node)
  }

  function Stored(s: State, t: Thread, node: Id): State {
    s.(slot := Object(node), phase := s.phase[t := Returned(Some(node))], stored := s.stored + [node])
  }

  ghost predicate Runs(s: State, r: Request, acts: seq<Action>, u: State)
    decreases |acts|
  {
    if acts == [] then s == u
    else Enabled(s, acts[0]) && Runs(Step(s, r, acts[0]), r, acts[1..], u)
  }

  // Before any thread runs, with some value under the key.
  predicate Initial(s: State) {
    && s.phase == map[] && s.stored == []
    && (s.slot.IsObject() ==> s.slot.addr < s.next)
    && (forall n | n in s.kind :: n < s.next)
  }

  // ----- the invariant -----

  // What the threads read may be the value of the beginning or the stored node.
  predicate Seen(s: State, first: XValue, x: XValue) {
    x == first || (s.stored != [] && x == Object(s.stored[0]))
  }

  // The value of the beginning is given back, refused, or to be replaced by a created node.
  predicate Creates(s: State, r: Request, first: XValue) {
    !Suits(s, r, first) && (first.IsEmpty() || r.convert)
  }

  ghost predicate PhaseOk(s: State, r: Request, first: XValue, p: Phase) {
    match p
    case Starting => true
    case Have(x, mine, fails) =>
      Seen(s, first, x) && fails <= 1 && (fails == 1 ==> s.stored != [] && x == Object(s.stored[0]))
      && (mine.Some? ==> fails == 1)
    case Trying(x, node, fails) =>
      Creates(s, r, first) && x == first && fails == 0
      && IsMade(s, r, node) && Object(node) != first && node !in s.stored
      && (first.IsObject() ==> node != first.addr)
    case Returned(None) => !Suits(s, r, first) && !Creates(s, r, first)
    case Returned(Some(n)) => if Creates(s, r, first) then s.stored == [n] else first == Object(n) && Suits(s, r, first)
  }

  predicate StoredOk(s: State, r: Request, first: XValue)
    requires s.stored != []
  {
    && s.stored == [s.stored[0]] && s.slot == Object(s.stored[0]) && IsMade(s, r, s.stored[0])
    && Creates(s, r, first) && (first.IsObject() ==> s.stored[0] != first.addr)
  }

  ghost predicate Inv(s: State, r: Request, first: XValue) {
    && (forall n | n in s.kind :: n < s.next)
    && (first.IsObject() ==> first.addr < s.next)
    && (s.stored == [] ==> s.slot == first)
    && (s.stored != [] ==> StoredOk(s, r, first))
    && (forall t, u {:trigger s.phase[t], s.phase[u]} |
          t in s.phase && u in s.phase && t != u && s.phase[t].Trying? && s.phase[u].Trying? ::
          s.phase[t].node != s.phase[u].node)
    && forall t | t in s.phase :: PhaseOk(s, r, first, s.phase[t])
  }

  lemma SameSuits(s: State, u: State, r: Request)
    requires u.kind == s.kind
    ensures forall x :: Suits(u, r, x) == Suits(s, r, x)
  {
  }

  lemma SamePhaseOk(s: State, u: State, r: Request, first: XValue, p: Phase)
    requires PhaseOk(s, r, first, p) && u == s.(phase := u.phase)
    ensures PhaseOk(u, r, first, p)
  {
  }

  // A thread may go to any phase that is right, other than trying to store.
  lemma PhaseKeepsInv(s: State, r: Request, first: XValue, t: Thread, p: Phase)
    requires Inv(s, r, first) && !p.Trying? && PhaseOk(s, r, first, p)
    ensures Inv(s.(phase := s.phase[t := p]), r, first)
  {
    hide PhaseOk;
    var u := s.(phase := s.phase[t := p]);
    SameSuits(s, u, r);
    forall v | v in u.phase ensures PhaseOk(u, r, first, u.phase[v]) { SamePhaseOk(s, u, r, first, u.phase[v]); }
  }

  lemma StartReadKeepInv(s: State, r: Request, first: XValue, a: Action)
    requires Inv(s, r, first) && Enabled(s, a) && (a.Start? || a.Read?)
    ensures Inv(Step(s, r, a), r, first)
  {
    PhaseKeepsInv(s, r, first, a.t, Step(s, r, a).phase[a.t]);
  }

  lemma DecideKeepsInv(s: State, r: Request, first: XValue, t: Thread)
    requires Inv(s, r, first) && Enabled(s, Decide(t))
    ensures Inv(Step(s, r, Decide(t)), r, first)
  {
    var p := s.phase[t];
    assert PhaseOk(s, r, first, p);
    if Suits(s, r, p.xval) || (!p.xval.IsEmpty() && !r.convert) {
      var back := Returned(if Suits(s, r, p.xval) then Some(p.xval.addr) else None);
      assert Step(s, r, Decide(t)) == s.(phase := s.phase[t := back]);
      assert PhaseOk(s, r, first, back);
      PhaseKeepsInv(s, r, first, t, back);
    } else {
      CreationKeepsInv(s, r, first, t);
    }
  }

  // Only a thread that has read the value of the beginning gets to create a node.
  lemma CreationKeepsInv(s: State, r: Request, first: XValue, t: Thread)
    requires Inv(s, r, first) && Enabled(s, Decide(t)) && PhaseOk(s, r, first, s.phase[t])
    requires !Suits(s, r, s.phase[t].xval) && (s.phase[t].xval.IsEmpty() || r.convert)
    ensures Inv(Step(s, r, Decide(t)), r, first)
  {
    var p := s.phase[t];
    assert p.xval == first && p.mine.None? && p.fails == 0;
    var u := s.(kind := s.kind[s.next := r.want.GetOr(MapKind)], next := s.next + 1,
                phase := s.phase[t := Trying(first, s.next, 0)]);
    assert Step(s, r, Decide(t)) == u;
    OlderSuits(s, u, r, first);
    if s.stored != [] { OlderSuits(s, u, r, s.slot); }
    hide Suits, Step, Enabled;
    forall v | v in u.phase ensures PhaseOk(u, r, first, u.phase[v]) {
      if v != t { OlderPhase(s, u, r, first, s.phase[v]); }
    }
  }

  lemma OlderSuits(s: State, u: State, r: Request, x: XValue)
    requires (forall n | n in s.kind :: n < s.next) && (x.IsObject() ==> x.addr < s.next)
    requires u.kind == s.kind[s.next := r.want.GetOr(MapKind)]
    ensures Suits(u, r, x) == Suits(s, r, x)
  {
  }

  // Creating one more node does not matter to the other threads.
  lemma OlderPhase(s: State, u: State, r: Request, first: XValue, p: Phase)
    requires PhaseOk(s, r, first, p) && (first.IsObject() ==> first.addr < s.next)
    requires (forall n | n in s.kind :: n < s.next)
    requires u.kind == s.kind[s.next := r.want.GetOr(MapKind)] && u.stored == s.stored
    ensures PhaseOk(u, r, first, p)
  {
  }

  // The exchange of a thread that is trying finds the value of the beginning, and stores, or finds
  // the stored node, and fails.
  lemma ExchangeKeepsInv(s: State, r: Request, first: XValue, t: Thread)
    requires Inv(s, r, first) && Enabled(s, Exchange(t))
    ensures Inv(Step(s, r, Exchange(t)), r, first)
  {
    hide Suits;
    var u := Step(s, r, Exchange(t));
    SameSuits(s, u, r);
    var p := s.phase[t];
    assert PhaseOk(s, r, first, p);
    if s.stored == [] {
      assert u == Stored(s, t, p.node);
    } else {
      assert u == s.(phase := s.phase[t := Have(s.slot, Some(p.node), 1)]);
    }
    forall v | v in u.phase && v != t ensures PhaseOk(u, r, first, u.phase[v]) {
      assert PhaseOk(s, r, first, s.phase[v]);
    }
  }

  lemma StepKeepsInv(s: State, r: Request, first: XValue, a: Action)
    requires Inv(s, r, first) && Enabled(s, a)
    ensures Inv(Step(s, r, a), r, first)
  {
    match a
    case Decide(t) => DecideKeepsInv(s, r, first, t);
    case Exchange(t) => ExchangeKeepsInv(s, r, first, t);
    case _ => StartReadKeepInv(s, r, first, a);
  }

  lemma {:induction false} RunKeepsInv(s: State, r: Request, first: XValue, acts: seq<Action>, u: State)
    requires Inv(s, r, first) && Runs(s, r, acts, u)
    ensures Inv(u, r, first)
    decreases |acts|
  {
    if acts != [] {
      StepKeepsInv(s, r, first, acts[0]);
      RunKeepsInv(Step(s, r, acts[0]), r, first, acts[1..], u);
    }
  }

  // ----- what callers rely on -----

  /** Under every interleaving all threads that have returned got the same answer, and at most one of
      the created nodes was ever stored; if the key had to get a node, that stored node is what all of
      them got and what the key holds, and it is of the kind that is asked for, or a map; otherwise
      all got the node of the beginning if it suits, or nothing. */
  lemma AllGetTheSameNode(s: State, r: Request, acts: seq<Action>, u: State)
    requires Initial(s) && Runs(s, r, acts, u)
    ensures forall t, v | t in u.phase && v in u.phase && u.phase[t].Returned? && u.phase[v].Returned? ::
              u.phase[t].result == u.phase[v].result
    ensures |u.stored| <= 1
    ensures Creates(s, r, s.slot) ==> forall t | t in u.phase && u.phase[t].Returned? ::
              u.phase[t].result.Some? && u.stored == [u.phase[t].result.value]
              && u.slot == Object(u.phase[t].result.value) && IsMade(u, r, u.phase[t].result.value)
    ensures !Creates(s, r, s.slot) ==> u.stored == [] && u.slot == s.slot
    ensures !Creates(s, r, s.slot) ==> forall t | t in u.phase && u.phase[t].Returned? ::
              u.phase[t].result == if Suits(s, r, s.slot) then Some(s.slot.addr) else None
  {
    RunKeepsInv(s, r, s.slot, acts, u);
    KindsStay(s, r, acts, u);
    forall t | t in u.phase && u.phase[t].Returned? ensures PhaseOk(u, r, s.slot, u.phase[t]) {}
  }

  /** A thread's exchange fails at most once: after a failure it has the stored node in hand, and its
      next decision returns it. */
  lemma FailsAtMostOnce(s: State, r: Request, acts: seq<Action>, u: State, t: Thread)
    requires Initial(s) && Runs(s, r, acts, u) && t in u.phase
    ensures u.phase[t].Trying? ==> u.phase[t].fails == 0
    ensures u.phase[t].Have? && u.phase[t].fails > 0 ==>
              u.stored != [] && Step(u, r, Decide(t)).phase[t] == Returned(Some(u.stored[0]))
  {
    RunKeepsInv(s, r, s.slot, acts, u);
    assert PhaseOk(u, r, s.slot, u.phase[t]);
  }

  // Whether the value of the beginning suits does not depend on nodes created later.
  lemma {:induction false} KindsStay(s: State, r: Request, acts: seq<Action>, u: State)
    requires Runs(s, r, acts, u) && forall n | n in s.kind :: n < s.next
    ensures s.next <= u.next
    ensures forall n | n < s.next :: (n in s.kind <==> n in u.kind) && (n in s.kind ==> u.kind[n] == s.kind[n])
    decreases |acts|
  {
    if acts != [] { KindsStay(Step(s, r, acts[0]), r, acts[1..], u); }
  }
}
