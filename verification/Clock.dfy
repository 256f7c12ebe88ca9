/** The lock-free unique clock (`Monotonic::Next`): a state machine whose steps are the atomic
    accesses of any number of threads to the shared counter. Overflow of the 64-bit counter is not
    modelled. */
module Clock {
  import opened Wrappers

  // The smallest 64-bit integer: the initial counter, and the mark of an absent time stamp.
  const ABSENT := -0x8000_0000_0000_0000

  type Thread = nat

  // Where a thread stands. `since` is the length of the history when its call began.
  datatype Phase =
    | Called(arg: int, since: nat)
    | Looping(arg: int, since: nat, nextMin: int, val: int)
    | Done(arg: int, since: nat, val: int)

  // A call that has returned.
  datatype Return = Return(thread: Thread, arg: int, since: nat, val: int)

  // `granted` lists the values in the order in which their exchange succeeded. Threads outside a
  // call are not in `phase`.
  datatype State = State(prev: int, phase: map<Thread, Phase>, granted: seq<int>, history: seq<Return>)

  // One atomic step of a thread: to begin a call, to do the fetch-add, to try the exchange, to return.
  datatype Action = Begin(t: Thread, arg: int) | FetchAdd(t: Thread) | Exchange(t: Thread) | Leave(t: Thread)

  function Max(a: int, b: int): int { if a < b then b else a }

  const INITIAL := State(ABSENT, map[], [], [])

  predicate Enabled(s: State, a: Action) {
    match a
    case Begin(t, _) => t !in s.phase
    case FetchAdd(t) => t in s.phase && s.phase[t].Called?
    case Exchange(t) => t in s.phase && s.phase[t].Looping?
    case Leave(t) => t in s.phase && s.phase[t].Done?
  }

  function Step(s: State, a: Action): State
    requires Enabled(s, a)
  {
    match a
    case Begin(t, arg) => s.(phase := s.phase[t := Called(arg, |s.history|)])
    case FetchAdd(t) =>
      var nextMin := s.prev + 1;
      var p := s.phase[t];
      s.(prev := s.prev + 1, phase := s.phase[t := Looping(p.arg, p.since, nextMin, Max(p.arg, nextMin))])
    case Exchange(t) =>
      var p := s.phase[t];
      if s.prev == p.nextMin then
        s.(prev := p.val, phase := s.phase[t := Done(p.arg, p.since, p.val)], granted := s.granted + [p.val])
      else
        s.(phase := s.phase[t := Looping(p.arg, p.since, s.prev, Max(s.prev + 1, p.val))])
    case Leave(t) =>
      var p := s.phase[t];
      s.(phase := s.phase - {t}, history := s.history + [Return(t, p.arg, p.since, p.val)])
  }

  ghost predicate Runs(s: State, acts: seq<Action>, u: State)
    decreases |acts|
  {
    if acts == [] then s == u
    else Enabled(s, acts[0]) && Runs(Step(s, acts[0]), acts[1..], u)
  }

  // ----- the invariant -----

  ghost predicate Above(val: int, granted: seq<int>) {
    forall i | 0 <= i < |granted| :: granted[i] < val
  }

  // A thread in the loop has read a value that is not ahead of the counter; if the counter still
  // has that value, the thread's candidate is larger than every value granted so far.
  ghost predicate LoopOk(s: State, t: Thread)
    requires t in s.phase && s.phase[t].Looping?
  {
    var p := s.phase[t];
    && ABSENT < p.nextMin <= s.prev
    && p.nextMin <= p.val
    && p.arg <= p.val
    && (p.nextMin == s.prev ==> Above(p.val, s.granted))
  }

  ghost predicate DoneOk(s: State, arg: int, since: nat, val: int) {
    && arg <= val && ABSENT < val && val in s.granted
    && forall i | 0 <= i < |s.history| && i < since :: s.history[i].val < val
  }

  ghost predicate Inv(s: State) {
    && ABSENT <= s.prev
    && (forall i, j | 0 <= i < j < |s.granted| :: s.granted[i] < s.granted[j])
    && (forall i | 0 <= i < |s.granted| :: s.granted[i] <= s.prev)
    && (forall t | t in s.phase && s.phase[t].Looping? :: LoopOk(s, t))
    && (forall t, u {:trigger s.phase[t], s.phase[u]} |
          t in s.phase && u in s.phase && t != u && s.phase[t].Looping? && s.phase[u].Looping?
          && s.phase[t].val == s.phase[t].nextMin && s.phase[u].val == s.phase[u].nextMin ::
          s.phase[t].nextMin != s.phase[u].nextMin)
    && (forall t | t in s.phase :: s.phase[t].since <= |s.history|)
    && (forall t | t in s.phase && s.phase[t].Done? ::
          DoneOk(s, s.phase[t].arg, s.phase[t].since, s.phase[t].val))
    && (forall t, u {:trigger s.phase[t], s.phase[u]} |
          t in s.phase && u in s.phase && t != u && s.phase[t].Done? && s.phase[u].Done? ::
          s.phase[t].val != s.phase[u].val)
    && HistoryOk(s)
  }

  ghost predicate HistoryOk(s: State) {
    && (forall i | 0 <= i < |s.history| :: s.history[i].since <= i
          && s.history[i].arg <= s.history[i].val && ABSENT < s.history[i].val && s.history[i].val in s.granted)
    && (forall i, j | 0 <= i < j < |s.history| :: s.history[i].val != s.history[j].val)
    && (forall i, j {:trigger s.history[i], s.history[j]} | 0 <= i < j < |s.history| && i < s.history[j].since ::
          s.history[i].val < s.history[j].val)
    && (forall i, t {:trigger s.history[i], s.phase[t]} | 0 <= i < |s.history| && t in s.phase && s.phase[t].Done? ::
          s.history[i].val != s.phase[t].val)
  }

  lemma BeginKeepsInv(s: State, t: Thread, arg: int)
    requires Inv(s) && Enabled(s, Begin(t, arg))
    ensures Inv(Step(s, Begin(t, arg)))
  {
    var u := Step(s, Begin(t, arg));
    forall x | x in u.phase && u.phase[x].Looping? ensures LoopOk(u, x) { assert LoopOk(s, x); }
    forall x | x in u.phase && u.phase[x].Done? ensures DoneOk(u, u.phase[x].arg, u.phase[x].since, u.phase[x].val) {
      assert DoneOk(s, s.phase[x].arg, s.phase[x].since, s.phase[x].val);
    }
  }

  lemma FetchAddKeepsInv(s: State, t: Thread)
    requires Inv(s) && Enabled(s, FetchAdd(t))
    ensures Inv(Step(s, FetchAdd(t)))
  {
    var u := Step(s, FetchAdd(t));
    forall x | x in u.phase && u.phase[x].Looping? ensures LoopOk(u, x) { if x != t { assert LoopOk(s, x); } }
    forall x | x in u.phase && u.phase[x].Done? ensures DoneOk(u, u.phase[x].arg, u.phase[x].since, u.phase[x].val) {
      assert DoneOk(s, s.phase[x].arg, s.phase[x].since, s.phase[x].val);
    }
  }

  lemma FailedExchangeKeepsInv(s: State, t: Thread)
    requires Inv(s) && Enabled(s, Exchange(t)) && s.prev != s.phase[t].nextMin
    ensures Inv(Step(s, Exchange(t)))
  {
    var u := Step(s, Exchange(t));
    assert LoopOk(s, t);
    forall x | x in u.phase && u.phase[x].Looping? ensures LoopOk(u, x) { if x != t { assert LoopOk(s, x); } }
    forall x | x in u.phase && u.phase[x].Done? ensures DoneOk(u, u.phase[x].arg, u.phase[x].since, u.phase[x].val) {
      assert DoneOk(s, s.phase[x].arg, s.phase[x].since, s.phase[x].val);
    }
  }

  lemma GrantKeepsInv(s: State, t: Thread)
    requires Inv(s) && Enabled(s, Exchange(t)) && s.prev == s.phase[t].nextMin
    ensures Inv(Step(s, Exchange(t)))
  {
    var u := Step(s, Exchange(t));
    var v := s.phase[t].val;
    assert LoopOk(s, t) && Above(v, s.granted);
    assert u.granted[|s.granted|] == v;
    forall x | x in u.phase && u.phase[x].Looping? ensures LoopOk(u, x) {
      assert LoopOk(s, x);
      assert s.phase[x].nextMin == u.prev ==> v == s.phase[t].nextMin == s.phase[x].nextMin;
    }
    forall x | x in u.phase && u.phase[x].Done? ensures DoneOk(u, u.phase[x].arg, u.phase[x].since, u.phase[x].val) {
      GrantKeepsDone(s, t, x);
    }
    hide LoopOk, DoneOk;
    GrantIsNew(s, t);
    assert HistoryOk(u);
  }

  lemma GrantKeepsDone(s: State, t: Thread, x: Thread)
    requires Inv(s) && Enabled(s, Exchange(t)) && s.prev == s.phase[t].nextMin
    requires var u := Step(s, Exchange(t)); x in u.phase && u.phase[x].Done?
    ensures var u := Step(s, Exchange(t)); DoneOk(u, u.phase[x].arg, u.phase[x].since, u.phase[x].val)
  {
    var u := Step(s, Exchange(t));
    assert LoopOk(s, t) && u.granted[|s.granted|] == s.phase[t].val;
    if x == t {
      forall i | 0 <= i < |s.history| ensures s.history[i].val < s.phase[t].val {
        assert s.history[i].val in s.granted;
      }
    } else {
      assert DoneOk(s, s.phase[x].arg, s.phase[x].since, s.phase[x].val);
    }
  }

  // Nobody has the granted value yet.
  lemma GrantIsNew(s: State, t: Thread)
    requires Inv(s) && Enabled(s, Exchange(t)) && s.prev == s.phase[t].nextMin
    ensures forall i | 0 <= i < |s.history| :: s.history[i].val < s.phase[t].val
    ensures forall x | x in s.phase && s.phase[x].Done? :: s.phase[x].val < s.phase[t].val
  {
    assert LoopOk(s, t);
    forall i | 0 <= i < |s.history| ensures s.history[i].val < s.phase[t].val { assert s.history[i].val in s.granted; }
    forall x | x in s.phase && s.phase[x].Done? ensures s.phase[x].val < s.phase[t].val {
      assert DoneOk(s, s.phase[x].arg, s.phase[x].since, s.phase[x].val);
    }
  }

  lemma LeaveKeepsHistory(s: State, t: Thread)
    requires Inv(s) && Enabled(s, Leave(t))
    ensures HistoryOk(Step(s, Leave(t)))
  {
    hide LoopOk;
    assert DoneOk(s, s.phase[t].arg, s.phase[t].since, s.phase[t].val);
  }

  lemma LeaveKeepsInv(s: State, t: Thread)
    requires Inv(s) && Enabled(s, Leave(t))
    ensures Inv(Step(s, Leave(t)))
  {
    hide HistoryOk;
    var u := Step(s, Leave(t));
    forall x | x in u.phase && u.phase[x].Looping? ensures LoopOk(u, x) { assert LoopOk(s, x); }
    forall x | x in u.phase && u.phase[x].Done? ensures DoneOk(u, u.phase[x].arg, u.phase[x].since, u.phase[x].val) {
      assert DoneOk(s, s.phase[x].arg, s.phase[x].since, s.phase[x].val);
    }
    LeaveKeepsHistory(s, t);
  }

  lemma StepKeepsInv(s: State, a: Action)
    requires Inv(s) && Enabled(s, a)
    ensures Inv(Step(s, a))
  {
    match a
    case Begin(t, arg) => BeginKeepsInv(s, t, arg);
    case FetchAdd(t) => FetchAddKeepsInv(s, t);
    case Exchange(t) => if s.prev == s.phase[t].nextMin { GrantKeepsInv(s, t); } else { FailedExchangeKeepsInv(s, t); }
    case Leave(t) => LeaveKeepsInv(s, t);
  }

  lemma {:induction false} RunKeepsInv(s: State, acts: seq<Action>, u: State)
    requires Inv(s) && Runs(s, acts, u)
    ensures Inv(u)
    decreases |acts|
  {
    if acts != [] {
      StepKeepsInv(s, acts[0]);
      RunKeepsInv(Step(s, acts[0]), acts[1..], u);
    }
  }

  // ----- what callers rely on -----

  /** Under every interleaving: no two calls return the same value, a call that began after another
      had returned gets a larger value, and every result is at least its argument and never the mark
      of an absent time. */
  lemma CallsAreUniqueAndOrdered(acts: seq<Action>, u: State)
    requires Runs(INITIAL, acts, u)
    ensures forall i, j | 0 <= i < j < |u.history| :: u.history[i].val != u.history[j].val
    ensures forall i, j | 0 <= i < |u.history| && 0 <= j < |u.history| && i < u.history[j].since ::
              u.history[i].val < u.history[j].val
    ensures forall i | 0 <= i < |u.history| :: u.history[i].arg <= u.history[i].val && u.history[i].val != ABSENT
  {
    RunKeepsInv(INITIAL, acts, u);
    assert forall j | 0 <= j < |u.history| :: u.history[j].since <= j;
  }

  /** The values are granted in increasing order, whatever order the calls return in. */
  lemma GrantsIncrease(acts: seq<Action>, u: State)
    requires Runs(INITIAL, acts, u)
    ensures forall i, j | 0 <= i < j < |u.granted| :: u.granted[i] < u.granted[j]
  {
    RunKeepsInv(INITIAL, acts, u);
  }

  /** The shared counter never decreases. */
  lemma CounterNeverDecreases(s: State, a: Action)
    requires Inv(s) && Enabled(s, a)
    ensures s.prev <= Step(s, a).prev
  {
    if a.Exchange? { assert LoopOk(s, a.t); }
  }

  lemma OthersLeavePhase(s: State, a: Action, t: Thread)
    requires Enabled(s, a) && a.t != t && t in s.phase
    ensures t in Step(s, a).phase && Step(s, a).phase[t] == s.phase[t]
  {
  }

  // Some step of the run raised the counter.
  ghost predicate Raised(s: State, acts: seq<Action>)
    decreases |acts|
  {
    acts != [] && Enabled(s, acts[0])
    && (s.prev < Step(s, acts[0]).prev || Raised(Step(s, acts[0]), acts[1..]))
  }

  /** A thread that has just read the counter fails its next exchange exactly when, in between, a
      step of another thread raised the counter: every failure is some other thread's progress. */
  lemma {:induction false} FailureMeansProgress(s: State, acts: seq<Action>, u: State, t: Thread)
    requires Inv(s) && Runs(s, acts, u) && t in s.phase && s.phase[t].Looping? && s.phase[t].nextMin <= s.prev
    requires forall a | a in acts :: a.t != t
    ensures t in u.phase && u.phase[t] == s.phase[t]
    ensures s.prev <= u.prev && (s.prev < u.prev <==> Raised(s, acts))
    ensures s.phase[t].nextMin == s.prev ==> (u.prev != u.phase[t].nextMin <==> Raised(s, acts))
    decreases |acts|
  {
    if acts != [] {
      var v := Step(s, acts[0]);
      StepKeepsInv(s, acts[0]);
      CounterNeverDecreases(s, acts[0]);
      OthersLeavePhase(s, acts[0], t);
      FailureMeansProgress(v, acts[1..], u, t);
    }
  }

  /** A call that runs undisturbed returns the larger of its argument and the counter plus one, and
      leaves the counter at its result. */
  lemma UndisturbedCall(s: State, t: Thread, arg: int)
    requires t !in s.phase
    ensures var s1 := Step(s, Begin(t, arg));
            var s2 := Step(s1, FetchAdd(t));
            var s3 := Step(s2, Exchange(t));
            && s3.prev == Max(arg, s.prev + 1)
            && s3.phase[t] == Done(arg, |s.history|, Max(arg, s.prev + 1))
  {
  }
}
