/** The change callbacks of a node (`XNodeCallbacks`): listeners are asked in the order of their
    ids, may veto, and may ask to be removed; after a veto those asked before are told to roll back. */
module Callbacks {
  import opened Wrappers
  import opened XValues
  import Clock
  import Order

  // A value with the time stamp it was given (`XValueRT`).
  datatype Timed = Timed(v: XValue, time: int)

  datatype Reason = Changes | ChangesNoDiscard | Rollback

  datatype Event = Event(reason: Reason, key: string, from: Timed, to: Timed)

  // A listener answers each event by what it has been told so far, the event included: true to
  // allow, false to veto, None to be removed. The log is what it has been told.
  datatype Listener = Listener(decide: seq<Event> -> Option<bool>, log: seq<Event>)

  type Listeners = map<nat, Listener>

  function Answer(l: Listener, e: Event): Option<bool> {
    l.decide(l.log + [e])
  }

  function Told(l: Listener, e: Event): Listener {
    l.(log := l.log + [e])
  }

  // ----- what a round of callbacks comes to -----

  function Vetoers(ls: Listeners, e: Event): set<nat> {
    set u | u in ls && Answer(ls[u], e) == Some(false)
  }

  // Whether the change may go on: nobody vetoes, or nobody is asked.
  predicate Allowed(ls: Listeners, e: Event) {
    e.reason == ChangesNoDiscard || Vetoers(ls, e) == {}
  }

  function Undo(e: Event): Event {
    Event(Rollback, e.key, e.to, e.from)
  }

  // The listeners after the round. Without a veto all are told and the expired ones go. With one,
  // those before the first vetoer are told and rolled back (the expired go as well), the vetoer is
  // told, and those behind it never hear of the change.
  ghost function After(ls: Listeners, e: Event): Listeners {
    if Allowed(ls, e) then map u | u in ls && Answer(ls[u], e).Some? :: Told(ls[u], e)
    else
      var f := Order.Least(Vetoers(ls, e));
      map u | u in ls && (u >= f || Answer(ls[u], e).Some?) ::
        if u < f then Told(Told(ls[u], e), Undo(e)) else if u == f then Told(ls[u], e) else ls[u]
  }

  // ----- a listener that takes part in everything -----

  // Never vetoes and never expires.
  ghost predicate Faithful(l: Listener) {
    forall h :: l.decide(h) == Some(true)
  }

  // What a round tells a faithful listener with id u: the change, the change and its rollback, or
  // nothing.
  ghost function News(ls: Listeners, e: Event, u: nat): seq<Event> {
    if Allowed(ls, e) then [e]
    else
      var f := Order.Least(Vetoers(ls, e));
      if u < f then [e, Undo(e)] else []
  }

  lemma FaithfulHears(ls: Listeners, e: Event, u: nat)
    requires u in ls && Faithful(ls[u])
    ensures u in After(ls, e) && Faithful(After(ls, e)[u])
    ensures After(ls, e)[u].log == ls[u].log + News(ls, e, u)
  {
  }

  // Nobody with a smaller id vetoes, or a veto does not count.
  ghost predicate IsAsked(ls: Listeners, e: Event, u: nat) {
    e.reason == ChangesNoDiscard || forall v | v in ls && v < u :: Answer(ls[v], e) != Some(false)
  }

  /** After a round exactly those are gone that were asked and answered that they be removed. Of the others, who
      was asked has heard of the change, and who allowed one that was vetoed in the end has heard of its rollback. */
  lemma RoundTells(ls: Listeners, e: Event, u: nat)
    requires u in ls
    ensures var after, answer := After(ls, e), Answer(ls[u], e);
            && (u !in after <==> IsAsked(ls, e, u) && answer == None)
            && (u in after ==>
                  && after[u].decide == ls[u].decide
                  && after[u].log ==
                     ls[u].log + if !IsAsked(ls, e, u) then []
                                 else if answer != Some(false) && !Allowed(ls, e) then [e, Undo(e)] else [e])
  {
    hide Answer;
    if Allowed(ls, e) {
      assert forall v | v in ls && Answer(ls[v], e) == Some(false) :: v in Vetoers(ls, e);
    } else {
      var f := Order.Least(Vetoers(ls, e));
      assert forall v | v in ls && Answer(ls[v], e) == Some(false) :: v in Vetoers(ls, e);
      assert u <= f <==> IsAsked(ls, e, u);
      assert (ls[u].log + [e]) + [Undo(e)] == ls[u].log + [e, Undo(e)];
    }
  }

  // ----- the rounds carried out -----

  // Part of the first loop of a round is done: those still to be asked are the last ones, the others have
  // been told of the event, and nobody has vetoed.
  ghost predicate InRound(ls: Listeners, now: Listeners, todo: set<nat>, expired: set<nat>, e: Event) {
    && todo <= ls.Keys == now.Keys
    && (forall u, v | u in todo && v in ls && v !in todo :: v < u)
    && (forall u | u in ls :: now[u] == if u in todo then ls[u] else Told(ls[u], e))
    && expired == (set u | u in ls && u !in todo && Answer(ls[u], e).None?)
    && forall u | u in ls && u !in todo :: e.reason == ChangesNoDiscard || Answer(ls[u], e) != Some(false)
  }

  lemma RoundGoesOn(ls: Listeners, now: Listeners, todo: set<nat>, expired: set<nat>, e: Event, u: nat)
    requires InRound(ls, now, todo, expired, e) && Order.IsLeast(u, todo)
    requires e.reason == ChangesNoDiscard || Answer(ls[u], e) != Some(false)
    ensures InRound(ls, now[u := Told(now[u], e)], todo - {u},
                    if Answer(now[u], e).None? then expired + {u} else expired, e)
  {
    hide Told, Answer;
  }

  lemma NobodyVetoes(ls: Listeners, now: Listeners, expired: set<nat>, e: Event)
    requires InRound(ls, now, {}, expired, e)
    ensures Allowed(ls, e)
  {
    hide Told, Answer;
  }

  lemma RoundIsVetoed(ls: Listeners, now: Listeners, todo: set<nat>, expired: set<nat>, e: Event, u: nat)
    requires InRound(ls, now, todo, expired, e) && Order.IsLeast(u, todo)
    requires e.reason != ChangesNoDiscard && Answer(ls[u], e) == Some(false)
    ensures Order.IsLeast(u, Vetoers(ls, e)) && !Allowed(ls, e)
    ensures forall v | v in ls :: now[u := Told(now[u], e)][v] == if v <= u then Told(ls[v], e) else ls[v]
    ensures expired == set v | v in ls && v < u && Answer(ls[v], e).None?
  {
    hide Told, Answer;
    assert u in Vetoers(ls, e);
  }

  class NodeCallbacks {
    var callbacks: Listeners

    constructor ()
      ensures callbacks == map[]
    {
      callbacks := map[];
    }

    /** `OnChangeAdd`: an id of 0 asks for a fresh one, larger than all in use; `nextUid` is what the
        generator of unique ids gives. */
    method OnChangeAdd(l: Listener, id: nat, nextUid: nat) returns (uid: nat)
      requires 0 !in callbacks && nextUid > 0
      modifies this
      ensures callbacks == old(callbacks)[uid := l]
      ensures uid > 0 && 0 !in callbacks
      ensures if id != 0 then uid == id else forall u | u in old(callbacks) :: u < uid
    {
      uid := id;
      if uid == 0 {
        uid := nextUid;
        if callbacks != map[] {
          var last := Order.Greatest(callbacks.Keys);
          if last + 1 > uid { uid := last + 1; }
        }
      }
      callbacks := callbacks[uid := l];
    }

    // The first loop of a round: ask everyone until somebody vetoes; 0 means nobody did.
    method AskEach(e: Event) returns (failed: nat, expired: set<nat>)
      requires 0 !in callbacks && e.reason != Rollback
      modifies this
      ensures callbacks.Keys == old(callbacks).Keys
      ensures if failed == 0 then Allowed(old(callbacks), e)
              else !Allowed(old(callbacks), e) && Order.IsLeast(failed, Vetoers(old(callbacks), e))
      ensures forall u | u in callbacks ::
                callbacks[u] == if failed == 0 || u <= failed then Told(old(callbacks)[u], e) else old(callbacks)[u]
      ensures expired ==
              set u | u in old(callbacks) && (failed == 0 || u < failed) && Answer(old(callbacks)[u], e).None?
    {
      hide Told, Answer, Allowed;
      ghost var ls := callbacks;
      var todo := callbacks.Keys;
      failed, expired := 0, {};
      while todo != {}
        invariant InRound(ls, callbacks, todo, expired, e) && failed == 0
        decreases todo
      {
        var u := Order.Least(todo);
        var answer := Answer(callbacks[u], e);
        if answer == Some(false) && e.reason != ChangesNoDiscard {
          RoundIsVetoed(ls, callbacks, todo, expired, e, u);
        } else {
          RoundGoesOn(ls, callbacks, todo, expired, e, u);
        }
        callbacks := callbacks[u := Told(callbacks[u], e)];
        if answer.None? {
          expired := expired + {u};
        } else if e.reason != ChangesNoDiscard && !answer.value {
          return u, expired;
        }
        todo := todo - {u};
      }
      NobodyVetoes(ls, callbacks, expired, e);
    }

    /** One round, listener by listener. */
    method DoCallbacks(e: Event) returns (ok: bool)
      requires 0 !in callbacks && e.reason != Rollback
      modifies this
      ensures callbacks == After(old(callbacks), e)
      ensures ok <==> Allowed(old(callbacks), e)
      ensures 0 !in callbacks
    {
      var failed, expired := AskEach(e);
      if failed != 0 { Roll(e, failed); }
      callbacks := callbacks - expired;
      ok := failed == 0;
    }

    // The rollback loop: everyone before the failed listener.
    method Roll(e: Event, failed: nat)
      modifies this
      ensures callbacks.Keys == old(callbacks).Keys
      ensures forall u | u in callbacks ::
                callbacks[u] == if u < failed then Told(old(callbacks)[u], Undo(e)) else old(callbacks)[u]
    {
      var todo := set u | u in callbacks && u < failed;
      ghost var all := todo;
      while todo != {}
        invariant callbacks.Keys == old(callbacks).Keys && todo <= all
        invariant forall u | u in callbacks ::
                    callbacks[u] == if u in all && u !in todo then Told(old(callbacks)[u], Undo(e))
                                    else old(callbacks)[u]
        decreases todo
      {
        var u := Order.Least(todo);
        callbacks := callbacks[u := Told(callbacks[u], Undo(e))];
        todo := todo - {u};
      }
    }
  }
}
