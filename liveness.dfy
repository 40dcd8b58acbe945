/**
 The liveness state machine of `ElasticClient` (`_resolvePing` in lib/ElasticClient.js), as pure
 functions over probe outcomes, and what holds of it over any sequence of probes.

 A probe outcome is an `Option<E>`: `None` for a successful probe, `Some(e)` for a probe that
 failed with the error `e`.
 */
module Liveness {
  import opened Wrappers

  /** The two flags the client keeps about its connection. */
  datatype LivenessState = LivenessState(isActive: bool, isInit: bool)

  /** A freshly constructed client counts as active and still initialising. */
  const Initial := LivenessState(true, true)

  /** The events the client emits. `ready` also passes the wrapped search client, which is the
      same object on every emission and is not modelled. */
  datatype Event<+E> = Ready | Down(error: E)

  /** What resolving one probe does: the next state, and the event emitted, if any. */
  datatype Step<+E> = Step(next: LivenessState, emitted: Option<Event<E>>)

  /** The events a step appends to the client's event log. */
  function AsLog<E>(emitted: Option<Event<E>>): seq<Event<E>>
  {
    if emitted.Some? then [emitted.value] else []
  }

  /** One probe result resolved against the current state. */
  function Resolve<E>(s: LivenessState, failure: Option<E>): (t: Step<E>)
    // events are emitted on transitions and only on transitions
    ensures t.emitted.Some? <==> t.next != s
    // a failed probe emits `down` exactly when the client was active; a successful one emits
    // `ready` exactly when the client was inactive or still initialising
    ensures failure.Some? ==> (t.emitted.Some? <==> s.isActive)
    ensures failure.None? ==> (t.emitted.Some? <==> !s.isActive || s.isInit)
    ensures t.emitted.Some? ==> t.emitted.value == if failure.Some? then Down(failure.value) else Ready
    // afterwards the client is active exactly when the probe succeeded
    ensures t.next.isActive <==> failure.None?
    // a failure leaves `isInit` alone; a success clears it
    ensures failure.Some? ==> t.next.isInit == s.isInit
    ensures failure.None? ==> !t.next.isInit
  {
    match failure
    case Some(e) =>
      if s.isActive then Step(s.(isActive := false), Some(Down(e))) else Step(s, None)
    case None =>
      if !s.isActive || s.isInit then Step(LivenessState(true, false), Some(Ready)) else Step(s, None)
  }

  /** The final state and the events emitted when `outcomes` are resolved one after another. */
  datatype History<+E> = History(state: LivenessState, events: seq<Event<E>>)

  /** Resolves `outcomes` in order, starting from `s`. */
  function Replay<E>(s: LivenessState, outcomes: seq<Option<E>>): (h: History<E>)
    // every probe emits at most one event
    ensures |h.events| <= |outcomes|
    decreases |outcomes|
  {
    if outcomes == [] then History(s, [])
    else
      var before := Replay(s, outcomes[..|outcomes| - 1]);
      var t := Resolve(before.state, outcomes[|outcomes| - 1]);
      History(t.next, before.events + AsLog(t.emitted))
  }

  /** No two neighbouring events in `log` are of the same kind. */
  predicate Alternating<E>(log: seq<Event<E>>)
  {
    forall i :: 0 <= i < |log| - 1 ==> log[i].Ready? != log[i + 1].Ready?
  }

  /** `log` holds no `ready` event. */
  predicate NoReady<E>(log: seq<Event<E>>)
  {
    forall i :: 0 <= i < |log| ==> log[i].Down?
  }

  /** How the state of a client that started in `Initial` relates to the events it has emitted. */
  predicate Consistent<E>(s: LivenessState, log: seq<Event<E>>)
  {
    && Alternating(log)
    && (log == [] ==> s == Initial)
    && (log != [] && log[|log| - 1].Ready? ==> s.isActive && !s.isInit)
    && (log != [] && log[|log| - 1].Down? ==> !s.isActive)
    && (s.isInit <==> NoReady(log))
  }

  /** Resolving one probe keeps the state consistent with the extended event log. */
  lemma ResolveKeepsConsistent<E>(s: LivenessState, log: seq<Event<E>>, failure: Option<E>)
    requires Consistent(s, log)
    ensures Consistent(Resolve(s, failure).next, log + AsLog(Resolve(s, failure).emitted))
  {
    var t := Resolve(s, failure);
    var log' := log + AsLog(t.emitted);
    if t.emitted.Some? {
      assert log'[|log'| - 1] == t.emitted.value;
      assert forall i :: 0 <= i < |log| ==> log'[i] == log[i];
      if failure.None? {
        assert !log'[|log'| - 1].Down?;
      } else {
        assert NoReady(log') <==> NoReady(log);
      }
    } else {
      assert log' == log;
    }
  }

  /** Any sequence of probes keeps the state consistent with the event log. */
  lemma {:induction false} ReplayKeepsConsistent<E>(s: LivenessState, log: seq<Event<E>>, outcomes: seq<Option<E>>)
    requires Consistent(s, log)
    ensures Consistent(Replay(s, outcomes).state, log + Replay(s, outcomes).events)
    decreases |outcomes|
  {
    if outcomes != [] {
      var earlier := outcomes[..|outcomes| - 1];
      ReplayKeepsConsistent(s, log, earlier);
      var before := Replay(s, earlier);
      var t := Resolve(before.state, outcomes[|outcomes| - 1]);
      ResolveKeepsConsistent(before.state, log + before.events, outcomes[|outcomes| - 1]);
      assert log + before.events + AsLog(t.emitted) == log + (before.events + AsLog(t.emitted));
    } else {
      assert log + Replay(s, outcomes).events == log;
    }
  }

  /** From a freshly constructed client, over any sequence of probes: `ready` and `down` strictly
      alternate, `isInit` holds exactly until the first `ready`, no event means no change of state,
      and the last event tells the current state. */
  lemma EventsAlternate<E>(outcomes: seq<Option<E>>)
    ensures Alternating(Replay(Initial, outcomes).events)
    ensures Replay(Initial, outcomes).state.isInit <==> NoReady(Replay(Initial, outcomes).events)
    ensures Replay(Initial, outcomes).events == [] ==> Replay(Initial, outcomes).state == Initial
    ensures var h := Replay(Initial, outcomes);
      h.events != [] ==> (h.state.isActive <==> h.events[|h.events| - 1].Ready?)
  {
    var empty: seq<Event<E>> := [];
    ReplayKeepsConsistent(Initial, empty, outcomes);
    assert empty + Replay(Initial, outcomes).events == Replay(Initial, outcomes).events;
  }

  /** Once cleared, `isInit` never becomes true again. */
  lemma {:induction false} InitNeverReturns<E>(s: LivenessState, outcomes: seq<Option<E>>)
    requires !s.isInit
    ensures !Replay(s, outcomes).state.isInit
    decreases |outcomes|
  {
    if outcomes != [] {
      InitNeverReturns(s, outcomes[..|outcomes| - 1]);
    }
  }

  /** Two consecutive probes with the same kind of outcome (both failed, or both succeeded) never
      both emit an event, whatever came before them. */
  lemma RepeatedOutcomeEmitsOnce<E>(s: LivenessState, outcomes: seq<Option<E>>, a: Option<E>, b: Option<E>)
    requires a.Some? == b.Some?
    ensures |Replay(s, outcomes + [a, b]).events| <= |Replay(s, outcomes).events| + 1
  {
    var withA := outcomes + [a];
    var withBoth := outcomes + [a, b];
    assert withBoth[..|withBoth| - 1] == withA;
    assert withA[..|withA| - 1] == outcomes;
  }

  /** The events of a prefix of the probes are a prefix of the events of all of them. */
  lemma {:induction false} ReplayExtends<E>(s: LivenessState, outcomes: seq<Option<E>>, k: nat)
    requires k <= |outcomes|
    ensures Replay(s, outcomes[..k]).events <= Replay(s, outcomes).events
    decreases |outcomes|
  {
    if k < |outcomes| {
      var earlier := outcomes[..|outcomes| - 1];
      assert earlier[..k] == outcomes[..k];
      ReplayExtends(s, earlier, k);
    } else {
      assert outcomes[..k] == outcomes;
    }
  }

  /** Because a new client counts as active, a failed first probe emits `down` before any `ready`. */
  lemma {:induction false} FirstFailureEmitsDown<E>(outcomes: seq<Option<E>>, e: E)
    requires |outcomes| > 0 && outcomes[0] == Some(e)
    ensures |Replay(Initial, outcomes).events| > 0
    ensures Replay(Initial, outcomes).events[0] == Down(e)
  {
    ReplayExtends(Initial, outcomes, 1);
    var first := outcomes[..1];
    assert first[..0] == [];
    assert Replay(Initial, first).events == [Down(e)];
  }
}
