/** Liveness probes over the proxy connection and their cancellation
    (hiveproxy/checklive.go and Proxy.CheckLive of hiveproxy/proxy.go). */
module Probe {
  import opened Wrappers

  // The registry of cancel functions

  /** Contexts are numbered in the order they are made; the flag tells whether one was cancelled. */
  datatype Registry = Registry(cancel: map<nat, nat>, contexts: seq<bool>)
  {
    predicate Valid() { forall id | id in cancel :: cancel[id] < |contexts| }

    /** A new context for a probe; false if the id is in use. */
    function Register(id: nat): (Registry, bool) {
      if id in cancel then (this.(contexts := contexts + [false]), false)
      else (Registry(cancel[id := |contexts|], contexts + [false]), true)
    }

    function Release(id: nat, ctx: nat): Registry
      requires ctx < |contexts|
    {
      Registry(cancel - {id}, contexts[ctx := true])
    }

    function Cancel(id: nat): Registry
      requires Valid()
    {
      if id in cancel then Release(id, cancel[id]) else this
    }
  }

  class ProxyFunctions {
    var cancel: map<nat, nat>
    var contexts: seq<bool>

    function View(): Registry reads this { Registry(cancel, contexts) }

    /** None stands for the panic on a duplicate id. */
    method MakeContext(id: nat) returns (ctx: Option<nat>)
      modifies this
      ensures View() == old(View()).Register(id).0
      ensures ctx == if old(View()).Register(id).1 then Some(|old(contexts)|) else None
    {
      var c := |contexts|;
      contexts := contexts + [false];
      if id in cancel {
        return None;
      }
      cancel := cancel[id := c];
      ctx := Some(c);
    }

    /** The function returned along with a context, called when the probe is over. */
    method Cleanup(id: nat, ctx: nat)
      requires ctx < |contexts|
      modifies this
      ensures View() == old(View()).Release(id, ctx)
    {
      contexts := contexts[ctx := true];
      cancel := cancel - {id};
    }

    method Cancel(id: nat)
      requires View().Valid()
      modifies this
      ensures View() == old(View()).Cancel(id)
    {
      if id in cancel {
        contexts := contexts[cancel[id] := true];
        cancel := cancel - {id};
      }
    }
  }

  // The protocol

  datatype Relay = Waiting | Notified | Stopped

  /** A call of CheckLive in the back end: whether its context is done, its relay, and whether the RPC returned. */
  datatype Call = Call(done: bool, relay: Relay, returned: bool)

  datatype Message = CheckLive(id: nat) | CancelProbe(id: nat)

  /** `wire` holds the messages on their way, handled in any order; `handled` the ones the front end has taken
      up, in that order; `handlers` the probes running there with their contexts. */
  datatype State = State(callID: nat, calls: map<nat, Call>, sent: seq<Message>, wire: set<Message>,
                         handled: seq<Message>, registry: Registry, handlers: map<nat, nat>, panicked: bool)

  /** Sending may fail, and the RPC may return early: on a reply, on a done context or on a broken connection. */
  datatype Event =
    | BeginCall(sends: bool)
    | CallerCancels(id: nat)
    | RelayNotifies(id: nat, sends: bool)
    | CallReturns(id: nat)
    | RelayStops(id: nat)
    | HandleProbe(id: nat)
    | HandleCancel(id: nat)
    | ProbeReturns(id: nat)

  function Init(): State {
    State(0, map[], [], {}, [], Registry(map[], []), map[], false)
  }

  predicate Enabled(s: State, e: Event) {
    match e
    case BeginCall(_) => true
    case CallerCancels(id) => id in s.calls
    case RelayNotifies(id, _) => id in s.calls && s.calls[id].relay == Waiting && s.calls[id].done
    case CallReturns(id) => id in s.calls && !s.calls[id].returned
    case RelayStops(id) => id in s.calls && s.calls[id].relay == Waiting && s.calls[id].returned
    case HandleProbe(id) => CheckLive(id) in s.wire
    case HandleCancel(id) => CancelProbe(id) in s.wire && s.registry.Valid()
    case ProbeReturns(id) => id in s.handlers && s.handlers[id] < |s.registry.contexts|
  }

  function Send(s: State, m: Message, sends: bool): State {
    if sends then s.(sent := s.sent + [m], wire := s.wire + {m}) else s
  }

  function Take(s: State, m: Message): State {
    s.(wire := s.wire - {m}, handled := s.handled + [m])
  }

  function Next(s: State, e: Event): State {
    if !Enabled(s, e) then s else
    match e
    case BeginCall(sends) =>
      var id := s.callID + 1;
      Send(s.(callID := id, calls := s.calls[id := Call(false, Waiting, false)]), CheckLive(id), sends)
    case CallerCancels(id) => s.(calls := s.calls[id := s.calls[id].(done := true)])
    case RelayNotifies(id, sends) =>
      Send(s.(calls := s.calls[id := s.calls[id].(relay := Notified)]), CancelProbe(id), sends)
    case CallReturns(id) => s.(calls := s.calls[id := s.calls[id].(returned := true)])
    case RelayStops(id) => s.(calls := s.calls[id := s.calls[id].(relay := Stopped)])
    case HandleProbe(id) =>
      var (registry, ok) := s.registry.Register(id);
      if ok then Take(s, CheckLive(id)).(registry := registry, handlers := s.handlers[id := |s.registry.contexts|])
      else Take(s, CheckLive(id)).(registry := registry, panicked := true)
    case HandleCancel(id) => Take(s, CancelProbe(id)).(registry := s.registry.Cancel(id))
    case ProbeReturns(id) => s.(registry := s.registry.Release(id, s.handlers[id]), handlers := s.handlers - {id})
  }

  function Run(s: State, events: seq<Event>): State {
    if events == [] then s else Next(Run(s, events[..|events| - 1]), events[|events| - 1])
  }

  // What every interleaving keeps

  /** Ids come from the counter, and a relay sends only for a done context and stops only after the call. */
  predicate CallsCounted(s: State) {
    && (forall id | id in s.calls :: 1 <= id <= s.callID)
    && (forall id | id in s.calls && s.calls[id].relay == Notified :: s.calls[id].done)
    && (forall id | id in s.calls && s.calls[id].relay == Stopped :: s.calls[id].returned)
  }

  predicate NoRepeats(ms: seq<Message>) { forall i, j | 0 <= i < j < |ms| :: ms[i] != ms[j] }

  /** Every message was sent once, by the call with its id, and is either on the wire or was handled once. */
  ghost predicate MessagesOnce(s: State) {
    && NoRepeats(s.sent) && NoRepeats(s.handled)
    && (forall m :: m in s.sent <==> m in s.wire || m in s.handled)
    && (forall m | m in s.wire :: m !in s.handled)
    && (forall m | m in s.sent :: m.id in s.calls && (m.CancelProbe? ==> s.calls[m.id].relay == Notified))
  }

  /** Each running probe has its own context; those registered are the ones whose context is not
      cancelled, and every context of no running probe is cancelled. */
  ghost predicate Matches(r: Registry, handlers: map<nat, nat>) {
    && (forall id | id in handlers :: handlers[id] < |r.contexts|)
    && (forall id, other | id in handlers && other in handlers && id != other :: handlers[id] != handlers[other])
    && (forall id :: id in r.cancel <==> id in handlers && !r.contexts[handlers[id]])
    && (forall id | id in r.cancel :: r.cancel[id] == handlers[id])
    && (forall ctx | 0 <= ctx < |r.contexts| && ctx !in handlers.Values :: r.contexts[ctx])
  }

  ghost predicate Registered(s: State) {
    && !s.panicked && Matches(s.registry, s.handlers)
    && forall id | id in s.handlers :: CheckLive(id) in s.handled
  }

  /** The cancel message of a call was handled after its probe message. */
  predicate CancelledInTime(handled: seq<Message>, id: nat) {
    exists i, j :: 0 <= i < j < |handled| && handled[i] == CheckLive(id) && handled[j] == CancelProbe(id)
  }

  ghost predicate CancelsKnown(s: State) {
    forall id | id in s.handlers && s.handlers[id] < |s.registry.contexts| ::
      s.registry.contexts[s.handlers[id]] <==> CancelledInTime(s.handled, id)
  }

  ghost predicate Inv(s: State) { CallsCounted(s) && MessagesOnce(s) && Registered(s) && CancelsKnown(s) }

  lemma StepKeepsCalls(s: State, e: Event)
    requires CallsCounted(s)
    ensures CallsCounted(Next(s, e))
  {
  }

  lemma SendKeepsMessages(s: State, m: Message, sends: bool)
    requires MessagesOnce(s) && m !in s.sent && m.id in s.calls && (m.CancelProbe? ==> s.calls[m.id].relay == Notified)
    ensures MessagesOnce(Send(s, m, sends))
  {
  }

  lemma TakeKeepsMessages(s: State, m: Message)
    requires MessagesOnce(s) && m in s.wire
    ensures MessagesOnce(Take(s, m))
  {
  }

  lemma BeginKeepsMessages(s: State, sends: bool)
    requires CallsCounted(s) && MessagesOnce(s)
    ensures MessagesOnce(Next(s, BeginCall(sends)))
  {
    var id := s.callID + 1;
    SendKeepsMessages(s.(callID := id, calls := s.calls[id := Call(false, Waiting, false)]), CheckLive(id), sends);
  }

  lemma NotifyKeepsMessages(s: State, id: nat, sends: bool)
    requires MessagesOnce(s) && Enabled(s, RelayNotifies(id, sends))
    ensures MessagesOnce(Next(s, RelayNotifies(id, sends)))
  {
    SendKeepsMessages(s.(calls := s.calls[id := s.calls[id].(relay := Notified)]), CancelProbe(id), sends);
  }

  lemma StepKeepsMessages(s: State, e: Event)
    requires CallsCounted(s) && MessagesOnce(s)
    ensures MessagesOnce(Next(s, e))
  {
    if !Enabled(s, e) {
      return;
    }
    match e
    case BeginCall(sends) => BeginKeepsMessages(s, sends);
    case RelayNotifies(id, sends) => NotifyKeepsMessages(s, id, sends);
    case HandleProbe(id) => TakeKeepsMessages(s, CheckLive(id));
    case HandleCancel(id) => TakeKeepsMessages(s, CancelProbe(id));
    case _ =>
  }

  lemma RegisterMatches(r: Registry, handlers: map<nat, nat>, id: nat)
    requires Matches(r, handlers) && id !in handlers
    ensures r.Register(id).1 && Matches(r.Register(id).0, handlers[id := |r.contexts|])
  {
    var more := handlers[id := |r.contexts|];
    assert more[id] == |r.contexts|;
    forall other | other in handlers ensures handlers[other] in more.Values {
      assert more[other] == handlers[other];
    }
  }

  lemma ReleaseMatches(r: Registry, handlers: map<nat, nat>, id: nat)
    requires Matches(r, handlers) && id in handlers
    ensures Matches(r.Release(id, handlers[id]), handlers - {id})
  {
    var fewer := handlers - {id};
    forall other | other in handlers && other != id ensures other in fewer && handlers[other] in fewer.Values {
      assert fewer[other] == handlers[other];
    }
  }

  lemma CancelMatches(r: Registry, handlers: map<nat, nat>, id: nat)
    requires Matches(r, handlers)
    ensures r.Valid() && Matches(r.Cancel(id), handlers)
  {
  }

  lemma StepKeepsRegistered(s: State, e: Event)
    requires MessagesOnce(s) && Registered(s)
    ensures Registered(Next(s, e))
  {
    if !Enabled(s, e) {
      return;
    }
    match e
    case HandleProbe(id) => RegisterMatches(s.registry, s.handlers, id);
    case HandleCancel(id) => CancelMatches(s.registry, s.handlers, id);
    case ProbeReturns(id) => ReleaseMatches(s.registry, s.handlers, id);
    case _ =>
  }

  lemma HandledOneMore(handled: seq<Message>, m: Message, id: nat)
    ensures CancelledInTime(handled + [m], id)
       <==> CancelledInTime(handled, id) || (m == CancelProbe(id) && CheckLive(id) in handled)
  {
    var more := handled + [m];
    if CancelledInTime(handled, id) {
      var i, j :| 0 <= i < j < |handled| && handled[i] == CheckLive(id) && handled[j] == CancelProbe(id);
      assert more[i] == CheckLive(id) && more[j] == CancelProbe(id);
    }
    if m == CancelProbe(id) && CheckLive(id) in handled {
      var i :| 0 <= i < |handled| && handled[i] == CheckLive(id);
      assert more[i] == CheckLive(id) && more[|handled|] == CancelProbe(id);
    }
  }

  lemma ProbeKeepsCancels(s: State, id: nat)
    requires MessagesOnce(s) && Registered(s) && CancelsKnown(s) && CheckLive(id) in s.wire
    ensures CancelsKnown(Next(s, HandleProbe(id)))
  {
    RegisterMatches(s.registry, s.handlers, id);
    var z := Next(s, HandleProbe(id));
    forall other | other in z.handlers ensures CancelledInTime(z.handled, other) <==> CancelledInTime(s.handled, other) {
      HandledOneMore(s.handled, CheckLive(id), other);
    }
    assert !CancelledInTime(s.handled, id);
  }

  lemma CancelEffect(r: Registry, handlers: map<nat, nat>, id: nat, other: nat)
    requires Matches(r, handlers) && other in handlers
    ensures r.Valid() && |r.Cancel(id).contexts| == |r.contexts|
    ensures r.Cancel(id).contexts[handlers[other]] <==> r.contexts[handlers[other]] || other == id
  {
  }

  lemma CancelKeepsCancels(s: State, id: nat)
    requires Registered(s) && CancelsKnown(s) && CancelProbe(id) in s.wire
    ensures CancelsKnown(Next(s, HandleCancel(id)))
  {
    CancelMatches(s.registry, s.handlers, id);
    var z := Next(s, HandleCancel(id));
    assert z.handlers == s.handlers && z.registry == s.registry.Cancel(id) && z.handled == s.handled + [CancelProbe(id)];
    forall other | other in s.handlers
      ensures |z.registry.contexts| == |s.registry.contexts|
      ensures z.registry.contexts[s.handlers[other]] <==> CancelledInTime(z.handled, other)
    {
      CancelEffect(s.registry, s.handlers, id, other);
      HandledOneMore(s.handled, CancelProbe(id), other);
    }
  }

  lemma StepKeepsCancels(s: State, e: Event)
    requires MessagesOnce(s) && Registered(s) && CancelsKnown(s)
    ensures CancelsKnown(Next(s, e))
  {
    if !Enabled(s, e) {
      return;
    }
    match e
    case HandleProbe(id) => ProbeKeepsCancels(s, id);
    case HandleCancel(id) => CancelKeepsCancels(s, id);
    case _ =>
  }

  lemma StepKeepsInv(s: State, e: Event)
    requires Inv(s)
    ensures Inv(Next(s, e))
  {
    StepKeepsCalls(s, e);
    StepKeepsMessages(s, e);
    StepKeepsRegistered(s, e);
    StepKeepsCancels(s, e);
  }

  lemma {:induction false} RunKeepsInv(events: seq<Event>)
    ensures Inv(Run(Init(), events))
  {
    if events != [] {
      RunKeepsInv(events[..|events| - 1]);
      StepKeepsInv(Run(Init(), events[..|events| - 1]), events[|events| - 1]);
    }
  }

  // Over whole runs

  /** The panic on a duplicate id is never reached, and the registered ids are those of the running probes
      whose cancel message was not handled since they began. */
  lemma RegisteredExactly(events: seq<Event>, id: nat)
    ensures var s := Run(Init(), events);
      && !s.panicked
      && (id in s.registry.cancel <==> id in s.handlers && !CancelledInTime(s.handled, id))
      && (id in s.handlers ==> id in s.calls)
  {
    RunKeepsInv(events);
  }

  /** A call sends its probe and its cancel message at most once, the latter only when its context is done. */
  lemma OneCancelPerCall(events: seq<Event>)
    ensures var s := Run(Init(), events);
      && NoRepeats(s.sent) && NoRepeats(s.handled)
      && (forall m | m in s.handled :: m in s.sent)
      && forall id | CancelProbe(id) in s.sent :: id in s.calls && s.calls[id].done
  {
    RunKeepsInv(events);
  }

  /** A cancel message changes no context but that of the running probe with its id, which it does cancel. */
  lemma CancelHitsOwnProbeOnly(events: seq<Event>, id: nat)
    ensures var s := Run(Init(), events); var t := Next(s, HandleCancel(id));
      && t.handlers == s.handlers && |t.registry.contexts| == |s.registry.contexts|
      && (forall ctx | 0 <= ctx < |s.registry.contexts| && t.registry.contexts[ctx] != s.registry.contexts[ctx] ::
            id in s.handlers && ctx == s.handlers[id])
      && (id in s.handlers && CancelProbe(id) in s.wire ==>
            s.handlers[id] < |t.registry.contexts| && t.registry.contexts[s.handlers[id]])
  {
    RunKeepsInv(events);
  }

  /** A probe that is over has no entry, and when none is running every context has been released. */
  lemma NothingLeftBehind(events: seq<Event>)
    ensures var s := Run(Init(), events);
      && (forall id | id in s.registry.cancel :: id in s.handlers)
      && (s.handlers == map[] ==> s.registry.cancel == map[] && forall ctx | 0 <= ctx < |s.registry.contexts| :: s.registry.contexts[ctx])
  {
    RunKeepsInv(events);
  }

  // Cancellation can be lost

  /** The probe is running and its context is cancelled. */
  ghost predicate Cancelled(s: State, id: nat) {
    id in s.handlers && s.handlers[id] < |s.registry.contexts| && s.registry.contexts[s.handlers[id]]
  }

  /** The probe was taken up, no cancel message for it was handled since, none is on the wire, and the relay
      that could send one is done: it sent too early, failed to send, or stopped. */
  ghost predicate Hopeless(s: State, id: nat) {
    && CheckLive(id) in s.handled && !CancelledInTime(s.handled, id) && CancelProbe(id) !in s.wire
    && id in s.calls && s.calls[id].relay != Waiting
  }

  lemma StepKeepsHopeless(s: State, e: Event, id: nat)
    requires Inv(s) && Hopeless(s, id)
    ensures Hopeless(Next(s, e), id)
  {
    if e.HandleProbe? {
      HandledOneMore(s.handled, CheckLive(e.id), id);
    } else if e.HandleCancel? {
      HandledOneMore(s.handled, CancelProbe(e.id), id);
    }
  }

  /** In no later state is such a probe cancelled while it runs. */
  lemma {:induction false} HopelessForGood(s: State, later: seq<Event>, id: nat)
    requires Inv(s) && Hopeless(s, id)
    ensures Inv(Run(s, later)) && Hopeless(Run(s, later), id) && !Cancelled(Run(s, later), id)
    decreases |later|
  {
    if later != [] {
      HopelessForGood(s, later[..|later| - 1], id);
      StepKeepsInv(Run(s, later[..|later| - 1]), later[|later| - 1]);
      StepKeepsHopeless(Run(s, later[..|later| - 1]), later[|later| - 1], id);
    }
  }

  /** A cancel message on the wire cancels the running probe when it is handled. */
  lemma HandlingCancels(s: State, id: nat)
    requires Inv(s) && id in s.handlers && CancelProbe(id) in s.wire
    ensures Cancelled(Next(s, HandleCancel(id)), id)
  {
    CancelMatches(s.registry, s.handlers, id);
  }

  /** What is left to do for the probe to be cancelled, if its cancellation is not hopeless. */
  function Remedy(s: State, id: nat): seq<Event> {
    if CancelProbe(id) in s.wire then [HandleCancel(id)]
    else if id in s.calls && s.calls[id].relay == Waiting then [CallerCancels(id), RelayNotifies(id, true), HandleCancel(id)]
    else []
  }

  /** A waiting relay can still be made to send. */
  lemma WaitingRelayCancels(s: State, id: nat)
    requires Inv(s) && id in s.handlers && id in s.calls && s.calls[id].relay == Waiting
    ensures Cancelled(Next(Next(Next(s, CallerCancels(id)), RelayNotifies(id, true)), HandleCancel(id)), id)
  {
    var s1 := Next(s, CallerCancels(id));
    StepKeepsInv(s, CallerCancels(id));
    StepKeepsInv(s1, RelayNotifies(id, true));
    HandlingCancels(Next(s1, RelayNotifies(id, true)), id);
  }

  lemma NotHopeless(s: State, id: nat)
    requires Inv(s) && id in s.handlers && !Hopeless(s, id)
    ensures id in s.calls && (CancelProbe(id) in s.wire || s.calls[id].relay == Waiting || Cancelled(s, id))
  {
    assert CheckLive(id) in s.sent;
  }

  lemma RemedyCancels(s: State, id: nat)
    requires Inv(s) && id in s.handlers && !Hopeless(s, id)
    ensures Cancelled(Run(s, Remedy(s, id)), id)
  {
    NotHopeless(s, id);
    if CancelProbe(id) in s.wire {
      RunOfOne(s, HandleCancel(id));
      HandlingCancels(s, id);
    } else if s.calls[id].relay == Waiting {
      RunOfThree(s, CallerCancels(id), RelayNotifies(id, true), HandleCancel(id));
      WaitingRelayCancels(s, id);
    }
  }

  lemma RunOfOne(s: State, e: Event)
    ensures Run(s, [e]) == Next(s, e)
  {
    assert [e][..0] == [];
  }

  lemma RunOfThree(s: State, e1: Event, e2: Event, e3: Event)
    ensures Run(s, [e1, e2, e3]) == Next(Next(Next(s, e1), e2), e3)
  {
    assert [e1, e2, e3][..2] == [e1, e2] && [e1, e2][..1] == [e1] && [e1][..0] == [];
    RunOfOne(s, e1);
    assert Run(s, [e1, e2]) == Next(Next(s, e1), e2);
  }

  ghost predicate Cancellable(s: State, id: nat) { exists later :: Cancelled(Run(s, later), id) }

  lemma CancellableFrom(s: State, id: nat)
    requires Inv(s) && id in s.handlers
    ensures Cancellable(s, id) <==> !Hopeless(s, id)
  {
    if Hopeless(s, id) {
      forall later ensures !Cancelled(Run(s, later), id) { HopelessForGood(s, later, id); }
    } else {
      RemedyCancels(s, id);
      var later := Remedy(s, id);
      assert Cancelled(Run(s, later), id);
    }
  }

  /** In every reachable state, a running probe can still be cancelled in some continuation exactly if its
      cancellation is not hopeless. */
  lemma CancellableExactly(events: seq<Event>, id: nat)
    requires id in Run(Init(), events).handlers
    ensures Cancellable(Run(Init(), events), id) <==> !Hopeless(Run(Init(), events), id)
  {
    RunKeepsInv(events);
    CancellableFrom(Run(Init(), events), id);
  }

  /** The three ways of losing a cancellation, each with its caller's context done and the probe still running. */
  ghost predicate LostCancel(s: State, id: nat) {
    Hopeless(s, id) && s.calls[id].done && id in s.handlers
  }

  /** The cancel message is handled before its probe. */
  lemma EarlyCancelIsLost()
    ensures LostCancel(Run(Init(), [BeginCall(true), CallerCancels(1), RelayNotifies(1, true), HandleCancel(1), HandleProbe(1)]), 1)
  {
    Prefixes([BeginCall(true), CallerCancels(1), RelayNotifies(1, true), HandleCancel(1), HandleProbe(1)]);
  }

  /** The call returns on its done context before the relay sees it, so that no cancel message is sent. */
  lemma CancelMayNotBeSent()
    ensures LostCancel(Run(Init(), [BeginCall(true), HandleProbe(1), CallerCancels(1), CallReturns(1), RelayStops(1)]), 1)
  {
    Prefixes([BeginCall(true), HandleProbe(1), CallerCancels(1), CallReturns(1), RelayStops(1)]);
  }

  /** Sending the cancel message fails, which the relay ignores. */
  lemma CancelMayFailToSend()
    ensures LostCancel(Run(Init(), [BeginCall(true), HandleProbe(1), CallerCancels(1), RelayNotifies(1, false), CallReturns(1)]), 1)
  {
    Prefixes([BeginCall(true), HandleProbe(1), CallerCancels(1), RelayNotifies(1, false), CallReturns(1)]);
  }

  lemma Prefixes(es: seq<Event>)
    requires |es| == 5
    ensures Run(Init(), es) == Next(Next(Next(Next(Next(Init(), es[0]), es[1]), es[2]), es[3]), es[4])
  {
    assert es[..4][..3] == es[..3] && es[..3][..2] == es[..2] && es[..2][..1] == es[..1] && es[..1][..0] == [];
    assert Run(Init(), es[..1]) == Next(Init(), es[0]);
    assert Run(Init(), es[..2]) == Next(Run(Init(), es[..1]), es[1]);
    assert Run(Init(), es[..3]) == Next(Run(Init(), es[..2]), es[2]);
    assert Run(Init(), es[..4]) == Next(Run(Init(), es[..3]), es[3]);
  }
}
