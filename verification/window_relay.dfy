/** The window-change relay: forwards the inbound session's terminal resizes to
    the outbound session until told to stop.

    The goroutine's `select` over the `done` channel and the resize channel is
    modelled by the order in which the two deliver: a finite sequence of events,
    where `Done` is the completion signal winning the select. Each resize event
    carries what `WindowChange` answers when that resize is forwarded. */
module WindowRelay {
  import opened Outcomes
  import opened Sessions

  datatype Event = Done | Win(window: Window, reply: Outcome)

  /** Why the relay returned. `OutOfEvents` is the end of a finite event
      sequence, where the goroutine would block waiting for more. */
  datatype Stop = StoppedByDone | StoppedBySentinel | ForwardFailed(error: Error) | OutOfEvents

  /** `attempts` lists the sizes passed to `WindowChange`, in order, including
      a final one whose forwarding failed. */
  datatype Relay = Relay(attempts: seq<Window>, stop: Stop)

  /** A 0/0 window: sent only when the inbound session is already dead. */
  predicate IsSentinel(w: Window)
  {
    w.height == 0 && w.width == 0
  }

  /** The relay forwards this event and then waits for the next one. */
  predicate Continues(ev: Event)
  {
    ev.Win? && !IsSentinel(ev.window) && ev.reply.Ok?
  }

  /** The relay calls `WindowChange` for this event. */
  predicate Forwards(ev: Event)
  {
    ev.Win? && !IsSentinel(ev.window)
  }

  /** Index of the event at which the relay returns, or |events| if none does. */
  function StopIndex(events: seq<Event>): (k: nat)
    ensures k <= |events|
    ensures forall j :: 0 <= j < k ==> Continues(events[j])
    ensures k < |events| ==> !Continues(events[k])
  {
    if events == [] || !Continues(events[0]) then 0 else 1 + StopIndex(events[1..])
  }

  /** The stop reason an event the relay does not continue past gives. */
  function StopAt(ev: Event): Stop
  {
    match ev
    case Done => StoppedByDone
    case Win(w, reply) =>
      if IsSentinel(w) then StoppedBySentinel
      else if reply.Err? then ForwardFailed(reply.error)
      else OutOfEvents
  }

  /** The relay as a fold over the events: the reference the loop is checked against. */
  function Fold(events: seq<Event>): Relay
  {
    if events == [] then Relay([], OutOfEvents)
    else
      match events[0]
      case Done => Relay([], StoppedByDone)
      case Win(w, reply) =>
        if w.height == 0 && w.width == 0 then Relay([], StoppedBySentinel)
        else if reply.Err? then Relay([w], ForwardFailed(reply.error))
        else
          var rest := Fold(events[1..]);
          Relay([w] + rest.attempts, rest.stop)
  }

  /** The fold stops at StopIndex: it forwards every event before it with the
      same size, forwards the stopping event too only when that is a real resize
      whose forwarding failed, and reports the stopping event's reason. */
  lemma {:induction false} FoldStopsAtStopIndex(events: seq<Event>)
    ensures var r := Fold(events); var k := StopIndex(events);
      && |r.attempts| == (if k < |events| && Forwards(events[k]) then k + 1 else k)
      && (forall j :: 0 <= j < |r.attempts| ==> r.attempts[j] == events[j].window)
      && r.stop == (if k < |events| then StopAt(events[k]) else OutOfEvents)
  {
    if events != [] && Continues(events[0]) {
      FoldStopsAtStopIndex(events[1..]);
    }
  }

  /** `notifyWindowChanges`: loop over the events, forwarding each real resize. */
  method NotifyWindowChanges(events: seq<Event>) returns (r: Relay)
    ensures r == Fold(events)
    ensures |r.attempts| <= |events|
    ensures forall j :: 0 <= j < |r.attempts| ==> Forwards(events[j]) && r.attempts[j] == events[j].window
  {
    ForwardedArePrefix(events);
    var sent: seq<Window> := [];
    var i := 0;
    while i < |events|
      invariant 0 <= i <= |events|
      invariant Fold(events) == Relay(sent + Fold(events[i..]).attempts, Fold(events[i..]).stop)
    {
      assert events[i..][0] == events[i];
      assert events[i..][1..] == events[i + 1..];
      match events[i]
      case Done =>
        return Relay(sent, StoppedByDone);
      case Win(w, reply) =>
        if w.height == 0 && w.width == 0 {
          return Relay(sent, StoppedBySentinel);
        }
        sent := sent + [w];
        if reply.Err? {
          return Relay(sent, ForwardFailed(reply.error));
        }
      i := i + 1;
    }
    return Relay(sent, OutOfEvents);
  }

  /** What is forwarded is a prefix of the input: the first |attempts| events
      are all real resizes, forwarded with the same height and width. */
  lemma ForwardedArePrefix(events: seq<Event>)
    ensures var r := Fold(events);
      && |r.attempts| <= |events|
      && forall j :: 0 <= j < |r.attempts| ==> Forwards(events[j]) && r.attempts[j] == events[j].window
  {
    FoldStopsAtStopIndex(events);
  }

  /** Nothing is forwarded at or after a `Done` or a 0/0 event, nor after the
      first forward that fails. */
  lemma NothingForwardedPastStop(events: seq<Event>, j: nat)
    requires j < |events|
    ensures events[j].Done? ==> |Fold(events).attempts| <= j
    ensures events[j].Win? && IsSentinel(events[j].window) ==> |Fold(events).attempts| <= j
    ensures Forwards(events[j]) && events[j].reply.Err? ==> |Fold(events).attempts| <= j + 1
  {
    FoldStopsAtStopIndex(events);
    var k := StopIndex(events);
    if !Continues(events[j]) {
      assert k <= j;
    }
  }

  /** Only the exact pair (0, 0) stops the relay: a resize with one zero
      dimension is forwarded like any other. */
  lemma OnlyZeroZeroIsSentinel(w: Window, rest: seq<Event>)
    requires !(w.height == 0 && w.width == 0)
    ensures Fold([Win(w, Ok)] + rest).attempts == [w] + Fold(rest).attempts
    ensures Fold([Win(w, Ok)] + rest).stop == Fold(rest).stop
  {
    assert ([Win(w, Ok)] + rest)[1..] == rest;
  }

  /** A stream of successful real resizes is forwarded in full and in order. */
  lemma {:induction false} AllForwardedWhenNoStop(events: seq<Event>)
    requires forall j :: 0 <= j < |events| ==> Continues(events[j])
    ensures |Fold(events).attempts| == |events|
    ensures Fold(events).stop == OutOfEvents
  {
    if events != [] {
      assert Continues(events[0]);
      AllForwardedWhenNoStop(events[1..]);
    }
  }
}
