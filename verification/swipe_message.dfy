/**
 * The throttled "swipe past the edge" message of
 * `src/hooks/TransformViwer/useSwipeMessage.tsx`. Time is a parameter (the
 * value `Date.now()` returns at the call); the one-second hide timer is a due
 * time that fires when the clock reaches it.
 */
module SwipeMessage {
  import opened Wrappers
  import ZoomScreenReaderStore
  import ZoomScreenReaderContext

  /** Minimum gap, in milliseconds, between two accepted requests must exceed this. */
  const THROTTLE_MS: int := 500

  /** How long the message stays up after the last accepted request. */
  const HIDE_AFTER_MS: int := 1000

  /** `showMessage`, `lastMessageTimeRef` and the pending hide timer. */
  datatype MessageState = MessageState(showMessage: bool, lastMessageTime: int, hideTimerDue: Option<int>)

  const Initial: MessageState := MessageState(false, 0, None)

  /** A request at `now` is taken when zoomed and more than 500 ms after the last taken one. */
  predicate Accepts(s: MessageState, isZoomed: bool, now: int)
  {
    isZoomed && now - s.lastMessageTime > THROTTLE_MS
  }

  /** `showSwipeMessage`: shows the message and restarts the hide timer, or does nothing. */
  function Show(s: MessageState, isZoomed: bool, now: int): (t: MessageState)
    ensures Accepts(s, isZoomed, now) ==> t.showMessage && t.lastMessageTime == now && t.hideTimerDue == Some(now + HIDE_AFTER_MS)
    ensures !Accepts(s, isZoomed, now) ==> t == s
  {
    if !isZoomed then s
    else if now - s.lastMessageTime > THROTTLE_MS then MessageState(true, now, Some(now + HIDE_AFTER_MS))
    else s
  }

  /** The clock reaching `now`: a due hide timer hides the message. */
  function Tick(s: MessageState, now: int): (t: MessageState)
    ensures s.hideTimerDue.Some? && s.hideTimerDue.value <= now ==>
      !t.showMessage && t.hideTimerDue == None && t.lastMessageTime == s.lastMessageTime
    ensures !(s.hideTimerDue.Some? && s.hideTimerDue.value <= now) ==> t == s
  {
    match s.hideTimerDue
    case Some(due) => if due <= now then MessageState(false, s.lastMessageTime, None) else s
    case None => s
  }

  /** The effect's cleanup: the pending timer is cleared, the message stays as it is. */
  function Cleanup(s: MessageState): (t: MessageState)
    ensures t.hideTimerDue == None && t.showMessage == s.showMessage && t.lastMessageTime == s.lastMessageTime
  {
    s.(hideTimerDue := None)
  }

  datatype Event = Request(isZoomed: bool, now: int) | ClockAt(now: int) | Unmounted

  function Step(s: MessageState, e: Event): MessageState
  {
    match e
    case Request(isZoomed, now) => Show(s, isZoomed, now)
    case ClockAt(now) => Tick(s, now)
    case Unmounted => Cleanup(s)
  }

  function Run(s: MessageState, events: seq<Event>): MessageState
    decreases |events|
  {
    if events == [] then s else Run(Step(s, events[0]), events[1..])
  }

  /** A pending hide timer always belongs to a visible message and fires a second after the last accepted request. */
  predicate Inv(s: MessageState)
  {
    s.hideTimerDue.Some? ==> s.showMessage && s.hideTimerDue.value == s.lastMessageTime + HIDE_AFTER_MS
  }

  lemma StepKeepsInv(s: MessageState, e: Event)
    requires Inv(s)
    ensures Inv(Step(s, e))
    ensures Step(s, e).lastMessageTime >= s.lastMessageTime
  {
  }

  lemma {:induction false} RunKeepsInv(s: MessageState, events: seq<Event>)
    requires Inv(s)
    ensures Inv(Run(s, events))
    ensures Run(s, events).lastMessageTime >= s.lastMessageTime
    decreases |events|
  {
    if events != [] {
      StepKeepsInv(s, events[0]);
      RunKeepsInv(Step(s, events[0]), events[1..]);
    }
  }

  lemma InitialInv()
    ensures Inv(Initial) && !Initial.showMessage
  {
  }

  /** The times of the requests that were taken, in order. */
  function AcceptedTimes(s: MessageState, events: seq<Event>): seq<int>
    decreases |events|
  {
    if events == [] then []
    else
      var rest := AcceptedTimes(Step(s, events[0]), events[1..]);
      match events[0]
      case Request(isZoomed, now) => if Accepts(s, isZoomed, now) then [now] + rest else rest
      case _ => rest
  }

  /** Every request taken later lies more than 500 ms after the last one taken so far. */
  lemma {:induction false} AcceptedAfterLast(s: MessageState, events: seq<Event>)
    ensures forall k :: 0 <= k < |AcceptedTimes(s, events)| ==>
      AcceptedTimes(s, events)[k] > s.lastMessageTime + THROTTLE_MS
    decreases |events|
  {
    if events != [] {
      var t := Step(s, events[0]);
      assert t.lastMessageTime >= s.lastMessageTime by {
        match events[0]
        case Request(z, now) =>
        case ClockAt(now) =>
        case Unmounted =>
      }
      AcceptedAfterLast(t, events[1..]);
    }
  }

  /** Any two requests taken are more than 500 ms apart: the message is throttled. */
  lemma {:induction false} AcceptedTimesSpaced(s: MessageState, events: seq<Event>)
    ensures forall j, k :: 0 <= j < k < |AcceptedTimes(s, events)| ==>
      AcceptedTimes(s, events)[k] - AcceptedTimes(s, events)[j] > THROTTLE_MS
    decreases |events|
  {
    if events != [] {
      var t := Step(s, events[0]);
      var rest := AcceptedTimes(t, events[1..]);
      AcceptedTimesSpaced(t, events[1..]);
      match events[0]
      case Request(z, now) =>
        if Accepts(s, z, now) {
          AcceptedAfterLast(t, events[1..]);
          assert t.lastMessageTime == now;
          var a := AcceptedTimes(s, events);
          assert a == [now] + rest;
          forall j, k | 0 <= j < k < |a|
            ensures a[k] - a[j] > THROTTLE_MS
          {
            if j == 0 {
              assert a[k] == rest[k - 1];
            } else {
              assert a[k] == rest[k - 1] && a[j] == rest[j - 1];
            }
          }
        }
      case ClockAt(now) =>
      case Unmounted =>
    }
  }

  /** While its timer is not yet due, the message stays visible. */
  lemma VisibleUntilDue(s: MessageState, now: int)
    requires Inv(s) && s.hideTimerDue.Some? && now < s.hideTimerDue.value
    ensures Tick(s, now).showMessage
  {
  }

  /** Requests made while not zoomed are all refused: the message never shows and its state never moves. */
  lemma {:induction false} UnzoomedNeverShown(s: MessageState, events: seq<Event>)
    requires forall i :: 0 <= i < |events| && events[i].Request? ==> !events[i].isZoomed
    ensures AcceptedTimes(s, events) == []
    ensures s == Initial ==> Run(s, events) == Initial
    decreases |events|
  {
    if events != [] {
      var rest := events[1..];
      assert forall i :: 0 <= i < |rest| ==> rest[i] == events[i + 1];
      UnzoomedNeverShown(Step(s, events[0]), rest);
      assert s == Initial ==> Step(s, events[0]) == Initial;
    }
  }

  /**
   * The hook's state and refs. The hook reads its zoomed flag from the global
   * store (`ZoomScreenReaderStore`), not from the zoom context.
   */
  class SwipeMessageHook {
    const store: ZoomScreenReaderStore.Store
    var showMessage: bool
    var lastMessageTime: int
    var hideTimerDue: Option<int>

    function State(): MessageState
      reads this
    {
      MessageState(showMessage, lastMessageTime, hideTimerDue)
    }

    constructor (store: ZoomScreenReaderStore.Store)
      ensures this.store == store && State() == Initial
    {
      this.store := store;
      showMessage, lastMessageTime, hideTimerDue := false, 0, None;
    }

    /** `showSwipeMessage` called at time `now`, with the store's zoomed flag. */
    method ShowSwipeMessage(now: int) returns (accepted: bool)
      modifies this
      ensures accepted <==> Accepts(old(State()), store.isZoomed, now)
      ensures State() == Show(old(State()), store.isZoomed, now)
    {
      accepted := ShowIfZoomed(store.isZoomed, now);
    }

    /** `showSwipeMessage` reading instead the context's flag, the one the zoom handlers write. */
    method ShowSwipeMessageFromContext(context: ZoomScreenReaderContext.Provider, now: int) returns (accepted: bool)
      modifies this
      ensures accepted <==> Accepts(old(State()), context.isZoomed, now)
      ensures State() == Show(old(State()), context.isZoomed, now)
    {
      accepted := ShowIfZoomed(context.isZoomed, now);
    }

    /** The body of `showSwipeMessage` for a given zoomed flag. */
    method ShowIfZoomed(isZoomed: bool, now: int) returns (accepted: bool)
      modifies this
      ensures accepted <==> Accepts(old(State()), isZoomed, now)
      ensures State() == Show(old(State()), isZoomed, now)
    {
      accepted := false;
      if !isZoomed {
        return;
      }
      if now - lastMessageTime > THROTTLE_MS {
        showMessage := true;
        lastMessageTime := now;
        if hideTimerDue.Some? {
          hideTimerDue := None;
        }
        hideTimerDue := Some(now + HIDE_AFTER_MS);
        accepted := true;
      }
    }

    /** The clock reaches `now`; the hide timer fires if due. */
    method AdvanceClock(now: int)
      modifies this
      ensures State() == Tick(old(State()), now)
    {
      if hideTimerDue.Some? && hideTimerDue.value <= now {
        showMessage := false;
        hideTimerDue := None;
      }
    }

    method Unmount()
      modifies this
      ensures State() == Cleanup(old(State()))
    {
      if hideTimerDue.Some? {
        hideTimerDue := None;
      }
    }
  }
}
