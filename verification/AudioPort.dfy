/**
 The AIDL device port of the Bluetooth audio HAL (system/audio_bluetooth_hw/device_port_proxy.cc).
 A call that waits on the condition variable is two steps, so that callbacks can come in between.
 */
module AudioPort {
  import opened Options

  datatype StreamState = Disabled | Standby | Starting | Started | Suspending | Unknown

  datatype Status = UnknownStatus | Success | UnsupportedCodec | Failure | Reconfiguration

  datatype Device =
    | A2dp | A2dpHeadphones | A2dpSpeaker | HearingAid
    | BleHeadset | BleSpeaker | BleHeadsetInput | BleBroadcast | OtherDevice

  datatype Session =
    | UnknownSession | A2dpEncoding | HearingAidEncoding
    | LeAudioEncoding | LeAudioDecoding | LeAudioBroadcast

  datatype Waiting = NotWaiting | ForStarted | ForSuspended

  /** A port; `cookie` is `None` while the cookie is undefined, that is while not in use. */
  datatype Port = Port(session: Session, cookie: Option<nat>, state: StreamState, waiting: Waiting)

  /** A port as constructed. */
  const CONSTRUCTED: Port := Port(UnknownSession, None, Disabled, NotWaiting)

  /** The session a device needs, or none if the port does not know the device. */
  function SessionFor(device: Device): Option<Session> {
    match device
    case A2dp => Some(A2dpEncoding)
    case A2dpHeadphones => Some(A2dpEncoding)
    case A2dpSpeaker => Some(A2dpEncoding)
    case HearingAid => Some(HearingAidEncoding)
    case BleHeadset => Some(LeAudioEncoding)
    case BleSpeaker => Some(LeAudioEncoding)
    case BleHeadsetInput => Some(LeAudioDecoding)
    case BleBroadcast => Some(LeAudioBroadcast)
    case OtherDevice => None
  }

  predicate InUse(p: Port) {
    p.cookie.Some?
  }

  predicate IsA2dp(p: Port) {
    p.session.A2dpEncoding?
  }

  /** `ControlResultHandler`: the next state for a status reported in a state. */
  function AfterControlResult(state: StreamState, status: Status): StreamState {
    match state
    case Started =>
      if status.Success? || status.Reconfiguration? then Standby else Started
    case Starting => if status.Success? then Started else Standby
    case Suspending => if status.Success? then Standby else Disabled
    case _ => state
  }

  // ----- the port as an object

  class PortObject {
    var session: Session
    var cookie: Option<nat>
    var state: StreamState
    var waiting: Waiting

    ghost function View(): Port
      reads this
    {
      Port(session, cookie, state, waiting)
    }

    constructor ()
      ensures View() == CONSTRUCTED
    {
      session, cookie, state, waiting := UnknownSession, None, Disabled, NotWaiting;
    }

    /** `ready` and `granted` are the answers of the session control. */
    method SetUp(device: Device, ready: bool, granted: Option<nat>) returns (ok: bool)
      modifies this
      ensures (View(), Returned(ok)) == Step(old(View()), SetUpCall(device, ready, granted))
    {
      var found := SessionFor(device);
      if found.None? {
        return false;
      }
      session := found.value;
      if !ready {
        return false;
      }
      state := Standby;
      cookie := granted;
      return cookie.Some?;
    }

    method TearDown()
      modifies this
      ensures (View(), Nothing) == Step(old(View()), TearDownCall)
    {
      if cookie.None? {
        return;
      }
      cookie := None;
    }

    method ControlResult(from: nat, status: Status)
      modifies this
      ensures (View(), Nothing) == Step(old(View()), ControlResultCallback(from, status))
    {
      if cookie != Some(from) {
        return;
      }
      match state {
        case Started =>
          if status == Success || status == Reconfiguration {
            state := Standby;
          }
        case Starting =>
          state := if status == Success then Started else Standby;
        case Suspending =>
          state := if status == Success then Standby else Disabled;
        case Disabled =>
        case Standby =>
        case Unknown =>
      }
    }

    method SessionChanged(from: nat)
      modifies this
      ensures (View(), Nothing) == Step(old(View()), SessionChangedCallback(from))
    {
      if cookie == Some(from) {
        state := Disabled;
      }
    }

    /** `accepted` is the answer of the session control to the start request. */
    method Start(accepted: bool) returns (now: Option<bool>)
      modifies this
      ensures (View(), if now.Some? then Returned(now.value) else Nothing) ==
              Step(old(View()), StartCall(accepted))
    {
      if cookie.None? {
        return Some(false);
      }
      if state == Standby {
        state := Starting;
        if accepted {
          waiting := ForStarted;
          return None;
        }
      }
      return Some(false);
    }

    method Suspend(accepted: bool) returns (now: Option<bool>)
      modifies this
      ensures (View(), if now.Some? then Returned(now.value) else Nothing) ==
              Step(old(View()), SuspendCall(accepted))
    {
      if cookie.None? {
        return Some(false);
      }
      if state == Started {
        state := Suspending;
        if accepted {
          waiting := ForSuspended;
          return None;
        }
      }
      return Some(false);
    }

    /** The end of `CondwaitState`: the awaited state was left, or the wait timed out. */
    method WakeUp() returns (ok: bool)
      modifies this
      ensures (View(), Returned(ok)) == Step(old(View()), WakeUpFrom)
    {
      ok := (waiting == ForStarted && state == Started) || (waiting == ForSuspended && state == Standby);
      waiting := NotWaiting;
    }

    method Stop()
      modifies this
      ensures (View(), Nothing) == Step(old(View()), StopCall)
    {
      if cookie.Some? {
        state := Disabled;
      }
    }

    method SetState(to: StreamState)
      modifies this
      ensures (View(), Nothing) == Step(old(View()), SetStateCall(to))
    {
      state := to;
    }

    /** The callbacks registered at set-up. */
    method Hear(e: Event)
      requires Callback(e)
      modifies this
      ensures (View(), Nothing) == Step(old(View()), e)
    {
      match e
      case ControlResultCallback(from, status) => ControlResult(from, status);
      case SessionChangedCallback(from) => SessionChanged(from);
    }

    /** The wait of `Start` and `Suspend`: the callbacks heard meanwhile, and the wake-up. */
    method Await(callbacks: seq<Event>) returns (ok: bool)
      requires AllCallbacks(callbacks)
      modifies this
      ensures (View(), Returned(ok)) == Step(After(old(View()), callbacks), WakeUpFrom)
    {
      for i := 0 to |callbacks|
        invariant After(View(), callbacks[i..]) == After(old(View()), callbacks)
      {
        assert callbacks[i..][1..] == callbacks[i + 1..];
        Hear(callbacks[i]);
      }
      assert callbacks[|callbacks|..] == [];
      ok := WakeUp();
    }
  }

  // ----- steps

  datatype Event =
    | SetUpCall(device: Device, ready: bool, granted: Option<nat>)
    | TearDownCall
    | ControlResultCallback(from: nat, status: Status)
    | SessionChangedCallback(from: nat)
    | StartCall(accepted: bool)
    | SuspendCall(accepted: bool)
    | WakeUpFrom
    | StopCall
    | SetStateCall(to: StreamState)

  datatype Result = Nothing | Returned(ok: bool)

  function Step(p: Port, e: Event): (Port, Result) {
    match e
    case SetUpCall(device, ready, granted) =>
      var found := SessionFor(device);
      if found.None? then (p, Returned(false))
      else if !ready then (p.(session := found.value), Returned(false))
      else (p.(session := found.value, state := Standby, cookie := granted), Returned(granted.Some?))
    case TearDownCall => (p.(cookie := None), Nothing)
    case ControlResultCallback(from, status) =>
      (if p.cookie == Some(from) then p.(state := AfterControlResult(p.state, status)) else p, Nothing)
    case SessionChangedCallback(from) =>
      (if p.cookie == Some(from) then p.(state := Disabled) else p, Nothing)
    case StartCall(accepted) =>
      if !InUse(p) || !p.state.Standby? then (p, Returned(false))
      else if accepted then (p.(state := Starting, waiting := ForStarted), Nothing)
      else (p.(state := Starting), Returned(false))
    case SuspendCall(accepted) =>
      if !InUse(p) || !p.state.Started? then (p, Returned(false))
      else if accepted then (p.(state := Suspending, waiting := ForSuspended), Nothing)
      else (p.(state := Suspending), Returned(false))
    case WakeUpFrom =>
      (p.(waiting := NotWaiting),
       Returned((p.waiting.ForStarted? && p.state.Started?) || (p.waiting.ForSuspended? && p.state.Standby?)))
    case StopCall => (if InUse(p) then p.(state := Disabled) else p, Nothing)
    case SetStateCall(to) => (p.(state := to), Nothing)
  }

  function After(p: Port, events: seq<Event>): Port
    decreases |events|
  {
    if events == [] then p else After(Step(p, events[0]).0, events[1..])
  }

  // ----- what a waiting call returns

  predicate Callback(e: Event) {
    e.ControlResultCallback? || e.SessionChangedCallback?
  }

  predicate AllCallbacks(events: seq<Event>) {
    forall i :: 0 <= i < |events| ==> Callback(events[i])
  }

  /** A callback that this port does not ignore for its cookie. */
  predicate Addressed(cookie: nat, e: Event) {
    Callback(e) && e.from == cookie
  }

  function AddressedOnly(cookie: nat, events: seq<Event>): seq<Event> {
    if events == [] then []
    else if Addressed(cookie, events[0]) then [events[0]] + AddressedOnly(cookie, events[1..])
    else AddressedOnly(cookie, events[1..])
  }

  /** The first callback grants the start, and none afterwards ends the stream again. */
  predicate GrantsStart(events: seq<Event>) {
    && events != []
    && events[0].ControlResultCallback? && events[0].status.Success?
    && forall i :: 0 < i < |events| ==>
         && events[i].ControlResultCallback?
         && !events[i].status.Success?
         && !events[i].status.Reconfiguration?
  }

  /** The first callback grants the suspension, and the session does not change. */
  predicate GrantsSuspend(events: seq<Event>) {
    && events != []
    && events[0].ControlResultCallback? && events[0].status.Success?
    && forall i :: 0 < i < |events| ==> events[i].ControlResultCallback?
  }

  lemma {:induction false} IgnoredCallbacks(p: Port, events: seq<Event>)
    requires p.cookie.Some? && AllCallbacks(events)
    ensures After(p, events) == After(p, AddressedOnly(p.cookie.value, events))
    decreases |events|
  {
    if events != [] {
      IgnoredCallbacks(Step(p, events[0]).0, events[1..]);
      if Addressed(p.cookie.value, events[0]) {
        var kept := AddressedOnly(p.cookie.value, events);
        assert kept[1..] == AddressedOnly(p.cookie.value, events[1..]);
      }
    }
  }

  lemma {:induction false} AddressedAreCallbacks(cookie: nat, events: seq<Event>)
    ensures forall i :: 0 <= i < |AddressedOnly(cookie, events)| ==> Addressed(cookie, AddressedOnly(cookie, events)[i])
  {
    if events != [] {
      AddressedAreCallbacks(cookie, events[1..]);
    }
  }

  /** Standby and disabled ports take no notice of control results, and stay stopped. */
  lemma {:induction false} StoppedStays(p: Port, events: seq<Event>)
    requires p.cookie.Some? && (p.state.Standby? || p.state.Disabled?)
    requires forall i :: 0 <= i < |events| ==> Addressed(p.cookie.value, events[i])
    ensures After(p, events) ==
            p.(state := if forall i :: 0 <= i < |events| ==> events[i].ControlResultCallback? then p.state else Disabled)
    decreases |events|
  {
    if events != [] {
      var p' := Step(p, events[0]).0;
      StoppedStays(p', events[1..]);
    }
  }

  predicate SessionChanges(events: seq<Event>) {
    exists i :: 0 <= i < |events| && events[i].SessionChangedCallback?
  }

  lemma {:induction false} CallbacksKeep(p: Port, events: seq<Event>)
    requires AllCallbacks(events)
    ensures var q := After(p, events); q.waiting == p.waiting && q.cookie == p.cookie && q.session == p.session
    decreases |events|
  {
    if events != [] {
      CallbacksKeep(Step(p, events[0]).0, events[1..]);
    }
  }

  /** A change of session disables the port, whatever else is reported. */
  lemma {:induction false} SessionChangeDisables(p: Port, events: seq<Event>)
    requires p.cookie.Some? && SessionChanges(events)
    requires forall i :: 0 <= i < |events| ==> Addressed(p.cookie.value, events[i])
    ensures After(p, events).state.Disabled?
    decreases |events|
  {
    var p' := Step(p, events[0]).0;
    if events[0].SessionChangedCallback? {
      StoppedStays(p', events[1..]);
    } else {
      var i :| 0 <= i < |events| && events[i].SessionChangedCallback?;
      assert events[1..][i - 1].SessionChangedCallback?;
      SessionChangeDisables(p', events[1..]);
    }
  }

  /** An accepted `Start` returns true exactly when the first callback with the port's cookie grants
      it and no later one, before the caller wakes up, ends the stream again. Otherwise the port is
      still starting if nothing was heard, disabled if the session changed, and in standby if not. */
  lemma StartOutcome(p: Port, events: seq<Event>)
    requires InUse(p) && p.state.Standby? && AllCallbacks(events)
    ensures var heard := AddressedOnly(p.cookie.value, events);
            var (p', result) := Step(After(Step(p, StartCall(true)).0, events), WakeUpFrom);
            && result == Returned(GrantsStart(heard))
            && p' == p.(waiting := NotWaiting,
                        state := if heard == [] then Starting
                        else if SessionChanges(heard) then Disabled
                        else if GrantsStart(heard) then Started else Standby)
  {
    var waiting := Step(p, StartCall(true)).0;
    var heard := AddressedOnly(p.cookie.value, events);
    IgnoredCallbacks(waiting, events);
    AddressedAreCallbacks(p.cookie.value, events);
    CallbacksKeep(waiting, heard);
    if SessionChanges(heard) {
      SessionChangeDisables(waiting, heard);
    } else if heard != [] {
      HeardFirst(waiting, heard);
    }
  }

  /** A start in progress is decided by the first callback, if the session does not change. */
  lemma HeardFirst(p: Port, heard: seq<Event>)
    requires p.cookie.Some? && p.state.Starting? && heard != [] && !SessionChanges(heard)
    requires forall i :: 0 <= i < |heard| ==> Addressed(p.cookie.value, heard[i])
    ensures After(p, heard).state == if GrantsStart(heard) then Started else Standby
  {
    var first, rest := Step(p, heard[0]).0, heard[1..];
    assert forall i :: 0 <= i < |rest| ==> rest[i] == heard[i + 1];
    assert forall i :: 0 < i < |heard| ==> heard[i] == rest[i - 1];
    if first.state.Started? {
      StartedThenStandby(first, rest);
    } else {
      StoppedStays(first, rest);
    }
  }

  /** A started port stays started or goes to standby, if the session does not change. */
  lemma {:induction false} StartedThenStandby(p: Port, events: seq<Event>)
    requires p.cookie.Some? && p.state.Started?
    requires forall i :: 0 <= i < |events| ==> Addressed(p.cookie.value, events[i]) && events[i].ControlResultCallback?
    ensures After(p, events).state ==
            if forall i :: 0 <= i < |events| ==>
                 !events[i].status.Success? && !events[i].status.Reconfiguration?
            then Started else Standby
    decreases |events|
  {
    if events != [] {
      var p' := Step(p, events[0]).0;
      if p'.state.Started? {
        StartedThenStandby(p', events[1..]);
      } else {
        StoppedStays(p', events[1..]);
      }
    }
  }

  /** An accepted `Suspend` returns true exactly when the first callback grants it and the session
      does not change before the caller wakes up. Otherwise the port is still suspending if nothing
      was heard, and disabled if anything was. */
  lemma SuspendOutcome(p: Port, events: seq<Event>)
    requires InUse(p) && p.state.Started? && AllCallbacks(events)
    ensures var heard := AddressedOnly(p.cookie.value, events);
            var (p', result) := Step(After(Step(p, SuspendCall(true)).0, events), WakeUpFrom);
            && result == Returned(GrantsSuspend(heard))
            && p' == p.(waiting := NotWaiting,
                        state := if heard == [] then Suspending else if GrantsSuspend(heard) then Standby else Disabled)
  {
    var waiting := Step(p, SuspendCall(true)).0;
    var heard := AddressedOnly(p.cookie.value, events);
    IgnoredCallbacks(waiting, events);
    AddressedAreCallbacks(p.cookie.value, events);
    CallbacksKeep(waiting, heard);
    if heard != [] {
      StoppedStays(Step(waiting, heard[0]).0, heard[1..]);
      assert forall i :: 0 < i < |heard| ==> heard[i] == heard[1..][i - 1];
    }
  }

  // ----- every run

  /** The results of a run. */
  function Results(p: Port, events: seq<Event>): (r: seq<Result>)
    ensures |r| == |events|
    decreases |events|
  {
    if events == [] then [] else [Step(p, events[0]).1] + Results(Step(p, events[0]).0, events[1..])
  }

  /** The event can neither set the port up again nor force a state on it. */
  predicate Ordinary(e: Event) {
    !e.SetUpCall? && !e.SetStateCall?
  }

  /** A port that has been torn down is inert: until it is set up again no event changes it, and no
      call returns true. */
  lemma {:induction false} TornDownIsInert(p: Port, events: seq<Event>)
    requires !InUse(p) && p.waiting.NotWaiting? && forall i :: 0 <= i < |events| ==> Ordinary(events[i])
    ensures After(p, events) == p
    ensures forall i :: 0 <= i < |events| ==> Results(p, events)[i] != Returned(true)
    decreases |events|
  {
    if events != [] {
      TornDownIsInert(p, events[1..]);
    }
  }

  /** So from a tear-down on, whatever the port was doing, provided nobody waits on it. */
  lemma TearDownEndsUse(p: Port, events: seq<Event>)
    requires p.waiting.NotWaiting? && forall i :: 0 <= i < |events| ==> Ordinary(events[i])
    ensures After(p, [TearDownCall] + events) == p.(cookie := None)
    ensures forall i :: 0 < i <= |events| ==> Results(p, [TearDownCall] + events)[i] != Returned(true)
  {
    assert ([TearDownCall] + events)[1..] == events;
    TornDownIsInert(p.(cookie := None), events);
  }

  /** A set-up succeeds if and only if the device is known, its session ready and a cookie granted. A known
      device decides the session even if the set-up fails, an unknown one changes nothing, and a ready
      session leaves the port in standby, in use exactly if it was granted its cookie. */
  lemma SetUpOutcome(p: Port, device: Device, ready: bool, granted: Option<nat>)
    ensures var (p', result) := Step(p, SetUpCall(device, ready, granted));
            && result == Returned(!device.OtherDevice? && ready && granted.Some?)
            && (device.OtherDevice? ==> p' == p)
            && (!device.OtherDevice? ==>
                  && (IsA2dp(p') <==> device in {A2dp, A2dpHeadphones, A2dpSpeaker})
                  && (p'.session.HearingAidEncoding? <==> device == HearingAid)
                  && (p'.session.LeAudioEncoding? <==> device in {BleHeadset, BleSpeaker})
                  && (p'.session.LeAudioDecoding? <==> device == BleHeadsetInput)
                  && (p'.session.LeAudioBroadcast? <==> device == BleBroadcast)
                  && p' == (if ready then Port(p'.session, granted, Standby, p.waiting) else p.(session := p'.session)))
  {
  }

  /** A start or suspension that the session control refuses returns false but leaves the port in between:
      until a callback arrives, no number of further requests gets it out, and all of them return
      false. */
  lemma RefusedRequestBlocks(p: Port, request: Event, events: seq<Event>)
    requires InUse(p)
    requires (request == StartCall(false) && p.state.Standby?) || (request == SuspendCall(false) && p.state.Started?)
    requires forall i :: 0 <= i < |events| ==> events[i].StartCall? || events[i].SuspendCall?
    ensures After(p, [request] + events) == p.(state := if request.StartCall? then Starting else Suspending)
    ensures forall i :: 0 <= i <= |events| ==> Results(p, [request] + events)[i] == Returned(false)
  {
    assert ([request] + events)[1..] == events;
    BlockedStays(Step(p, request).0, events);
  }

  lemma {:induction false} BlockedStays(p: Port, events: seq<Event>)
    requires p.state.Starting? || p.state.Suspending?
    requires forall i :: 0 <= i < |events| ==> events[i].StartCall? || events[i].SuspendCall?
    ensures After(p, events) == p
    ensures forall i :: 0 <= i < |events| ==> Results(p, events)[i] == Returned(false)
    decreases |events|
  {
    if events != [] {
      BlockedStays(p, events[1..]);
    }
  }

  /** A port that was stopped, or whose session changed, stays disabled until it is set up again, and
      no call on it returns true, not even one that was waiting already. */
  lemma {:induction false} DisabledStaysDisabled(p: Port, events: seq<Event>)
    requires p.state.Disabled? && forall i :: 0 <= i < |events| ==> Ordinary(events[i])
    ensures After(p, events).state.Disabled?
    ensures forall i :: 0 <= i < |events| ==> Results(p, events)[i] != Returned(true)
    decreases |events|
  {
    if events != [] {
      DisabledStaysDisabled(Step(p, events[0]).0, events[1..]);
    }
  }

  /** A port is started only as the result of a success reported, with its own cookie, while it was
      starting; since then it has been started all the time. */
  lemma {:induction false} StartedIsGranted(p: Port, events: seq<Event>) returns (i: int)
    requires After(p, events).state.Started? && forall i :: 0 <= i < |events| ==> events[i] != SetStateCall(Started)
    ensures -1 <= i < |events| && (i == -1 ==> p.state.Started?)
    ensures i >= 0 ==>
              var q := After(p, events[..i]);
              q.state.Starting? && q.cookie.Some? && events[i] == ControlResultCallback(q.cookie.value, Success)
    ensures forall k :: i < k <= |events| ==> After(p, events[..k]).state.Started?
    decreases |events|
  {
    if events == [] {
      i := -1;
    } else {
      var p', rest := Step(p, events[0]).0, events[1..];
      var j := StartedIsGranted(p', rest);
      forall k | 0 < k <= |events|
        ensures After(p, events[..k]) == After(p', rest[..k - 1])
      {
        assert events[..k][1..] == rest[..k - 1];
      }
      i := if j >= 0 || !p.state.Started? then j + 1 else -1;
    }
  }
}
