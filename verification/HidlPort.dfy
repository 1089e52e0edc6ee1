/**
 The HIDL device port (system/audio_bluetooth_hw/device_port_proxy_hidl.cc), with the session types
 and the status of the HIDL interface, and how it keeps step with the AIDL port when the stack does
 the same things to both.
 */
module HidlPort {
  import opened Options
  import opened AudioPort

  /** `V2_1::SessionType`, as far as a port can select it. */
  datatype SessionType = UnknownType | A2dpSoftware | HearingAidSoftware | LeAudioSoftware | LeAudioDecoded

  /** `V2_0::Status`. */
  datatype HidlStatus = HidlUnknown | HidlSuccess | HidlUnsupportedCodec | HidlFailure

  datatype Proxy = Proxy(sessionType: SessionType, cookie: Option<nat>, state: StreamState, waiting: Waiting)

  datatype HidlEvent =
    | HidlSetUp(device: Device, ready: bool, granted: Option<nat>)
    | HidlTearDown
    | HidlControlResult(from: nat, status: HidlStatus)
    | HidlSessionChanged(from: nat)
    | HidlStart(accepted: bool)
    | HidlSuspend(accepted: bool)
    | HidlWakeUp
    | HidlStop
    | HidlSetState(to: StreamState)

  // ----- the HIDL port

  /** `init_session_type`: the session type, and whether the device is known and its session ready. */
  function InitSessionType(current: SessionType, device: Device, ready: bool): (SessionType, bool) {
    match device
    case A2dp => (A2dpSoftware, ready)
    case A2dpHeadphones => (A2dpSoftware, ready)
    case A2dpSpeaker => (A2dpSoftware, ready)
    case HearingAid => (HearingAidSoftware, ready)
    case BleHeadset => (LeAudioSoftware, ready)
    case BleSpeaker => (LeAudioSoftware, ready)
    case BleHeadsetInput => (LeAudioDecoded, ready)
    case _ => (current, false)
  }

  /** `ControlResultHandler`. */
  function Handled(h: Proxy, status: HidlStatus): Proxy {
    if h.cookie.None? then h
    else match h.state
         case Started => if status == HidlSuccess then h.(state := Standby) else h
         case Starting => h.(state := if status == HidlSuccess then Started else Standby)
         case Suspending => h.(state := if status == HidlSuccess then Standby else Disabled)
         case _ => h
  }

  /** `CondwaitState`: whether the state it ends with is the awaited one. */
  predicate WaitedFor(h: Proxy) {
    match h.waiting
    case ForStarted => h.state == Started
    case ForSuspended => h.state == Standby
    case NotWaiting => false
  }

  function HidlStep(h: Proxy, e: HidlEvent): (Proxy, Result) {
    match e
    case HidlSetUp(device, ready, granted) =>
      var (sessionType, ok) := InitSessionType(h.sessionType, device, ready);
      var h' := h.(sessionType := sessionType);
      if ok then (h'.(state := Standby, cookie := granted), Returned(granted != None)) else (h', Returned(false))
    case HidlTearDown => (if h.cookie.None? then h else h.(cookie := None), Nothing)
    case HidlControlResult(from, status) => (if h.cookie != Some(from) then h else Handled(h, status), Nothing)
    case HidlSessionChanged(from) => (if h.cookie != Some(from) then h else h.(state := Disabled), Nothing)
    case HidlStart(accepted) =>
      if h.cookie.None? then (h, Returned(false))
      else if h.state != Standby then (h, Returned(false))
      else (h.(state := Starting, waiting := if accepted then ForStarted else h.waiting),
            if accepted then Nothing else Returned(false))
    case HidlSuspend(accepted) =>
      if h.cookie.None? then (h, Returned(false))
      else if h.state != Started then (h, Returned(false))
      else (h.(state := Suspending, waiting := if accepted then ForSuspended else h.waiting),
            if accepted then Nothing else Returned(false))
    case HidlWakeUp => (h.(waiting := NotWaiting), Returned(WaitedFor(h)))
    case HidlStop => (if h.cookie.None? then h else h.(state := Disabled), Nothing)
    case HidlSetState(to) => (h.(state := to), Nothing)
  }

  // ----- how the two ports are related

  /** The AIDL session of the same name. */
  function SessionOf(t: SessionType): Session {
    match t
    case UnknownType => UnknownSession
    case A2dpSoftware => A2dpEncoding
    case HearingAidSoftware => HearingAidEncoding
    case LeAudioSoftware => LeAudioEncoding
    case LeAudioDecoded => LeAudioDecoding
  }

  /** The AIDL port and the HIDL port are in the same state. No HIDL port is in the same state as an
      AIDL port of a broadcast session. */
  predicate Same(p: Port, h: Proxy) {
    p.session == SessionOf(h.sessionType) && p.cookie == h.cookie && p.state == h.state && p.waiting == h.waiting
  }

  /** What the stack reports to the two ports on the same occasion: the acknowledgements of
      audio_ctrl_ack.h and client_interface_hidl.h, and for the AIDL-only reconfiguration the HIDL
      success of `SuspendedForReconfiguration` or the HIDL failure of the A2DP encoder. */
  predicate SameReport(a: Status, s: HidlStatus) {
    match a
    case UnknownStatus => s == HidlUnknown
    case Success => s == HidlSuccess
    case UnsupportedCodec => s == HidlUnsupportedCodec
    case Failure => s == HidlFailure
    case Reconfiguration => s == HidlSuccess || s == HidlFailure
  }

  /** The same call, or the same occasion reported. */
  predicate SameEvent(e: Event, he: HidlEvent) {
    match e
    case SetUpCall(device, ready, granted) => he == HidlSetUp(device, ready, granted)
    case TearDownCall => he == HidlTearDown
    case ControlResultCallback(from, status) =>
      he.HidlControlResult? && he.from == from && SameReport(status, he.status)
    case SessionChangedCallback(from) => he == HidlSessionChanged(from)
    case StartCall(accepted) => he == HidlStart(accepted)
    case SuspendCall(accepted) => he == HidlSuspend(accepted)
    case WakeUpFrom => he == HidlWakeUp
    case StopCall => he == HidlStop
    case SetStateCall(to) => he == HidlSetState(to)
  }

  predicate SameEvents(events: seq<Event>, hidl: seq<HidlEvent>) {
    |events| == |hidl| && forall i :: 0 <= i < |events| ==> SameEvent(events[i], hidl[i])
  }

  /** The events on which the ports part: the broadcast device, and a reconfiguration that reaches the
      port while it starts or suspends but is a success for HIDL, or while it is started but is a
      failure for HIDL. */
  predicate Parts(p: Port, e: Event, he: HidlEvent) {
    || (e.SetUpCall? && e.device.BleBroadcast?)
    || (&& e.ControlResultCallback? && he.HidlControlResult? && e.status.Reconfiguration? && p.cookie == Some(e.from)
        && if he.status.HidlSuccess? then p.state.Starting? || p.state.Suspending? else p.state.Started?)
  }

  predicate NeverPart(p: Port, events: seq<Event>, hidl: seq<HidlEvent>)
    requires |events| == |hidl|
    decreases |events|
  {
    events == [] ||
    (!Parts(p, events[0], hidl[0]) && NeverPart(Step(p, events[0]).0, events[1..], hidl[1..]))
  }

  /** The ports go through the same states and return the same results, event for event. */
  predicate InStep(p: Port, h: Proxy, events: seq<Event>, hidl: seq<HidlEvent>)
    requires |events| == |hidl|
    decreases |events|
  {
    && Same(p, h)
    && (events == [] ||
        (&& Step(p, events[0]).1 == HidlStep(h, hidl[0]).1
         && InStep(Step(p, events[0]).0, HidlStep(h, hidl[0]).0, events[1..], hidl[1..])))
  }

  /** Both switches know the same devices, apart from the broadcast device. */
  lemma SetUpAlike(p: Port, h: Proxy, device: Device, ready: bool, granted: Option<nat>)
    requires Same(p, h)
    ensures var (p', r) := Step(p, SetUpCall(device, ready, granted));
            var (h', hr) := HidlStep(h, HidlSetUp(device, ready, granted));
            Same(p', h') && r == hr <==> !device.BleBroadcast?
  {
  }

  /** Both handlers do the same on the same occasion, unless they part. */
  lemma HandledAlike(p: Port, h: Proxy, from: nat, a: Status, s: HidlStatus)
    requires Same(p, h) && SameReport(a, s)
    ensures Same(Step(p, ControlResultCallback(from, a)).0, HidlStep(h, HidlControlResult(from, s)).0)
            <==> !Parts(p, ControlResultCallback(from, a), HidlControlResult(from, s))
  {
  }

  lemma StepAlike(p: Port, h: Proxy, e: Event, he: HidlEvent)
    requires Same(p, h) && SameEvent(e, he)
    ensures Same(Step(p, e).0, HidlStep(h, he).0) && Step(p, e).1 == HidlStep(h, he).1 <==> !Parts(p, e, he)
  {
    hide InitSessionType, SessionFor, Handled, AfterControlResult;
    match e
    case SetUpCall(device, ready, granted) => SetUpAlike(p, h, device, ready, granted);
    case ControlResultCallback(from, status) => HandledAlike(p, h, from, status, he.status);
    case _ =>
  }

  /** From the same state, and over every pair of sequences of calls and of occasions reported, the two
      ports keep step if and only if no event on the way is one they part on. */
  lemma {:induction false} PortsAgreeIff(p: Port, h: Proxy, events: seq<Event>, hidl: seq<HidlEvent>)
    requires Same(p, h) && SameEvents(events, hidl)
    ensures InStep(p, h, events, hidl) <==> NeverPart(p, events, hidl)
    decreases |events|
  {
    hide Step, HidlStep, Parts;
    if events != [] {
      StepAlike(p, h, events[0], hidl[0]);
      if !Parts(p, events[0], hidl[0]) {
        PortsAgreeIff(Step(p, events[0]).0, HidlStep(h, hidl[0]).0, events[1..], hidl[1..]);
      }
    }
  }

  // ----- every HIDL run is an AIDL run

  function StatusOf(s: HidlStatus): Status {
    match s
    case HidlUnknown => UnknownStatus
    case HidlSuccess => Success
    case HidlUnsupportedCodec => UnsupportedCodec
    case HidlFailure => Failure
  }

  /** The AIDL event of the same name. */
  function EventOf(he: HidlEvent): (e: Event)
    ensures SameEvent(e, he)
  {
    match he
    case HidlSetUp(device, ready, granted) => SetUpCall(device, ready, granted)
    case HidlTearDown => TearDownCall
    case HidlControlResult(from, status) => ControlResultCallback(from, StatusOf(status))
    case HidlSessionChanged(from) => SessionChangedCallback(from)
    case HidlStart(accepted) => StartCall(accepted)
    case HidlSuspend(accepted) => SuspendCall(accepted)
    case HidlWakeUp => WakeUpFrom
    case HidlStop => StopCall
    case HidlSetState(to) => SetStateCall(to)
  }

  function EventsOf(hidl: seq<HidlEvent>): (events: seq<Event>)
    ensures SameEvents(events, hidl)
  {
    seq(|hidl|, i requires 0 <= i < |hidl| => EventOf(hidl[i]))
  }

  predicate NoBroadcast(hidl: seq<HidlEvent>) {
    forall i :: 0 <= i < |hidl| ==> hidl[i].HidlSetUp? ==> !hidl[i].device.BleBroadcast?
  }

  function HidlAfter(h: Proxy, hidl: seq<HidlEvent>): Proxy
    decreases |hidl|
  {
    if hidl == [] then h else HidlAfter(HidlStep(h, hidl[0]).0, hidl[1..])
  }

  /** Without the broadcast device every run of the HIDL port is a run of the AIDL port on the events of
      the same name, so what is proved of all AIDL runs holds of it. */
  lemma {:induction false} HidlRunIsAidlRun(p: Port, h: Proxy, hidl: seq<HidlEvent>)
    requires Same(p, h) && NoBroadcast(hidl)
    ensures InStep(p, h, EventsOf(hidl), hidl)
    ensures Same(After(p, EventsOf(hidl)), HidlAfter(h, hidl))
    decreases |hidl|
  {
    hide Step, HidlStep;
    if hidl != [] {
      var e := EventOf(hidl[0]);
      assert !Parts(p, e, hidl[0]);
      StepAlike(p, h, e, hidl[0]);
      assert EventsOf(hidl)[1..] == EventsOf(hidl[1..]);
      HidlRunIsAidlRun(Step(p, e).0, HidlStep(h, hidl[0]).0, hidl[1..]);
    }
  }

  // ----- what the ports differ in

  /** A reconfiguration of LE Audio during a start: the AIDL port falls back to standby, and the HIDL
      port is started. */
  lemma ReconfigurationDuringStartParts(p: Port, h: Proxy, cookie: nat)
    requires Same(p, h) && p.cookie == Some(cookie) && p.state.Starting?
    ensures SameEvent(ControlResultCallback(cookie, Reconfiguration), HidlControlResult(cookie, HidlSuccess))
    ensures Step(p, ControlResultCallback(cookie, Reconfiguration)).0.state.Standby?
    ensures HidlStep(h, HidlControlResult(cookie, HidlSuccess)).0.state.Started?
  {
  }

  // ----- the port as an object

  /** The HIDL object. Its methods are proved against the steps of the AIDL port. */
  class ProxyObject {
    var sessionType: SessionType
    var cookie: Option<nat>
    var state: StreamState
    var waiting: Waiting

    ghost function View(): Proxy
      reads this
    {
      Proxy(sessionType, cookie, state, waiting)
    }

    /** The AIDL port in the same state. */
    ghost function Image(): (p: Port)
      reads this
      ensures Same(p, View())
    {
      Port(SessionOf(sessionType), cookie, state, waiting)
    }

    constructor ()
      ensures Image() == CONSTRUCTED
    {
      sessionType, cookie, state, waiting := UnknownType, None, Disabled, NotWaiting;
    }

    method SetUp(device: Device, ready: bool, granted: Option<nat>) returns (ok: bool)
      modifies this
      ensures !device.BleBroadcast? ==> (Image(), Returned(ok)) == Step(old(Image()), SetUpCall(device, ready, granted))
      ensures device.BleBroadcast? ==> Image() == old(Image()) && !ok
    {
      if device == A2dp || device == A2dpHeadphones || device == A2dpSpeaker {
        sessionType := A2dpSoftware;
      } else if device == HearingAid {
        sessionType := HearingAidSoftware;
      } else if device == BleHeadset || device == BleSpeaker {
        sessionType := LeAudioSoftware;
      } else if device == BleHeadsetInput {
        sessionType := LeAudioDecoded;
      } else {
        return false;
      }
      if !ready {
        return false;
      }
      state := Standby;
      cookie := granted;
      return cookie != None;
    }

    method TearDown()
      modifies this
      ensures Image() == Step(old(Image()), TearDownCall).0
    {
      if cookie != None {
        cookie := None;
      }
    }

    /** On every occasion the port does not part on, whatever the AIDL port would have been told. */
    method ControlResult(from: nat, status: HidlStatus)
      modifies this
      ensures forall a | SameReport(a, status) ::
                Image() == Step(old(Image()), ControlResultCallback(from, a)).0 <==>
                !Parts(old(Image()), ControlResultCallback(from, a), HidlControlResult(from, status))
    {
      if cookie != Some(from) {
        return;
      }
      if state == Started {
        if status == HidlSuccess {
          state := Standby;
        }
      } else if state == Starting {
        state := if status == HidlSuccess then Started else Standby;
      } else if state == Suspending {
        state := if status == HidlSuccess then Standby else Disabled;
      }
    }

    method SessionChanged(from: nat)
      modifies this
      ensures Image() == Step(old(Image()), SessionChangedCallback(from)).0
    {
      if cookie == Some(from) {
        state := Disabled;
      }
    }

    method Start(accepted: bool) returns (now: Option<bool>)
      modifies this
      ensures (Image(), if now.Some? then Returned(now.value) else Nothing) == Step(old(Image()), StartCall(accepted))
    {
      if cookie == None || state != Standby {
        return Some(false);
      }
      state := Starting;
      if !accepted {
        return Some(false);
      }
      waiting := ForStarted;
      return None;
    }

    method Suspend(accepted: bool) returns (now: Option<bool>)
      modifies this
      ensures (Image(), if now.Some? then Returned(now.value) else Nothing) == Step(old(Image()), SuspendCall(accepted))
    {
      if cookie == None || state != Started {
        return Some(false);
      }
      state := Suspending;
      if !accepted {
        return Some(false);
      }
      waiting := ForSuspended;
      return None;
    }

    method WakeUp() returns (ok: bool)
      modifies this
      ensures (Image(), Returned(ok)) == Step(old(Image()), WakeUpFrom)
    {
      ok := if waiting == ForStarted then state == Started else waiting == ForSuspended && state == Standby;
      waiting := NotWaiting;
    }

    method Stop()
      modifies this
      ensures Image() == Step(old(Image()), StopCall).0
    {
      if cookie != None {
        state := Disabled;
      }
    }
  }
}
