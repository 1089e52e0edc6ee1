/**
 The output stream over a HIDL port. The stream code sees a port only through the calls both ports
 offer, so a run of the stream over the AIDL port is one over the HIDL port as long as every callback
 it hears is one the HIDL interface can deliver.
 */
module HidlStream {
  import opened AudioPort
  import opened HidlPort
  import opened OutputStream

  /** The HIDL interface has no status for a reconfiguration. */
  predicate Audible(a: Action) {
    a.Heard? && a.callback.ControlResultCallback? ==> !a.callback.status.Reconfiguration?
  }

  function HidlStatusOf(s: Status): HidlStatus
    requires !s.Reconfiguration?
  {
    match s
    case UnknownStatus => HidlUnknown
    case Success => HidlSuccess
    case UnsupportedCodec => HidlUnsupportedCodec
    case Failure => HidlFailure
  }

  /** What a step of a stream does to a HIDL port. */
  function CallsOf(s: Stream, a: Action): seq<HidlEvent>
    requires Audible(a)
  {
    var state := s.port.state;
    match a
    case Heard(ControlResultCallback(from, status)) => [HidlControlResult(from, HidlStatusOf(status))]
    case Heard(SessionChangedCallback(from)) => [HidlSessionChanged(from)]
    case SuspendDispatch(accepted) => if state == Started then [HidlSuspend(accepted)] else []
    case ResumeDispatch(accepted) => if state == Standby then [HidlStart(accepted)] else []
    case Woken => [HidlWakeUp]
    case A2dpSuspendOn(accepted) =>
      if !IsA2dp(s.port) || state == Disabled then [] else if state == Started then [HidlSuspend(accepted)] else [HidlStop]
    case A2dpSuspendDone => if IsA2dp(s.port) then [HidlSetState(Disabled)] else []
    case A2dpSuspendOff => if IsA2dp(s.port) && state == Disabled then [HidlSetState(Standby)] else []
    case CloseParam => if state == Disabled then [] else [HidlStop]
    case CloseStream => if state == Disabled then [HidlTearDown] else [HidlStop, HidlTearDown]
    case _ => []
  }

  function CallsOfRun(s: Stream, actions: seq<Action>): seq<HidlEvent>
    requires forall i :: 0 <= i < |actions| ==> Audible(actions[i])
    decreases |actions|
  {
    if actions == [] then [] else CallsOf(s, actions[0]) + CallsOfRun(Apply(s, actions[0]), actions[1..])
  }

  lemma NoCall(h: Proxy)
    ensures HidlAfter(h, []) == h
  {
  }

  lemma OneCall(h: Proxy, he: HidlEvent)
    ensures HidlAfter(h, [he]) == HidlStep(h, he).0
  {
    assert HidlAfter(HidlStep(h, he).0, [he][1..]) == HidlStep(h, he).0;
  }

  lemma {:induction false} CallsConcat(h: Proxy, a: seq<HidlEvent>, b: seq<HidlEvent>)
    ensures HidlAfter(h, a + b) == HidlAfter(HidlAfter(h, a), b)
    decreases |a|
  {
    if a == [] {
      assert a + b == b;
    } else {
      assert (a + b)[1..] == a[1..] + b;
      CallsConcat(HidlStep(h, a[0]).0, a[1..], b);
    }
  }

  /** Closing the stream stops the port, if need be, and tears it down. */
  lemma CloseOverHidl(s: Stream, h: Proxy)
    requires Same(s.port, h)
    ensures Same(Apply(s, CloseStream).port, HidlAfter(h, CallsOf(s, CloseStream)))
  {
    if s.port.state != Disabled {
      CallsConcat(h, [HidlStop], [HidlTearDown]);
      OneCall(h, HidlStop);
      OneCall(HidlStep(h, HidlStop).0, HidlTearDown);
      assert [HidlStop] + [HidlTearDown] == CallsOf(s, CloseStream);
    } else {
      OneCall(h, HidlTearDown);
    }
  }

  lemma ActionOverHidl(s: Stream, h: Proxy, a: Action)
    requires Same(s.port, h) && Audible(a)
    ensures Same(Apply(s, a).port, HidlAfter(h, CallsOf(s, a)))
  {
    hide HidlAfter;
    if a.CloseStream? {
      CloseOverHidl(s, h);
    } else if CallsOf(s, a) == [] {
      NoCall(h);
    } else if CallsOf(s, a) != [] {
      OneCall(h, CallsOf(s, a)[0]);
    }
  }

  lemma CallsSetNothingUp(s: Stream, a: Action)
    requires Audible(a)
    ensures NoBroadcast(CallsOf(s, a))
  {
  }

  lemma {:induction false} SameAfterRun(s: Stream, h: Proxy, actions: seq<Action>)
    requires Same(s.port, h) && forall i :: 0 <= i < |actions| ==> Audible(actions[i])
    ensures Same(RunActions(s, actions).port, HidlAfter(h, CallsOfRun(s, actions)))
    ensures NoBroadcast(CallsOfRun(s, actions))
    decreases |actions|
  {
    hide Apply, CallsOf;
    if actions != [] {
      ActionOverHidl(s, h, actions[0]);
      var calls := CallsOf(s, actions[0]);
      CallsSetNothingUp(s, actions[0]);
      SameAfterRun(Apply(s, actions[0]), HidlAfter(h, calls), actions[1..]);
      CallsConcat(h, calls, CallsOfRun(Apply(s, actions[0]), actions[1..]));
    }
  }

  /** Every run of a stream that hears only what the HIDL interface can deliver is a run over a HIDL
      port: the calls of the run, made on a HIDL port, keep step with the AIDL port call for call, in
      state and in result, and end in the state of the stream's port. So the theorems about all runs
      of streams hold over either port. */
  lemma RunOverHidl(s: Stream, h: Proxy, actions: seq<Action>)
    requires Same(s.port, h) && forall i :: 0 <= i < |actions| ==> Audible(actions[i])
    ensures var calls := CallsOfRun(s, actions);
            && InStep(s.port, h, EventsOf(calls), calls)
            && After(s.port, EventsOf(calls)) == RunActions(s, actions).port
            && Same(RunActions(s, actions).port, HidlAfter(h, calls))
  {
    SameAfterRun(s, h, actions);
    HidlRunIsAidlRun(s.port, h, CallsOfRun(s, actions));
  }

  // ----- what the calls of the stream return

  predicate HidlCallback(he: HidlEvent) {
    he.HidlControlResult? || he.HidlSessionChanged?
  }

  /** `Start` or `Suspend` of a HIDL port up to its return. */
  function HidlPortCall(h: Proxy, request: HidlEvent, callbacks: seq<HidlEvent>): (Proxy, bool) {
    var (h1, r) := HidlStep(h, request);
    if r.Returned? then (h1, r.ok)
    else
      var (h2, r2) := HidlStep(HidlAfter(h1, callbacks), HidlWakeUp);
      (h2, r2.Returned? && r2.ok)
  }

  /** A start or a suspension asked of a HIDL port returns to the stream what it would return from an
      AIDL port, so `out_resume`, `out_standby` and `out_write` return the same over either. */
  lemma PortCallOverHidl(s: Stream, h: Proxy, request: HidlEvent, callbacks: seq<HidlEvent>)
    requires Same(s.port, h) && (request.HidlStart? || request.HidlSuspend?)
    requires forall i :: 0 <= i < |callbacks| ==> HidlCallback(callbacks[i])
    ensures var (s', ok) := PortCall(s, EventOf(request), EventsOf(callbacks));
            var (h', hidlOk) := HidlPortCall(h, request, callbacks);
            Same(s'.port, h') && ok == hidlOk && s' == s.(port := s'.port)
  {
    hide Step, HidlStep;
    var p1, h1 := Step(s.port, EventOf(request)).0, HidlStep(h, request).0;
    StepAlike(s.port, h, EventOf(request), request);
    HidlRunIsAidlRun(p1, h1, callbacks);
    StepAlike(After(p1, EventsOf(callbacks)), HidlAfter(h1, callbacks), WakeUpFrom, HidlWakeUp);
  }
}
