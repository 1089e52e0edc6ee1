/**
 The LE Audio start-request handshake: the host transport
 (system/audio_hal_interface/le_audio_software_host_transport.cc, le_audio_software_host.cc), whose
 sink and source are two instances of one protocol, and the transition functions of the HAL
 transport (system/audio_hal_interface/le_audio_software.cc, aidl/le_audio_software_aidl.cc).
 The resume callback of a start request is any sequence of nested responses and session stops,
 and a result.
 */
module StartHandshake {
  import opened Options

  datatype RequestState = Idle | PendingBeforeResume | PendingAfterResume | Confirmed | Canceled

  datatype StartReport = StreamIdle | StreamStarted | StreamCanceled

  datatype Response = Confirm | Cancel

  /** The transport instance. */
  datatype Transport = Transport(request: RequestState, remoteDelayMs: nat, totalBytes: nat)

  /** The static state of one direction; `openings` counts the openings of the data path. */
  datatype Host = Host(instance: Option<Transport>, streamStarted: StartReport, openings: nat)

  /** What can happen inside the resume callback. */
  datatype Nested = Respond(response: Response) | Stop

  // ----- operations

  function SetRequest(h: Host, request: RequestState): Host
    requires h.instance.Some?
  {
    h.(instance := Some(h.instance.value.(request := request)))
  }

  /** `ClearStartRequestState`. */
  function Cleared(h: Host): Host
    requires h.instance.Some?
  {
    h.(instance := Some(h.instance.value.(request := Idle, remoteDelayMs := 0)))
  }

  /** `ConfirmStreamingRequest` and `CancelStreamingRequest` of the host. */
  function Responded(h: Host, r: Response): Host {
    if h.instance.None? then h
    else match h.instance.value.request
         case PendingBeforeResume =>
           if r.Confirm? then SetRequest(h, Confirmed).(openings := h.openings + 1) else SetRequest(h, Canceled)
         case PendingAfterResume =>
           if r.Confirm? then Cleared(h).(openings := h.openings + 1, streamStarted := StreamStarted)
           else Cleared(h).(streamStarted := StreamCanceled)
         case _ => h
  }

  /** `StopSession`. */
  function Stopped(h: Host): Host {
    (if h.instance.Some? then Cleared(h) else h).(streamStarted := StreamIdle)
  }

  function AfterNested(h: Host, nested: seq<Nested>): Host
    decreases |nested|
  {
    if nested == [] then h
    else AfterNested(if nested[0].Stop? then Stopped(h) else Responded(h, nested[0].response), nested[1..])
  }

  /** What the transport makes of the request once the resume callback has returned. */
  function Resolved(request: RequestState, resumed: bool): (RequestState, bool) {
    if !resumed then (Idle, false)
    else match request
         case Confirmed => (Idle, true)
         case Canceled => (Idle, false)
         case _ => (PendingAfterResume, true)
  }

  /** `HostStartRequest` and `PeerStartRequest`. */
  function StartRequested(h: Host, nested: seq<Nested>, resumed: bool): (Host, bool) {
    if h.instance.None? then (h, false)
    else
      var begun := h.(streamStarted := StreamIdle, instance := Some(Transport(PendingBeforeResume, 0, 0)));
      var h1 := AfterNested(begun, nested);
      if h1.instance.None? then (h1, false)
      else
        var (request, ok) := Resolved(h1.instance.value.request, resumed);
        (SetRequest(h1, request), ok)
  }

  /** A request waits for its response. */
  predicate Answerable(h: Host) {
    h.instance.Some? && (h.instance.value.request.PendingBeforeResume? || h.instance.value.request.PendingAfterResume?)
  }

  // ----- the object

  class HostTransport {
    var instance: Option<Transport>
    var streamStarted: StartReport
    var openings: nat

    ghost function View(): Host
      reads this
    {
      Host(instance, streamStarted, openings)
    }

    constructor ()
      ensures View() == Host(None, StreamIdle, 0)
    {
      instance, streamStarted, openings := None, StreamIdle, 0;
    }

    method ConfirmStreamingRequest()
      modifies this
      ensures View() == Responded(old(View()), Confirm)
      ensures openings == old(openings) + if Answerable(old(View())) then 1 else 0
      ensures old(Inv(View())) ==> Inv(View()) && !Answerable(View())
    {
      if instance.None? {
        return;
      }
      match instance.value.request {
        case PendingBeforeResume =>
          instance := Some(instance.value.(request := Confirmed));
          openings := openings + 1;
        case PendingAfterResume =>
          instance := Some(instance.value.(request := Idle, remoteDelayMs := 0));
          openings := openings + 1;
          streamStarted := StreamStarted;
        case Idle =>
        case Confirmed =>
        case Canceled =>
      }
    }

    method CancelStreamingRequest()
      modifies this
      ensures View() == Responded(old(View()), Cancel)
      ensures openings == old(openings) && !Answerable(View())
      ensures old(Inv(View())) ==> Inv(View())
    {
      if instance.None? {
        return;
      }
      match instance.value.request {
        case PendingBeforeResume =>
          instance := Some(instance.value.(request := Canceled));
        case PendingAfterResume =>
          instance := Some(instance.value.(request := Idle, remoteDelayMs := 0));
          streamStarted := StreamCanceled;
        case Idle =>
        case Confirmed =>
        case Canceled =>
      }
    }

    method StopSession()
      modifies this
      ensures View() == Stopped(old(View()))
      ensures openings == old(openings) && !Answerable(View()) && Inv(View())
      ensures streamStarted == StreamIdle && (instance.Some? <==> old(instance).Some?)
      ensures instance.Some? ==> instance.value.request == Idle && instance.value.remoteDelayMs == 0
    {
      if instance.Some? {
        instance := Some(instance.value.(request := Idle, remoteDelayMs := 0));
      }
      streamStarted := StreamIdle;
    }

    method StartRequest(nested: seq<Nested>, resumed: bool) returns (ok: bool)
      modifies this
      ensures (View(), ok) == StartRequested(old(View()), nested, resumed)
      ensures old(instance).None? ==> !ok && View() == old(View())
    {
      if instance.None? {
        return false;
      }
      streamStarted := StreamIdle;
      instance := Some(Transport(PendingBeforeResume, 0, 0));
      ghost var begun := View();
      for i := 0 to |nested|
        invariant instance.Some?
        invariant AfterNested(View(), nested[i..]) == AfterNested(begun, nested)
      {
        assert nested[i..][1..] == nested[i + 1..];
        match nested[i] {
          case Stop => StopSession();
          case Respond(Confirm) => ConfirmStreamingRequest();
          case Respond(Cancel) => CancelStreamingRequest();
        }
      }
      assert nested[|nested|..] == [];
      if resumed {
        if instance.value.request == Confirmed {
          instance := Some(instance.value.(request := Idle));
          return true;
        }
        if instance.value.request == Canceled {
          instance := Some(instance.value.(request := Idle));
          return false;
        }
        instance := Some(instance.value.(request := PendingAfterResume));
        return true;
      }
      instance := Some(instance.value.(request := Idle));
      return false;
    }
  }

  // ----- the host switches and the transition functions of the HAL transport

  /** The four lambdas: the next request state, and whether the request is completed by the response. */
  function Update(r: Response, request: RequestState): (RequestState, bool) {
    match request
    case Idle => (Idle, false)
    case PendingBeforeResume => (if r.Confirm? then Confirmed else Canceled, false)
    case PendingAfterResume => (Idle, true)
    case Confirmed => (Confirmed, false)
    case Canceled => (Canceled, false)
  }

  /** The host switches realise the lambdas' transition; they report through `streamStarted` exactly
      the responses that complete a request, and open the data path on exactly the confirms that
      answer one. */
  lemma SwitchesRealiseLambdas(h: Host, r: Response)
    requires h.instance.Some?
    ensures var request := h.instance.value.request;
            var h' := Responded(h, r);
            && h'.instance.Some? && h'.instance.value.request == Update(r, request).0
            && h'.streamStarted == (if !Update(r, request).1 then h.streamStarted
                                    else if r.Confirm? then StreamStarted else StreamCanceled)
            && h'.openings == h.openings + (if r.Confirm? && Update(r, request).0 != request then 1 else 0)
  {
  }

  datatype Ack = SuccessFinished | Pending | FailureAck

  /** `StartRequest` of the AIDL transport: the final state, the acknowledgement, and whether the
      resume callback was invoked. */
  function AidlStartRequested(request: RequestState, nested: seq<Nested>, resumed: bool): (RequestState, Ack, bool) {
    if request.PendingAfterResume? then (request, Pending, false)
    else
      var end := AidlAfterNested(PendingBeforeResume, nested);
      if !resumed then (Idle, FailureAck, true)
      else match end
           case Confirmed => (Idle, SuccessFinished, true)
           case Canceled => (Idle, FailureAck, true)
           case PendingBeforeResume => (PendingAfterResume, Pending, true)
           case _ => (Idle, FailureAck, true)
  }

  function AidlAfterNested(request: RequestState, nested: seq<Nested>): RequestState
    decreases |nested|
  {
    if nested == [] then request
    else AidlAfterNested(if nested[0].Stop? then Idle else Update(nested[0].response, request).0, nested[1..])
  }

  predicate HasStop(nested: seq<Nested>) {
    exists i :: 0 <= i < |nested| && nested[i].Stop?
  }

  lemma {:induction false} SameAfterNested(h: Host, nested: seq<Nested>)
    requires h.instance.Some?
    ensures var h' := AfterNested(h, nested);
            h'.instance.Some? && h'.instance.value.request == AidlAfterNested(h.instance.value.request, nested)
    decreases |nested|
  {
    if nested != [] {
      var next := if nested[0].Stop? then Stopped(h) else Responded(h, nested[0].response);
      if nested[0].Respond? {
        SwitchesRealiseLambdas(h, nested[0].response);
      }
      SameAfterNested(next, nested[1..]);
    }
  }

  lemma HasStopCons(nested: seq<Nested>)
    requires nested != []
    ensures HasStop(nested) <==> nested[0].Stop? || HasStop(nested[1..])
  {
    if HasStop(nested) && nested[0].Respond? {
      var i :| 0 <= i < |nested| && nested[i].Stop?;
      assert nested[1..][i - 1].Stop?;
    }
    if HasStop(nested[1..]) {
      var i :| 0 <= i < |nested[1..]| && nested[1..][i].Stop?;
      assert nested[i + 1].Stop?;
    }
  }

  /** The response to a request that is being resumed: the first one wins, and a stop clears it. */
  lemma {:induction false} EndOfNested(request: RequestState, nested: seq<Nested>)
    requires !request.PendingAfterResume?
    ensures AidlAfterNested(request, nested) ==
            if HasStop(nested) then Idle
            else if nested == [] || !request.PendingBeforeResume? then request
            else if nested[0] == Respond(Confirm) then Confirmed else Canceled
    decreases |nested|
  {
    if nested != [] {
      var next := if nested[0].Stop? then Idle else Update(nested[0].response, request).0;
      EndOfNested(next, nested[1..]);
      HasStopCons(nested);
    }
  }

  /** The host and the AIDL transport treat a start request alike, in final state and in whether it
      failed, exactly when none was pending already and no session stop falls into a resume that
      succeeds: the host turns such a stopped request into a pending one. */
  lemma HostAgreesWithAidlIff(h: Host, nested: seq<Nested>, resumed: bool)
    requires h.instance.Some?
    ensures var (h', ok) := StartRequested(h, nested, resumed);
            var (request, ack, asked) := AidlStartRequested(h.instance.value.request, nested, resumed);
            h'.instance.Some? &&
            ((h'.instance.value.request == request && ok == !ack.FailureAck? && asked)
             <==> !h.instance.value.request.PendingAfterResume? && !(resumed && HasStop(nested)))
  {
    var begun := h.(streamStarted := StreamIdle, instance := Some(Transport(PendingBeforeResume, 0, 0)));
    SameAfterNested(begun, nested);
    EndOfNested(PendingBeforeResume, nested);
  }

  /** The acknowledgement of the AIDL transport: a request already pending is neither resumed nor changed;
      otherwise success if the first response confirms, pending if there is none, and failure if the
      resume fails, the first response cancels, or the session is stopped meanwhile. */
  lemma AidlRequestOutcome(request: RequestState, nested: seq<Nested>, resumed: bool)
    ensures AidlStartRequested(request, nested, resumed) ==
            if request.PendingAfterResume? then (PendingAfterResume, Pending, false)
            else if resumed && nested == [] then (PendingAfterResume, Pending, true)
            else if resumed && !HasStop(nested) && nested[0] == Respond(Confirm) then (Idle, SuccessFinished, true)
            else (Idle, FailureAck, true)
  {
    EndOfNested(PendingBeforeResume, nested);
  }

  // ----- one request

  function Responses(rs: seq<Response>): seq<Nested> {
    if rs == [] then [] else [Respond(rs[0])] + Responses(rs[1..])
  }

  function RespondedAll(h: Host, rs: seq<Response>): Host
    decreases |rs|
  {
    if rs == [] then h else RespondedAll(Responded(h, rs[0]), rs[1..])
  }

  /** Once nothing is pending, no number of responses changes anything. */
  lemma {:induction false} LaterResponsesChangeNothing(h: Host, rs: seq<Response>)
    requires !Answerable(h)
    ensures RespondedAll(h, rs) == h && AfterNested(h, Responses(rs)) == h
    decreases |rs|
  {
    if rs != [] {
      assert Responses(rs)[1..] == Responses(rs[1..]);
      LaterResponsesChangeNothing(h, rs[1..]);
    }
  }

  /** The responses during the resume callback: only the first counts. */
  lemma DecidedDuring(h: Host, during: seq<Response>, resumed: bool)
    requires h.instance.Some?
    ensures var (h1, ok) := StartRequested(h, Responses(during), resumed);
            && ok == (resumed && (during == [] || during[0].Confirm?))
            && h1.instance.Some? && h1.streamStarted.StreamIdle?
            && h1.instance.value.request == (if during == [] && resumed then PendingAfterResume else Idle)
            && h1.openings == h.openings + if during != [] && during[0].Confirm? then 1 else 0
  {
    var begun := h.(streamStarted := StreamIdle, instance := Some(Transport(PendingBeforeResume, 0, 0)));
    if during != [] {
      assert Responses(during)[1..] == Responses(during[1..]);
      LaterResponsesChangeNothing(Responded(begun, during[0]), during[1..]);
    }
  }

  /** The responses after it: only the first counts, and only if the request is still pending. */
  lemma DecidedLater(h: Host, later: seq<Response>)
    requires h.instance.Some? && (h.instance.value.request.Idle? || h.instance.value.request.PendingAfterResume?)
    ensures var h' := RespondedAll(h, later);
            if h.instance.value.request.Idle? || later == [] then h' == h
            else && h'.instance.Some? && h'.instance.value.request.Idle?
                 && h'.streamStarted == (if later[0].Confirm? then StreamStarted else StreamCanceled)
                 && h'.openings == h.openings + if later[0].Confirm? then 1 else 0
  {
    if h.instance.value.request.Idle? {
      LaterResponsesChangeNothing(h, later);
    } else if later != [] {
      LaterResponsesChangeNothing(Responded(h, later[0]), later[1..]);
    }
  }

  /** A start request, with any number of responses during the resume callback and any number after
      it, is decided by the first of them alone: that one determines the result, the report to the
      audio server and whether the data path is opened, once. A false resume ends the request. */
  lemma RequestDecidedByFirstResponse(h: Host, during: seq<Response>, resumed: bool, later: seq<Response>)
    requires h.instance.Some?
    ensures var (h1, ok) := StartRequested(h, Responses(during), resumed);
            var h2 := RespondedAll(h1, later);
            var pending := during == [] && resumed;
            && ok == (resumed && (during == [] || during[0].Confirm?))
            && h2.instance.Some?
            && h2.instance.value.request == (if pending && later == [] then PendingAfterResume else Idle)
            && h2.streamStarted == (if !pending || later == [] then StreamIdle
                                    else if later[0].Confirm? then StreamStarted else StreamCanceled)
            && h2.openings == h.openings +
                 (if during != [] && during[0].Confirm? then 1
                  else if pending && later != [] && later[0].Confirm? then 1 else 0)
  {
    hide StartRequested, RespondedAll;
    DecidedDuring(h, during, resumed);
    DecidedLater(StartRequested(h, Responses(during), resumed).0, later);
  }

  // ----- every run

  datatype Event =
    | Start(nested: seq<Nested>, resumed: bool)
    | Answer(response: Response)
    | SessionStop
    | Acquire
    | Release

  /** `Acquire` and `Release` stand for the calls that are not refused; acquiring a broadcast sink
      replaces the instance of a unicast one. */
  function Step(h: Host, e: Event): Host {
    match e
    case Start(nested, resumed) => StartRequested(h, nested, resumed).0
    case Answer(r) => Responded(h, r)
    case SessionStop => Stopped(h)
    case Acquire => h.(instance := Some(Transport(Idle, 0, 0)))
    case Release => Stopped(h).(instance := None)
  }

  function Run(h: Host, events: seq<Event>): Host
    decreases |events|
  {
    if events == [] then h else Run(Step(h, events[0]), events[1..])
  }

  /** Between calls a request is idle or pending after its resume, and a start is reported to the
      audio server only once it is no longer pending. */
  ghost predicate Inv(h: Host) {
    h.instance.Some? ==>
      && (h.instance.value.request.Idle? || h.instance.value.request.PendingAfterResume?)
      && (!h.streamStarted.StreamIdle? ==> h.instance.value.request.Idle?)
  }

  lemma {:induction false} NestedKeepsReportIdle(h: Host, nested: seq<Nested>)
    requires h.instance.Some? && !h.instance.value.request.PendingAfterResume? && h.streamStarted.StreamIdle?
    ensures var h' := AfterNested(h, nested);
            h'.instance.Some? && !h'.instance.value.request.PendingAfterResume? && h'.streamStarted.StreamIdle?
    decreases |nested|
  {
    if nested != [] {
      NestedKeepsReportIdle(if nested[0].Stop? then Stopped(h) else Responded(h, nested[0].response), nested[1..]);
    }
  }

  lemma StepKeeps(h: Host, e: Event)
    requires Inv(h)
    ensures Inv(Step(h, e))
  {
    if e.Start? && h.instance.Some? {
      var begun := h.(streamStarted := StreamIdle, instance := Some(Transport(PendingBeforeResume, 0, 0)));
      NestedKeepsReportIdle(begun, e.nested);
    }
  }

  /** In every run of starts, responses, stops, acquisitions and releases. */
  lemma {:induction false} RunKeeps(h: Host, events: seq<Event>)
    requires Inv(h)
    ensures Inv(Run(h, events))
    decreases |events|
  {
    if events != [] {
      StepKeeps(h, events[0]);
      RunKeeps(Step(h, events[0]), events[1..]);
    }
  }

  /** After a session stop nothing is reported to the audio server and the data path is not opened, until
      the next start. */
  lemma {:induction false} StoppedReportsNothing(h: Host, events: seq<Event>)
    requires forall i :: 0 <= i < |events| ==> !events[i].Start?
    ensures var h' := Run(Stopped(h), events); h'.streamStarted.StreamIdle? && h'.openings == h.openings
  {
    QuietUntilStart(Stopped(h), events);
  }

  lemma {:induction false} QuietUntilStart(h: Host, events: seq<Event>)
    requires h.streamStarted.StreamIdle? && !Answerable(h) && forall i :: 0 <= i < |events| ==> !events[i].Start?
    ensures Run(h, events).streamStarted.StreamIdle? && Run(h, events).openings == h.openings
    decreases |events|
  {
    if events != [] {
      QuietUntilStart(Step(h, events[0]), events[1..]);
    }
  }

  /** Every start begins with nothing reported and the presentation position reset, whatever came before. */
  lemma StartForgets(h: Host, nested: seq<Nested>, resumed: bool)
    requires h.instance.Some?
    ensures StartRequested(h, nested, resumed) ==
            StartRequested(Host(Some(Transport(Idle, 0, 0)), StreamIdle, h.openings), nested, resumed)
  {
  }

  /** Whatever has happened, an instance acquired after a release is as good as new. */
  lemma ReacquiredIsNew(h: Host)
    ensures Step(Step(h, Release), Acquire) == Host(Some(Transport(Idle, 0, 0)), StreamIdle, h.openings)
  {
  }

  // ----- how often the data path is opened

  /** The nested events before the first stop. */
  function BeforeStop(nested: seq<Nested>): seq<Nested> {
    if nested == [] || nested[0].Stop? then [] else [nested[0]] + BeforeStop(nested[1..])
  }

  /** The first response, before any stop, is a confirm. */
  predicate ConfirmedEarly(nested: seq<Nested>) {
    BeforeStop(nested) != [] && BeforeStop(nested)[0] == Respond(Confirm)
  }

  /** The request is left pending: the resume succeeded, and was not answered or was stopped. */
  predicate LeftPending(nested: seq<Nested>, resumed: bool) {
    resumed && (nested == [] || HasStop(nested))
  }

  function Bit(b: bool): nat {
    if b then 1 else 0
  }

  /** The openings one start owes, read off the events alone: one if it is confirmed early, and one if
      it is left pending and the very next event confirms it. */
  function OwedByStart(nested: seq<Nested>, resumed: bool, later: seq<Event>): nat {
    Bit(ConfirmedEarly(nested)) +
    Bit(LeftPending(nested, resumed) && later != [] && later[0] == Answer(Confirm))
  }

  /** Whether there is an instance after an event. */
  predicate Held(held: bool, e: Event) {
    e.Acquire? || (held && !e.Release?)
  }

  /** The openings a run owes: those of the starts that find an instance. */
  function OpeningsOwed(held: bool, events: seq<Event>): nat
    decreases |events|
  {
    if events == [] then 0
    else (if held && events[0].Start? then OwedByStart(events[0].nested, events[0].resumed, events[1..]) else 0)
         + OpeningsOwed(Held(held, events[0]), events[1..])
  }

  lemma {:induction false} NestedOpens(h: Host, nested: seq<Nested>)
    requires h.instance.Some? && !h.instance.value.request.PendingAfterResume?
    ensures AfterNested(h, nested).openings ==
            h.openings + Bit(h.instance.value.request.PendingBeforeResume? && ConfirmedEarly(nested))
    decreases |nested|
  {
    if nested != [] {
      NestedOpens(if nested[0].Stop? then Stopped(h) else Responded(h, nested[0].response), nested[1..]);
    }
  }

  lemma StartOpens(h: Host, nested: seq<Nested>, resumed: bool)
    requires h.instance.Some?
    ensures var h' := StartRequested(h, nested, resumed).0;
            && h'.instance.Some?
            && h'.openings == h.openings + Bit(ConfirmedEarly(nested))
            && (h'.instance.value.request == if LeftPending(nested, resumed) then PendingAfterResume else Idle)
  {
    var begun := h.(streamStarted := StreamIdle, instance := Some(Transport(PendingBeforeResume, 0, 0)));
    NestedOpens(begun, nested);
    SameAfterNested(begun, nested);
    EndOfNested(PendingBeforeResume, nested);
  }

  /** A request is pending, and the first event confirms it. */
  predicate ConfirmsPending(h: Host, events: seq<Event>) {
    h.instance.Some? && h.instance.value.request.PendingAfterResume? && events != [] && events[0] == Answer(Confirm)
  }

  lemma StepHolds(h: Host, e: Event)
    ensures Step(h, e).instance.Some? <==> Held(h.instance.Some?, e)
  {
    if e.Start? && h.instance.Some? {
      StartOpens(h, e.nested, e.resumed);
    }
  }

  /** One event opens the data path as often as it owes, the confirmation of a pending request apart. */
  lemma StepOpens(h: Host, e: Event, later: seq<Event>)
    requires Inv(h)
    ensures Step(h, e).openings + Bit(ConfirmsPending(Step(h, e), later)) ==
            h.openings + Bit(ConfirmsPending(h, [e])) +
            if h.instance.Some? && e.Start? then OwedByStart(e.nested, e.resumed, later) else 0
  {
    if e.Start? && h.instance.Some? {
      StartOpens(h, e.nested, e.resumed);
    }
  }

  /** Over every run of starts, responses, stops, acquisitions and releases the data path is opened
      exactly as often as the events owe. */
  lemma {:induction false} DataPathOpenings(h: Host, events: seq<Event>)
    requires Inv(h)
    ensures Run(h, events).openings ==
            h.openings + OpeningsOwed(h.instance.Some?, events) + Bit(ConfirmsPending(h, events))
    decreases |events|
  {
    if events != [] {
      StepKeeps(h, events[0]);
      StepHolds(h, events[0]);
      StepOpens(h, events[0], events[1..]);
      DataPathOpenings(Step(h, events[0]), events[1..]);
    }
  }

  /** Whatever follows it, one start opens the data path at most twice, over and above what the starts
      after it open, and twice exactly when it is confirmed during its resume, stopped before the
      resume returns true, and confirmed once more by the very next event. */
  lemma OpenedTwiceIff(h: Host, nested: seq<Nested>, resumed: bool, later: seq<Event>)
    requires Inv(h) && h.instance.Some?
    ensures var count := Run(h, [Start(nested, resumed)] + later).openings - h.openings - OpeningsOwed(true, later);
            && 0 <= count <= 2
            && (count == 2 <==>
                  ConfirmedEarly(nested) && resumed && HasStop(nested) && later != [] && later[0] == Answer(Confirm))
  {
    var events := [Start(nested, resumed)] + later;
    assert events[1..] == later;
    DataPathOpenings(h, events);
    assert nested == [] ==> BeforeStop(nested) == [];
  }

  /** The request that opens the data path twice. */
  lemma OpenedTwice(h: Host)
    requires Inv(h) && h.instance.Some? && h.instance.value.request.Idle?
    ensures Run(h, [Start([Respond(Confirm), Stop], true), Answer(Confirm)]).openings == h.openings + 2
  {
    var nested := [Respond(Confirm), Stop];
    assert nested[1].Stop?;
    assert BeforeStop(nested)[0] == Respond(Confirm);
    OpenedTwiceIff(h, nested, true, [Answer(Confirm)]);
    assert OpeningsOwed(true, [Answer(Confirm)]) == OpeningsOwed(true, [Answer(Confirm)][1..]) == 0;
    assert [Start(nested, true)] + [Answer(Confirm)] == [Start(nested, true), Answer(Confirm)];
  }

  /** A session stop inside a successful resume: pending for the host, failed for the AIDL transport. */
  lemma StopInsideResumeDiffers(h: Host)
    requires h.instance.Some? && h.instance.value.request.Idle?
    ensures StartRequested(h, [Stop], true).1
    ensures StartRequested(h, [Stop], true).0.instance.Some?
    ensures StartRequested(h, [Stop], true).0.instance.value.request.PendingAfterResume?
    ensures AidlStartRequested(Idle, [Stop], true) == (Idle, FailureAck, true)
  {
    assert [Stop][0].Stop?;
    StartOpens(h, [Stop], true);
    EndOfNested(PendingBeforeResume, [Stop]);
    SameAfterNested(h.(streamStarted := StreamIdle, instance := Some(Transport(PendingBeforeResume, 0, 0))), [Stop]);
  }
}
