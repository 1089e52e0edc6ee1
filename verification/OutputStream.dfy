/**
 The output stream of the Bluetooth audio HAL (system/audio_bluetooth_hw/stream_apis.cc).
 A check-and-assign, or one dispatch on the port's state, is one atomic `Action`; callbacks and
 other framework calls come in between where the stream lock is released, and callbacks alone
 where a call waits on the port's condition variable.
 */
module OutputStream {
  import opened Options
  import opened AudioPort
  import opened ErrorCodes
  import opened AudioParams
  import MachineInt
  import StreamTiming

  // Parameter keys; the ones without a literal in the stream code are Android's spellings.
  const A2DP_SUSPENDED: string := "A2dpSuspended"
  const CLOSING: string := "closing"
  const EXITING: string := "exiting"
  const SUP_SAMPLING_RATES: string := "sup_sampling_rates"
  const SUP_CHANNELS: string := "sup_channels"
  const SUP_FORMATS: string := "sup_formats"

  datatype Stream = Stream(
    port: Port,
    framesRendered: nat,
    framesPresented: nat,
    lastWriteUs: int,
    sampleRate: nat)

  datatype Action =
    | Heard(callback: Event)
    | SuspendDispatch(accepted: bool)
    | ResumeDispatch(accepted: bool)
    | Woken
    | A2dpSuspendOn(accepted: bool)
    | A2dpSuspendDone
    | A2dpSuspendOff
    | CloseParam
    | ConfigLoaded(rate: nat)
    | Transferred(frames: nat, now: int)
    | Stalled(last: int)
    | CloseStream

  function PortStep(s: Stream, e: Event): Stream {
    s.(port := Step(s.port, e).0)
  }

  function Apply(s: Stream, a: Action): Stream {
    match a
    case Heard(e) => if Callback(e) then PortStep(s, e) else s
    case SuspendDispatch(accepted) =>
      if s.port.state.Started? then PortStep(s.(framesRendered := 0), SuspendCall(accepted)) else s
    case ResumeDispatch(accepted) =>
      if s.port.state.Standby? then PortStep(s, StartCall(accepted)) else s
    case Woken => PortStep(s, WakeUpFrom)
    case A2dpSuspendOn(accepted) =>
      if !IsA2dp(s.port) then s
      else
        var s' := s.(framesRendered := 0);
        if s.port.state.Started? then PortStep(s', SuspendCall(accepted))
        else if s.port.state.Disabled? then s'
        else PortStep(s', StopCall)
    case A2dpSuspendDone =>
      if IsA2dp(s.port) then PortStep(s, SetStateCall(Disabled)) else s
    case A2dpSuspendOff =>
      if IsA2dp(s.port) && s.port.state.Disabled? then PortStep(s, SetStateCall(Standby)) else s
    case CloseParam => Closed(s)
    case ConfigLoaded(rate) => s.(sampleRate := rate)
    case Transferred(frames, now) =>
      s.(framesRendered := s.framesRendered + frames, framesPresented := s.framesPresented + frames, lastWriteUs := now)
    case Stalled(last) => s.(lastWriteUs := last)
    case CloseStream => PortStep(Closed(s), TearDownCall)
  }

  /** Stop and forget the frames, unless disabled already. */
  function Closed(s: Stream): Stream {
    if s.port.state.Disabled? then s
    else PortStep(s.(framesRendered := 0, framesPresented := 0), StopCall)
  }

  function RunActions(s: Stream, actions: seq<Action>): Stream
    decreases |actions|
  {
    if actions == [] then s else RunActions(Apply(s, actions[0]), actions[1..])
  }

  // ----- calls

  /** What the session control and the callbacks do to a call that changes the port. */
  datatype WaitEnv = WaitEnv(accepted: bool, callbacks: seq<Event>)

  /** `BluetoothAudioPort::Start` or `Suspend` up to its return. */
  function PortCall(s: Stream, request: Event, callbacks: seq<Event>): (Stream, bool) {
    var (p, r) := Step(s.port, request);
    if r.Returned? then (s.(port := p), r.ok)
    else
      var (p', r') := Step(After(p, callbacks), WakeUpFrom);
      (s.(port := p'), r'.Returned? && r'.ok)
  }

  /** `out_standby` and `out_pause`. */
  function Suspended(s: Stream, env: WaitEnv): (Stream, int) {
    match s.port.state
    case Started =>
      var (s', ok) := PortCall(s.(framesRendered := 0), SuspendCall(env.accepted), env.callbacks);
      (s', if ok then 0 else -EIO)
    case Starting => (s, -EBUSY)
    case Suspending => (s, -EBUSY)
    case _ => (s, 0)
  }

  /** `out_resume`. */
  function Resumed(s: Stream, env: WaitEnv): (Stream, int) {
    match s.port.state
    case Standby =>
      var (s', ok) := PortCall(s, StartCall(env.accepted), env.callbacks);
      (s', if ok then 0 else -EIO)
    case Starting => (s, -EBUSY)
    case Suspending => (s, -EBUSY)
    case Disabled => (s, -EINVAL)
    case _ => (s, 0)
  }

  /** The effect of the parameter "A2dpSuspended=true" on an A2DP stream. */
  function A2dpSuspended(s: Stream, env: WaitEnv): Stream {
    var s' := s.(framesRendered := 0);
    if s.port.state.Started? then
      PortStep(PortCall(s', SuspendCall(env.accepted), env.callbacks).0, SetStateCall(Disabled))
    else if s.port.state.Disabled? then s'
    else PortStep(s', StopCall)
  }

  /** What a parameter string asks an output stream for; `a2dpSuspended` is the value of that
      parameter read as "true" or not, if it is there at all. */
  datatype Asked = Asked(config: bool, a2dpSuspended: Option<bool>, closing: bool, exiting: bool)

  function AskedBy(params: map<string, string>): Asked {
    Asked(SUP_SAMPLING_RATES in params || SUP_CHANNELS in params || SUP_FORMATS in params,
          if A2DP_SUSPENDED in params then Some(params[A2DP_SUSPENDED] == "true") else None,
          CLOSING in params && params[CLOSING] == "true",
          EXITING in params && params[EXITING] == "1")
  }

  /** The part of `out_set_parameters` for "A2dpSuspended". */
  function A2dpApplied(s: Stream, asked: Option<bool>, env: WaitEnv): Stream {
    if asked.None? || !IsA2dp(s.port) then s
    else if asked.value then A2dpSuspended(s, env)
    else Apply(s, A2dpSuspendOff)
  }

  /** The parts of `out_set_parameters` for "closing" and "exiting". */
  function CloseApplied(s: Stream, asked: Asked): Stream {
    var s' := if asked.closing then Closed(s) else s;
    if asked.exiting then Closed(s') else s'
  }

  /** `out_set_parameters` on a parsed string; `loaded` is the answer of `LoadAudioConfig`. */
  function ParamsApplied(s: Stream, asked: Asked, loaded: Option<nat>, env: WaitEnv): Stream {
    var s' := if asked.config && loaded.Some? then s.(sampleRate := loaded.value) else s;
    CloseApplied(A2dpApplied(s', asked.a2dpSuspended, env), asked)
  }

  /** What happens around a write: other steps before `resume` takes the lock, during its start,
      before the state is read again, while the data is transferred, and during a pacing sleep. */
  datatype WriteEnv = WriteEnv(
    beforeResume: seq<Action>,
    start: WaitEnv,
    afterResume: seq<Action>,
    duringTransfer: seq<Action>,
    duringSleep: seq<Action>,
    transferred: nat,
    now: int,
    frameSize: nat,
    rate: nat)

  predicate ValidEnv(env: WriteEnv) {
    env.frameSize > 0 && env.rate > 0
  }

  /** The bookkeeping of `out_write` after the data path has been tried. */
  function Accounted(s: Stream, bytes: nat, env: WriteEnv): Stream
    requires ValidEnv(env)
  {
    if env.transferred > 0 then Apply(s, Transferred(bytes / env.frameSize, env.now))
    else
      var play := StreamTiming.PlayTime(bytes, env.frameSize, env.rate);
      var slept := if StreamTiming.SleepTime(s.lastWriteUs, env.now, play) > 0 then env.duringSleep else [];
      Apply(RunActions(s, slept), Stalled(StreamTiming.NextLastWrite(s.lastWriteUs, env.now, play)))
  }

  /** `out_write`: the stream afterwards and the number of bytes reported as consumed. */
  function Written(s: Stream, bytes: nat, env: WriteEnv): (Stream, nat)
    requires ValidEnv(env)
  {
    if s.port.state.Started? then
      (Accounted(RunActions(s, env.duringTransfer), bytes, env), env.transferred)
    else
      var (s1, ret) := Resumed(RunActions(s, env.beforeResume), env.start);
      var s2 := RunActions(s1, env.afterResume);
      if ret != 0 then (s2, if s2.port.state.Disabled? then bytes else 0)
      else (Accounted(RunActions(s2, env.duringTransfer), bytes, env), env.transferred)
  }

  // ----- the stream as an object

  /** The stream over its port; the methods of the port do what happens to the port. */
  class StreamObject {
    const port: PortObject
    var framesRendered: nat
    var framesPresented: nat
    var lastWriteUs: int
    var sampleRate: nat

    ghost function View(): Stream
      reads this, port
    {
      Stream(port.View(), framesRendered, framesPresented, lastWriteUs, sampleRate)
    }

    constructor (port: PortObject, rate: nat)
      ensures this.port == port && View() == Stream(port.View(), 0, 0, 0, rate)
    {
      this.port := port;
      framesRendered, framesPresented, lastWriteUs, sampleRate := 0, 0, 0, rate;
    }

    /** `BluetoothAudioPort::Start` up to its return. */
    method StartPort(env: WaitEnv) returns (ok: bool)
      requires AllCallbacks(env.callbacks)
      modifies port
      ensures (View(), ok) == PortCall(old(View()), StartCall(env.accepted), env.callbacks)
    {
      var answer := port.Start(env.accepted);
      if answer.Some? {
        return answer.value;
      }
      ok := port.Await(env.callbacks);
    }

    /** `BluetoothAudioPort::Suspend` up to its return. */
    method SuspendPort(env: WaitEnv) returns (ok: bool)
      requires AllCallbacks(env.callbacks)
      modifies port
      ensures (View(), ok) == PortCall(old(View()), SuspendCall(env.accepted), env.callbacks)
    {
      var answer := port.Suspend(env.accepted);
      if answer.Some? {
        return answer.value;
      }
      ok := port.Await(env.callbacks);
    }

    method Standby(env: WaitEnv) returns (ret: int)
      requires AllCallbacks(env.callbacks)
      modifies this, port
      ensures (View(), ret) == Suspended(old(View()), env)
    {
      ret := 0;
      if port.state == Started {
        framesRendered := 0;
        var ok := SuspendPort(env);
        ret := if ok then 0 else -EIO;
      } else if port.state == Starting || port.state == Suspending {
        ret := -EBUSY;
      }
    }

    method Resume(env: WaitEnv) returns (ret: int)
      requires AllCallbacks(env.callbacks)
      modifies this, port
      ensures (View(), ret) == Resumed(old(View()), env)
    {
      ret := 0;
      if port.state == AudioPort.Standby {
        var ok := StartPort(env);
        ret := if ok then 0 else -EIO;
      } else if port.state == Starting || port.state == Suspending {
        ret := -EBUSY;
      } else if port.state == Disabled {
        ret := -EINVAL;
      }
    }

    method Close()
      modifies this, port
      ensures View() == Closed(old(View()))
    {
      if port.state != Disabled {
        framesRendered := 0;
        framesPresented := 0;
        port.Stop();
      }
    }

    method SetA2dpSuspended(on: bool, env: WaitEnv)
      requires AllCallbacks(env.callbacks)
      modifies this, port
      ensures View() == A2dpApplied(old(View()), Some(on), env)
    {
      if port.session != A2dpEncoding {
        return;
      }
      if on {
        framesRendered := 0;
        if port.state == Started {
          var ok := SuspendPort(env);
          port.SetState(Disabled);
        } else if port.state != Disabled {
          port.Stop();
        }
      } else if port.state == Disabled {
        port.SetState(AudioPort.Standby);
      }
    }

    method SetParameters(kvpairs: string, loaded: Option<nat>, env: WaitEnv)
      requires AllCallbacks(env.callbacks)
      modifies this, port
      ensures View() == ParamsApplied(old(View()), AskedBy(Parsed(kvpairs)), loaded, env)
    {
      hide A2dpSuspended, Apply, Closed, Parsed, Step;
      var params := ParseAudioParams(kvpairs);
      if params == map[] {
        return;
      }
      if SUP_SAMPLING_RATES in params || SUP_CHANNELS in params || SUP_FORMATS in params {
        if loaded.Some? {
          sampleRate := loaded.value;
        }
      }
      if A2DP_SUSPENDED in params {
        SetA2dpSuspended(params[A2DP_SUSPENDED] == "true", env);
      }
      if CLOSING in params && params[CLOSING] == "true" {
        Close();
      }
      if EXITING in params && params[EXITING] == "1" {
        Close();
      }
    }

    /** One atomic step of another thread, or a callback. */
    method Perform(a: Action)
      modifies this, port
      ensures View() == Apply(old(View()), a)
    {
      match a
      case Heard(e) =>
        if Callback(e) {
          port.Hear(e);
        }
      case SuspendDispatch(accepted) =>
        if port.state == Started {
          framesRendered := 0;
          var answer := port.Suspend(accepted);
        }
      case ResumeDispatch(accepted) =>
        if port.state == AudioPort.Standby {
          var answer := port.Start(accepted);
        }
      case Woken => var ok := port.WakeUp();
      case A2dpSuspendOn(accepted) => SuspendForA2dp(accepted);
      case A2dpSuspendDone =>
        if port.session == A2dpEncoding {
          port.SetState(Disabled);
        }
      case A2dpSuspendOff =>
        if port.session == A2dpEncoding && port.state == Disabled {
          port.SetState(AudioPort.Standby);
        }
      case CloseParam => Close();
      case ConfigLoaded(rate) => sampleRate := rate;
      case Transferred(frames, now) =>
        framesRendered, framesPresented := framesRendered + frames, framesPresented + frames;
        lastWriteUs := now;
      case Stalled(last) => lastWriteUs := last;
      case CloseStream =>
        Close();
        port.TearDown();
    }

    /** "A2dpSuspended=true" up to the wait for the port. */
    method SuspendForA2dp(accepted: bool)
      modifies this, port
      ensures View() == Apply(old(View()), A2dpSuspendOn(accepted))
    {
      if port.session != A2dpEncoding {
        return;
      }
      framesRendered := 0;
      if port.state == Started {
        var answer := port.Suspend(accepted);
      } else if port.state != Disabled {
        port.Stop();
      }
    }

    /** Other threads and callbacks take their steps while the stream lock is free. */
    method Unlocked(actions: seq<Action>)
      modifies this, port
      ensures View() == RunActions(old(View()), actions)
    {
      hide Apply;
      for i := 0 to |actions|
        invariant RunActions(View(), actions[i..]) == RunActions(old(View()), actions)
      {
        assert actions[i..][1..] == actions[i + 1..];
        Perform(actions[i]);
      }
      assert actions[|actions|..] == [];
    }

    /** The bookkeeping of `out_write` after the data path has been tried. */
    method Account(bytes: nat, env: WriteEnv)
      requires ValidEnv(env)
      modifies this, port
      ensures View() == Accounted(old(View()), bytes, env)
    {
      hide StreamTiming.PlayTime;
      if env.transferred != 0 {
        Perform(Transferred(bytes / env.frameSize, env.now));
      } else {
        var elapsed := env.now - lastWriteUs;
        var sleepTime := StreamTiming.PlayTime(bytes, env.frameSize, env.rate) - elapsed;
        if sleepTime > 0 {
          Unlocked(env.duringSleep);
        } else {
          sleepTime := 0;
        }
        lastWriteUs := env.now + sleepTime;
      }
    }

    method Write(bytes: nat, env: WriteEnv) returns (totalWritten: nat)
      requires ValidEnv(env) && AllCallbacks(env.start.callbacks)
      modifies this, port
      ensures (View(), totalWritten) == Written(old(View()), bytes, env)
    {
      hide Accounted, Resumed;
      totalWritten := 0;
      if port.state != Started {
        Unlocked(env.beforeResume);
        var ret := Resume(env.start);
        Unlocked(env.afterResume);
        if ret != 0 {
          if port.state == Disabled {
            totalWritten := bytes;
          }
          return;
        }
      }
      Unlocked(env.duringTransfer);
      totalWritten := env.transferred;
      Account(bytes, env);
    }
  }

  // ----- every run of atomic actions

  /** The stream is in one of the five states and never counts more frames rendered than presented. */
  ghost predicate Inv(s: Stream) {
    !s.port.state.Unknown? && s.framesRendered <= s.framesPresented
  }

  lemma ActionKeeps(s: Stream, a: Action)
    requires Inv(s)
    ensures Inv(Apply(s, a)) && Apply(s, a).port.session == s.port.session
  {
  }

  /** A disabled port is left only by a not-"true" A2dpSuspended on an A2DP stream. */
  lemma LeavesDisabledOnlyBy(s: Stream, a: Action)
    requires s.port.state.Disabled? && !Apply(s, a).port.state.Disabled?
    ensures a.A2dpSuspendOff? && IsA2dp(s.port)
  {
  }

  lemma {:induction false} RunKeeps(s: Stream, actions: seq<Action>)
    requires Inv(s)
    ensures Inv(RunActions(s, actions)) && RunActions(s, actions).port.session == s.port.session
    decreases |actions|
  {
    if actions != [] {
      ActionKeeps(s, actions[0]);
      RunKeeps(Apply(s, actions[0]), actions[1..]);
    }
  }

  /** The steps contain none that could enable the stream again. */
  predicate NoReenable(s: Stream, actions: seq<Action>) {
    !IsA2dp(s.port) || forall i :: 0 <= i < |actions| ==> !actions[i].A2dpSuspendOff?
  }

  lemma {:induction false} DisabledStays(s: Stream, actions: seq<Action>)
    requires s.port.state.Disabled? && NoReenable(s, actions)
    ensures var s' := RunActions(s, actions); s'.port.state.Disabled? && s'.port.session == s.port.session
    decreases |actions|
  {
    if actions != [] {
      var s' := Apply(s, actions[0]);
      DisabledStays(s', actions[1..]);
    }
  }

  /** A write to a disabled stream that nobody re-enables meanwhile, in particular any write to a
      disabled LE Audio stream: all bytes are reported consumed and the write itself changes
      nothing; the stream is what the other threads' steps made of it. */
  lemma DisabledWriteDropsData(s: Stream, bytes: nat, env: WriteEnv)
    requires ValidEnv(env) && s.port.state.Disabled?
    requires NoReenable(s, env.beforeResume) && NoReenable(s, env.afterResume)
    ensures Written(s, bytes, env) ==
            (RunActions(RunActions(s, env.beforeResume), env.afterResume), bytes)
    ensures Written(s, bytes, env).0.port.state.Disabled?
  {
    DisabledStays(s, env.beforeResume);
    DisabledStays(RunActions(s, env.beforeResume), env.afterResume);
  }

  /** The callbacks grant a stream in standby its start. */
  predicate StartIsGranted(s: Stream, env: WaitEnv) {
    InUse(s.port) && env.accepted && GrantsStart(AddressedOnly(s.port.cookie.value, env.callbacks))
  }

  predicate SuspendIsGranted(s: Stream, env: WaitEnv) {
    InUse(s.port) && env.accepted && GrantsSuspend(AddressedOnly(s.port.cookie.value, env.callbacks))
  }

  /** The result of `out_resume` in every state: zero if started already or granted its start, EIO if not
      granted, EBUSY during a start or a suspension, EINVAL if disabled. Zero means started. */
  lemma ResumeSucceedsIff(s: Stream, env: WaitEnv)
    requires Inv(s) && AllCallbacks(env.callbacks)
    ensures var (s', ret) := Resumed(s, env);
            && ret == (match s.port.state
                       case Started => 0
                       case Standby => if StartIsGranted(s, env) then 0 else -5
                       case Disabled => -22
                       case _ => -16)
            && (ret == 0 ==> s'.port.state.Started?)
            && (!s.port.state.Standby? ==> s' == s)
            && s' == s.(port := s'.port)
  {
    if s.port.state.Standby? && InUse(s.port) && env.accepted {
      StartOutcome(s.port, env.callbacks);
      CallbacksKeep(Step(s.port, StartCall(true)).0, env.callbacks);
    }
  }

  /** The result of `out_standby` and `out_pause` in every state: zero if there is nothing to suspend or
      the suspension is granted, EIO if not granted, EBUSY during a start or a suspension. Only a
      started stream forgets its rendered frames, and nothing else but the port is touched. */
  lemma SuspendSucceedsIff(s: Stream, env: WaitEnv)
    requires Inv(s) && AllCallbacks(env.callbacks)
    ensures var (s', ret) := Suspended(s, env);
            && ret == (match s.port.state
                       case Started => if SuspendIsGranted(s, env) then 0 else -5
                       case Standby => 0
                       case Disabled => 0
                       case _ => -16)
            && (ret == 0 ==> s'.port.state.Standby? || s'.port.state.Disabled?)
            && (!s.port.state.Started? ==> s' == s)
            && s' == s.(port := s'.port, framesRendered := if s.port.state.Started? then 0 else s.framesRendered)
  {
    if s.port.state.Started? && InUse(s.port) && env.accepted {
      SuspendOutcome(s.port, env.callbacks);
    }
  }

  /** However the wait goes, an A2DP stream in use that is asked to suspend ends up disabled, with no
      frames rendered and its presented frames untouched. */
  lemma A2dpSuspendedOutcome(s: Stream, env: WaitEnv)
    requires InUse(s.port) && AllCallbacks(env.callbacks)
    ensures var s' := A2dpSuspended(s, env);
            && s'.port.state.Disabled? && s'.port.cookie == s.port.cookie && s'.port.session == s.port.session
            && s' == s.(port := s'.port, framesRendered := 0)
  {
    CallbacksKeep(Step(s.port, SuspendCall(env.accepted)).0, env.callbacks);
  }

  /** The parameters bind the key to the value. */
  predicate Says(params: map<string, string>, key: string, val: string) {
    key in params && params[key] == val
  }

  /** What the parameters ask for, in the words of the strings. */
  lemma AskedLiterally(params: map<string, string>)
    ensures var asked := AskedBy(params);
            && asked.closing == Says(params, "closing", "true")
            && asked.exiting == Says(params, "exiting", "1")
            && asked.a2dpSuspended == (if "A2dpSuspended" in params then Some(params["A2dpSuspended"] == "true") else None)
            && asked.config == ("sup_sampling_rates" in params || "sup_channels" in params || "sup_formats" in params)
  {
  }

  /** The state a stream in use is left in by a parameter string, whatever the callbacks do during a
      suspension: closing and exiting win over A2dpSuspended, and only an A2DP stream listens to it.
      The sample rate changes exactly if a supported configuration is asked for and can be loaded. */
  lemma SetParametersOutcome(s: Stream, kvpairs: string, loaded: Option<nat>, env: WaitEnv)
    requires InUse(s.port) && AllCallbacks(env.callbacks)
    ensures var params := Parsed(kvpairs);
            var s' := ParamsApplied(s, AskedBy(params), loaded, env);
            && s'.port.state ==
               (if Says(params, "closing", "true") || Says(params, "exiting", "1") then Disabled
                else if !IsA2dp(s.port) || "A2dpSuspended" !in params then s.port.state
                else if params["A2dpSuspended"] == "true" then Disabled
                else if s.port.state.Disabled? then Standby
                else s.port.state)
            && s'.sampleRate ==
               (if ("sup_sampling_rates" in params || "sup_channels" in params || "sup_formats" in params) && loaded.Some?
                then loaded.value else s.sampleRate)
            && s'.port.session == s.port.session && s'.port.cookie == s.port.cookie
  {
    hide A2dpSuspended, Parsed, AskedBy, Says;
    var params := Parsed(kvpairs);
    AskedLiterally(params);
    AppliedState(s, AskedBy(params), loaded, env);
  }

  lemma AppliedState(s: Stream, asked: Asked, loaded: Option<nat>, env: WaitEnv)
    requires InUse(s.port) && AllCallbacks(env.callbacks)
    ensures var s' := ParamsApplied(s, asked, loaded, env);
            && s'.port.state ==
               (if asked.closing || asked.exiting then Disabled
                else if !IsA2dp(s.port) || asked.a2dpSuspended.None? then s.port.state
                else if asked.a2dpSuspended.value then Disabled
                else if s.port.state.Disabled? then Standby
                else s.port.state)
            && s'.sampleRate == (if asked.config && loaded.Some? then loaded.value else s.sampleRate)
            && s'.port.session == s.port.session && s'.port.cookie == s.port.cookie
  {
    hide A2dpSuspended;
    A2dpSuspendedOutcome(s, env);
    A2dpSuspendedOutcome(s.(sampleRate := if loaded.Some? then loaded.value else 0), env);
  }

  lemma AppliedFrames(s: Stream, asked: Asked, loaded: Option<nat>, env: WaitEnv)
    requires InUse(s.port) && AllCallbacks(env.callbacks)
    ensures var s' := ParamsApplied(s, asked, loaded, env);
            var suspends := IsA2dp(s.port) && asked.a2dpSuspended == Some(true);
            var reenables := IsA2dp(s.port) && asked.a2dpSuspended == Some(false);
            var closes := (asked.closing || asked.exiting) && !suspends && (!s.port.state.Disabled? || reenables);
            && s'.framesPresented == (if closes then 0 else s.framesPresented)
            && s'.framesRendered == (if closes || suspends then 0 else s.framesRendered)
  {
    hide A2dpSuspended;
    A2dpSuspendedOutcome(s, env);
    A2dpSuspendedOutcome(s.(sampleRate := if loaded.Some? then loaded.value else 0), env);
  }

  /** A parameter string clears both frame counters, clears only the rendered frames, or leaves them;
      on a disabled stream that is not A2DP it leaves them. */
  lemma SetParametersFrames(s: Stream, kvpairs: string, loaded: Option<nat>, env: WaitEnv)
    requires InUse(s.port) && AllCallbacks(env.callbacks)
    ensures var params := Parsed(kvpairs);
            var s' := ParamsApplied(s, AskedBy(params), loaded, env);
            var suspends := IsA2dp(s.port) && Says(params, "A2dpSuspended", "true");
            var reenables := IsA2dp(s.port) && "A2dpSuspended" in params && !suspends;
            var closes := && (Says(params, "closing", "true") || Says(params, "exiting", "1"))
                          && !suspends && (!s.port.state.Disabled? || reenables);
            && s'.framesPresented == (if closes then 0 else s.framesPresented)
            && s'.framesRendered == (if closes || suspends then 0 else s.framesRendered)
  {
    hide A2dpSuspended, Parsed, AskedBy, ParamsApplied;
    var params := Parsed(kvpairs);
    AskedLiterally(params);
    AppliedFrames(s, AskedBy(params), loaded, env);
  }

  // ----- calls are runs of atomic actions

  function HeardAll(callbacks: seq<Event>): seq<Action> {
    if callbacks == [] then [] else [Heard(callbacks[0])] + HeardAll(callbacks[1..])
  }

  /** The actions of a port call that starts with `dispatch`: it waits if the port did not answer. */
  function WaitActions(s: Stream, dispatch: Action, request: Event, callbacks: seq<Event>): seq<Action> {
    if Step(s.port, request).1.Returned? then [dispatch] else [dispatch] + HeardAll(callbacks) + [Woken]
  }

  datatype Call =
    | StandbyCall(env: WaitEnv)
    | ResumeCall(env: WaitEnv)
    | SetParametersCall(kvpairs: string, loaded: Option<nat>, env: WaitEnv)
    | WriteCall(bytes: nat, writeEnv: WriteEnv)
    | CallbackCall(event: Event)
    | CloseCall

  predicate ValidCall(c: Call) {
    match c
    case StandbyCall(env) => AllCallbacks(env.callbacks)
    case ResumeCall(env) => AllCallbacks(env.callbacks)
    case SetParametersCall(_, _, env) => AllCallbacks(env.callbacks)
    case WriteCall(_, env) => ValidEnv(env) && AllCallbacks(env.start.callbacks)
    case CallbackCall(event) => Callback(event)
    case CloseCall => true
  }

  /** The stream after one framework call or callback. */
  function Served(s: Stream, c: Call): Stream
    requires ValidCall(c)
  {
    match c
    case StandbyCall(env) => Suspended(s, env).0
    case ResumeCall(env) => Resumed(s, env).0
    case SetParametersCall(kvpairs, loaded, env) => ParamsApplied(s, AskedBy(Parsed(kvpairs)), loaded, env)
    case WriteCall(bytes, env) => Written(s, bytes, env).0
    case CallbackCall(event) => PortStep(s, event)
    case CloseCall => PortStep(Closed(s), TearDownCall)
  }

  lemma {:induction false} RunConcat(s: Stream, a: seq<Action>, b: seq<Action>)
    ensures RunActions(s, a + b) == RunActions(RunActions(s, a), b)
    decreases |a|
  {
    if a == [] {
      assert a + b == b;
    } else {
      assert (a + b)[1..] == a[1..] + b;
      RunConcat(Apply(s, a[0]), a[1..], b);
    }
  }

  lemma RunOne(s: Stream, a: Action)
    ensures RunActions(s, [a]) == Apply(s, a)
  {
    assert RunActions(Apply(s, a), [a][1..]) == Apply(s, a);
  }

  lemma {:induction false} CallbacksAreRun(s: Stream, callbacks: seq<Event>)
    requires AllCallbacks(callbacks)
    ensures RunActions(s, HeardAll(callbacks)) == s.(port := After(s.port, callbacks))
    ensures forall i :: 0 <= i < |HeardAll(callbacks)| ==> HeardAll(callbacks)[i].Heard?
    decreases |callbacks|
  {
    if callbacks != [] {
      assert HeardAll(callbacks)[1..] == HeardAll(callbacks[1..]);
      CallbacksAreRun(PortStep(s, callbacks[0]), callbacks[1..]);
    }
  }

  /** A port call is its dispatch, the callbacks it hears while waiting, and its wake-up. */
  lemma PortCallIsRun(s: Stream, s1: Stream, dispatch: Action, request: Event, callbacks: seq<Event>)
    requires AllCallbacks(callbacks)
    requires s1.port == s.port && Apply(s, dispatch) == PortStep(s1, request)
    ensures RunActions(s, WaitActions(s, dispatch, request, callbacks)) ==
            PortCall(s1, request, callbacks).0
  {
    RunOne(s, dispatch);
    if !Step(s.port, request).1.Returned? {
      var s2 := Apply(s, dispatch);
      RunConcat(s, [dispatch], HeardAll(callbacks));
      CallbacksAreRun(s2, callbacks);
      var s3 := s2.(port := After(s2.port, callbacks));
      RunConcat(s, [dispatch] + HeardAll(callbacks), [Woken]);
      RunOne(s3, Woken);
    }
  }

  predicate Reenables(actions: seq<Action>) {
    exists i :: 0 <= i < |actions| && actions[i].A2dpSuspendOff?
  }

  lemma SuspendedIsRun(s: Stream, env: WaitEnv) returns (actions: seq<Action>)
    requires AllCallbacks(env.callbacks)
    ensures Suspended(s, env).0 == RunActions(s, actions) && !Reenables(actions)
  {
    actions := [];
    if s.port.state.Started? {
      var dispatch := SuspendDispatch(env.accepted);
      actions := WaitActions(s, dispatch, SuspendCall(env.accepted), env.callbacks);
      PortCallIsRun(s, s.(framesRendered := 0), dispatch, SuspendCall(env.accepted), env.callbacks);
      CallbacksAreRun(s, env.callbacks);
    }
  }

  lemma ResumedIsRun(s: Stream, env: WaitEnv) returns (actions: seq<Action>)
    requires AllCallbacks(env.callbacks)
    ensures Resumed(s, env).0 == RunActions(s, actions) && !Reenables(actions)
  {
    actions := [];
    if s.port.state.Standby? {
      var dispatch := ResumeDispatch(env.accepted);
      actions := WaitActions(s, dispatch, StartCall(env.accepted), env.callbacks);
      PortCallIsRun(s, s, dispatch, StartCall(env.accepted), env.callbacks);
      CallbacksAreRun(s, env.callbacks);
    }
  }

  lemma A2dpAppliedIsRun(s: Stream, asked: Option<bool>, env: WaitEnv) returns (actions: seq<Action>)
    requires AllCallbacks(env.callbacks)
    ensures A2dpApplied(s, asked, env) == RunActions(s, actions)
    ensures Reenables(actions) ==> asked == Some(false) && IsA2dp(s.port)
  {
    actions := [];
    if asked.Some? && IsA2dp(s.port) {
      var dispatch := if asked.value then A2dpSuspendOn(env.accepted) else A2dpSuspendOff;
      actions := [dispatch];
      RunOne(s, dispatch);
      if asked.value && s.port.state.Started? {
        var waits := WaitActions(s, dispatch, SuspendCall(env.accepted), env.callbacks);
        PortCallIsRun(s, s.(framesRendered := 0), dispatch, SuspendCall(env.accepted), env.callbacks);
        CallbacksAreRun(s, env.callbacks);
        actions := waits + [A2dpSuspendDone];
        RunConcat(s, waits, [A2dpSuspendDone]);
        var s1 := RunActions(s, waits);
        RunOne(s1, A2dpSuspendDone);
        assert s1.port.session == s.port.session by {
          CallbacksKeep(Step(s.port, SuspendCall(env.accepted)).0, env.callbacks);
        }
      }
    }
  }

  lemma ConfigIsRun(s: Stream, rate: nat)
    ensures RunActions(s, [ConfigLoaded(rate)]) == s.(sampleRate := rate)
  {
    RunOne(s, ConfigLoaded(rate));
  }

  lemma CloseIsRun(s: Stream)
    ensures RunActions(s, [CloseParam]) == Closed(s)
  {
    RunOne(s, CloseParam);
  }

  lemma ParamsAppliedIsRun(s: Stream, asked: Asked, loaded: Option<nat>, env: WaitEnv)
    returns (actions: seq<Action>)
    requires AllCallbacks(env.callbacks)
    ensures ParamsApplied(s, asked, loaded, env) == RunActions(s, actions)
    ensures Reenables(actions) ==> asked.a2dpSuspended == Some(false) && IsA2dp(s.port)
  {
    hide A2dpApplied, Apply, Closed;
    var loads := asked.config && loaded.Some?;
    var config := if loads then [ConfigLoaded(loaded.value)] else [];
    var s1 := if loads then s.(sampleRate := loaded.value) else s;
    if loads {
      ConfigIsRun(s, loaded.value);
    }
    var a2dp := A2dpAppliedIsRun(s1, asked.a2dpSuspended, env);
    RunConcat(s, config, a2dp);
    var s2 := RunActions(s1, a2dp);
    var closing := if asked.closing then [CloseParam] else [];
    var exiting := if asked.exiting then [CloseParam] else [];
    CloseIsRun(s2);
    CloseIsRun(RunActions(s2, closing));
    RunConcat(s, config + a2dp, closing);
    RunConcat(s, config + a2dp + closing, exiting);
    actions := config + a2dp + closing + exiting;
    if Reenables(actions) {
      var i :| 0 <= i < |actions| && actions[i].A2dpSuspendOff?;
      assert a2dp[i - |config|].A2dpSuspendOff?;
    }
  }

  lemma ReenablesConcat(a: seq<Action>, b: seq<Action>)
    ensures Reenables(a + b) <==> Reenables(a) || Reenables(b)
  {
    if Reenables(a) {
      var i :| 0 <= i < |a| && a[i].A2dpSuspendOff?;
      assert (a + b)[i].A2dpSuspendOff?;
    }
    if Reenables(b) {
      var i :| 0 <= i < |b| && b[i].A2dpSuspendOff?;
      assert (a + b)[|a| + i].A2dpSuspendOff?;
    }
  }

  lemma AccountedIsRun(s: Stream, bytes: nat, env: WriteEnv) returns (actions: seq<Action>)
    requires ValidEnv(env)
    ensures Accounted(s, bytes, env) == RunActions(s, actions)
    ensures Reenables(actions) ==> Reenables(env.duringSleep)
  {
    hide StreamTiming.PlayTime;
    var play := StreamTiming.PlayTime(bytes, env.frameSize, env.rate);
    var slept := if env.transferred == 0 && StreamTiming.SleepTime(s.lastWriteUs, env.now, play) > 0 then env.duringSleep else [];
    var last := if env.transferred > 0 then Transferred(bytes / env.frameSize, env.now)
    else Stalled(StreamTiming.NextLastWrite(s.lastWriteUs, env.now, play));
    actions := slept + [last];
    RunConcat(s, slept, [last]);
    RunOne(RunActions(s, slept), last);
    ReenablesConcat(slept, [last]);
  }

  lemma WrittenIsRun(s: Stream, bytes: nat, env: WriteEnv) returns (actions: seq<Action>)
    requires ValidEnv(env) && AllCallbacks(env.start.callbacks)
    ensures Written(s, bytes, env).0 == RunActions(s, actions)
    ensures Reenables(actions) ==>
              || Reenables(env.beforeResume) || Reenables(env.afterResume)
              || Reenables(env.duringTransfer) || Reenables(env.duringSleep)
  {
    hide Resumed, Accounted;
    if s.port.state.Started? {
      var s1 := RunActions(s, env.duringTransfer);
      var last := AccountedIsRun(s1, bytes, env);
      actions := env.duringTransfer + last;
      RunConcat(s, env.duringTransfer, last);
      ReenablesConcat(env.duringTransfer, last);
    } else {
      var s1 := RunActions(s, env.beforeResume);
      var resume := ResumedIsRun(s1, env.start);
      var before := env.beforeResume + resume + env.afterResume;
      RunConcat(s, env.beforeResume, resume);
      RunConcat(s, env.beforeResume + resume, env.afterResume);
      ReenablesConcat(env.beforeResume, resume);
      ReenablesConcat(env.beforeResume + resume, env.afterResume);
      if Resumed(s1, env.start).1 != 0 {
        actions := before;
      } else {
        var s2 := RunActions(s, before);
        var s3 := RunActions(s2, env.duringTransfer);
        var last := AccountedIsRun(s3, bytes, env);
        actions := before + env.duringTransfer + last;
        RunConcat(s, before, env.duringTransfer);
        RunConcat(s, before + env.duringTransfer, last);
        ReenablesConcat(before, env.duringTransfer);
        ReenablesConcat(before + env.duringTransfer, last);
      }
    }
  }

  /** The call asks, itself or through another thread that runs inside it, to end a suspension. */
  predicate MayReenable(c: Call) {
    || (c.SetParametersCall? && AskedBy(Parsed(c.kvpairs)).a2dpSuspended == Some(false))
    || (c.WriteCall? && (Reenables(c.writeEnv.beforeResume) || Reenables(c.writeEnv.afterResume)
                         || Reenables(c.writeEnv.duringTransfer) || Reenables(c.writeEnv.duringSleep)))
  }

  /** Every call, with whatever interleaves with it, is a run of atomic actions; only the calls above
      contain the action that ends a suspension. */
  lemma ServedIsRun(s: Stream, c: Call) returns (actions: seq<Action>)
    requires ValidCall(c)
    ensures Served(s, c) == RunActions(s, actions)
    ensures Reenables(actions) ==> MayReenable(c)
  {
    hide Parsed, AskedBy, ParamsApplied, Written, Suspended, Resumed;
    match c
    case StandbyCall(env) => actions := SuspendedIsRun(s, env);
    case ResumeCall(env) => actions := ResumedIsRun(s, env);
    case SetParametersCall(kvpairs, loaded, env) =>
      actions := ParamsAppliedIsRun(s, AskedBy(Parsed(kvpairs)), loaded, env);
    case WriteCall(bytes, env) => actions := WrittenIsRun(s, bytes, env);
    case CallbackCall(event) => actions := [Heard(event)]; RunOne(s, Heard(event));
    case CloseCall => actions := [CloseStream]; RunOne(s, CloseStream);
  }

  function ServedAll(s: Stream, calls: seq<Call>): Stream
    requires forall i :: 0 <= i < |calls| ==> ValidCall(calls[i])
    decreases |calls|
  {
    if calls == [] then s else ServedAll(Served(s, calls[0]), calls[1..])
  }

  /** In every run of calls and callbacks: the state is never UNKNOWN, the frames rendered never exceed
      the frames presented, and a stream that is not A2DP never leaves the disabled state. An A2DP
      stream leaves it only if some call of the run asks for a not-"true" A2dpSuspended. */
  lemma {:induction false} EveryRunOfCalls(s: Stream, calls: seq<Call>)
    requires Inv(s) && forall i :: 0 <= i < |calls| ==> ValidCall(calls[i])
    ensures Inv(ServedAll(s, calls))
    ensures ServedAll(s, calls).port.session == s.port.session
    ensures s.port.state.Disabled? && !ServedAll(s, calls).port.state.Disabled? ==>
              IsA2dp(s.port) && exists i :: 0 <= i < |calls| && MayReenable(calls[i])
    decreases |calls|
  {
    hide Served, MayReenable;
    if calls != [] {
      var actions := ServedIsRun(s, calls[0]);
      RunKeeps(s, actions);
      var s' := Served(s, calls[0]);
      EveryRunOfCalls(s', calls[1..]);
      if s.port.state.Disabled? && !ServedAll(s, calls).port.state.Disabled? {
        if s'.port.state.Disabled? {
          var i :| 0 <= i < |calls[1..]| && MayReenable(calls[1..][i]);
          assert MayReenable(calls[i + 1]);
        } else {
          if NoReenable(s, actions) {
            DisabledStays(s, actions);
          }
          assert MayReenable(calls[0]);
        }
      }
    }
  }

  /** In every reachable state, whatever byte count and delay the stack reports: the presentation
      position lies between the frames presented less twice and less once the latency, following the
      byte count exactly if that is neither ahead nor behind by more than the latency, and the render
      position is at most the frames rendered, hence at most the frames presented. */
  lemma PositionsOfReachableStream(s: Stream, calls: seq<Call>, delayMs: nat, bytes: nat, frameSize: nat)
    requires Inv(s) && frameSize > 0 && forall i :: 0 <= i < |calls| ==> ValidCall(calls[i])
    ensures var s' := ServedAll(s, calls);
            var latency := StreamTiming.LatencyFrames(delayMs, s'.sampleRate);
            var presentation := StreamTiming.PresentationFrames(bytes, frameSize, s'.framesPresented, latency);
            var render := StreamTiming.RenderFrames(s'.framesRendered, latency);
            && 1000 * latency <= delayMs * s'.sampleRate < 1000 * (latency + 1)
            && StreamTiming.FollowsCounter(presentation, bytes / frameSize, s'.framesPresented, latency)
            && s'.framesPresented - 2 * latency <= presentation <= s'.framesPresented
            && (presentation > 0 ==> presentation <= s'.framesPresented - latency)
            && render <= s'.framesRendered <= s'.framesPresented
  {
    hide Served, StreamTiming.PresentationFrames, StreamTiming.RenderFrames, StreamTiming.LatencyFrames,
         StreamTiming.FollowsCounter;
    EveryRunOfCalls(s, calls);
    PositionsOf(ServedAll(s, calls), delayMs, bytes, frameSize);
  }

  lemma PositionsOf(s: Stream, delayMs: nat, bytes: nat, frameSize: nat)
    requires frameSize > 0
    ensures var latency := StreamTiming.LatencyFrames(delayMs, s.sampleRate);
            var presentation := StreamTiming.PresentationFrames(bytes, frameSize, s.framesPresented, latency);
            && StreamTiming.FollowsCounter(presentation, bytes / frameSize, s.framesPresented, latency)
            && s.framesPresented - 2 * latency <= presentation <= s.framesPresented
            && (presentation > 0 ==> presentation <= s.framesPresented - latency)
  {
    hide StreamTiming.PresentationFrames, StreamTiming.LatencyFrames, StreamTiming.FollowsCounter;
    var latency := StreamTiming.LatencyFrames(delayMs, s.sampleRate);
    var presentation := StreamTiming.PresentationFrames(bytes, frameSize, s.framesPresented, latency);
    StreamTiming.PresentationFollowsCounter(bytes, frameSize, s.framesPresented, latency);
    StreamTiming.FollowingIsBounded(presentation, bytes / frameSize, s.framesPresented, latency);
  }

  // ----- consecutive writes that transfer nothing

  /** A call of `out_write` and the clock when it returned. */
  datatype TimedWrite = TimedWrite(bytes: nat, env: WriteEnv, returned: int)

  predicate NoOtherWrites(actions: seq<Action>) {
    forall i :: 0 <= i < |actions| ==> !actions[i].Transferred? && !actions[i].Stalled?
  }

  predicate AllStalled(calls: seq<TimedWrite>) {
    forall i :: 0 <= i < |calls| ==> StalledCall(calls[i])
  }

  /** The write transfers nothing, and nobody else writes meanwhile. */
  predicate StalledCall(c: TimedWrite) {
    && ValidEnv(c.env) && c.env.transferred == 0
    && NoOtherWrites(c.env.beforeResume) && NoOtherWrites(c.env.afterResume)
    && NoOtherWrites(c.env.duringTransfer) && NoOtherWrites(c.env.duringSleep)
  }

  /** The write gets as far as the data path. */
  predicate ReachesData(s: Stream, env: WriteEnv) {
    s.port.state.Started? || Resumed(RunActions(s, env.beforeResume), env.start).1 == 0
  }

  function WrittenAll(s: Stream, calls: seq<TimedWrite>): Stream
    requires AllStalled(calls)
    decreases |calls|
  {
    if calls == [] then s
    else
      assert StalledCall(calls[0]);
      WrittenAll(Written(s, calls[0].bytes, calls[0].env).0, calls[1..])
  }

  /** The stalled writes that a sequence of calls amounts to. */
  function StalledWritesOf(s: Stream, calls: seq<TimedWrite>): seq<StreamTiming.StalledWrite>
    requires AllStalled(calls)
    decreases |calls|
  {
    if calls == [] then []
    else
      var c := calls[0];
      assert StalledCall(c);
      var rest := StalledWritesOf(Written(s, c.bytes, c.env).0, calls[1..]);
      if !ReachesData(s, c.env) then rest
      else [StreamTiming.StalledWrite(c.env.now, c.returned, StreamTiming.PlayTime(c.bytes, c.env.frameSize, c.env.rate))] + rest
  }

  lemma {:induction false} LastWriteKept(s: Stream, actions: seq<Action>)
    requires NoOtherWrites(actions)
    ensures RunActions(s, actions).lastWriteUs == s.lastWriteUs
    decreases |actions|
  {
    if actions != [] {
      LastWriteKept(Apply(s, actions[0]), actions[1..]);
    }
  }

  /** One stalled write: the last-write time is that of the pacing arithmetic, or untouched. */
  lemma StalledCallPaces(s: Stream, c: TimedWrite)
    requires StalledCall(c)
    ensures var play := StreamTiming.PlayTime(c.bytes, c.env.frameSize, c.env.rate);
            Written(s, c.bytes, c.env).0.lastWriteUs ==
            if ReachesData(s, c.env) then StreamTiming.NextLastWrite(s.lastWriteUs, c.env.now, play) else s.lastWriteUs
  {
    hide StreamTiming.PlayTime, RunActions;
    var env := c.env;
    var s1 := RunActions(s, env.beforeResume);
    LastWriteKept(s, env.beforeResume);
    var s2 := RunActions(Resumed(s1, env.start).0, env.afterResume);
    LastWriteKept(Resumed(s1, env.start).0, env.afterResume);
    LastWriteKept(if s.port.state.Started? then s else s2, env.duringTransfer);
  }

  /** What `out_write` reports and counts. A write that reaches the data path reports what was transferred,
      and if that is anything counts all its frames on both counters, on top of what other threads
      did; one whose resume fails reports everything if the stream is disabled by then, and nothing if
      it is not, and counts nothing. */
  lemma WriteOutcome(s: Stream, bytes: nat, env: WriteEnv, frames: nat)
    requires ValidEnv(env) && env.frameSize * frames <= bytes < env.frameSize * (frames + 1)
    ensures var (s', written) := Written(s, bytes, env);
            var before := if s.port.state.Started? then s
                          else RunActions(Resumed(RunActions(s, env.beforeResume), env.start).0, env.afterResume);
            if ReachesData(s, env) then
              var others := RunActions(before, env.duringTransfer);
              && written == env.transferred
              && (env.transferred > 0 ==>
                    s' == others.(framesRendered := others.framesRendered + frames,
                                  framesPresented := others.framesPresented + frames,
                                  lastWriteUs := env.now))
            else s' == before && written == if before.port.state.Disabled? then bytes else 0
  {
    hide StreamTiming.PlayTime, RunActions, Resumed;
    FrameQuotient(bytes, env.frameSize, frames);
  }

  lemma FrameQuotient(bytes: nat, frameSize: nat, frames: nat)
    requires frameSize > 0 && frameSize * frames <= bytes < frameSize * (frames + 1)
    ensures bytes / frameSize == frames
  {
    MachineInt.DivModUnique(bytes, frameSize, frames, bytes - frames * frameSize);
  }

  /** Consecutive writes that transfer nothing leave the last-write time of the pacing theorems. */
  lemma {:induction false} StalledCallsPace(s: Stream, calls: seq<TimedWrite>)
    requires AllStalled(calls)
    ensures WrittenAll(s, calls).lastWriteUs == StreamTiming.LastAfter(s.lastWriteUs, StalledWritesOf(s, calls))
    decreases |calls|
  {
    hide Written, StreamTiming.NextLastWrite, ReachesData;
    if calls != [] {
      assert StalledCall(calls[0]);
      var s' := Written(s, calls[0].bytes, calls[0].env).0;
      StalledCallPaces(s, calls[0]);
      StalledCallsPace(s', calls[1..]);
      var writes, rest := StalledWritesOf(s, calls), StalledWritesOf(s', calls[1..]);
      assert ReachesData(s, calls[0].env) ==> writes[1..] == rest;
    }
  }

  /** How long the data of the calls that reach the data path really lasts, in microseconds. */
  function TotalDuration(s: Stream, calls: seq<TimedWrite>): real
    requires AllStalled(calls)
    decreases |calls|
  {
    if calls == [] then 0.0
    else
      var c := calls[0];
      assert StalledCall(c);
      (if ReachesData(s, c.env) then StreamTiming.DurationUs(c.bytes, c.env.frameSize, c.env.rate) else 0.0)
      + TotalDuration(Written(s, c.bytes, c.env).0, calls[1..])
  }

  /** The play times miss the real durations by less than a microsecond each. */
  lemma {:induction false} TotalPlayIsDuration(s: Stream, calls: seq<TimedWrite>)
    requires AllStalled(calls)
    ensures var writes := StalledWritesOf(s, calls);
            var play := StreamTiming.TotalPlay(writes) as real;
            play <= TotalDuration(s, calls) <= play + |writes| as real
    decreases |calls|
  {
    hide Written, ReachesData, StreamTiming.PlayTime, StreamTiming.DurationUs;
    if calls != [] {
      var c := calls[0];
      assert StalledCall(c);
      var s' := Written(s, c.bytes, c.env).0;
      TotalPlayIsDuration(s', calls[1..]);
      StreamTiming.PlayTimeIsDuration(c.bytes, c.env.frameSize, c.env.rate);
      var writes, rest := StalledWritesOf(s, calls), StalledWritesOf(s', calls[1..]);
      assert ReachesData(s, c.env) ==> writes[1..] == rest && |writes| == |rest| + 1;
    }
  }

  /** A stream that cannot transfer its data is paced no faster than real time: by the time its calls
      return, the clock has passed the first last-write time by the real duration of all their bytes,
      less at most a microsecond for each call. */
  lemma StalledStreamIsPaced(s: Stream, clock: int, calls: seq<TimedWrite>)
    requires AllStalled(calls)
    requires s.lastWriteUs <= clock && StreamTiming.StalledRun(s.lastWriteUs, clock, StalledWritesOf(s, calls))
    requires StreamTiming.SleepsFit(s.lastWriteUs, StalledWritesOf(s, calls))
    ensures var writes := StalledWritesOf(s, calls);
            var end := StreamTiming.ClockAfter(clock, writes);
            && WrittenAll(s, calls).lastWriteUs <= end
            && TotalDuration(s, calls) - |writes| as real <= (end - s.lastWriteUs) as real
  {
    StalledCallsPace(s, calls);
    StreamTiming.StalledWritesArePaced(s.lastWriteUs, clock, StalledWritesOf(s, calls));
    TotalPlayIsDuration(s, calls);
  }

  // ----- what the frame counters count

  function FramesIn(a: Action): nat {
    if a.Transferred? then a.frames else 0
  }

  function FramesOf(actions: seq<Action>): nat {
    if actions == [] then 0 else FramesIn(actions[0]) + FramesOf(actions[1..])
  }

  /** The step closes a stream that is not disabled, and so resets both counters. */
  predicate ResetsPresented(s: Stream, a: Action) {
    (a.CloseParam? || a.CloseStream?) && !s.port.state.Disabled?
  }

  /** The step closes such a stream, suspends a started one, or is "A2dpSuspended=true" on A2DP. */
  predicate ResetsRendered(s: Stream, a: Action) {
    ResetsPresented(s, a) || (a.SuspendDispatch? && s.port.state.Started?) || (a.A2dpSuspendOn? && IsA2dp(s.port))
  }

  /** The steps after the last one that resets; all of them if none does. */
  function SinceReset(resets: (Stream, Action) -> bool, s: Stream, actions: seq<Action>): (since: seq<Action>)
    ensures |since| <= |actions| && (|since| == |actions| ==> since == actions)
    decreases |actions|
  {
    if actions == [] then []
    else
      var rest := SinceReset(resets, Apply(s, actions[0]), actions[1..]);
      if |rest| < |actions| - 1 || resets(s, actions[0]) then rest else actions
  }

  /** Some step of the run resets. */
  predicate EverReset(resets: (Stream, Action) -> bool, s: Stream, actions: seq<Action>)
    decreases |actions|
  {
    actions != [] && (resets(s, actions[0]) || EverReset(resets, Apply(s, actions[0]), actions[1..]))
  }

  /** A counter that every step resets or increases by the frames it transfers holds, after any run, the
      frames transferred since its last reset. */
  lemma {:induction false} CountsTransfers(count: Stream -> nat, resets: (Stream, Action) -> bool,
                                           s: Stream, actions: seq<Action>)
    requires forall s: Stream, a: Action :: count(Apply(s, a)) == if resets(s, a) then 0 else count(s) + FramesIn(a)
    ensures EverReset(resets, s, actions) <==> |SinceReset(resets, s, actions)| < |actions|
    ensures count(RunActions(s, actions)) ==
            FramesOf(SinceReset(resets, s, actions)) + if EverReset(resets, s, actions) then 0 else count(s)
    decreases |actions|
  {
    hide Apply;
    if actions != [] {
      CountsTransfers(count, resets, Apply(s, actions[0]), actions[1..]);
    }
  }

  /** Conservation over every run: the frames presented are exactly the frames transferred since a step
      last closed a stream that was not disabled, on top of the initial ones if none did. */
  lemma PresentedCountsTransfers(s: Stream, actions: seq<Action>)
    ensures EverReset(ResetsPresented, s, actions) <==> |SinceReset(ResetsPresented, s, actions)| < |actions|
    ensures RunActions(s, actions).framesPresented ==
            FramesOf(SinceReset(ResetsPresented, s, actions)) +
            if EverReset(ResetsPresented, s, actions) then 0 else s.framesPresented
  {
    CountsTransfers((s: Stream) => s.framesPresented, ResetsPresented, s, actions);
  }

  /** The frames rendered are exactly the frames transferred since a step last suspended or closed. */
  lemma RenderedCountsTransfers(s: Stream, actions: seq<Action>)
    ensures EverReset(ResetsRendered, s, actions) <==> |SinceReset(ResetsRendered, s, actions)| < |actions|
    ensures RunActions(s, actions).framesRendered ==
            FramesOf(SinceReset(ResetsRendered, s, actions)) +
            if EverReset(ResetsRendered, s, actions) then 0 else s.framesRendered
  {
    CountsTransfers((s: Stream) => s.framesRendered, ResetsRendered, s, actions);
  }

  /** A started stream with frames presented that is asked to close presents none afterwards. */
  lemma ClosingResetsPresented(s: Stream, loaded: Option<nat>, env: WaitEnv)
    requires InUse(s.port) && s.port.state.Started? && s.framesPresented > 0 && AllCallbacks(env.callbacks)
    ensures ParamsApplied(s, AskedBy(Parsed("closing=true")), loaded, env).framesPresented == 0
  {
    var entry := Entry(CLOSING, "true");
    var text := entry.key + "=" + entry.val;
    assert text == "closing=true";
    EntryBinding(entry);
    ParseSingle(text);
    SetParametersFrames(s, text, loaded, env);
  }
}
