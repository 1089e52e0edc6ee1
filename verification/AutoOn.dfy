/**
 The automatic turn-on feature of the Bluetooth service (service/src/AutoOn.kt): a timer with an
 alarm, a broadcast receiver for clock changes, a stored deadline and a user setting. Local date
 times are nanoseconds counted from a midnight; the callback does not call back into the class.
 */
module AutoOn {
  import opened Options

  const HOUR: int := 3600000000000
  const DAY: int := 24 * HOUR

  /** A deadline; `id` tells apart deadlines chosen at different times that fall on the same instant. */
  datatype Deadline = Deadline(id: nat, at: int)

  datatype Timer = Timer(id: nat, deadline: Deadline)

  /** The world of one user: the stored setting and deadline, the current timer, the alarms and
      broadcast receivers registered with the system, and the deadlines whose callback was called. */
  datatype State = State(
    setting: Option<int>,
    storage: Option<Deadline>,
    timer: Option<Timer>,
    alarms: map<nat, Deadline>,
    receivers: set<nat>,
    nextTimer: nat,
    nextDeadline: nat,
    fired: seq<nat>)

  const INITIAL: State := State(None, None, None, map[], {}, 0, 0, [])

  datatype Env = Env(bluetoothOn: bool, satellite: bool, airplane: bool, userToggledApm: bool, now: int)

  /** Five in the morning of the day after `now`. */
  function NextTimeout(now: int): (target: int)
    ensures 18000000000000 < target - now <= 104400000000000
    ensures target % 86400000000000 == 18000000000000
  {
    now / DAY * DAY + 5 * HOUR + DAY
  }

  // ----- operations

  predicate Supported(s: State) {
    s.setting.Some? && s.setting.value != -1
  }

  predicate EnabledUnchecked(s: State) {
    s.setting == Some(1)
  }

  predicate Blocked(env: Env) {
    env.bluetoothOn || env.satellite || (env.airplane && !env.userToggledApm)
  }

  function Unregistered(s: State, t: Timer): State {
    s.(receivers := s.receivers - {t.id}, alarms := s.alarms - {t.id})
  }

  /** `timer?.cancel(); timer = null` */
  function Cancelled(s: State): State {
    if s.timer.None? then s else Unregistered(s, s.timer.value).(storage := None, timer := None)
  }

  /** `pause` */
  function Paused(s: State): State {
    if s.timer.None? then s else Unregistered(s, s.timer.value).(timer := None)
  }

  /** `resetAutoOnTimer` */
  function Reset(s: State, env: Env): State {
    var s1 := Cancelled(s);
    if !EnabledUnchecked(s1) || Blocked(env) then s1 else Scheduled(s1, env.now)
  }

  /** The second half of `resetAutoOnTimer`: start at once if the deadline has passed, or set a timer. */
  function Scheduled(s: State, now: int): State {
    var target := if s.storage.Some? then s.storage.value else Deadline(s.nextDeadline, NextTimeout(now));
    var s1 := if s.storage.Some? then s else s.(nextDeadline := s.nextDeadline + 1);
    if target.at < now then s1.(fired := s1.fired + [target.id], storage := None)
    else s1.(timer := Some(Timer(s1.nextTimer, target)),
             storage := Some(target),
             alarms := s1.alarms[s1.nextTimer := target],
             receivers := s1.receivers + {s1.nextTimer},
             nextTimer := s1.nextTimer + 1)
  }

  function NotifiedOn(s: State): State {
    var s1 := Cancelled(s);
    if !Supported(s1) then s1.(setting := Some(1)) else s1.(storage := None)
  }

  /** `setEnabled`, or nothing where it throws. */
  function SetEnabled(s: State, status: bool, env: Env): State {
    if !Supported(s) || (EnabledUnchecked(s) && status) then s
    else Reset(s.(setting := Some(if status then 1 else 0), storage := None), env)
  }

  /** `factoryReset` */
  function Wiped(s: State): State {
    Cancelled(s.(setting := Some(0)))
  }

  /** `onAlarm` of the timer with the given id. */
  function Alarmed(s: State, id: nat): State
    requires id in s.alarms
  {
    var t := Timer(id, s.alarms[id]);
    Unregistered(s, t).(fired := s.fired + [t.deadline.id], storage := None, timer := None)
  }

  // ----- the object

  class Feature {
    var setting: Option<int>
    var storage: Option<Deadline>
    var timer: Option<Timer>
    var alarms: map<nat, Deadline>
    var receivers: set<nat>
    var nextTimer: nat
    ghost var nextDeadline: nat
    ghost var fired: seq<nat>

    ghost function View(): State
      reads this
    {
      State(setting, storage, timer, alarms, receivers, nextTimer, nextDeadline, fired)
    }

    ghost predicate Valid()
      reads this
    {
      Inv(View())
    }

    constructor ()
      ensures View() == INITIAL && Valid()
    {
      setting, storage, timer, alarms, receivers := None, None, None, map[], {};
      nextTimer, nextDeadline, fired := 0, 0, [];
    }

    method Cancel()
      modifies this
      ensures View() == Cancelled(old(View()))
      ensures old(Valid()) ==> Valid() && alarms == map[] && receivers == {}
      ensures old(Valid()) ==> storage == if old(timer).Some? then None else old(storage)
    {
      if Valid() {
        CancelledOk(View());
      }
      if timer.Some? {
        receivers := receivers - {timer.value.id};
        alarms := alarms - {timer.value.id};
        storage := None;
      }
      timer := None;
    }

    method Pause()
      modifies this
      ensures View() == Paused(old(View()))
      ensures old(Valid()) ==> Valid() && storage == old(storage)
    {
      if Valid() {
        CancelledOk(View());
      }
      if timer.Some? {
        receivers := receivers - {timer.value.id};
        alarms := alarms - {timer.value.id};
      }
      timer := None;
    }

    /** `freshId` names the deadline in case a new one is chosen. */
    method ResetAutoOnTimer(env: Env, freshId: nat) returns (calledBack: bool)
      requires freshId == nextDeadline
      modifies this
      ensures View() == Reset(old(View()), env)
      ensures calledBack <==> |fired| > |old(fired)|
      ensures old(Valid()) ==> Valid() && (timer.Some? <==> LeavesTimer(old(View()), env))
    {
      if Valid() {
        ResetOk(View(), env);
        TimerAfterResetIff(View(), env);
      }
      Cancel();
      if setting != Some(1) {
        return false;
      }
      if env.bluetoothOn {
        return false;
      }
      if env.satellite {
        return false;
      }
      if env.airplane {
        if !env.userToggledApm {
          return false;
        }
      }
      var target: Deadline;
      if storage.Some? {
        target := storage.value;
      } else {
        target := Deadline(freshId, NextTimeout(env.now));
        nextDeadline := nextDeadline + 1;
      }
      var timeToSleep := target.at - env.now;
      if timeToSleep < 0 {
        fired := fired + [target.id];
        storage := None;
        return true;
      }
      storage := Some(target);
      alarms := alarms[nextTimer := target];
      receivers := receivers + {nextTimer};
      timer := Some(Timer(nextTimer, target));
      nextTimer := nextTimer + 1;
      return false;
    }

    /** The alarm that rings is that of the current timer and its deadline the stored one: it is answered,
        and no timer, alarm, receiver or stored deadline is left. */
    method OnAlarm(id: nat)
      requires Valid() && id in alarms
      modifies this
      ensures View() == Alarmed(old(View()), id)
      ensures Valid()
      ensures old(timer) == Some(Timer(id, old(storage).value))
      ensures fired == old(fired) + [old(storage).value.id] && old(storage).value.id !in old(fired)
      ensures timer == None && storage == None && alarms == map[] && receivers == {}
    {
      AlarmedOk(View(), id);
      fired := fired + [alarms[id].id];
      receivers := receivers - {id};
      alarms := alarms - {id};
      storage := None;
      timer := None;
    }

    method NotifyBluetoothOn()
      modifies this
      ensures View() == NotifiedOn(old(View()))
      ensures old(Valid()) ==> Valid() && timer == None && storage == None
    {
      if Valid() {
        StepKeeps(View(), NotifyOnCall);
        BluetoothOnForgetsDeadline(View());
      }
      Cancel();
      if setting.None? || setting.value == -1 {
        setting := Some(1);
      } else {
        storage := None;
      }
    }

    method Enable(status: bool, env: Env, freshId: nat) returns (thrown: bool)
      requires freshId == nextDeadline
      modifies this
      ensures thrown <==> !Supported(old(View()))
      ensures View() == SetEnabled(old(View()), status, env)
      ensures old(Valid()) ==> Valid() && (!thrown ==> (setting == Some(1) <==> status))
      ensures old(Valid()) && !thrown && !status ==>
                setting == Some(0) && timer == None && storage == None && alarms == map[] && receivers == {}
      ensures old(Valid()) && !thrown && status && old(setting) != Some(1) ==> (timer.Some? <==> !Blocked(env))
    {
      if Valid() {
        SetEnabledOk(View(), status, env);
        SetEnabledOutcome(View(), status, env);
      }
      if setting.None? || setting.value == -1 {
        return true;
      }
      if setting == Some(1) && status {
        return false;
      }
      setting := Some(if status then 1 else 0);
      storage := None;
      var calledBack := ResetAutoOnTimer(env, freshId);
      return false;
    }

    method FactoryReset()
      modifies this
      ensures View() == Wiped(old(View()))
      ensures setting == Some(0) && timer == None
      ensures old(Valid()) ==> Valid() && alarms == map[] && receivers == {}
    {
      if Valid() {
        StepKeeps(View(), FactoryResetCall);
      }
      setting := Some(0);
      Cancel();
    }

    /** `onReceive` of the receiver for clock changes. */
    method OnReceive(env: Env, freshId: nat)
      requires freshId == nextDeadline
      modifies this
      ensures View() == Reset(Paused(old(View())), env)
      ensures old(Valid()) ==> Valid()
    {
      Pause();
      var calledBack := ResetAutoOnTimer(env, freshId);
    }
  }

  // ----- runs

  datatype Event =
    | ResetCall(env: Env)
    | PauseCall
    | NotifyOnCall
    | SetEnabledCall(status: bool, env: Env)
    | FactoryResetCall
    | AlarmRings(id: nat)
    | ClockChanged(receiver: nat, env: Env)

  /** An alarm rings only while pending, and a broadcast is delivered only to a registered receiver. */
  predicate CanHappen(s: State, e: Event) {
    match e
    case AlarmRings(id) => id in s.alarms
    case ClockChanged(receiver, _) => receiver in s.receivers
    case _ => true
  }

  function Step(s: State, e: Event): State
    requires CanHappen(s, e)
  {
    match e
    case ResetCall(env) => Reset(s, env)
    case PauseCall => Paused(s)
    case NotifyOnCall => NotifiedOn(s)
    case SetEnabledCall(status, env) => SetEnabled(s, status, env)
    case FactoryResetCall => Wiped(s)
    case AlarmRings(id) => Alarmed(s, id)
    case ClockChanged(_, env) => Reset(Paused(s), env)
  }

  predicate ValidRun(s: State, events: seq<Event>)
    decreases |events|
  {
    events == [] || (CanHappen(s, events[0]) && ValidRun(Step(s, events[0]), events[1..]))
  }

  function Final(s: State, events: seq<Event>): State
    requires ValidRun(s, events)
    decreases |events|
  {
    if events == [] then s else Final(Step(s, events[0]), events[1..])
  }

  /** A timer exists exactly while one alarm is pending and one receiver is registered, both its own;
      its deadline is the stored one and the setting is on. */
  ghost predicate TimerOk(s: State) {
    match s.timer
    case None => s.alarms == map[] && s.receivers == {}
    case Some(t) =>
      && s.alarms == map[t.id := t.deadline]
      && s.receivers == {t.id}
      && s.storage == Some(t.deadline)
      && s.setting == Some(1)
  }

  /** No deadline has been answered twice, and the stored one has not been answered. */
  ghost predicate FiredOnce(s: State) {
    && (forall i :: 0 <= i < |s.fired| ==> s.fired[i] < s.nextDeadline)
    && (forall i, j :: 0 <= i < j < |s.fired| ==> s.fired[i] != s.fired[j])
    && (s.storage.Some? ==> s.storage.value.id < s.nextDeadline && s.storage.value.id !in s.fired)
    && (s.storage.Some? ==> Supported(s))
  }

  ghost predicate Inv(s: State) {
    TimerOk(s) && FiredOnce(s)
  }

  lemma CancelledOk(s: State)
    requires Inv(s)
    ensures Inv(Cancelled(s)) && Cancelled(s).timer.None?
    ensures Inv(Paused(s)) && Paused(s).timer.None? && Paused(s).storage == s.storage
  {
    if s.timer.Some? {
      var t := s.timer.value;
      assert s.alarms - {t.id} == map[];
      assert s.receivers - {t.id} == {};
    }
  }

  /** Answering a deadline that has not been answered keeps the answers distinct. */
  lemma FiringOk(s: State, id: nat)
    requires FiredOnce(s) && id < s.nextDeadline && id !in s.fired
    ensures FiredOnce(s.(fired := s.fired + [id], storage := None))
  {
  }

  lemma ScheduledOk(s: State, now: int)
    requires Inv(s) && s.timer.None? && EnabledUnchecked(s)
    ensures Inv(Scheduled(s, now))
  {
    var s1 := if s.storage.Some? then s else s.(nextDeadline := s.nextDeadline + 1);
    var id := if s.storage.Some? then s.storage.value.id else s.nextDeadline;
    FiringOk(s1, id);
    assert map[][s.nextTimer := Deadline(0, 0)] == map[s.nextTimer := Deadline(0, 0)];
  }

  lemma ResetOk(s: State, env: Env)
    requires Inv(s)
    ensures Inv(Reset(s, env))
  {
    CancelledOk(s);
    if EnabledUnchecked(Cancelled(s)) && !Blocked(env) {
      ScheduledOk(Cancelled(s), env.now);
    }
  }

  lemma AlarmedOk(s: State, id: nat)
    requires Inv(s) && id in s.alarms
    ensures Inv(Alarmed(s, id))
  {
    var t := s.timer.value;
    assert id == t.id;
    assert s.alarms - {t.id} == map[];
    assert s.receivers - {t.id} == {};
    FiringOk(s, t.deadline.id);
  }

  /** `setEnabled` writes the setting before it cancels the timer; the invariant is back at the end. */
  lemma SetEnabledOk(s: State, status: bool, env: Env)
    requires Inv(s)
    ensures Inv(SetEnabled(s, status, env))
  {
    if Supported(s) && !(EnabledUnchecked(s) && status) {
      var s1 := s.(setting := Some(if status then 1 else 0), storage := None);
      var s2 := Cancelled(s1);
      CancelledOk(s);
      assert s2 == Cancelled(s).(setting := s1.setting, storage := None);
      if EnabledUnchecked(s2) && !Blocked(env) {
        ScheduledOk(s2, env.now);
      }
    }
  }

  lemma StepKeeps(s: State, e: Event)
    requires Inv(s) && CanHappen(s, e)
    ensures Inv(Step(s, e))
  {
    CancelledOk(s);
    match e
    case ResetCall(env) => ResetOk(s, env);
    case PauseCall =>
    case NotifyOnCall =>
    case SetEnabledCall(status, env) => SetEnabledOk(s, status, env);
    case FactoryResetCall => assert Cancelled(s.(setting := Some(0))) == Cancelled(s).(setting := Some(0));
    case AlarmRings(id) => AlarmedOk(s, id);
    case ClockChanged(receiver, env) => ResetOk(Paused(s), env);
  }

  /** In every run, at every method boundary: timer, alarm, receiver, stored deadline and setting
      agree, and no deadline has called the callback more than once. */
  lemma {:induction false} RunKeeps(s: State, events: seq<Event>)
    requires Inv(s) && ValidRun(s, events)
    ensures Inv(Final(s, events))
    decreases |events|
  {
    if events != [] {
      StepKeeps(s, events[0]);
      RunKeeps(Step(s, events[0]), events[1..]);
    }
  }

  // ----- what happens to a deadline

  /** The feature is on, Bluetooth is not on already, neither satellite mode nor an airplane mode the
      user has not overruled prevents a timer, and the deadline to wait for is not over: a paused
      timer's stored one, otherwise a new one. */
  predicate LeavesTimer(s: State, env: Env) {
    && s.setting == Some(1) && !env.bluetoothOn && !env.satellite && (env.airplane ==> env.userToggledApm)
    && (s.timer.None? && s.storage.Some? ==> env.now <= s.storage.value.at)
  }

  lemma TimerAfterResetIff(s: State, env: Env)
    requires Inv(s)
    ensures Reset(s, env).timer.Some? <==> LeavesTimer(s, env)
  {
    CancelledOk(s);
  }

  /** `setEnabled` on a supported feature stores the setting asked for. Switching off leaves no timer,
      alarm, receiver or stored deadline; switching on leaves a timer with a new deadline if and only
      if nothing prevents it, and otherwise no stored deadline; a feature that is on already is left
      alone. An unsupported one is left alone as well. */
  lemma SetEnabledOutcome(s: State, status: bool, env: Env)
    requires Inv(s)
    ensures var s' := SetEnabled(s, status, env);
            if s.setting == None || s.setting == Some(-1) || (s.setting == Some(1) && status) then s' == s
            else
              && s'.setting == Some(if status then 1 else 0) && s'.fired == s.fired
              && (s'.timer.Some? <==> status && !Blocked(env))
              && (s'.timer.Some? ==> s'.timer.value.deadline == Deadline(s.nextDeadline, NextTimeout(env.now)))
              && (s'.timer.None? ==> s'.storage.None? && s'.alarms == map[] && s'.receivers == {})
  {
    SetEnabledOk(s, status, env);
    CancelledOk(s);
  }

  /** What each event does, wherever it happens in a run. */
  lemma EventsTakeEffect(s: State, e: Event)
    requires Inv(s) && CanHappen(s, e)
    ensures var s' := Step(s, e);
            match e
            case AlarmRings(id) =>
              && s.storage.Some? && s.timer == Some(Timer(id, s.storage.value))
              && s'.fired == s.fired + [s.storage.value.id] && s'.timer.None? && s'.storage.None?
            case ResetCall(env) => s'.timer.Some? <==> LeavesTimer(s, env)
            case ClockChanged(_, env) =>
              && s.timer.Some?
              && (if Blocked(env) then s'.timer.None? && s'.storage == s.storage && s'.fired == s.fired
                  else if env.now <= s.timer.value.deadline.at
                  then s'.timer.Some? && s'.storage == s.storage && s'.fired == s.fired
                  else s'.timer.None? && s'.storage.None? && s'.fired == s.fired + [s.timer.value.deadline.id])
            case PauseCall => s'.timer.None? && s'.alarms == map[] && s'.receivers == {} && s'.storage == s.storage
            case NotifyOnCall => s'.timer.None? && s'.storage.None? && Supported(s')
            case SetEnabledCall(status, _) => Supported(s) ==> (s'.setting == Some(1) <==> status)
            case FactoryResetCall => s'.timer.None? && s'.setting == Some(0)
  {
    CancelledOk(s);
    match e
    case ResetCall(env) => TimerAfterResetIff(s, env);
    case SetEnabledCall(status, env) => SetEnabledOutcome(s, status, env);
    case NotifyOnCall => BluetoothOnForgetsDeadline(s);
    case _ =>
  }

  /** A feature that is off stays silent: until it is switched on, no event calls back or sets a timer. */
  lemma {:induction false} OffStaysSilent(s: State, events: seq<Event>)
    requires Inv(s) && s.setting == Some(0) && ValidRun(s, events)
    requires forall i :: 0 <= i < |events| ==> !(events[i].SetEnabledCall? && events[i].status)
    ensures var s' := Final(s, events); s'.setting == Some(0) && s'.timer.None? && s'.fired == s.fired
    decreases |events|
  {
    if events != [] {
      StepKeeps(s, events[0]);
      OffStepIsSilent(s, events[0]);
      OffStaysSilent(Step(s, events[0]), events[1..]);
    }
  }

  lemma OffStepIsSilent(s: State, e: Event)
    requires Inv(s) && s.setting == Some(0) && CanHappen(s, e) && !(e.SetEnabledCall? && e.status)
    ensures Step(s, e).setting == Some(0) && Step(s, e).fired == s.fired
  {
    if e.SetEnabledCall? {
      SetEnabledOutcome(s, e.status, e.env);
    }
  }

  /** When Bluetooth has been turned on, no timer and no stored deadline is left, and the feature is
      supported: on by default, or as it was set before. */
  lemma BluetoothOnForgetsDeadline(s: State)
    requires Inv(s)
    ensures var s' := NotifiedOn(s);
            && s'.timer.None? && s'.storage.None? && s'.alarms == map[] && s'.receivers == {}
            && s'.setting == (if s.setting == None || s.setting == Some(-1) then Some(1) else s.setting)
            && s'.fired == s.fired
  {
    CancelledOk(s);
  }

  /** The deadline has not been answered, and is not the stored one of a feature that is on. */
  ghost predicate Dead(s: State, id: nat) {
    id < s.nextDeadline && id !in s.fired && !(EnabledUnchecked(s) && s.storage.Some? && s.storage.value.id == id)
  }

  lemma ScheduledKeepsDead(s: State, now: int, id: nat)
    requires Dead(s, id) && EnabledUnchecked(s)
    ensures Dead(Scheduled(s, now), id)
  {
  }

  lemma StepKeepsDead(s: State, e: Event, id: nat)
    requires Inv(s) && CanHappen(s, e) && Dead(s, id)
    ensures Dead(Step(s, e), id)
  {
    CancelledOk(s);
    match e
    case ResetCall(env) =>
      if EnabledUnchecked(Cancelled(s)) && !Blocked(env) {
        ScheduledKeepsDead(Cancelled(s), env.now, id);
      }
    case ClockChanged(receiver, env) =>
      CancelledOk(Paused(s));
      if EnabledUnchecked(s) && !Blocked(env) {
        ScheduledKeepsDead(Paused(s), env.now, id);
      }
    case SetEnabledCall(status, env) =>
      var s1 := Cancelled(s.(setting := Some(if status then 1 else 0), storage := None));
      if EnabledUnchecked(s1) && !Blocked(env) {
        ScheduledKeepsDead(s1, env.now, id);
      }
    case AlarmRings(t) =>
    case PauseCall =>
    case NotifyOnCall =>
    case FactoryResetCall =>
  }

  /** A deadline that is not the stored one of a feature that is on never calls back, whatever happens
      afterwards: in particular one still stored when the feature is off, as after a factory reset of a
      paused timer. */
  lemma {:induction false} DisabledDeadlineNeverFires(s: State, events: seq<Event>, id: nat)
    requires Inv(s) && ValidRun(s, events) && Dead(s, id)
    ensures id !in Final(s, events).fired
    decreases |events|
  {
    if events != [] {
      StepKeeps(s, events[0]);
      StepKeepsDead(s, events[0], id);
      DisabledDeadlineNeverFires(Step(s, events[0]), events[1..], id);
    }
  }

  /** A reset after a pause picks the stored deadline up again if it is not over, in particular when
      the receiver reacts to a change of the clock. */
  lemma PauseThenResetKeepsDeadline(s: State, env: Env)
    requires Inv(s) && s.timer.Some? && !Blocked(env) && env.now <= s.timer.value.deadline.at
    ensures var s' := Reset(Paused(s), env);
            && s'.timer.Some? && s'.timer.value.deadline == s.timer.value.deadline
            && s'.alarms == map[s'.timer.value.id := s.timer.value.deadline]
            && s'.fired == s.fired
  {
    CancelledOk(s);
    ResetOk(Paused(s), env);
  }

  /** If the deadline passed while the timer was paused, the reset calls back at once, for that
      deadline, and leaves neither timer nor stored deadline. */
  lemma PauseThenLateResetFires(s: State, env: Env)
    requires Inv(s) && s.timer.Some? && !Blocked(env) && env.now > s.timer.value.deadline.at
    ensures var s' := Reset(Paused(s), env);
            s'.fired == s.fired + [s.timer.value.deadline.id] && s'.timer.None? && s'.storage.None?
  {
    CancelledOk(s);
  }

  /** A reset without a pause throws the deadline away, for that of the next morning unless it is
      prevented: the old one never calls back, whatever happens afterwards. */
  lemma ResetRetiresDeadline(s: State, env: Env, events: seq<Event>)
    requires Inv(s) && s.timer.Some? && ValidRun(Reset(s, env), events)
    ensures Reset(s, env).storage ==
            if Blocked(env) then None else Some(Deadline(s.nextDeadline, NextTimeout(env.now)))
    ensures s.timer.value.deadline.id !in Final(Reset(s, env), events).fired
  {
    CancelledOk(s);
    ResetOk(s, env);
    var s1, id := Cancelled(s), s.timer.value.deadline.id;
    if EnabledUnchecked(s1) && !Blocked(env) {
      ScheduledKeepsDead(s1, env.now, id);
    }
    DisabledDeadlineNeverFires(Reset(s, env), events, id);
  }

  /** Once Bluetooth has been turned on, no deadline chosen before that calls back any more. */
  lemma BluetoothOnRetiresDeadlines(s: State, events: seq<Event>, id: nat)
    requires Inv(s) && ValidRun(NotifiedOn(s), events) && id < s.nextDeadline && id !in s.fired
    ensures id !in Final(NotifiedOn(s), events).fired
  {
    BluetoothOnForgetsDeadline(s);
    StepKeeps(s, NotifyOnCall);
    CancelledOk(s);
    DisabledDeadlineNeverFires(NotifiedOn(s), events, id);
  }

  /** Changes of the clock, each of them a pause and a reset, leave the deadline of a timer alone as
      long as none of them moves the clock past it. */
  lemma {:induction false} ClockChangesKeepDeadline(s: State, envs: seq<Env>)
    requires Inv(s) && s.timer.Some?
    requires forall i :: 0 <= i < |envs| ==> !Blocked(envs[i]) && envs[i].now <= s.timer.value.deadline.at
    ensures var s' := ClockChanges(s, envs);
            Inv(s') && s'.timer.Some? && s'.timer.value.deadline == s.timer.value.deadline && s'.fired == s.fired
    decreases |envs|
  {
    if envs != [] {
      PauseThenResetKeepsDeadline(s, envs[0]);
      CancelledOk(s);
      ResetOk(Paused(s), envs[0]);
      ClockChangesKeepDeadline(Reset(Paused(s), envs[0]), envs[1..]);
    }
  }

  function ClockChanges(s: State, envs: seq<Env>): State
    decreases |envs|
  {
    if envs == [] then s else ClockChanges(Reset(Paused(s), envs[0]), envs[1..])
  }

  /** While paused, resets that are blocked leave the stored deadline alone. */
  lemma {:induction false} PausedDeadlineSurvivesBlockedResets(s: State, envs: seq<Env>)
    requires s.timer.None? && forall i :: 0 <= i < |envs| ==> Blocked(envs[i])
    ensures ResetAll(s, envs) == s
    decreases |envs|
  {
    if envs != [] {
      PausedDeadlineSurvivesBlockedResets(s, envs[1..]);
    }
  }

  function ResetAll(s: State, envs: seq<Env>): State
    decreases |envs|
  {
    if envs == [] then s else ResetAll(Reset(s, envs[0]), envs[1..])
  }
}
