/**
 The cancellation protocol of the repeating timer (system/common/repeating_timer.cc): user
 threads schedule and cancel, message loop threads run the posted closures, and every
 critical section or closure is one atomic step of a `World`.
 */
module RepeatingTimer {
  import opened Options
  import opened MachineInt
  import opened PeriodicSchedule

  type ThreadId = nat
  type TaskId = nat

  /** The fields of the timer. `generation` and `armed` stand for `task_wrapper_`: `Reset` starts
      a new generation, `Cancel` disarms it, and a posted callback remembers its generation.
      `origin` and `fired` record the first due instant and the callbacks run since. */
  datatype Timer = Timer(
    thread: Option<ThreadId>,
    generation: nat,
    armed: bool,
    task: Option<TaskId>,
    period: int,
    expected: int,
    origin: int,
    fired: nat)

  datatype Post =
    | RunPost(thread: ThreadId, generation: nat, due: int)
    | CancelPost(thread: ThreadId, awaited: bool)

  /** A user thread inside `SchedulePeriodic` or `CancelAndWait`, holding the API mutex and
      waiting for its cancel closure; `ready` once the promise is kept or broken. */
  datatype Blocked =
    | Scheduling(target: ThreadId, task: TaskId, period: int, timeNext: int, ready: bool)
    | Cancelling(ready: bool)

  datatype World = World(
    timer: Timer,
    posts: seq<Post>,
    running: set<ThreadId>,
    destroyed: set<ThreadId>,
    blocked: Option<Blocked>)

  /** `RepeatingTimer` as constructed, before any message loop thread runs. */
  const INITIAL: World := World(Timer(None, 0, false, None, 0, 0, 0, 0), [], {}, {}, None)

  // ----- the timer's own operations

  /** `CancelClosure`. */
  function Cancelled(t: Timer): Timer {
    t.(thread := None, armed := false, task := None, period := 0, expected := 0)
  }

  /** The part of `SchedulePeriodic` after the previous task has been cancelled. */
  function Armed(t: Timer, target: ThreadId, task: TaskId, period: int, timeNext: int): Timer {
    Timer(Some(target), t.generation + 1, true, Some(task), period, timeNext, timeNext, 0)
  }

  /** The clean-up of `SchedulePeriodic` when the callback cannot be posted. */
  function PostFailed(t: Timer): Timer {
    t.(thread := None, armed := false, period := 0, expected := 0)
  }

  /** `RunTask` once it has decided to run. */
  function Ran(t: Timer): Timer {
    t.(expected := NextExpected(t.expected, t.period), fired := t.fired + 1)
  }

  /** What a timer is scheduled to do: callbacks at `origin` and every period after it, of which `fired`
      have been run. */
  datatype Schedule = Schedule(thread: ThreadId, task: TaskId, period: int, origin: int, fired: nat)

  /** The point of the grid that a callback run at `now` is posted for next: the first one that has not
      been served and is not over. */
  ghost predicate IsNextPoint(s: Schedule, now: int, due: int) {
    exists k: nat ::
      && k >= s.fired && due == s.origin + k * s.period && now <= due
      && (k > s.fired ==> due - s.period < now)
  }

  /** The timer of the source, with its fields updated in place, and the schedule it stands for. */
  class TimerObject {
    var thread: Option<ThreadId>
    var generation: nat
    var armed: bool
    var task: Option<TaskId>
    var period: int
    var expected: int
    ghost var origin: int
    ghost var fired: nat
    ghost var schedule: Option<Schedule>

    ghost function View(): Timer
      reads this
    {
      Timer(thread, generation, armed, task, period, expected, origin, fired)
    }

    /** Without a schedule every field but `task` is cleared; with one, the fields are its own and the
        expected time is the grid point after those served. */
    ghost predicate Valid()
      reads this
    {
      match schedule
      case None => thread == None && !armed && period == 0 && expected == 0
      case Some(s) =>
        && s == Schedule(s.thread, s.task, period, origin, fired)
        && thread == Some(s.thread) && task == Some(s.task) && armed && period > 0
        && expected == ToUint64(s.origin + s.fired * s.period)
    }

    constructor ()
      ensures Valid() && schedule == None && View() == INITIAL.timer
    {
      thread, generation, armed, task := None, 0, false, None;
      period, expected, origin, fired, schedule := 0, 0, 0, 0, None;
    }

    method CancelClosure()
      requires Valid()
      modifies this
      ensures Valid() && schedule == None && task == None
      ensures View() == Cancelled(old(View()))
    {
      thread := None;
      armed := false;
      task := None;
      period := 0;
      expected := 0;
      schedule := None;
    }

    /** `accepted` is the result of `DoInThreadDelayed`; `delay` is what it was asked for. */
    method FinishSchedule(target: ThreadId, newTask: TaskId, newPeriod: int, timeNext: int, now: int, accepted: bool)
      returns (ok: bool, delay: int)
      requires Valid() && newPeriod >= 1 && 0 <= timeNext < TWO_64
      modifies this
      ensures Valid() && ok == accepted
      ensures schedule == if ok then Some(Schedule(target, newTask, newPeriod, timeNext, 0)) else None
      ensures delay == FirstDelay(timeNext - newPeriod, newPeriod, now)
      ensures var started := Armed(old(View()), target, newTask, newPeriod, timeNext);
              View() == if ok then started else PostFailed(started)
    {
      expected := timeNext;
      task := Some(newTask);
      generation, armed := generation + 1, true;
      thread := Some(target);
      period := newPeriod;
      origin, fired := timeNext, 0;
      schedule := Some(Schedule(target, newTask, newPeriod, timeNext, 0));
      delay := ToInt64(ToUint64(timeNext - now));
      if !accepted {
        expected := 0;
        armed := false;
        thread := None;
        period := 0;
        schedule := None;
        return false, delay;
      }
      return true, delay;
    }

    /** `SchedulePeriodic`, called at `called`. `closureRan` says how the cancellation went: the closure
        was run, or there was nothing to cancel or nobody to run it. */
    method SchedulePeriodic(target: Option<ThreadId>, newTask: TaskId, newPeriod: int,
                            called: int, closureRan: bool, now: int, accepted: bool)
      returns (ok: bool)
      requires Valid()
      modifies this
      ensures Valid()
      ensures ok <==> newPeriod >= 1 && target.Some? && accepted
      ensures schedule ==
              if newPeriod < 1 || target.None? then old(schedule)
              else if accepted then Some(Schedule(target.value, newTask, newPeriod, ToUint64(called + newPeriod), 0))
              else None
    {
      if newPeriod < 1 {
        return false;
      }
      var timeNext := ToUint64(called + newPeriod);
      if target.None? {
        return false;
      }
      if closureRan {
        CancelClosure();
      }
      var delay;
      ok, delay := FinishSchedule(target.value, newTask, newPeriod, timeNext, now, accepted);
    }

    /** `isRunning`: the timer points at a thread, and that thread is running. */
    method RunTask(now: int, isRunning: bool) returns (posted: Option<int>)
      requires Valid() && (isRunning ==> schedule.Some?)
      modifies this
      ensures Valid()
      ensures !isRunning ==> posted == None && View() == old(View()) && schedule == old(schedule)
      ensures isRunning ==>
                && View() == Ran(old(View()))
                && schedule == Some(old(schedule).value.(fired := old(fired) + 1))
                && posted == Some(Fire(Clockwork(old(period), old(expected), 0), now).due)
      ensures isRunning && 0 <= now < TWO_63 && 0 <= origin && origin + fired * period < TWO_63 ==>
                IsNextPoint(schedule.value, now, posted.value)
    {
      if !isRunning {
        return None;
      }
      ghost var s := schedule.value;
      expected := ToUint64(expected + period);
      var remaining := ToInt64(ToUint64(expected - now));
      if remaining < 0 {
        remaining := RemTrunc(RemTrunc(remaining, period) + period, period);
      }
      fired := fired + 1;
      schedule := Some(s.(fired := fired));
      PostsNextPoint(schedule.value, expected, now, remaining);
      return Some(now + remaining);
    }
  }

  /** From the grid point of the callbacks served, the delay leads to the first point not over. */
  lemma LeadsToNextPoint(s: Schedule, now: int)
    requires s.period > 0 && 0 <= now < TWO_63 && 0 <= s.origin && s.origin + s.fired * s.period < TWO_63
    ensures IsNextPoint(s, now, now + NextDelay(s.origin + s.fired * s.period, now, s.period))
  {
    hide NextDelay;
    var n, d := s.fired, s.period;
    MultipleGap(n, d);
    var k := NextGridPoint(s.origin + n * d, now, d);
    assert (n + k) * d == n * d + k * d;
    assert (k - 1) * d == k * d - d;
    assert n + k >= n && now + NextDelay(s.origin + n * d, now, d) == s.origin + (n + k) * d;
  }

  /** The expected time stays the grid point of the callbacks served, modulo 2^64, and the delay posted
      leads to the first point that is not over. */
  lemma PostsNextPoint(s: Schedule, expected: int, now: int, remaining: int)
    requires s.period > 0 && s.fired > 0
    requires expected == ToUint64(ToUint64(s.origin + (s.fired - 1) * s.period) + s.period)
    requires remaining == NextDelay(expected, now, s.period)
    ensures expected == ToUint64(s.origin + s.fired * s.period)
    ensures 0 <= now < TWO_63 && 0 <= s.origin && s.origin + s.fired * s.period < TWO_63 ==>
              IsNextPoint(s, now, now + remaining)
  {
    hide NextDelay, IsNextPoint, ToUint64;
    var before := s.origin + (s.fired - 1) * s.period;
    var point := s.origin + s.fired * s.period;
    assert point == before + s.period;
    WrappedSum(before, s.period);
    if 0 <= now < TWO_63 && 0 <= s.origin && point < TWO_63 {
      MultipleGap(s.fired, s.period);
      Unwrapped(point);
      LeadsToNextPoint(s, now);
    }
  }

  // ----- steps

  /** The thread the timer is scheduled on: a weak pointer, null once the thread is destroyed. */
  function ScheduledThread(w: World): Option<ThreadId> {
    if w.timer.thread.Some? && w.timer.thread.value in w.destroyed then None else w.timer.thread
  }

  /** `CancelHelper`: the new world, and whether the promise is already settled. A closure that
      cannot be posted breaks its promise, which releases a waiter as well. */
  function CancelHelper(w: World, caller: ThreadId, awaited: bool): (World, bool) {
    match ScheduledThread(w)
    case None => (w, true)
    case Some(t) =>
      if t !in w.running then (w, true)
      else if t == caller then (w.(timer := Cancelled(w.timer)), true)
      else (w.(posts := w.posts + [CancelPost(t, awaited)]), false)
  }

  datatype Event =
    | ScheduleCall(caller: ThreadId, target: Option<ThreadId>, task: TaskId, period: int, now: int)
    | ScheduleReturn(now: int)
    | CancelCall(caller: ThreadId, wait: bool)
    | CancelReturn
    | Deliver(index: nat, now: int)
    | ThreadUp(thread: ThreadId)
    | ThreadDown(thread: ThreadId)
    | ThreadDestroyed(thread: ThreadId)

  /** A call needs the API mutex, a return needs its promise settled, and a closure needs to be
      posted; threads come and go between their operations. */
  predicate Enabled(w: World, e: Event) {
    match e
    case ScheduleCall(_, _, _, _, _) => w.blocked.None?
    case ScheduleReturn(_) => w.blocked.Some? && w.blocked.value.Scheduling? && w.blocked.value.ready
    case CancelCall(_, _) => w.blocked.None?
    case CancelReturn => w.blocked.Some? && w.blocked.value.Cancelling? && w.blocked.value.ready
    case Deliver(i, _) => i < |w.posts|
    case ThreadUp(t) => t !in w.destroyed
    case ThreadDown(t) => t in w.running
    case ThreadDestroyed(t) => t !in w.running
  }

  predicate Live(t: Timer, p: Post) {
    p.RunPost? && t.armed && p.generation == t.generation
  }

  predicate Awaited(p: Post) {
    p.CancelPost? && p.awaited
  }

  function Without(posts: seq<Post>, i: nat): seq<Post>
    requires i < |posts|
  {
    posts[..i] + posts[i + 1..]
  }

  function Surviving(posts: seq<Post>, t: ThreadId): seq<Post> {
    if posts == [] then []
    else if posts[0].thread == t then Surviving(posts[1..], t)
    else [posts[0]] + Surviving(posts[1..], t)
  }

  function LiveCount(t: Timer, posts: seq<Post>): nat {
    if posts == [] then 0 else (if Live(t, posts[0]) then 1 else 0) + LiveCount(t, posts[1..])
  }

  function AwaitedCount(posts: seq<Post>): nat {
    if posts == [] then 0 else (if Awaited(posts[0]) then 1 else 0) + AwaitedCount(posts[1..])
  }

  function Settle(b: Option<Blocked>): Option<Blocked> {
    if b.Some? then Some(b.value.(ready := true)) else None
  }

  /** What a step shows to the outside. */
  datatype Observation = Quiet | TaskRan(task: TaskId) | Scheduled(task: TaskId) | Disarmed

  /** A message loop thread runs a posted closure. The source runs a live callback without looking
      whether there is a task and a period; `PostOk` shows that there always are. */
  function DeliverStep(w: World, i: nat, now: int): (World, Observation)
    requires i < |w.posts|
  {
    var p := w.posts[i];
    var popped := w.(posts := Without(w.posts, i));
    if p.CancelPost? then
      (popped.(timer := Cancelled(w.timer), blocked := if p.awaited then Settle(w.blocked) else w.blocked), Disarmed)
    else if !Live(w.timer, p) || w.timer.task.None? || w.timer.period <= 0 then (popped, Quiet)
    else if ScheduledThread(w).None? || ScheduledThread(w).value !in w.running then (popped, Quiet)
    else
      var due := Fire(Clockwork(w.timer.period, w.timer.expected, p.due), now).due;
      (popped.(timer := Ran(w.timer),
               posts := popped.posts + [RunPost(ScheduledThread(w).value, w.timer.generation, due)]),
       TaskRan(w.timer.task.value))
  }

  function Step(w: World, e: Event): (World, Observation)
    requires Enabled(w, e)
  {
    match e
    case ScheduleCall(caller, target, task, period, now) =>
      if period < 1 || target.None? then (w, Quiet)
      else
        var (w', ready) := CancelHelper(w, caller, true);
        (w'.(blocked := Some(Scheduling(target.value, task, period, now + period, ready))),
         if w'.timer == w.timer then Quiet else Disarmed)
    case ScheduleReturn(now) =>
      var b := w.blocked.value;
      var started := Armed(w.timer, b.target, b.task, b.period, b.timeNext);
      if b.target in w.running then
        (w.(timer := started, blocked := None,
            posts := w.posts + [RunPost(b.target, started.generation, now + FirstDelay(b.timeNext - b.period, b.period, now))]),
         Scheduled(b.task))
      else (w.(timer := PostFailed(started), blocked := None), Disarmed)
    case CancelCall(caller, wait) =>
      var (w', ready) := CancelHelper(w, caller, wait);
      (if wait then w'.(blocked := Some(Cancelling(ready))) else w',
       if w'.timer == w.timer then Quiet else Disarmed)
    case CancelReturn => (w.(blocked := None), Quiet)
    case Deliver(i, now) => DeliverStep(w, i, now)
    case ThreadUp(t) => (w.(running := w.running + {t}), Quiet)
    case ThreadDown(t) =>
      // the loop's pending closures are destroyed, and with them the promise of a waiter
      var lost := CancelPost(t, true) in w.posts;
      (w.(running := w.running - {t}, posts := Surviving(w.posts, t),
          blocked := if lost then Settle(w.blocked) else w.blocked), Quiet)
    case ThreadDestroyed(t) => (w.(destroyed := w.destroyed + {t}), Quiet)
  }

  // ----- runs

  predicate ValidRun(w: World, events: seq<Event>)
    decreases |events|
  {
    events == [] || (Enabled(w, events[0]) && ValidRun(Step(w, events[0]).0, events[1..]))
  }

  function Final(w: World, events: seq<Event>): World
    requires ValidRun(w, events)
    decreases |events|
  {
    if events == [] then w else Final(Step(w, events[0]).0, events[1..])
  }

  function Trace(w: World, events: seq<Event>): (t: seq<Observation>)
    requires ValidRun(w, events)
    ensures |t| == |events|
    decreases |events|
  {
    if events == [] then [] else [Step(w, events[0]).1] + Trace(Step(w, events[0]).0, events[1..])
  }

  // ----- what every step keeps

  /** A posted closure is on a running thread, and a live callback is on the timer's own thread. */
  ghost predicate PostOk(w: World, p: Post) {
    && p.thread in w.running
    && (p.RunPost? ==> p.generation <= w.timer.generation)
    && (Live(w.timer, p) ==> w.timer.thread == Some(p.thread) && w.timer.period > 0 && w.timer.task.Some?)
  }

  /** At most one live callback is posted; the timer is armed exactly while it points at a thread;
      a caller is kept waiting exactly while its own closure is pending. */
  ghost predicate Inv(w: World) {
    && (w.timer.armed <==> w.timer.thread.Some?)
    && (forall p :: p in w.posts ==> PostOk(w, p))
    && LiveCount(w.timer, w.posts) <= 1
    && (w.blocked.Some? && w.blocked.value.Scheduling? ==> w.blocked.value.period > 0)
    && AwaitedCount(w.posts) == (if w.blocked.Some? && !w.blocked.value.ready then 1 else 0)
    && w.running !! w.destroyed
  }

  lemma {:induction false} CountsAppend(t: Timer, a: seq<Post>, b: seq<Post>)
    ensures LiveCount(t, a + b) == LiveCount(t, a) + LiveCount(t, b)
    ensures AwaitedCount(a + b) == AwaitedCount(a) + AwaitedCount(b)
  {
    if a == [] {
      assert a + b == b;
    } else {
      assert (a + b)[1..] == a[1..] + b;
      CountsAppend(t, a[1..], b);
    }
  }

  lemma CountsWithout(t: Timer, posts: seq<Post>, i: nat)
    requires i < |posts|
    ensures LiveCount(t, posts) == LiveCount(t, Without(posts, i)) + if Live(t, posts[i]) then 1 else 0
    ensures AwaitedCount(posts) == AwaitedCount(Without(posts, i)) + if Awaited(posts[i]) then 1 else 0
  {
    assert posts == posts[..i] + ([posts[i]] + posts[i + 1..]);
    CountsAppend(t, posts[..i], [posts[i]] + posts[i + 1..]);
    CountsAppend(t, [posts[i]], posts[i + 1..]);
    CountsAppend(t, posts[..i], posts[i + 1..]);
  }

  lemma {:induction false} CountsSurviving(t: Timer, posts: seq<Post>, thread: ThreadId)
    ensures LiveCount(t, Surviving(posts, thread)) <= LiveCount(t, posts)
    ensures AwaitedCount(posts) ==
            AwaitedCount(Surviving(posts, thread)) + AwaitedOn(posts, thread)
    ensures forall p :: p in Surviving(posts, thread) ==> p in posts && p.thread != thread
  {
    if posts != [] {
      CountsSurviving(t, posts[1..], thread);
    }
  }

  function AwaitedOn(posts: seq<Post>, thread: ThreadId): nat {
    if posts == [] then 0
    else (if posts[0] == CancelPost(thread, true) then 1 else 0) + AwaitedOn(posts[1..], thread)
  }

  lemma {:induction false} AwaitedOnPositive(posts: seq<Post>, thread: ThreadId)
    ensures CancelPost(thread, true) in posts <==> AwaitedOn(posts, thread) > 0
  {
    if posts != [] {
      AwaitedOnPositive(posts[1..], thread);
    }
  }

  /** Nothing posted is live for a timer that is disarmed or has moved to a new generation. */
  lemma {:induction false} NoneLive(t: Timer, posts: seq<Post>)
    requires forall p :: p in posts ==> !Live(t, p)
    ensures LiveCount(t, posts) == 0
  {
    if posts != [] {
      NoneLive(t, posts[1..]);
    }
  }

  lemma {:induction false} SameLive(t: Timer, u: Timer, posts: seq<Post>)
    requires t.armed == u.armed && t.generation == u.generation
    ensures LiveCount(t, posts) == LiveCount(u, posts)
  {
    if posts != [] {
      SameLive(t, u, posts[1..]);
    }
  }

  lemma CancelHelperKeeps(w: World, caller: ThreadId, awaited: bool)
    requires Inv(w) && w.blocked.None?
    ensures var (w', ready) := CancelHelper(w, caller, awaited);
            && (w'.timer.armed <==> w'.timer.thread.Some?)
            && (forall p :: p in w'.posts ==> PostOk(w', p))
            && LiveCount(w'.timer, w'.posts) <= 1
            && w'.blocked == w.blocked
            && AwaitedCount(w'.posts) == if awaited && !ready then 1 else 0
  {
    var (w', ready) := CancelHelper(w, caller, awaited);
    NoneLive(Cancelled(w.timer), w.posts);
    if ScheduledThread(w).Some? {
      var post := CancelPost(ScheduledThread(w).value, awaited);
      CountsAppend(w.timer, w.posts, [post]);
      assert LiveCount(w.timer, [post]) == 0;
      assert AwaitedCount([post]) == if awaited then 1 else 0;
    }
  }

  lemma DeliverKeeps(w: World, i: nat, now: int)
    requires Inv(w) && i < |w.posts|
    ensures Inv(DeliverStep(w, i, now).0)
  {
    var p := w.posts[i];
    var rest := Without(w.posts, i);
    CountsWithout(w.timer, w.posts, i);
    assert forall q :: q in rest ==> q in w.posts;
    assert PostOk(w, p);
    NoneLive(Cancelled(w.timer), rest);
    if Live(w.timer, p) {
      SameLive(w.timer, Ran(w.timer), rest);
      var post := DeliverStep(w, i, now).0.posts;
      if DeliverStep(w, i, now).1.TaskRan? {
        CountsAppend(Ran(w.timer), rest, [post[|post| - 1]]);
      }
    }
  }

  lemma ScheduleReturnKeeps(w: World, now: int)
    requires Inv(w) && Enabled(w, ScheduleReturn(now))
    ensures Inv(Step(w, ScheduleReturn(now)).0)
  {
    hide FirstDelay;
    var b := w.blocked.value;
    var started := Armed(w.timer, b.target, b.task, b.period, b.timeNext);
    assert forall p :: p in w.posts ==> PostOk(w, p);
    NoneLive(started, w.posts);
    NoneLive(PostFailed(started), w.posts);
    if b.target in w.running {
      var w' := Step(w, ScheduleReturn(now)).0;
      CountsAppend(started, w.posts, [w'.posts[|w.posts|]]);
    }
  }

  lemma ThreadDownKeeps(w: World, t: ThreadId)
    requires Inv(w) && Enabled(w, ThreadDown(t))
    ensures Inv(Step(w, ThreadDown(t)).0)
  {
    CountsSurviving(w.timer, w.posts, t);
    AwaitedOnPositive(w.posts, t);
  }

  lemma StepKeeps(w: World, e: Event)
    requires Inv(w) && Enabled(w, e)
    ensures Inv(Step(w, e).0)
  {
    match e
    case ScheduleCall(caller, target, task, period, now) =>
      CancelHelperKeeps(w, caller, true);
    case ScheduleReturn(now) =>
      ScheduleReturnKeeps(w, now);
    case CancelCall(caller, wait) =>
      CancelHelperKeeps(w, caller, wait);
    case CancelReturn =>
    case Deliver(i, now) =>
      DeliverKeeps(w, i, now);
    case ThreadUp(t) =>
    case ThreadDown(t) =>
      ThreadDownKeeps(w, t);
    case ThreadDestroyed(t) =>
  }

  /** In every run, in any interleaving: at most one live callback is posted, every live callback
      is on the timer's own thread, and no caller waits for a closure that is not pending. */
  lemma {:induction false} RunKeeps(w: World, events: seq<Event>)
    requires Inv(w) && ValidRun(w, events)
    ensures Inv(Final(w, events))
    decreases |events|
  {
    if events != [] {
      StepKeeps(w, events[0]);
      RunKeeps(Step(w, events[0]).0, events[1..]);
    }
  }

  // ----- the user task runs only while it is scheduled

  predicate Control(o: Observation) {
    o.Scheduled? || o.Disarmed?
  }

  /** Position `i` schedules task `x`, and nothing reschedules or cancels between `i` and `j`. */
  ghost predicate Governs(trace: seq<Observation>, i: int, j: int, x: TaskId)
    requires -1 <= i < j < |trace|
  {
    && (i >= 0 ==> trace[i] == Scheduled(x))
    && (forall k :: i < k < j ==> !Control(trace[k]))
  }

  lemma StepControls(w: World, e: Event)
    requires Inv(w) && Enabled(w, e)
    ensures var (w', o) := Step(w, e);
            && (o.TaskRan? ==> w.timer.armed && w.timer.task == Some(o.task))
            && (w'.timer.armed && o.Scheduled? ==> w'.timer.task == Some(o.task))
            && (o.Disarmed? ==> !w'.timer.armed)
            && (w'.timer.armed && !Control(o) ==> w.timer.armed && w.timer.task == w'.timer.task)
  {
  }

  lemma {:induction false} TaskRunIsGoverned(w: World, events: seq<Event>, j: nat, x: TaskId) returns (i: int)
    requires Inv(w) && ValidRun(w, events) && j < |events|
    requires Trace(w, events)[j] == TaskRan(x)
    ensures -1 <= i < j && Governs(Trace(w, events), i, j, x)
    ensures i == -1 ==> w.timer.armed && w.timer.task == Some(x)
    decreases |events|
  {
    var (w', o) := Step(w, events[0]);
    var rest := Trace(w', events[1..]);
    assert Trace(w, events) == [o] + rest;
    StepKeeps(w, events[0]);
    StepControls(w, events[0]);
    if j == 0 {
      i := -1;
    } else {
      var i' := TaskRunIsGoverned(w', events[1..], j - 1, x);
      assert forall k :: i' < k < j - 1 ==> !Control(rest[k]);
      assert forall k :: i' + 1 < k < j ==> Trace(w, events)[k] == rest[k - 1];
      i := if i' >= 0 || Control(o) then i' + 1 else -1;
    }
  }

  /** In every run the user task is only run as the result of a successful schedule of that same
      task, with no cancellation and no other schedule in between. */
  lemma TaskRunsOnlyWhileScheduled(events: seq<Event>, j: nat, x: TaskId)
    requires ValidRun(INITIAL, events) && j < |events|
    requires Trace(INITIAL, events)[j] == TaskRan(x)
    ensures exists i :: 0 <= i < j && Governs(Trace(INITIAL, events), i, j, x)
  {
    var i := TaskRunIsGoverned(INITIAL, events, j, x);
    assert 0 <= i < j && Governs(Trace(INITIAL, events), i, j, x);
  }

  // ----- phase lock inside the protocol

  function ClockworkOf(t: Timer, due: int): Clockwork {
    Clockwork(t.period, t.expected, due)
  }

  /** Every live callback is aligned to the grid that starts at the timer's first due instant. */
  ghost predicate OnGrid(w: World) {
    && (forall p :: p in w.posts && Live(w.timer, p) ==>
          && Aligned(ClockworkOf(w.timer, p.due))
          && w.timer.expected == w.timer.origin + w.timer.fired * w.timer.period)
    && (w.blocked.Some? && w.blocked.value.Scheduling? ==>
          0 < w.blocked.value.period <= w.blocked.value.timeNext < TWO_63)
  }

  /** Clock readings of a step: in range, not before the call began, and not more than `early`
      microseconds before a live callback is due. */
  ghost predicate ClockOk(w: World, e: Event, early: nat)
    requires Enabled(w, e)
  {
    match e
    case ScheduleCall(_, _, _, period, now) => 0 <= now && now + period < TWO_63
    case ScheduleReturn(now) => w.blocked.value.timeNext - w.blocked.value.period <= now < TWO_63
    case Deliver(i, now) =>
      Live(w.timer, w.posts[i]) ==> Timely(ClockworkOf(w.timer, w.posts[i].due), now, early)
    case _ => true
  }

  ghost predicate ClockOkRun(w: World, events: seq<Event>, early: nat)
    requires ValidRun(w, events)
    decreases |events|
  {
    events == [] ||
    (ClockOk(w, events[0], early) && ClockOkRun(Step(w, events[0]).0, events[1..], early))
  }

  lemma RanIsFire(t: Timer, due: int, now: int)
    requires t.period > 0
    ensures ClockworkOf(Ran(t), Fire(ClockworkOf(t, due), now).due) == Fire(ClockworkOf(t, due), now)
  {
    hide NextExpected, NextDelay;
  }

  /** The arithmetic of one callback, on the fields of the timer. */
  lemma RanOnGrid(t: Timer, due: int, now: int, early: nat)
    requires Aligned(ClockworkOf(t, due)) && t.expected == t.origin + t.fired * t.period
    requires Timely(ClockworkOf(t, due), now, early)
    ensures Aligned(ClockworkOf(Ran(t), Fire(ClockworkOf(t, due), now).due))
    ensures Ran(t).expected == Ran(t).origin + Ran(t).fired * Ran(t).period
  {
    hide Fire, Backlog, NextExpected, Timely;
    RanIsFire(t, due, now);
    BacklogRecurrence(ClockworkOf(t, due), now, early);
    assert (t.fired + 1) * t.period == t.fired * t.period + t.period;
  }

  lemma DeliverStaysOnGrid(w: World, i: nat, now: int, early: nat)
    requires Inv(w) && OnGrid(w) && i < |w.posts| && ClockOk(w, Deliver(i, now), early)
    ensures OnGrid(DeliverStep(w, i, now).0)
  {
    hide Fire, Aligned, Timely, NextExpected;
    var p, rest := w.posts[i], Without(w.posts, i);
    assert forall q :: q in rest ==> q in w.posts;
    if DeliverStep(w, i, now).1.TaskRan? {
      CountsWithout(w.timer, w.posts, i);
      OnlyOne(w.timer, rest);
      RanOnGrid(w.timer, p.due, now, early);
    }
  }

  lemma {:induction false} OnlyOne(t: Timer, posts: seq<Post>)
    requires LiveCount(t, posts) == 0
    ensures forall p :: p in posts ==> !Live(t, p)
  {
    if posts != [] {
      OnlyOne(t, posts[1..]);
    }
  }

  lemma StepStaysOnGrid(w: World, e: Event, early: nat)
    requires Inv(w) && OnGrid(w) && Enabled(w, e) && ClockOk(w, e, early)
    ensures OnGrid(Step(w, e).0)
  {
    hide Fire, Backlog, NextExpected;
    match e
    case ScheduleCall(caller, target, task, period, now) =>
    case ScheduleReturn(now) =>
      var b := w.blocked.value;
      FirstDueInstant(b.timeNext - b.period, b.period, now);
      BacklogOf(Clockwork(b.period, b.timeNext, b.timeNext), 0);
      assert forall p :: p in w.posts ==> PostOk(w, p);
    case CancelCall(caller, wait) =>
    case CancelReturn =>
    case Deliver(i, now) => DeliverStaysOnGrid(w, i, now, early);
    case ThreadUp(t) =>
    case ThreadDown(t) => CountsSurviving(w.timer, w.posts, t);
    case ThreadDestroyed(t) =>
  }

  /** Phase lock over whole runs of the protocol: whatever is scheduled, rescheduled, cancelled and
      run late in between, a live callback is due a whole number of periods after its schedule's
      first due instant: one for each callback run so far, and its backlog. */
  lemma {:induction false} RunStaysOnGrid(w: World, events: seq<Event>, early: nat)
    requires Inv(w) && OnGrid(w) && ValidRun(w, events) && ClockOkRun(w, events, early)
    ensures OnGrid(Final(w, events))
    ensures var end := Final(w, events);
            forall p :: p in end.posts && Live(end.timer, p) ==>
              p.due == end.timer.origin +
                       (end.timer.fired + Backlog(ClockworkOf(end.timer, p.due))) * end.timer.period
    decreases |events|
  {
    hide Fire, Backlog, NextExpected;
    if events == [] {
      forall p | p in w.posts && Live(w.timer, p)
        ensures p.due == w.timer.origin +
                         (w.timer.fired + Backlog(ClockworkOf(w.timer, p.due))) * w.timer.period
      {
        var n, b, d := w.timer.fired, Backlog(ClockworkOf(w.timer, p.due)), w.timer.period;
        assert (n + b) * d == n * d + b * d;
      }
    } else {
      StepKeeps(w, events[0]);
      StepStaysOnGrid(w, events[0], early);
      RunStaysOnGrid(Step(w, events[0]).0, events[1..], early);
    }
  }

  // ----- an armed timer and its callback

  /** `IsScheduled`. */
  predicate IsScheduled(w: World) {
    ScheduledThread(w).Some? && ScheduledThread(w).value in w.running
  }

  /** A timer with a callback posted is scheduled, as far as `IsScheduled` can tell. */
  lemma PendingIsScheduled(w: World)
    requires Inv(w) && LiveCount(w.timer, w.posts) > 0
    ensures IsScheduled(w)
  {
    if forall p :: p in w.posts ==> !Live(w.timer, p) {
      NoneLive(w.timer, w.posts);
    } else {
      var p :| p in w.posts && Live(w.timer, p);
      assert PostOk(w, p);
    }
  }

  /** A thread that goes down takes its closures with it, and the live callback is on the timer's own. */
  lemma {:induction false} LiveSurvive(t: Timer, posts: seq<Post>, thread: ThreadId)
    requires forall p :: p in posts && Live(t, p) ==> t.thread == Some(p.thread)
    ensures LiveCount(t, Surviving(posts, thread)) == if t.thread == Some(thread) then 0 else LiveCount(t, posts)
  {
    if posts != [] {
      LiveSurvive(t, posts[1..], thread);
    }
  }

  lemma LiveAfterDelivery(w: World, i: nat, now: int)
    requires Inv(w) && i < |w.posts| && w.posts[i].RunPost?
    ensures var w' := DeliverStep(w, i, now).0;
            LiveCount(w'.timer, w'.posts) == LiveCount(w.timer, w.posts)
  {
    var p, w' := w.posts[i], DeliverStep(w, i, now).0;
    var rest := Without(w.posts, i);
    CountsWithout(w.timer, w.posts, i);
    if Live(w.timer, p) {
      assert PostOk(w, p);
      var post := w'.posts[|w'.posts| - 1];
      assert w'.posts == rest + [post];
      CountsAppend(w'.timer, rest, [post]);
      SameLive(w.timer, w'.timer, rest);
      assert LiveCount(w'.timer, [post]) == 1;
    }
  }

  /** While nothing schedules or cancels, an armed timer keeps its thread and its task, and keeps its
      callback until its thread goes down. */
  lemma StepServes(w: World, e: Event)
    requires Inv(w) && Enabled(w, e) && w.timer.armed && !Control(Step(w, e).1)
    ensures var w' := Step(w, e).0;
            && w'.timer.armed && w'.timer.thread == w.timer.thread && w'.timer.task == w.timer.task
            && LiveCount(w'.timer, w'.posts) ==
               if e == ThreadDown(w.timer.thread.value) then 0 else LiveCount(w.timer, w.posts)
  {
    match e
    case ScheduleCall(caller, target, task, period, now) => CancelPostsAreNotLive(w, caller, true);
    case CancelCall(caller, wait) => CancelPostsAreNotLive(w, caller, wait);
    case Deliver(i, now) => LiveAfterDelivery(w, i, now);
    case ThreadDown(t) =>
      assert forall p :: p in w.posts ==> PostOk(w, p);
      LiveSurvive(w.timer, w.posts, t);
    case _ =>
  }

  lemma CancelPostsAreNotLive(w: World, caller: ThreadId, awaited: bool)
    ensures var w' := CancelHelper(w, caller, awaited).0;
            w'.timer == w.timer ==> LiveCount(w'.timer, w'.posts) == LiveCount(w.timer, w.posts)
  {
    if ScheduledThread(w).Some? {
      var post := CancelPost(ScheduledThread(w).value, awaited);
      CountsAppend(w.timer, w.posts, [post]);
      assert LiveCount(w.timer, [post]) == 0;
    }
  }

  /** A successful schedule leaves exactly one callback that is live. */
  lemma ScheduleServes(w: World, e: Event)
    requires Inv(w) && Enabled(w, e) && Step(w, e).1.Scheduled?
    ensures var w' := Step(w, e).0; LiveCount(w'.timer, w'.posts) == 1
  {
    var w' := Step(w, e).0;
    var post := w'.posts[|w.posts|];
    assert forall p :: p in w.posts ==> PostOk(w, p);
    NoneLive(w'.timer, w.posts);
    assert w'.posts == w.posts + [post];
    CountsAppend(w'.timer, w.posts, [post]);
    assert LiveCount(w'.timer, [post]) == 1;
  }

  /** The thread has gone down after position `i`. */
  ghost predicate DownSince(events: seq<Event>, i: int, t: ThreadId)
    requires -1 <= i
  {
    exists k :: i < k < |events| && events[k] == ThreadDown(t)
  }

  /** Position `i` is the last that schedules or cancels, and it schedules. */
  ghost predicate LastSchedule(trace: seq<Observation>, i: int)
    requires -1 <= i < |trace|
  {
    (i >= 0 ==> trace[i].Scheduled?) && forall k :: i < k < |trace| ==> !Control(trace[k])
  }

  lemma DownSinceShift(events: seq<Event>, i: int, t: ThreadId)
    requires events != [] && -1 <= i
    ensures DownSince(events, i + 1, t) <==> DownSince(events[1..], i, t)
    ensures DownSince(events, -1, t) <==> events[0] == ThreadDown(t) || DownSince(events[1..], -1, t)
  {
    assert forall k :: 0 < k < |events| ==> events[k] == events[1..][k - 1];
    if DownSince(events[1..], i, t) {
      var k :| i < k < |events[1..]| && events[1..][k] == ThreadDown(t);
      assert events[k + 1] == ThreadDown(t);
    }
    if DownSince(events[1..], -1, t) {
      var k :| -1 < k < |events[1..]| && events[1..][k] == ThreadDown(t);
      assert events[k + 1] == ThreadDown(t);
    }
  }

  lemma LastScheduleShift(trace: seq<Observation>, i: int)
    requires trace != [] && -1 <= i < |trace| - 1 && LastSchedule(trace[1..], i)
    ensures i >= 0 || trace[0].Scheduled? ==> LastSchedule(trace, i + 1)
    ensures i == -1 && !Control(trace[0]) ==> LastSchedule(trace, -1)
  {
    assert forall k :: 0 < k < |trace| ==> trace[k] == trace[1..][k - 1];
  }

  lemma {:induction false} ArmedSince(w: World, events: seq<Event>) returns (i: int)
    requires Inv(w) && ValidRun(w, events) && Final(w, events).timer.armed
    ensures -1 <= i < |events| && LastSchedule(Trace(w, events), i)
    ensures i == -1 ==> w.timer.armed && w.timer.thread == Final(w, events).timer.thread
    ensures var end := Final(w, events);
            end.timer.thread.Some? &&
            LiveCount(end.timer, end.posts) ==
            if DownSince(events, i, end.timer.thread.value) then 0
            else if i >= 0 then 1 else LiveCount(w.timer, w.posts)
    decreases |events|
  {
    RunKeeps(w, events);
    if events == [] {
      i := -1;
    } else {
      var (w', o) := Step(w, events[0]);
      var t := Final(w, events).timer.thread.value;
      StepKeeps(w, events[0]);
      StepControls(w, events[0]);
      var j := ArmedSince(w', events[1..]);
      assert Trace(w, events)[1..] == Trace(w', events[1..]);
      LastScheduleShift(Trace(w, events), j);
      DownSinceShift(events, j, t);
      if j >= 0 {
        i := j + 1;
      } else if Control(o) {
        ScheduleServes(w, events[0]);
        i := 0;
      } else {
        StepServes(w, events[0]);
        i := -1;
      }
    }
  }

  /** In every run, at every moment an armed timer has exactly one callback posted if and only if its
      thread has not gone down since the schedule it is armed by; otherwise it has none. */
  lemma ArmedIsServedIff(events: seq<Event>)
    requires ValidRun(INITIAL, events) && Final(INITIAL, events).timer.armed
    ensures Final(INITIAL, events).timer.thread.Some?
    ensures var end := Final(INITIAL, events);
            exists i :: 0 <= i < |events| && LastSchedule(Trace(INITIAL, events), i) &&
                        LiveCount(end.timer, end.posts) ==
                        if DownSince(events, i, end.timer.thread.value) then 0 else 1
  {
    var i := ArmedSince(INITIAL, events);
    assert 0 <= i < |events| && LastSchedule(Trace(INITIAL, events), i);
  }

  /** A run is a first step followed by a run. */
  lemma RunFrom(w: World, e: Event, rest: seq<Event>)
    requires Enabled(w, e) && ValidRun(Step(w, e).0, rest)
    ensures ValidRun(w, [e] + rest)
    ensures Final(w, [e] + rest) == Final(Step(w, e).0, rest)
    ensures Trace(w, [e] + rest) == [Step(w, e).1] + Trace(Step(w, e).0, rest)
  {
    assert ([e] + rest)[1..] == rest;
  }

  /** A thread that goes down takes the callback with it, and its timer is not scheduled any more. */
  lemma DownIsNotScheduled(w: World)
    requires Inv(w) && IsScheduled(w)
    ensures var w' := Step(w, ThreadDown(w.timer.thread.value)).0;
            !IsScheduled(w') && w'.timer == w.timer && LiveCount(w'.timer, w'.posts) == 0
  {
    assert forall p :: p in w.posts ==> PostOk(w, p);
    LiveSurvive(w.timer, w.posts, w.timer.thread.value);
  }

  /** A thread that has been destroyed never runs again, so no timer is ever scheduled on it. */
  lemma DestroyedIsGone(w: World, t: ThreadId, events: seq<Event>)
    requires Inv(w) && Enabled(w, ThreadDestroyed(t)) && ValidRun(Step(w, ThreadDestroyed(t)).0, events)
    ensures var end := Final(Step(w, ThreadDestroyed(t)).0, events);
            t !in end.running && (IsScheduled(end) ==> end.timer.thread != Some(t))
  {
    var w' := Step(w, ThreadDestroyed(t)).0;
    StepKeeps(w, ThreadDestroyed(t));
    RunKeeps(w', events);
    DestroyedStays(w', t, events);
  }

  lemma {:induction false} DestroyedStays(w: World, t: ThreadId, events: seq<Event>)
    requires t in w.destroyed && ValidRun(w, events)
    ensures t in Final(w, events).destroyed
    decreases |events|
  {
    if events != [] {
      DestroyedStays(Step(w, events[0]).0, t, events[1..]);
    }
  }

  lemma {:induction false} AwaitedSome(posts: seq<Post>) returns (i: nat)
    requires AwaitedCount(posts) > 0
    ensures i < |posts| && Awaited(posts[i])
  {
    if Awaited(posts[0]) {
      i := 0;
    } else {
      var j := AwaitedSome(posts[1..]);
      i := j + 1;
    }
  }

  /** A caller that waits can always be released: its closure, if still pending, can be run, and then the
      call returns and frees the mutex. */
  lemma WaitingCallerCanReturn(w: World, now: int) returns (events: seq<Event>)
    requires Inv(w) && w.blocked.Some?
    ensures |events| <= 2 && ValidRun(w, events) && Final(w, events).blocked.None?
  {
    var back := if w.blocked.value.Scheduling? then ScheduleReturn(now) else CancelReturn;
    if w.blocked.value.ready {
      RunFrom(w, back, []);
      events := [back] + [];
    } else {
      var i := AwaitedSome(w.posts);
      var w' := Step(w, Deliver(i, now)).0;
      RunFrom(w', back, []);
      RunFrom(w, Deliver(i, now), [back]);
      events := [Deliver(i, now)] + [back];
    }
  }

  /** The thread of any scheduled timer goes down and up again: the timer still counts as scheduled, but
      no callback is posted any more. */
  lemma RestartLosesCallback(w: World)
    requires Inv(w) && IsScheduled(w)
    ensures var t := w.timer.thread.value;
            var events := [ThreadDown(t), ThreadUp(t)];
            && ValidRun(w, events)
            && var end := Final(w, events);
               IsScheduled(end) && end.timer == w.timer && LiveCount(end.timer, end.posts) == 0
  {
    var t := w.timer.thread.value;
    var w1 := Step(w, ThreadDown(t)).0;
    assert forall p :: p in w.posts ==> PostOk(w, p);
    LiveSurvive(w.timer, w.posts, t);
    RunFrom(w1, ThreadUp(t), []);
    RunFrom(w, ThreadDown(t), [ThreadUp(t)]);
  }

  /** A timer without a live callback runs no task again before the next successful schedule. */
  lemma {:induction false} UnservedUntilScheduled(w: World, events: seq<Event>, j: nat)
    requires Inv(w) && LiveCount(w.timer, w.posts) == 0 && ValidRun(w, events) && j < |events|
    requires forall k :: 0 <= k < j ==> !Trace(w, events)[k].Scheduled?
    ensures !Trace(w, events)[j].TaskRan?
    decreases |events|
  {
    var (w', o) := Step(w, events[0]);
    OnlyOne(w.timer, w.posts);
    assert Trace(w, events) == [o] + Trace(w', events[1..]);
    if j > 0 {
      assert o == Trace(w, events)[0];
      StepKeeps(w, events[0]);
      StaysUnserved(w, events[0]);
      assert forall k :: 0 <= k < j - 1 ==> Trace(w', events[1..])[k] == Trace(w, events)[k + 1];
      UnservedUntilScheduled(w', events[1..], j - 1);
    }
  }

  lemma StaysUnserved(w: World, e: Event)
    requires Inv(w) && LiveCount(w.timer, w.posts) == 0 && Enabled(w, e) && !Step(w, e).1.Scheduled?
    ensures var w' := Step(w, e).0; LiveCount(w'.timer, w'.posts) == 0
  {
    var (w', o) := Step(w, e);
    StepControls(w, e);
    OnlyOne(w.timer, w.posts);
    if w'.timer.armed {
      StepServes(w, e);
    } else {
      NoneLive(w'.timer, w'.posts);
    }
  }

  // ----- a cancellation cancels

  /** An awaited closure is on the timer's own thread, unless the timer is disarmed already; and a caller
      whose wait is over finds no callback posted. */
  ghost predicate CancelOk(w: World) {
    && (forall p :: p in w.posts && Awaited(p) ==> !w.timer.armed || w.timer.thread == Some(p.thread))
    && (w.blocked.Some? && w.blocked.value.ready ==> LiveCount(w.timer, w.posts) == 0)
  }

  /** Nothing on a thread that is not running is posted, so nothing of its timer is live. */
  lemma UnscheduledIsUnserved(w: World)
    requires Inv(w) && !IsScheduled(w)
    ensures LiveCount(w.timer, w.posts) == 0
  {
    if LiveCount(w.timer, w.posts) > 0 {
      PendingIsScheduled(w);
    }
  }

  /** A disarmed timer has no live callback. */
  lemma DisarmedIsUnserved(w: World, e: Event)
    requires Inv(w) && Enabled(w, e) && Step(w, e).1.Disarmed?
    ensures var w' := Step(w, e).0; LiveCount(w'.timer, w'.posts) == 0
  {
    var w' := Step(w, e).0;
    StepControls(w, e);
    NoneLive(w'.timer, w'.posts);
  }

  /** A cancellation that is settled at once leaves nothing live; any other has posted its closure to the
      timer's own thread. */
  lemma CancelHelperCancels(w: World, caller: ThreadId, awaited: bool)
    requires Inv(w)
    ensures var (w', ready) := CancelHelper(w, caller, awaited);
            if ready then LiveCount(w'.timer, w'.posts) == 0
            else IsScheduled(w) && w' == w.(posts := w.posts + [CancelPost(w.timer.thread.value, awaited)])
  {
    NoneLive(Cancelled(w.timer), w.posts);
    if !IsScheduled(w) {
      UnscheduledIsUnserved(w);
    }
  }

  lemma StepKeepsCancelOk(w: World, e: Event)
    requires Inv(w) && CancelOk(w) && Enabled(w, e)
    ensures CancelOk(Step(w, e).0)
  {
    var (w', o) := Step(w, e);
    StepKeeps(w, e);
    match e
    case ScheduleCall(caller, target, task, period, now) =>
      CancelHelperCancels(w, caller, true);
      AwaitedNone(w.posts);
    case CancelCall(caller, wait) =>
      CancelHelperCancels(w, caller, wait);
      AwaitedNone(w.posts);
    case ScheduleReturn(now) => AwaitedNone(w.posts);
    case CancelReturn =>
    case Deliver(i, now) => DeliverKeepsCancelOk(w, i, now);
    case ThreadUp(t) =>
    case ThreadDown(t) => ThreadDownKeepsCancelOk(w, t);
    case ThreadDestroyed(t) =>
  }

  lemma {:induction false} AwaitedNone(posts: seq<Post>)
    ensures AwaitedCount(posts) == 0 ==> forall p :: p in posts ==> !Awaited(p)
  {
    if posts != [] {
      AwaitedNone(posts[1..]);
    }
  }

  lemma DeliverKeepsCancelOk(w: World, i: nat, now: int)
    requires Inv(w) && CancelOk(w) && i < |w.posts|
    ensures CancelOk(DeliverStep(w, i, now).0)
  {
    var e := Deliver(i, now);
    var rest := Without(w.posts, i);
    assert forall q :: q in rest ==> q in w.posts;
    if w.posts[i].CancelPost? {
      DisarmedIsUnserved(w, e);
    } else if w.blocked.Some? && w.blocked.value.ready {
      StaysUnserved(w, e);
    }
  }

  lemma ThreadDownKeepsCancelOk(w: World, t: ThreadId)
    requires Inv(w) && CancelOk(w) && Enabled(w, ThreadDown(t))
    ensures CancelOk(Step(w, ThreadDown(t)).0)
  {
    CountsSurviving(w.timer, w.posts, t);
    assert forall p :: p in w.posts ==> PostOk(w, p);
    LiveSurvive(w.timer, w.posts, t);
    if CancelPost(t, true) in w.posts {
      assert Awaited(CancelPost(t, true));
      if !w.timer.armed {
        NoneLive(w.timer, w.posts);
      }
    }
  }

  /** The step at position `i` completes a cancellation: a `CancelAndWait` returns, or the timer is
      disarmed. */
  predicate Cancels(e: Event, o: Observation) {
    e.CancelReturn? || o.Disarmed?
  }

  lemma {:induction false} QuietAfterCancel(w: World, events: seq<Event>, i: nat, j: nat)
    requires Inv(w) && CancelOk(w) && ValidRun(w, events) && i < j < |events|
    requires Cancels(events[i], Trace(w, events)[i]) && Trace(w, events)[j].TaskRan?
    ensures exists k :: i < k < j && Trace(w, events)[k].Scheduled?
    decreases |events|
  {
    var (w', o) := Step(w, events[0]);
    var rest, trace := Trace(w', events[1..]), Trace(w, events);
    assert trace == [o] + rest;
    StepKeeps(w, events[0]);
    if i > 0 {
      StepKeepsCancelOk(w, events[0]);
      QuietAfterCancel(w', events[1..], i - 1, j - 1);
      var k :| i - 1 < k < j - 1 && rest[k].Scheduled?;
      assert trace[k + 1].Scheduled?;
    } else {
      if o.Disarmed? {
        DisarmedIsUnserved(w, events[0]);
      }
      if forall k :: 0 <= k < j - 1 ==> !rest[k].Scheduled? {
        UnservedUntilScheduled(w', events[1..], j - 1);
      } else {
        var k :| 0 <= k < j - 1 && rest[k].Scheduled?;
        assert trace[k + 1].Scheduled?;
      }
    }
  }

  /** In every run, once a `CancelAndWait` has returned, or a cancel closure has been run, no task is run
      before the next successful schedule. */
  lemma CancelledTaskNeverRuns(events: seq<Event>, i: nat, j: nat)
    requires ValidRun(INITIAL, events) && i < j < |events|
    requires Cancels(events[i], Trace(INITIAL, events)[i]) && Trace(INITIAL, events)[j].TaskRan?
    ensures exists k :: i < k < j && Trace(INITIAL, events)[k].Scheduled?
  {
    QuietAfterCancel(INITIAL, events, i, j);
  }

  /** An asynchronous cancel of a scheduled timer cancels at once on the timer's own thread, and otherwise
      posts a closure that cancels when it is run. */
  lemma CancelTakesEffect(w: World, caller: ThreadId, now: int)
    requires Inv(w) && w.blocked.None?
    ensures var w' := Step(w, CancelCall(caller, false)).0;
            if !IsScheduled(w) || w.timer.thread == Some(caller) then LiveCount(w'.timer, w'.posts) == 0
            else && |w'.posts| == |w.posts| + 1
                 && Enabled(w', Deliver(|w.posts|, now))
                 && Step(w', Deliver(|w.posts|, now)).1.Disarmed?
  {
    CancelHelperCancels(w, caller, false);
  }

  // ----- where a schedule comes from

  /** The timer is armed with the schedule, or a call is about to arm it so. */
  predicate HasPlan(w: World, s: Schedule) {
    || (&& w.timer.armed && w.timer.thread == Some(s.thread) && w.timer.task == Some(s.task)
        && w.timer.period == s.period && w.timer.origin == s.origin)
    || (&& w.blocked.Some? && w.blocked.value.Scheduling?
        && w.blocked.value == Scheduling(s.thread, s.task, s.period, s.origin, w.blocked.value.ready))
  }

  /** The call that asks for the schedule, one period before its first due instant. */
  predicate AsksFor(e: Event, s: Schedule) {
    e.ScheduleCall? && e == ScheduleCall(e.caller, Some(s.thread), s.task, s.period, s.origin - s.period)
  }

  lemma PlanComesFrom(w: World, e: Event, s: Schedule)
    requires Enabled(w, e) && HasPlan(Step(w, e).0, s)
    ensures HasPlan(w, s) || AsksFor(e, s)
  {
  }

  lemma {:induction false} PlanOfRun(w: World, events: seq<Event>, s: Schedule)
    requires ValidRun(w, events) && HasPlan(Final(w, events), s)
    ensures HasPlan(w, s) || exists m :: 0 <= m < |events| && AsksFor(events[m], s)
    decreases |events|
  {
    if events != [] {
      PlanOfRun(Step(w, events[0]).0, events[1..], s);
      if HasPlan(Step(w, events[0]).0, s) {
        PlanComesFrom(w, events[0], s);
      } else {
        var m :| 0 <= m < |events[1..]| && AsksFor(events[1..][m], s);
        assert AsksFor(events[m + 1], s);
      }
    }
  }

  /** In every run the thread, task and period of an armed timer are those of some schedule call,
      and its first due instant is one period after the clock of that call. */
  lemma ArmedAsAsked(events: seq<Event>)
    requires ValidRun(INITIAL, events) && Final(INITIAL, events).timer.armed
    ensures var t := Final(INITIAL, events).timer;
            && t.thread.Some? && t.task.Some?
            && exists m :: 0 <= m < |events| &&
                           AsksFor(events[m], Schedule(t.thread.value, t.task.value, t.period, t.origin, t.fired))
  {
    RunKeeps(INITIAL, events);
    ArmedHasTask(INITIAL, events);
    var t := Final(INITIAL, events).timer;
    PlanOfRun(INITIAL, events, Schedule(t.thread.value, t.task.value, t.period, t.origin, t.fired));
  }

  lemma {:induction false} ArmedHasTask(w: World, events: seq<Event>)
    requires ValidRun(w, events) && (w.timer.armed ==> w.timer.task.Some?)
    ensures Final(w, events).timer.armed ==> Final(w, events).timer.task.Some?
    decreases |events|
  {
    if events != [] {
      ArmedHasTask(Step(w, events[0]).0, events[1..]);
    }
  }

  // ----- cancel closures that outlive the schedule they were meant for

  predicate OnlyDeliveries(events: seq<Event>) {
    forall i :: 0 <= i < |events| ==> events[i].Deliver?
  }

  predicate CancelPending(w: World) {
    exists i :: 0 <= i < |w.posts| && w.posts[i].CancelPost?
  }

  /** The timer is armed and its callback is posted. */
  ghost predicate Served(w: World) {
    w.timer.armed && LiveCount(w.timer, w.posts) == 1
  }

  lemma {:induction false} DeliveriesKeepServing(w: World, events: seq<Event>)
    requires Inv(w) && Served(w) && !CancelPending(w)
    requires ValidRun(w, events) && OnlyDeliveries(events)
    ensures Served(Final(w, events)) && Final(w, events).timer.task == w.timer.task
    decreases |events|
  {
    if events != [] {
      StepKeeps(w, events[0]);
      StepServes(w, events[0]);
      var w', rest := Step(w, events[0]).0, events[1..];
      assert forall p :: p in w'.posts && p.CancelPost? ==> p in w.posts;
      assert forall i :: 0 <= i < |w'.posts| ==> w'.posts[i] in w'.posts;
      assert OnlyDeliveries(rest);
      DeliveriesKeepServing(w', rest);
    }
  }

  /** A schedule survives the closures already posted, armed and with its callback posted, in every
      order of delivery, exactly when it has its callback and none of them is a cancel closure. */
  lemma SurvivesIffNoCancelPending(w: World)
    requires Inv(w)
    ensures (forall events :: ValidRun(w, events) && OnlyDeliveries(events) ==> Served(Final(w, events)))
            <==> Served(w) && !CancelPending(w)
  {
    if !Served(w) {
      assert ValidRun(w, []) && OnlyDeliveries([]) && !Served(Final(w, []));
    } else if CancelPending(w) {
      var i :| 0 <= i < |w.posts| && w.posts[i].CancelPost?;
      RunFrom(w, Deliver(i, 0), []);
      var events := [Deliver(i, 0)] + [];
      assert ValidRun(w, events) && OnlyDeliveries(events) && !Served(Final(w, events));
    } else {
      forall events | ValidRun(w, events) && OnlyDeliveries(events)
        ensures Served(Final(w, events))
      {
        DeliveriesKeepServing(w, events);
      }
    }
  }

  /** Whenever the timer points at no thread while a cancel closure is still pending, the next
      schedule does not wait for that closure, succeeds, and is cancelled by it: the new task is
      never run although nobody cancelled it. */
  lemma StaleCancelKillsNewSchedule(w: World, i: nat, user: ThreadId, target: ThreadId, task: TaskId, period: int, now: int)
    requires Inv(w) && w.blocked.None? && w.timer.thread.None? && period >= 1 && target in w.running
    requires i < |w.posts| && w.posts[i].CancelPost?
    ensures var events := [ScheduleCall(user, Some(target), task, period, now), ScheduleReturn(now), Deliver(i, now)];
            ValidRun(w, events) && Trace(w, events) == [Quiet, Scheduled(task), Disarmed]
  {
    var call := ScheduleCall(user, Some(target), task, period, now);
    var w1 := Step(w, call).0;
    var w2 := Step(w1, ScheduleReturn(now)).0;
    assert w2.posts[i] == w.posts[i];
    RunFrom(w2, Deliver(i, now), []);
    RunFrom(w1, ScheduleReturn(now), [Deliver(i, now)]);
    RunFrom(w, call, [ScheduleReturn(now), Deliver(i, now)]);
  }

  /** Such a world is reached when a user thread cancels twice before the first closure has run. */
  lemma StaleCancelReachable()
    ensures var events := [ThreadUp(0), ScheduleCall(9, Some(0), 1, 10, 0), ScheduleReturn(0),
                           CancelCall(9, false), CancelCall(9, false), Deliver(1, 1)];
            && ValidRun(INITIAL, events)
            && Final(INITIAL, events).timer.thread.None?
            && Final(INITIAL, events).posts == [RunPost(0, 1, 10), CancelPost(0, false)]
  {
    FirstDueInstant(0, 10, 0);
    var cancel := CancelPost(0, false);
    var w1 := Step(INITIAL, ThreadUp(0)).0;
    var w2 := Step(w1, ScheduleCall(9, Some(0), 1, 10, 0)).0;
    var w3 := Step(w2, ScheduleReturn(0)).0;
    assert w3.posts == [RunPost(0, 1, 10)];
    var w4 := Step(w3, CancelCall(9, false)).0;
    assert w4.posts == w3.posts + [cancel];
    var w5 := Step(w4, CancelCall(9, false)).0;
    assert w5.posts == w4.posts + [cancel];
    var w6 := Step(w5, Deliver(1, 1)).0;
    assert w6.posts == [RunPost(0, 1, 10), cancel];
    var s5 := [Deliver(1, 1)] + [];
    var s4 := [CancelCall(9, false)] + s5;
    var s3 := [CancelCall(9, false)] + s4;
    var s2 := [ScheduleReturn(0)] + s3;
    RunFrom(w5, Deliver(1, 1), []);
    RunFrom(w4, CancelCall(9, false), s5);
    RunFrom(w3, CancelCall(9, false), s4);
    RunFrom(w2, ScheduleReturn(0), s3);
    RunFrom(w1, ScheduleCall(9, Some(0), 1, 10, 0), s2);
    RunFrom(INITIAL, ThreadUp(0), [ScheduleCall(9, Some(0), 1, 10, 0)] + s2);
  }

  /** A scheduled timer whose thread is shut down and started again: scheduled, with nothing posted. */
  lemma RestartReachable()
    ensures var events := [ThreadUp(0), ScheduleCall(9, Some(0), 1, 10, 0), ScheduleReturn(0), ThreadDown(0), ThreadUp(0)];
            && ValidRun(INITIAL, events)
            && IsScheduled(Final(INITIAL, events))
            && Final(INITIAL, events).posts == []
  {
    FirstDueInstant(0, 10, 0);
    var call := ScheduleCall(9, Some(0), 1, 10, 0);
    var w1 := Step(INITIAL, ThreadUp(0)).0;
    var w2 := Step(w1, call).0;
    var w3 := Step(w2, ScheduleReturn(0)).0;
    assert w3.posts == [RunPost(0, 1, 10)];
    var w4 := Step(w3, ThreadDown(0)).0;
    assert w4.posts == [] by { assert Surviving(w3.posts[1..], 0) == []; }
    RunFrom(w4, ThreadUp(0), []);
    RunFrom(w3, ThreadDown(0), [ThreadUp(0)]);
    RunFrom(w2, ScheduleReturn(0), [ThreadDown(0), ThreadUp(0)]);
    RunFrom(w1, call, [ScheduleReturn(0), ThreadDown(0), ThreadUp(0)]);
    RunFrom(INITIAL, ThreadUp(0), [call, ScheduleReturn(0), ThreadDown(0), ThreadUp(0)]);
  }
}
