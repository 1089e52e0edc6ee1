/**
 The start-up and shut-down protocol of the message loop thread
 (system/common/message_loop_thread.cc, message loop path). Each critical section under the
 API mutex is one atomic step; any number of callers and the worker threads interleave.
 */
module MessageLoopThread {
  import opened Options

  /** The identity of a `std::thread` object, of its message loop and of its thread id. */
  type WorkerId = nat

  /** The fields guarded by the API mutex. */
  datatype Shared = Shared(
    thread: Option<WorkerId>,
    messageLoop: Option<WorkerId>,
    runLoop: Option<WorkerId>,
    threadId: Option<WorkerId>,
    shuttingDown: bool)

  // ----- the five critical sections, on values

  function StartUpSection(s: Shared, worker: WorkerId): Shared {
    if s.thread.Some? then s else s.(thread := Some(worker))
  }

  function RunSetupSection(s: Shared, worker: WorkerId): Shared {
    s.(messageLoop := Some(worker), runLoop := Some(worker), threadId := Some(worker))
  }

  function RunTeardownSection(s: Shared): Shared {
    s.(messageLoop := None, runLoop := None, threadId := None)
  }

  /** Whether the first section of `ShutDown` goes on to join. */
  predicate ClaimsJoin(s: Shared) {
    s.thread.Some? && s.messageLoop.Some? && !s.shuttingDown
  }

  function ShutDownClaimSection(s: Shared): Shared {
    if ClaimsJoin(s) then s.(shuttingDown := true) else s
  }

  function ShutDownReleaseSection(s: Shared): Shared {
    s.(thread := None, shuttingDown := false)
  }

  // ----- the life cycle of the thread object

  /** Where a thread object is between two critical sections. */
  datatype Phase =
    | Off
    | Starting(worker: WorkerId)
    | Running(worker: WorkerId)
    | Quitting(worker: WorkerId)
    | Ended(worker: WorkerId)

  /** The only values the five fields take while the mutex is free. */
  function SharedIn(phase: Phase): Shared {
    match phase
    case Off => Shared(None, None, None, None, false)
    case Starting(t) => Shared(Some(t), None, None, None, false)
    case Running(t) => Shared(Some(t), Some(t), Some(t), Some(t), false)
    case Quitting(t) => Shared(Some(t), Some(t), Some(t), Some(t), true)
    case Ended(t) => Shared(Some(t), None, None, None, true)
  }

  /** The object of the source. Every method is one critical section, and moves the thread object on
      through its life cycle or leaves it alone. That the sections of the worker and the release are
      entered only in the phase they require is `StepFollowsLifeCycle`. */
  class Loop {
    var thread: Option<WorkerId>
    var messageLoop: Option<WorkerId>
    var runLoop: Option<WorkerId>
    var threadId: Option<WorkerId>
    var shuttingDown: bool
    ghost var phase: Phase

    ghost function View(): Shared
      reads this
    {
      Shared(thread, messageLoop, runLoop, threadId, shuttingDown)
    }

    ghost predicate Valid()
      reads this
    {
      View() == SharedIn(phase)
    }

    constructor ()
      ensures Valid() && phase == Off
    {
      thread, messageLoop, runLoop, threadId, shuttingDown := None, None, None, None, false;
      phase := Off;
    }

    method StartUp(worker: WorkerId) returns (created: bool)
      requires Valid()
      modifies this
      ensures Valid() && View() == StartUpSection(old(View()), worker)
      ensures created <==> old(phase) == Off
      ensures phase == if created then Starting(worker) else old(phase)
    {
      if thread.Some? {
        return false;
      }
      thread := Some(worker);
      phase := Starting(worker);
      return true;
    }

    /** Entered only by the thread that `StartUp` has created. */
    method RunSetup(worker: WorkerId)
      requires Valid() && phase == Starting(worker)
      modifies this
      ensures Valid() && View() == RunSetupSection(old(View()), worker)
      ensures phase == Running(worker)
    {
      messageLoop := Some(worker);
      runLoop := Some(worker);
      threadId := Some(worker);
      phase := Running(worker);
    }

    /** Entered only when the loop has been asked to quit. */
    method RunTeardown()
      requires Valid() && phase.Quitting?
      modifies this
      ensures Valid() && View() == RunTeardownSection(old(View()))
      ensures phase == Ended(old(phase).worker)
    {
      threadId := None;
      messageLoop := None;
      runLoop := None;
      phase := Ended(phase.worker);
    }

    method ShutDownClaim() returns (claimed: bool)
      requires Valid()
      modifies this
      ensures Valid() && View() == ShutDownClaimSection(old(View()))
      ensures claimed <==> old(phase).Running?
      ensures phase == if claimed then Quitting(old(phase).worker) else old(phase)
    {
      if thread.None? {
        return false;
      }
      if messageLoop.None? {
        return false;
      }
      if shuttingDown {
        return false;
      }
      shuttingDown := true;
      phase := Quitting(phase.worker);
      return true;
    }

    /** Entered only after the join. */
    method ShutDownRelease()
      requires Valid() && phase.Ended?
      modifies this
      ensures Valid() && View() == ShutDownReleaseSection(old(View()))
      ensures phase == Off
    {
      thread := None;
      shuttingDown := false;
      phase := Off;
    }
  }

  // ----- interleavings

  /** A worker thread is created, sets up its loop, runs until asked to quit, leaves the loop,
      tears it down and finishes. */
  datatype WorkerPhase = Created | Looping(quit: bool) | Leaving | Finished

  /** A caller is outside the class, waits in `StartUp` for the promise of its worker, or is in
      `ShutDown` before or after the join. */
  datatype CallerPhase = Idle | StartWaiting(worker: WorkerId) | Joining(worker: WorkerId) | Joined(worker: WorkerId)

  /** `joins` records, for each `ShutDown` that went on to join, the thread it claimed. */
  datatype World = World(shared: Shared, workers: seq<WorkerPhase>, callers: seq<CallerPhase>, joins: seq<WorkerId>)

  const INITIAL: World := World(Shared(None, None, None, None, false), [], [], [])

  datatype Event =
    | NewCaller
    | StartUpEnter(caller: nat)
    | StartUpReturn(caller: nat)
    | ShutDownEnter(caller: nat)
    | JoinReturn(caller: nat)
    | ShutDownExit(caller: nat)
    | RunSetup(worker: WorkerId)
    | LoopReturn(worker: WorkerId)
    | RunTeardown(worker: WorkerId)

  predicate Enabled(w: World, e: Event) {
    match e
    case NewCaller => true
    case StartUpEnter(c) => c < |w.callers| && w.callers[c].Idle?
    case StartUpReturn(c) =>
      && c < |w.callers| && w.callers[c].StartWaiting?
      && w.callers[c].worker < |w.workers| && !w.workers[w.callers[c].worker].Created?
    case ShutDownEnter(c) => c < |w.callers| && w.callers[c].Idle?
    case JoinReturn(c) =>
      // the join goes through the shared pointer, read outside the mutex
      && c < |w.callers| && w.callers[c].Joining?
      && w.shared.thread.Some? && w.shared.thread.value < |w.workers|
      && w.workers[w.shared.thread.value].Finished?
    case ShutDownExit(c) => c < |w.callers| && w.callers[c].Joined?
    case RunSetup(t) => t < |w.workers| && w.workers[t].Created?
    case LoopReturn(t) => t < |w.workers| && w.workers[t] == Looping(true)
    case RunTeardown(t) => t < |w.workers| && w.workers[t].Leaving?
  }

  function Step(w: World, e: Event): World
    requires Enabled(w, e)
  {
    match e
    case NewCaller => w.(callers := w.callers + [Idle])
    case StartUpEnter(c) =>
      var newest := |w.workers|;
      var s := StartUpSection(w.shared, newest);
      if w.shared.thread.Some? then w.(shared := s)
      else w.(shared := s, workers := w.workers + [Created], callers := w.callers[c := StartWaiting(newest)])
    case StartUpReturn(c) => w.(callers := w.callers[c := Idle])
    case ShutDownEnter(c) =>
      var s := ShutDownClaimSection(w.shared);
      if !ClaimsJoin(w.shared) then w.(shared := s)
      else
        var t := w.shared.thread.value;
        w.(shared := s,
           workers := if w.shared.runLoop.Some? then AskToQuit(w.workers, w.shared.runLoop.value) else w.workers,
           callers := w.callers[c := Joining(t)],
           joins := w.joins + [t])
    case JoinReturn(c) => w.(callers := w.callers[c := Joined(w.callers[c].worker)])
    case ShutDownExit(c) => w.(shared := ShutDownReleaseSection(w.shared), callers := w.callers[c := Idle])
    case RunSetup(t) => w.(shared := RunSetupSection(w.shared, t), workers := w.workers[t := Looping(false)])
    case LoopReturn(t) => w.(workers := w.workers[t := Leaving])
    case RunTeardown(t) => w.(shared := RunTeardownSection(w.shared), workers := w.workers[t := Finished])
  }

  /** `QuitWhenIdle` on the run loop of a worker. */
  function AskToQuit(workers: seq<WorkerPhase>, t: WorkerId): seq<WorkerPhase> {
    if t < |workers| && workers[t].Looping? then workers[t := Looping(true)] else workers
  }

  predicate ValidRun(w: World, events: seq<Event>)
    decreases |events|
  {
    events == [] || (Enabled(w, events[0]) && ValidRun(Step(w, events[0]), events[1..]))
  }

  function Final(w: World, events: seq<Event>): World
    requires ValidRun(w, events)
    decreases |events|
  {
    if events == [] then w else Final(Step(w, events[0]), events[1..])
  }

  // ----- safety

  /** A worker that has been asked to quit, or has gone further. */
  predicate AskedToQuit(p: WorkerPhase) {
    p == Looping(true) || p.Leaving? || p.Finished?
  }

  predicate InJoin(p: CallerPhase) {
    p.Joining? || p.Joined?
  }

  /** Message loop, run loop and thread id are set together, by the one worker that is between its
      two critical sections. */
  ghost predicate LoopOk(w: World) {
    && w.shared.messageLoop == w.shared.runLoop == w.shared.threadId
    && (forall t :: 0 <= t < |w.workers| ==>
          ((w.workers[t].Looping? || w.workers[t].Leaving?) <==> w.shared.messageLoop == Some(t)))
    && (w.shared.messageLoop.Some? ==> w.shared.messageLoop.value < |w.workers|)
  }

  /** A worker that has not finished is the one the thread pointer refers to. */
  ghost predicate SingleWorker(w: World) {
    && (w.shared.thread.Some? ==> w.shared.thread.value < |w.workers|)
    && (forall t :: 0 <= t < |w.workers| && !w.workers[t].Finished? ==> w.shared.thread == Some(t))
  }

  /** A shut-down is in progress exactly while one caller is in its join, and the thread pointer is
      still the one that caller claimed. */
  ghost predicate SingleJoiner(w: World) {
    && (w.shared.shuttingDown <==> exists c :: 0 <= c < |w.callers| && InJoin(w.callers[c]))
    && (forall c :: 0 <= c < |w.callers| && InJoin(w.callers[c]) ==> w.shared.thread == Some(w.callers[c].worker))
    && (forall c, d :: 0 <= c < d < |w.callers| ==> !(InJoin(w.callers[c]) && InJoin(w.callers[d])))
    && (w.shared.thread.Some? && w.shared.thread.value < |w.workers| ==>
          (w.shared.shuttingDown <==> AskedToQuit(w.workers[w.shared.thread.value])))
    && (w.shared.shuttingDown ==> w.shared.thread.Some?)
    && (forall c :: 0 <= c < |w.callers| && w.callers[c].Joined? ==>
          w.callers[c].worker < |w.workers| && w.workers[w.callers[c].worker].Finished?)
    && (forall c :: 0 <= c < |w.callers| && w.callers[c].StartWaiting? ==> w.callers[c].worker < |w.workers|)
  }

  /** Every thread that was told to quit was claimed by exactly one `ShutDown`. */
  ghost predicate JoinedOnce(w: World) {
    && (forall t :: 0 <= t < |w.workers| ==> (AskedToQuit(w.workers[t]) <==> t in w.joins))
    && (forall t :: t in w.joins ==> t < |w.workers|)
    && (forall i, j :: 0 <= i < j < |w.joins| ==> w.joins[i] != w.joins[j])
  }

  /** Some caller is still in the `StartUp` that created the worker. */
  ghost predicate CreatorWaits(w: World, t: WorkerId) {
    exists c :: 0 <= c < |w.callers| && w.callers[c] == StartWaiting(t)
  }

  /** A worker that has not set up its loop has its creator waiting. */
  ghost predicate CreatedIsAwaited(w: World) {
    forall t :: 0 <= t < |w.workers| && w.workers[t].Created? ==> CreatorWaits(w, t)
  }

  /** No two callers wait for the same worker. */
  ghost predicate SingleCreator(w: World) {
    forall c, d :: 0 <= c < d < |w.callers| && w.callers[c].StartWaiting? && w.callers[d].StartWaiting? ==>
      w.callers[c].worker != w.callers[d].worker
  }

  ghost predicate Inv(w: World) {
    LoopOk(w) && SingleWorker(w) && SingleJoiner(w) && JoinedOnce(w) && CreatedIsAwaited(w) && SingleCreator(w)
  }

  /** If a caller keeps waiting for every worker not set up yet, the clause about creators is kept. */
  lemma CreatedStaysAwaited(w: World, w': World)
    requires CreatedIsAwaited(w)
    requires |w.callers| <= |w'.callers|
    requires forall t :: 0 <= t < |w'.workers| && w'.workers[t].Created? ==>
               (t < |w.workers| && w.workers[t].Created?) || CreatorWaits(w', t)
    requires forall c :: 0 <= c < |w.callers| && w.callers[c].StartWaiting? ==>
               w'.callers[c] == w.callers[c] ||
               (w.callers[c].worker < |w'.workers| && !w'.workers[w.callers[c].worker].Created?)
    ensures CreatedIsAwaited(w')
  {
    forall t | 0 <= t < |w'.workers| && w'.workers[t].Created?
      ensures CreatorWaits(w', t)
    {
      if t < |w.workers| && w.workers[t].Created? {
        var c :| 0 <= c < |w.callers| && w.callers[c] == StartWaiting(t);
        assert w'.callers[c] == StartWaiting(t);
      }
    }
  }

  lemma StartUpKeeps(w: World, c: nat)
    requires Inv(w) && Enabled(w, StartUpEnter(c))
    ensures Inv(Step(w, StartUpEnter(c)))
  {
    var w' := Step(w, StartUpEnter(c));
    assert forall d :: 0 <= d < |w.callers| && d != c ==> w'.callers[d] == w.callers[d];
    assert forall t :: 0 <= t < |w.workers| ==> w'.workers[t] == w.workers[t];
    if w.shared.thread.None? {
      assert w'.callers[c] == StartWaiting(|w.workers|);
      assert CreatorWaits(w', |w.workers|);
    }
    CreatedStaysAwaited(w, w');
  }

  lemma ClaimKeeps(w: World, c: nat)
    requires Inv(w) && Enabled(w, ShutDownEnter(c)) && ClaimsJoin(w.shared)
    ensures Inv(Step(w, ShutDownEnter(c)))
  {
    var w', t := Step(w, ShutDownEnter(c)), w.shared.thread.value;
    assert 0 <= w.shared.messageLoop.value < |w.workers|;
    assert w.workers[t] == Looping(false);
    assert w'.workers == w.workers[t := Looping(true)];
    assert InJoin(w'.callers[c]);
    assert t !in w.joins;
    assert w'.joins[|w.joins|] == t;
    assert forall u :: u in w'.joins <==> u in w.joins || u == t;
    CreatedStaysAwaited(w, w');
  }

  lemma NewCallerKeeps(w: World)
    requires Inv(w)
    ensures Inv(Step(w, NewCaller))
  {
    hide LoopOk, JoinedOnce;
    var w' := Step(w, NewCaller);
    assert forall d :: 0 <= d < |w.callers| ==> w'.callers[d] == w.callers[d];
    CreatedStaysAwaited(w, w');
    SameLoop(w, w');
  }

  lemma StartUpReturnKeeps(w: World, c: nat)
    requires Inv(w) && Enabled(w, StartUpReturn(c))
    ensures Inv(Step(w, StartUpReturn(c)))
  {
    hide LoopOk, JoinedOnce;
    var w' := Step(w, StartUpReturn(c));
    assert forall d :: 0 <= d < |w.callers| && d != c ==> w'.callers[d] == w.callers[d];
    assert !InJoin(w.callers[c]) && !InJoin(w'.callers[c]);
    CreatedStaysAwaited(w, w');
    SameLoop(w, w');
  }

  lemma JoinReturnKeeps(w: World, c: nat)
    requires Inv(w) && Enabled(w, JoinReturn(c))
    ensures Inv(Step(w, JoinReturn(c)))
  {
    hide LoopOk, JoinedOnce;
    var w' := Step(w, JoinReturn(c));
    assert forall d :: 0 <= d < |w.callers| && d != c ==> w'.callers[d] == w.callers[d];
    assert InJoin(w.callers[c]) && InJoin(w'.callers[c]);
    CreatedStaysAwaited(w, w');
    SameLoop(w, w');
  }

  /** A caller that moves on without touching anything else leaves the clauses about workers alone. */
  lemma SameLoop(w: World, w': World)
    requires LoopOk(w) && JoinedOnce(w)
    requires w'.shared == w.shared && w'.workers == w.workers && w'.joins == w.joins
    ensures LoopOk(w') && JoinedOnce(w')
  {
  }

  lemma ReleaseKeeps(w: World, c: nat)
    requires Inv(w) && Enabled(w, ShutDownExit(c))
    ensures Inv(Step(w, ShutDownExit(c)))
  {
    var w' := Step(w, ShutDownExit(c));
    assert InJoin(w.callers[c]);
    assert forall d :: 0 <= d < |w.callers| && d != c ==> w'.callers[d] == w.callers[d] && !InJoin(w.callers[d]);
    CreatedStaysAwaited(w, w');
  }

  lemma WorkerStepKeeps(w: World, e: Event)
    requires Inv(w) && Enabled(w, e) && (e.RunSetup? || e.LoopReturn? || e.RunTeardown?)
    ensures Inv(Step(w, e))
  {
    var w' := Step(w, e);
    assert forall u :: 0 <= u < |w.workers| && u != e.worker ==> w'.workers[u] == w.workers[u];
    assert AskedToQuit(w'.workers[e.worker]) <==> AskedToQuit(w.workers[e.worker]);
    CreatedStaysAwaited(w, w');
  }

  lemma StepKeeps(w: World, e: Event)
    requires Inv(w) && Enabled(w, e)
    ensures Inv(Step(w, e))
  {
    match e
    case StartUpEnter(c) => StartUpKeeps(w, c);
    case ShutDownEnter(c) =>
      if ClaimsJoin(w.shared) {
        ClaimKeeps(w, c);
      }
    case ShutDownExit(c) => ReleaseKeeps(w, c);
    case NewCaller => NewCallerKeeps(w);
    case StartUpReturn(c) => StartUpReturnKeeps(w, c);
    case JoinReturn(c) => JoinReturnKeeps(w, c);
    case RunSetup(t) => WorkerStepKeeps(w, e);
    case LoopReturn(t) => WorkerStepKeeps(w, e);
    case RunTeardown(t) => WorkerStepKeeps(w, e);
  }

  /** In every interleaving, whenever the mutex is free: the loop fields are set together and belong
      to the current thread object, at most one worker is alive, at most one caller is joining and
      its thread pointer has not changed, and no thread is ever claimed for joining twice. */
  lemma {:induction false} RunKeeps(w: World, events: seq<Event>)
    requires Inv(w) && ValidRun(w, events)
    ensures Inv(Final(w, events))
    decreases |events|
  {
    if events != [] {
      StepKeeps(w, events[0]);
      RunKeeps(Step(w, events[0]), events[1..]);
    }
  }

  /** The phase the current worker and the callers are in. */
  function PhaseOf(w: World): Phase {
    if w.shared.thread.None? || w.shared.thread.value >= |w.workers| then Off
    else
      var t := w.shared.thread.value;
      match w.workers[t]
      case Created => Starting(t)
      case Looping(quit) => if quit then Quitting(t) else Running(t)
      case Leaving => Quitting(t)
      case Finished => Ended(t)
  }

  /** Of all values of the five fields only those of the life cycle occur while the mutex is free. */
  lemma SharedIsPhase(w: World)
    requires Inv(w)
    ensures w.shared == SharedIn(PhaseOf(w))
  {
    if w.shared.thread.Some? {
      var t := w.shared.thread.value;
      assert (w.workers[t].Looping? || w.workers[t].Leaving?) <==> w.shared.messageLoop == Some(t);
    }
    if w.shared.messageLoop.Some? {
      var m := w.shared.messageLoop.value;
      assert w.workers[m].Looping? || w.workers[m].Leaving?;
      assert w.shared.thread == Some(m);
    }
  }

  /** Every section finds the thread object in the phase it is entered in, and only it moves it on. */
  lemma StepFollowsLifeCycle(w: World, e: Event)
    requires Inv(w) && Enabled(w, e)
    ensures var before, after := PhaseOf(w), PhaseOf(Step(w, e));
            match e
            case StartUpEnter(_) => after == if before.Off? then Starting(|w.workers|) else before
            case ShutDownEnter(_) => after == if before.Running? then Quitting(before.worker) else before
            case ShutDownExit(c) => before == Ended(w.callers[c].worker) && after == Off
            case RunSetup(t) => before == Starting(t) && after == Running(t)
            case LoopReturn(t) => before == after == Quitting(t)
            case RunTeardown(t) => before == Quitting(t) && after == Ended(t)
            case _ => after == before
  {
    SharedIsPhase(w);
    StepKeeps(w, e);
    SharedIsPhase(Step(w, e));
    if e.ShutDownExit? {
      assert InJoin(w.callers[e.caller]);
    }
  }

  // ----- every call returns

  /** A step that is not a new call. */
  predicate Internal(e: Event) {
    !e.NewCaller? && !e.StartUpEnter? && !e.ShutDownEnter?
  }

  /** A blocked caller never waits for nothing: some step other than a new call is possible. */
  lemma NoDeadlock(w: World, c: nat) returns (e: Event)
    requires Inv(w) && c < |w.callers| && !w.callers[c].Idle?
    ensures Internal(e) && Enabled(w, e)
  {
    match w.callers[c]
    case StartWaiting(t) =>
      e := if w.workers[t].Created? then RunSetup(t) else StartUpReturn(c);
    case Joining(t) =>
      assert InJoin(w.callers[c]);
      e := if w.workers[t] == Looping(true) then LoopReturn(t)
      else if w.workers[t].Leaving? then RunTeardown(t)
      else JoinReturn(c);
    case Joined(t) =>
      e := ShutDownExit(c);
  }

  function CallerWork(callers: seq<CallerPhase>): nat {
    if callers == [] then 0
    else (match callers[0] case Idle => 0 case StartWaiting(_) => 1 case Joining(_) => 2 case Joined(_) => 1)
         + CallerWork(callers[1..])
  }

  function WorkerWork(workers: seq<WorkerPhase>): nat {
    if workers == [] then 0
    else (match workers[0] case Created => 3 case Looping(_) => 2 case Leaving => 1 case Finished => 0)
         + WorkerWork(workers[1..])
  }

  function Work(w: World): nat {
    CallerWork(w.callers) + WorkerWork(w.workers)
  }

  lemma {:induction false} CallerWorkUpdate(callers: seq<CallerPhase>, i: nat, p: CallerPhase)
    requires i < |callers|
    ensures CallerWork(callers[i := p]) + CallerWork([callers[i]]) == CallerWork(callers) + CallerWork([p])
  {
    if i > 0 {
      assert callers[i := p][1..] == callers[1..][i - 1 := p];
      CallerWorkUpdate(callers[1..], i - 1, p);
    } else {
      assert callers[0 := p][1..] == callers[1..];
    }
  }

  lemma {:induction false} WorkerWorkUpdate(workers: seq<WorkerPhase>, i: nat, p: WorkerPhase)
    requires i < |workers|
    ensures WorkerWork(workers[i := p]) + WorkerWork([workers[i]]) == WorkerWork(workers) + WorkerWork([p])
  {
    if i > 0 {
      assert workers[i := p][1..] == workers[1..][i - 1 := p];
      WorkerWorkUpdate(workers[1..], i - 1, p);
    } else {
      assert workers[0 := p][1..] == workers[1..];
    }
  }

  lemma InternalStepWorks(w: World, e: Event)
    requires Enabled(w, e) && Internal(e)
    ensures Work(Step(w, e)) < Work(w)
  {
    match e
    case StartUpReturn(c) => CallerWorkUpdate(w.callers, c, Idle);
    case JoinReturn(c) => CallerWorkUpdate(w.callers, c, Joined(w.callers[c].worker));
    case ShutDownExit(c) => CallerWorkUpdate(w.callers, c, Idle);
    case RunSetup(t) => WorkerWorkUpdate(w.workers, t, Looping(false));
    case LoopReturn(t) => WorkerWorkUpdate(w.workers, t, Leaving);
    case RunTeardown(t) => WorkerWorkUpdate(w.workers, t, Finished);
  }

  /** Once no new calls are made, every schedule of the remaining steps is finite, and where it can
      go no further every `StartUp` and `ShutDown` has returned. */
  lemma {:induction false} EveryCallReturns(w: World, events: seq<Event>)
    requires Inv(w) && ValidRun(w, events)
    requires forall i :: 0 <= i < |events| ==> Internal(events[i])
    ensures |events| <= Work(w)
    ensures (forall e :: Internal(e) ==> !Enabled(Final(w, events), e)) ==>
              forall c :: 0 <= c < |Final(w, events).callers| ==> Final(w, events).callers[c].Idle?
    decreases |events|
  {
    if events == [] {
      if c: nat :| c < |w.callers| && !w.callers[c].Idle? {
        var e := NoDeadlock(w, c);
      }
    } else {
      InternalStepWorks(w, events[0]);
      StepKeeps(w, events[0]);
      EveryCallReturns(Step(w, events[0]), events[1..]);
    }
  }

  // ----- what StartUp promises its caller

  predicate IsRunning(s: Shared) {
    s.threadId.Some?
  }

  /** The two worlds look the same to the callers: the same calls are in progress, the same shut-downs
      have claimed their threads, and the thread object is the same. */
  ghost predicate SameToCallers(w: World, v: World) {
    && v.callers == w.callers && v.joins == w.joins && |v.workers| == |w.workers|
    && v.shared.thread == w.shared.thread && v.shared.shuttingDown == w.shared.shuttingDown
  }

  /** Some run leads to the world. */
  ghost predicate Reachable(w: World) {
    exists events :: ValidRun(INITIAL, events) && Final(INITIAL, events) == w
  }

  lemma {:induction false} RunSnoc(w: World, events: seq<Event>, e: Event)
    ensures ValidRun(w, events + [e]) <==> ValidRun(w, events) && Enabled(Final(w, events), e)
    ensures ValidRun(w, events + [e]) ==> Final(w, events + [e]) == Step(Final(w, events), e)
    decreases |events|
  {
    if events == [] {
      assert events + [e] == [e] && [e][1..] == [];
    } else {
      assert (events + [e])[1..] == events[1..] + [e];
      if Enabled(w, events[0]) {
        RunSnoc(Step(w, events[0]), events[1..], e);
      }
    }
  }

  lemma ReachableStep(w: World, e: Event)
    requires Reachable(w) && Enabled(w, e)
    ensures Reachable(Step(w, e))
  {
    var events :| ValidRun(INITIAL, events) && Final(INITIAL, events) == w;
    RunSnoc(INITIAL, events, e);
  }

  lemma ReachableKeeps(w: World)
    requires Reachable(w)
    ensures Inv(w)
  {
    var events :| ValidRun(INITIAL, events) && Final(INITIAL, events) == w;
    RunKeeps(INITIAL, events);
  }

  /** The world with the current worker's set-up taken back. */
  function NotSetUp(w: World, t: WorkerId): World
    requires t < |w.workers|
  {
    w.(shared := SharedIn(Starting(t)), workers := w.workers[t := Created])
  }

  /** The worker is running, nobody shuts it down, and its creator has not returned yet. */
  ghost predicate JustSetUp(w: World, t: WorkerId) {
    w.shared.thread == Some(t) && t < |w.workers| && w.workers[t] == Looping(false) && CreatorWaits(w, t)
  }

  /** Taking the set-up back undoes the step that did it. */
  lemma SetUpUndone(w: World, t: WorkerId)
    requires Inv(w) && Enabled(w, RunSetup(t))
    ensures NotSetUp(Step(w, RunSetup(t)), t) == w
  {
    SharedIsPhase(w);
    StepFollowsLifeCycle(w, RunSetup(t));
    assert w.workers[t := Looping(false)][t := Created] == w.workers;
  }

  /** A world just set up was so one step earlier, unless that step was the set-up; and then the step
      was one of a caller that does not care about the set-up. */
  lemma JustSetUpBefore(w: World, e: Event, t: WorkerId)
    requires Inv(w) && Enabled(w, e) && JustSetUp(Step(w, e), t) && e != RunSetup(t)
    ensures JustSetUp(w, t)
    ensures e.NewCaller? || e.StartUpEnter? || (e.StartUpReturn? && w.callers[e.caller].worker != t)
  {
    var w' := Step(w, e);
    var c :| 0 <= c < |w'.callers| && w'.callers[c] == StartWaiting(t);
    StepFollowsLifeCycle(w, e);
    StepKeeps(w, e);
    SharedIsPhase(w);
    SharedIsPhase(w');
    assert PhaseOf(w') == Running(t) == PhaseOf(w);
    assert c < |w.callers| && w.callers[c] == StartWaiting(t);
  }

  /** Such a step can be taken before the set-up as well. */
  lemma SetUpCommutes(w: World, e: Event, t: WorkerId)
    requires Inv(w) && Enabled(w, e) && JustSetUp(w, t)
    requires e.NewCaller? || e.StartUpEnter? || (e.StartUpReturn? && w.callers[e.caller].worker != t)
    ensures Enabled(NotSetUp(w, t), e) && Step(NotSetUp(w, t), e) == NotSetUp(Step(w, e), t)
  {
  }

  /** If a world just set up is reached, so is the same world before the set-up. */
  lemma {:induction false} NotSetUpReachable(events: seq<Event>, t: WorkerId)
    requires ValidRun(INITIAL, events) && JustSetUp(Final(INITIAL, events), t)
    ensures Reachable(NotSetUp(Final(INITIAL, events), t))
    decreases |events|
  {
    var n := |events| - 1;
    var front, e := events[..n], events[n];
    assert events == front + [e];
    RunSnoc(INITIAL, front, e);
    var w := Final(INITIAL, front);
    RunKeeps(INITIAL, front);
    if e == RunSetup(t) {
      SetUpUndone(w, t);
      assert Reachable(w);
    } else {
      JustSetUpBefore(w, e, t);
      NotSetUpReachable(front, t);
      SetUpCommutes(w, e, t);
      ReachableStep(NotSetUp(w, t), e);
    }
  }

  /** A world like this in which the current worker has not set up its loop yet. */
  lemma NotSetUpYet(w: World, t: WorkerId) returns (v: World)
    requires Reachable(w) && w.shared.thread == Some(t) && !w.shared.shuttingDown && CreatorWaits(w, t)
    ensures Reachable(v) && SameToCallers(w, v) && !IsRunning(v.shared)
  {
    ReachableKeeps(w);
    SharedIsPhase(w);
    if w.workers[t].Created? {
      v := w;
    } else {
      var events :| ValidRun(INITIAL, events) && Final(INITIAL, events) == w;
      NotSetUpReachable(events, t);
      v := NotSetUp(w, t);
    }
  }

  /** A world like this, reached by steps of the worker alone, in which the worker that is shut down has
      torn down its loop. */
  lemma TornDownAlready(w: World, t: WorkerId) returns (v: World)
    requires Reachable(w) && w.shared.thread == Some(t) && w.shared.shuttingDown
    ensures Reachable(v) && SameToCallers(w, v) && !IsRunning(v.shared)
    ensures t < |v.workers| && v.workers[t].Finished?
    ensures forall u :: 0 <= u < |w.workers| && u != t ==> v.workers[u] == w.workers[u]
  {
    ReachableKeeps(w);
    SharedIsPhase(w);
    v := w;
    if v.workers[t].Looping? {
      ReachableStep(v, LoopReturn(t));
      v := Step(v, LoopReturn(t));
    }
    if v.workers[t].Leaving? {
      ReachableStep(v, RunTeardown(t));
      v := Step(v, RunTeardown(t));
    }
  }

  /** The exact condition for a `StartUp` that finds the thread object already there, as seen by the
      callers: in every world that can be reached and looks the same to them the thread is running when
      it returns, if and only if the `StartUp` that created the thread object is not waiting any more
      and no `ShutDown` is in progress. */
  lemma StartUpEarlyReturn(w: World, c: nat)
    requires Reachable(w) && Enabled(w, StartUpEnter(c)) && w.shared.thread.Some?
    ensures Step(w, StartUpEnter(c)) == w
    ensures (forall v :: Reachable(v) && SameToCallers(w, v) ==> IsRunning(v.shared)) <==>
            !CreatorWaits(w, w.shared.thread.value) && forall d :: 0 <= d < |w.callers| ==> !InJoin(w.callers[d])
  {
    var t := w.shared.thread.value;
    ReachableKeeps(w);
    if w.shared.shuttingDown {
      var v := TornDownAlready(w, t);
    } else if CreatorWaits(w, t) {
      var v := NotSetUpYet(w, t);
    } else {
      forall v | Reachable(v) && SameToCallers(w, v)
        ensures IsRunning(v.shared)
      {
        ReachableKeeps(v);
        RunsUnlessAwaited(v, t);
      }
    }
  }

  /** Nobody waits for the thread object to start or to end: its loop is running. */
  lemma RunsUnlessAwaited(w: World, t: WorkerId)
    requires Inv(w) && w.shared.thread == Some(t) && !w.shared.shuttingDown && !CreatorWaits(w, t)
    ensures w.workers[t] == Looping(false) && w.shared.threadId == Some(t)
  {
    assert 0 <= t < |w.workers|;
    assert !w.workers[t].Created?;
    assert !AskedToQuit(w.workers[t]);
  }

  /** The exact condition for a `StartUp` that created its thread: in every world that can be reached and
      looks the same to the callers the thread is running when it returns, if and only if no `ShutDown`
      has claimed it. */
  lemma StartUpReturnsRunning(w: World, c: nat)
    requires Reachable(w) && Enabled(w, StartUpReturn(c))
    ensures var t := w.callers[c].worker;
            (forall v :: Reachable(v) && SameToCallers(w, v) && Enabled(v, StartUpReturn(c)) ==> v.shared.threadId == Some(t))
            <==> t !in w.joins
  {
    var t := w.callers[c].worker;
    ReachableKeeps(w);
    if t !in w.joins {
      forall v | Reachable(v) && SameToCallers(w, v) && Enabled(v, StartUpReturn(c))
        ensures v.shared.threadId == Some(t)
      {
        ReachableKeeps(v);
        assert !AskedToQuit(v.workers[t]);
        assert v.workers[t].Looping?;
      }
    } else if w.shared.thread == Some(t) {
      assert AskedToQuit(w.workers[t]);
      var v := TornDownAlready(w, t);
      assert Enabled(v, StartUpReturn(c));
    } else {
      assert w.workers[t].Finished?;
      assert SameToCallers(w, w);
    }
  }

  /** Two callers are enough: the second `StartUp` returns while the thread is not running yet. */
  lemma StartUpMayReturnBeforeRunning()
    ensures var events := [NewCaller, NewCaller, StartUpEnter(0), StartUpEnter(1)];
            && ValidRun(INITIAL, events)
            && Final(INITIAL, events).callers[1].Idle?
            && !IsRunning(Final(INITIAL, events).shared)
  {
    var w2 := INITIAL.(callers := [Idle, Idle]);
    var w3 := Step(w2, StartUpEnter(0));
    assert Step(w3, StartUpEnter(1)) == w3;
    var events := [NewCaller, NewCaller, StartUpEnter(0), StartUpEnter(1)];
    assert Step(Step(INITIAL, NewCaller), NewCaller) == w2;
    assert events[1..][1..] == [StartUpEnter(0), StartUpEnter(1)];
    assert ValidRun(w3, [StartUpEnter(1)]) && Final(w3, [StartUpEnter(1)]) == w3;
    assert [StartUpEnter(0), StartUpEnter(1)][1..] == [StartUpEnter(1)];
    assert ValidRun(w2, events[1..][1..]) && Final(w2, events[1..][1..]) == w3;
  }
}
