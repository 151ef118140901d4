/** The background job queue (backend/internal/jobqueue/queue.go). */
module JobQueue {
  import opened Wrappers

  // `State` and `Do` describe the queue as a state machine; a step is one critical section of the queue's mutex or
  // one channel operation; shutdown empties the channel one receive at a time while it holds the mutex, and the worker,
  // whose receives take no mutex, may get ahead of it. The class `Queue` holds the source's fields and carries the
  // steps out in place.

  datatype JobType = SyncLibrary | MatchLibrary
  datatype Status = Pending | Running
  datatype Job = Job(kind: JobType, library: nat, status: Status)

  /** Where the worker goroutine stands. */
  datatype Worker = NotStarted | Idle | InHand(id: nat) | Executing(id: nat) | Exited

  datatype State = State(
    cap: nat,
    jobs: map<nat, Job>,
    pending: seq<nat>,
    started: bool,
    stopping: bool,
    draining: bool,
    lastId: nat,
    worker: Worker,
    doneCloses: nat,
    // histories
    firstId: nat,
    startedIds: seq<nat>,
    finished: set<nat>,
    discarded: set<nat>)

  datatype Action =
    | Start
    | Enqueue(kind: JobType, library: nat)
    | BeginShutdown
    | Drain
    | Receive
    | SeeStop
    | Claim
    | Finish

  datatype EnqueueError = ErrStopped | ErrActive | ErrFull

  predicate ActiveFor(jobs: map<nat, Job>, kind: JobType, library: nat) {
    exists id :: id in jobs && jobs[id].kind == kind && jobs[id].library == library
  }

  // ----- Steps

  /** While shutdown holds the mutex, only it and the channel operations of the worker go on. */
  predicate Enabled(s: State, a: Action) {
    match a
    case Receive => s.worker.Idle? && s.pending != []
    case SeeStop => s.worker.Idle? && s.stopping
    case Claim => !s.draining && s.worker.InHand? && (!s.stopping ==> s.worker.id in s.jobs)
    case Finish => !s.draining && s.worker.Executing?
    case Drain => s.draining
    case _ => !s.draining
  }

  function EnqueueOutcome(s: State, kind: JobType, library: nat): Result<nat, EnqueueError> {
    if s.stopping then Err(ErrStopped)
    else if ActiveFor(s.jobs, kind, library) then Err(ErrActive)
    else if |s.pending| >= s.cap then Err(ErrFull)
    else Ok(s.lastId + 1)
  }

  function RunningOnly(jobs: map<nat, Job>): map<nat, Job> {
    map id | id in jobs && jobs[id].status == Running :: jobs[id]
  }

  function Do(s: State, a: Action): State
    requires Enabled(s, a)
  {
    match a
    case Start =>
      if s.started || s.stopping then s else s.(started := true, worker := Idle)
    case Enqueue(kind, library) =>
      var r := EnqueueOutcome(s, kind, library);
      if r.Err? then s
      else
        s.(lastId := r.value, pending := s.pending + [r.value], jobs := s.jobs[r.value := Job(kind, library, Pending)])
    case BeginShutdown =>
      if s.stopping then s
      else
        s.(stopping := true, draining := true, doneCloses := if s.started then s.doneCloses else s.doneCloses + 1,
           jobs := RunningOnly(s.jobs))
    case Drain =>
      if s.pending == [] then s.(draining := false)
      else s.(pending := s.pending[1..], discarded := s.discarded + {s.pending[0]})
    case Receive => s.(worker := InHand(s.pending[0]), pending := s.pending[1..])
    case SeeStop => s.(worker := Exited, doneCloses := s.doneCloses + 1)
    case Claim =>
      var id := s.worker.id;
      if s.stopping then s.(worker := Idle, discarded := s.discarded + {id})
      else
        s.(worker := Executing(id), jobs := s.jobs[id := s.jobs[id].(status := Running)], startedIds := s.startedIds + [id])
    case Finish =>
      s.(worker := Idle, jobs := s.jobs - {s.worker.id}, finished := s.finished + {s.worker.id})
  }

  /** The channel emptied without interference. */
  function DrainAll(s: State): State
    decreases s.draining, |s.pending|
  {
    if s.draining then DrainAll(Do(s, Drain)) else s
  }

  predicate Init(s: State) {
    s.jobs == map[] && s.pending == [] && !s.started && !s.stopping && !s.draining && s.worker == NotStarted && s.doneCloses == 0 &&
    s.lastId == s.firstId && s.startedIds == [] && s.finished == {} && s.discarded == {}
  }

  // ----- The queue in place

  /** A method that takes the mutex waits until shutdown does not hold it, so it requires `!draining`. */
  class Queue {
    const cap: nat
    var jobs: map<nat, Job>
    var pending: seq<nat>
    var started: bool
    var stopping: bool
    var lastId: nat
    var worker: Worker
    var doneCloses: nat
    ghost var draining: bool
    ghost const firstId: nat
    ghost var startedIds: seq<nat>
    ghost var finished: set<nat>
    ghost var discarded: set<nat>

    ghost function Snapshot(): State
      reads this
    {
      State(cap, jobs, pending, started, stopping, draining, lastId, worker, doneCloses, firstId, startedIds, finished, discarded)
    }

    /** Numbering continues after the newest recorded job. */
    constructor (bufSize: nat, maxRecordID: nat)
      ensures Init(Snapshot()) && cap == bufSize && firstId == maxRecordID
    {
      cap, firstId := bufSize, maxRecordID;
      jobs, pending, started, stopping, lastId := map[], [], false, false, maxRecordID;
      worker, doneCloses := NotStarted, 0;
      draining, startedIds, finished, discarded := false, [], {}, {};
    }

    method Start()
      requires !draining
      modifies this
      ensures Snapshot() == Do(old(Snapshot()), Action.Start)
    {
      if started || stopping {
        return;
      }
      started, worker := true, Idle;
    }

    method IsActive(kind: JobType, library: nat) returns (b: bool)
      ensures b == ActiveFor(jobs, kind, library)
    {
      var rest := jobs.Keys;
      while rest != {}
        invariant rest <= jobs.Keys
        invariant forall id :: id in jobs.Keys - rest ==> !(jobs[id].kind == kind && jobs[id].library == library)
        decreases rest
      {
        var id := Pick(rest);
        if jobs[id].library == library && jobs[id].kind == kind { return true; }
        rest := rest - {id};
      }
      return false;
    }

    method Enqueue(kind: JobType, library: nat) returns (r: Result<nat, EnqueueError>)
      requires !draining
      modifies this
      ensures r == EnqueueOutcome(old(Snapshot()), kind, library)
      ensures Snapshot() == Do(old(Snapshot()), Action.Enqueue(kind, library))
      ensures r.Ok? <==>
                !old(stopping) && |old(pending)| < cap &&
                forall id :: id in old(jobs) ==> old(jobs)[id].kind != kind || old(jobs)[id].library != library
      ensures r.Ok? ==>
                r.value == lastId == old(lastId) + 1 && pending == old(pending) + [r.value] &&
                jobs == old(jobs)[r.value := Job(kind, library, Pending)]
      ensures r.Err? ==> jobs == old(jobs) && pending == old(pending) && lastId == old(lastId)
      ensures r == Err(ErrStopped) <==> old(stopping)
      ensures r == Err(ErrActive) <==>
                !old(stopping) && exists id :: id in old(jobs) && old(jobs)[id].kind == kind && old(jobs)[id].library == library
    {
      if stopping {
        return Err(ErrStopped);
      }
      var active := IsActive(kind, library);
      if active {
        return Err(ErrActive);
      }
      if |pending| < cap {
        pending := pending + [lastId + 1];
        lastId := lastId + 1;
        jobs := jobs[lastId := Job(kind, library, Pending)];
        return Ok(lastId);
      } else {
        return Err(ErrFull);
      }
    }

    method DropPendingJobs()
      modifies this`jobs
      ensures jobs == RunningOnly(old(jobs))
    {
      var rest := jobs.Keys;
      while rest != {}
        invariant rest <= old(jobs).Keys
        invariant jobs == map id | id in old(jobs) && (id in rest || old(jobs)[id].status == Running) :: old(jobs)[id]
        decreases rest
      {
        var id := Pick(rest);
        if jobs[id].status == Pending {
          jobs := jobs - {id};
        }
        rest := rest - {id};
      }
    }

    /** The first half of shutdown: no more admission, and no waiting job is active any more. */
    method CloseAdmission()
      requires !draining
      modifies this
      ensures Snapshot() == Do(old(Snapshot()), Action.BeginShutdown)
    {
      if stopping {
        return;
      }
      stopping, draining := true, true;
      if !started {
        doneCloses := doneCloses + 1;
      }
      DropPendingJobs();
    }

    /** One turn of the second half: takes a job off the channel, or finds none and releases the mutex. */
    method DrainOne()
      requires draining
      modifies this`pending, this`draining, this`discarded
      ensures Snapshot() == Do(old(Snapshot()), Action.Drain)
    {
      if pending == [] {
        draining := false;
        return;
      }
      pending, discarded := pending[1..], discarded + {pending[0]};
    }

    method BeginShutdown()
      requires !draining
      modifies this
      ensures Snapshot() == DrainAll(Do(old(Snapshot()), Action.BeginShutdown))
    {
      if stopping {
        return;
      }
      CloseAdmission();
      ghost var closed := Snapshot();
      while pending != []
        invariant draining && DrainAll(Snapshot()) == DrainAll(closed)
        decreases |pending|
      {
        DrainOne();
      }
      DrainOne();
    }

    method Receive()
      requires Enabled(Snapshot(), Action.Receive)
      modifies this
      ensures Snapshot() == Do(old(Snapshot()), Action.Receive)
    {
      worker, pending := InHand(pending[0]), pending[1..];
    }

    method SeeStop()
      requires Enabled(Snapshot(), Action.SeeStop)
      modifies this
      ensures Snapshot() == Do(old(Snapshot()), Action.SeeStop)
    {
      worker, doneCloses := Exited, doneCloses + 1;
    }

    /** The job in hand runs unless shutdown took the mutex first. */
    method Claim()
      requires Enabled(Snapshot(), Action.Claim)
      modifies this
      ensures Snapshot() == Do(old(Snapshot()), Action.Claim)
    {
      var id := worker.id;
      if stopping {
        worker, discarded := Idle, discarded + {id};
        return;
      }
      jobs := jobs[id := jobs[id].(status := Running)];
      worker, startedIds := Executing(id), startedIds + [id];
    }

    method FinishJob()
      requires Enabled(Snapshot(), Action.Finish)
      modifies this
      ensures Snapshot() == Do(old(Snapshot()), Action.Finish)
    {
      jobs, finished := jobs - {worker.id}, finished + {worker.id};
      worker := Idle;
    }
  }

  // ----- The invariant

  function Waiting(s: State): set<nat> { set id | id in s.pending }

  function Hand(s: State): set<nat> { if s.worker.InHand? then {s.worker.id} else {} }

  function Executed(s: State): set<nat> { if s.worker.Executing? then {s.worker.id} else {} }

  predicate Increasing(ids: seq<nat>) {
    forall i, j :: 0 <= i < j < |ids| ==> ids[i] < ids[j]
  }

  /** The active jobs are those waiting, in hand or executing; shutdown keeps only the executing one. */
  predicate JobsInv(s: State) {
    s.jobs.Keys == (if s.stopping then Executed(s) else Waiting(s) + Hand(s) + Executed(s)) &&
    (forall id :: id in s.jobs ==> (s.jobs[id].status == Running <==> id in Executed(s))) &&
    |s.pending| <= s.cap
  }

  predicate DistinctInv(s: State) {
    (forall i, j :: i in s.jobs && j in s.jobs && i != j ==>
       s.jobs[i].kind != s.jobs[j].kind || s.jobs[i].library != s.jobs[j].library)
  }

  /** Identifiers travel in order from the channel through the worker. */
  predicate OrderInv(s: State) {
    s.firstId <= s.lastId && Increasing(s.pending) && Increasing(s.startedIds) &&
    (forall id :: id in s.pending ==> s.firstId < id <= s.lastId) &&
    (forall id :: id in s.startedIds ==> s.firstId < id <= s.lastId) &&
    (forall i, j :: i in s.startedIds && j in s.pending ==> i < j) &&
    (s.worker.Executing? ==> s.firstId < s.worker.id <= s.lastId) &&
    (s.worker.InHand? ==>
       s.firstId < s.worker.id <= s.lastId && (forall i :: i in s.startedIds ==> i < s.worker.id) &&
       forall j :: j in s.pending ==> s.worker.id < j)
  }

  predicate WorkerInv(s: State) {
    (s.worker.NotStarted? <==> !s.started) && (s.worker.Exited? ==> s.stopping) &&
    s.doneCloses == (if s.worker.Exited? || (s.stopping && !s.started) then 1 else 0) &&
    (s.draining ==> s.stopping) && (s.stopping && !s.draining ==> s.pending == [])
  }

  /** Every admitted job is in some place, and the started ones are executing or finished. */
  ghost predicate PlacesInv(s: State) {
    (forall id: nat :: id in AllPlaces(s) <==> s.firstId < id <= s.lastId) &&
    forall id: nat :: id in s.startedIds <==> id in Executed(s) + s.finished
  }

  function AllPlaces(s: State): set<nat> {
    Waiting(s) + Hand(s) + Executed(s) + s.finished + s.discarded
  }

  /** No job is in two places. */
  predicate ApartInv(s: State) {
    Waiting(s) !! Hand(s) !! Executed(s) !! s.finished !! s.discarded
  }

  ghost predicate Inv(s: State) {
    JobsInv(s) && DistinctInv(s) && OrderInv(s) && WorkerInv(s) && PlacesInv(s) && ApartInv(s)
  }

  lemma InitInv(s: State)
    requires Init(s)
    ensures Inv(s)
  {
  }

  lemma DistinctStep(s: State, a: Action)
    requires Inv(s) && Enabled(s, a)
    ensures DistinctInv(Do(s, a))
  {
    hide Increasing, PlacesInv, OrderInv, ApartInv;
  }

  lemma HeadAndTail(ids: seq<nat>)
    requires ids != []
    ensures (set id | id in ids) == {ids[0]} + set id | id in ids[1..]
    ensures forall id :: id in ids <==> id == ids[0] || id in ids[1..]
    ensures Increasing(ids) ==> Increasing(ids[1..]) && forall id :: id in ids[1..] ==> ids[0] < id
  {
    assert ids == [ids[0]] + ids[1..];
  }

  lemma OrderStep(s: State, a: Action)
    requires OrderInv(s) && Enabled(s, a)
    ensures OrderInv(Do(s, a))
  {
    match a {
      case Receive => HeadAndTail(s.pending);
      case Drain => if s.pending != [] { HeadAndTail(s.pending); }
      case Enqueue(kind, library) => AdmissionOrder(s, kind, library);
      case Claim => ClaimOrder(s);
      case _ =>
    }
    hide Increasing, ActiveFor, RunningOnly;
  }

  lemma AdmissionOrder(s: State, kind: JobType, library: nat)
    requires OrderInv(s) && Enabled(s, Action.Enqueue(kind, library))
    ensures OrderInv(Do(s, Action.Enqueue(kind, library)))
  {
    hide ActiveFor;
    assert forall k :: 0 <= k < |s.pending| ==> s.pending[k] in s.pending;
    assert forall k :: k in s.startedIds ==> k < s.lastId + 1;
  }

  lemma ClaimOrder(s: State)
    requires OrderInv(s) && Enabled(s, Claim)
    ensures OrderInv(Do(s, Claim))
  {
    assert forall k :: 0 <= k < |s.startedIds| ==> s.startedIds[k] in s.startedIds;
  }

  lemma JobsStep(s: State, a: Action)
    requires JobsInv(s) && WorkerInv(s) && ApartInv(s) && OrderInv(s) && Enabled(s, a)
    ensures JobsInv(Do(s, a))
  {
    hide ActiveFor, Increasing;
    match a {
      case Receive => HeadAndTail(s.pending);
      case Drain => if s.pending != [] { HeadAndTail(s.pending); }
      case Enqueue(kind, library) => AdmissionJobs(s, kind, library);
      case Finish => assert s.worker.id !in Waiting(s);
      case _ =>
    }
    hide ApartInv, OrderInv;
  }

  lemma AdmissionJobs(s: State, kind: JobType, library: nat)
    requires JobsInv(s) && WorkerInv(s) && Enabled(s, Action.Enqueue(kind, library))
    requires forall id :: id in Executed(s) ==> id <= s.lastId
    ensures JobsInv(Do(s, Action.Enqueue(kind, library)))
  {
    hide ActiveFor, RunningOnly;
    assert Waiting(Do(s, Action.Enqueue(kind, library))) ==
           if EnqueueOutcome(s, kind, library).Ok? then Waiting(s) + {s.lastId + 1} else Waiting(s);
  }

  lemma WorkerStep(s: State, a: Action)
    requires Inv(s) && Enabled(s, a)
    ensures WorkerInv(Do(s, a))
  {
    hide PlacesInv, OrderInv;
  }

  /** Only admission adds to the places; every other step moves a job from one to another. */
  lemma PlacesMove(s: State, a: Action)
    requires Enabled(s, a) && (s.worker.NotStarted? <==> !s.started)
    ensures AllPlaces(Do(s, a)) ==
              AllPlaces(s) + if a.Enqueue? && EnqueueOutcome(s, a.kind, a.library).Ok? then {s.lastId + 1} else {}
  {
    hide ActiveFor, RunningOnly;
    match a {
      case Receive => HeadMoves(s, a);
      case Drain => if s.pending != [] { HeadMoves(s, a); }
      case _ =>
    }
  }

  lemma HeadMoves(s: State, a: Action)
    requires Enabled(s, a) && (a.Receive? || a.Drain?) && s.pending != []
    ensures AllPlaces(Do(s, a)) == AllPlaces(s)
  {
    HeadAndTail(s.pending);
    assert Waiting(s) == Waiting(Do(s, a)) + {s.pending[0]};
  }

  lemma StartedMove(s: State, a: Action)
    requires Enabled(s, a) && forall id: nat :: id in s.startedIds <==> id in Executed(s) + s.finished
    requires s.worker.NotStarted? <==> !s.started
    ensures forall id: nat :: id in Do(s, a).startedIds <==> id in Executed(Do(s, a)) + Do(s, a).finished
  {
    hide ActiveFor;
  }

  lemma PlacesStep(s: State, a: Action)
    requires Inv(s) && Enabled(s, a)
    ensures PlacesInv(Do(s, a))
  {
    PlacesMove(s, a);
    StartedMove(s, a);
    hide AllPlaces, Waiting, Hand, Executed, ActiveFor, Increasing;
  }

  lemma ApartStep(s: State, a: Action)
    requires Inv(s) && Enabled(s, a)
    ensures ApartInv(Do(s, a))
  {
    hide JobsInv, DistinctInv;
    match a {
      case Receive =>
        hide OrderInv, PlacesInv;
        HeadAndTail(s.pending);
        assert forall id :: id in s.pending[1..] ==> id in Waiting(s);
        assert s.pending[0] in Waiting(s);
        assert s.pending[0] !in s.pending[1..];
      case Drain =>
        hide PlacesInv;
        if s.pending != [] { HeadAndTail(s.pending); }
      case Enqueue(_, _) => NewIdIsApart(s);
      case _ => hide OrderInv, PlacesInv;
    }
  }

  lemma NewIdIsApart(s: State)
    requires PlacesInv(s)
    ensures var id := s.lastId + 1;
            id !in Waiting(s) && id !in Hand(s) && id !in Executed(s) && id !in s.finished && id !in s.discarded
  {
    assert s.lastId + 1 !in AllPlaces(s);
  }

  lemma StepInv(s: State, a: Action)
    requires Inv(s) && Enabled(s, a)
    ensures Inv(Do(s, a))
  {
    DistinctStep(s, a);
    JobsStep(s, a);
    OrderStep(s, a);
    WorkerStep(s, a);
    PlacesStep(s, a);
    ApartStep(s, a);
    hide Do, Enabled, JobsInv, DistinctInv, OrderInv, WorkerInv, PlacesInv, ApartInv;
  }

  ghost predicate Run(states: seq<State>, actions: seq<Action>) {
    |states| == |actions| + 1 && Init(states[0]) &&
    forall k :: 0 <= k < |actions| ==> Enabled(states[k], actions[k]) && states[k + 1] == Do(states[k], actions[k])
  }

  /** The invariant holds in every state of every run. */
  lemma {:induction false} RunInv(states: seq<State>, actions: seq<Action>, k: nat)
    requires Run(states, actions) && k < |states|
    ensures Inv(states[k])
  {
    if k == 0 {
      InitInv(states[0]);
    } else {
      RunInv(states, actions, k - 1);
      hide Inv, Do;
      StepInv(states[k - 1], actions[k - 1]);
    }
  }

  // ----- What every run guarantees

  /** At most one active job per library and kind, and at most one of them running. */
  lemma OneActiveJob(states: seq<State>, actions: seq<Action>, k: nat, i: nat, j: nat)
    requires Run(states, actions) && k < |states| && i in states[k].jobs && j in states[k].jobs && i != j
    ensures var x, y := states[k].jobs[i], states[k].jobs[j];
            (x.kind != y.kind || x.library != y.library) && !(x.status == Running && y.status == Running)
  {
    RunInv(states, actions, k);
  }

  /** Jobs start in strictly increasing order of identifier, and a later state only extends the order. */
  lemma {:induction false} StartsInOrder(states: seq<State>, actions: seq<Action>, j: nat, k: nat)
    requires Run(states, actions) && j <= k < |states|
    ensures Increasing(states[k].startedIds) && states[j].startedIds <= states[k].startedIds
    decreases k - j
  {
    RunInv(states, actions, k);
    if j < k { StartsInOrder(states, actions, j, k - 1); }
  }

  /** Once shutdown has begun, nothing is admitted and nothing starts. */
  lemma {:induction false} NoStartAfterShutdown(states: seq<State>, actions: seq<Action>, j: nat, k: nat)
    requires Run(states, actions) && j <= k < |states| && states[j].stopping
    ensures states[k].stopping && states[k].startedIds == states[j].startedIds && states[k].lastId == states[j].lastId
    decreases k - j
  {
    if j < k { NoStartAfterShutdown(states, actions, j, k - 1); }
  }

  function Count(b: bool): nat { if b then 1 else 0 }

  /** Every admitted job is exactly one of waiting, in hand, executing, finished or discarded; nothing else is any of these. */
  lemma ExactlyOnePlace(states: seq<State>, actions: seq<Action>, k: nat, id: nat)
    requires Run(states, actions) && k < |states|
    ensures var s := states[k];
            Count(id in s.pending) + Count(s.worker == InHand(id)) + Count(s.worker == Executing(id)) +
            Count(id in s.finished) + Count(id in s.discarded) == Count(s.firstId < id <= s.lastId)
  {
    RunInv(states, actions, k);
    var s := states[k];
    assert id in Waiting(s) <==> id in s.pending;
    assert id in AllPlaces(s) <==> s.firstId < id <= s.lastId;
  }

  predicate WorkerAction(a: Action) {
    a.Receive? || a.SeeStop? || a.Claim? || a.Finish?
  }

  // ----- What a request leads to

  /** A job is admitted exactly when the queue is open, the channel has room, and no active job of the library is of its kind;
      the first of these that fails is the refusal. */
  lemma AdmittedExactly(s: State, kind: JobType, library: nat)
    requires Enabled(s, Action.Enqueue(kind, library)) && s.lastId + 1 !in s.jobs
    ensures var t, id := Do(s, Action.Enqueue(kind, library)), s.lastId + 1;
            t.pending == s.pending + [id] && id in t.jobs && t.jobs[id].kind == kind && t.jobs[id].library == library <==>
            !s.stopping && |s.pending| < s.cap && forall i :: i in s.jobs ==> s.jobs[i].kind != kind || s.jobs[i].library != library
    ensures EnqueueOutcome(s, kind, library) ==
              if s.stopping then Err(ErrStopped)
              else if exists i :: i in s.jobs && s.jobs[i].kind == kind && s.jobs[i].library == library then Err(ErrActive)
              else if |s.pending| >= s.cap then Err(ErrFull)
              else Ok(s.lastId + 1)
    ensures EnqueueOutcome(s, kind, library).Err? ==> Do(s, Action.Enqueue(kind, library)) == s
  {
  }

  /** What the other steps do, field by field. */
  lemma StepOutcome(s: State, a: Action)
    requires Inv(s) && Enabled(s, a)
    ensures var t := Do(s, a);
            match a
            case Start => t.started <==> s.started || !s.stopping
            case Enqueue(_, _) => t.worker == s.worker && t.stopping == s.stopping
            case BeginShutdown => t.stopping && forall id :: id in t.jobs <==> id in s.jobs && s.worker == Executing(id)
            case Drain => s.pending == [] ==> !t.draining
            case Receive => t.worker == InHand(s.pending[0]) && t.jobs == s.jobs
            case SeeStop => t.worker.Exited?
            case Claim =>
              if s.stopping then t.worker.Idle? && t.startedIds == s.startedIds
              else
                t.worker == Executing(s.worker.id) && t.startedIds == s.startedIds + [s.worker.id] &&
                t.jobs.Keys == s.jobs.Keys && t.jobs[s.worker.id].status.Running?
            case Finish => t.worker.Idle? && s.worker.id !in t.jobs && s.worker.id in t.finished
  {
    hide OrderInv, PlacesInv, ApartInv, DistinctInv;
  }

  /** Before shutdown no admitted job is thrown away: each waits, is in hand, executes or has finished. */
  lemma {:induction false} NothingDiscarded(states: seq<State>, actions: seq<Action>, k: nat)
    requires Run(states, actions) && k < |states| && !states[k].stopping
    ensures states[k].discarded == {}
  {
    RunInv(states, actions, k);
    if k > 0 {
      RunInv(states, actions, k - 1);
      NothingDiscarded(states, actions, k - 1);
    }
    hide OrderInv, PlacesInv, ApartInv, DistinctInv, JobsInv;
  }

  /** Worker steps until every admitted job has finished. */
  function JobsLeft(s: State): nat {
    3 * |s.pending| + match s.worker case InHand(_) => 2 case Executing(_) => 1 case _ => 0
  }

  /** While the queue is open, each worker step brings the admitted jobs one step closer to their end, one can always be taken
      while something is left, and when nothing is left all of them have finished. */
  lemma JobsGetDone(s: State, a: Action)
    requires Inv(s) && s.started && !s.stopping && s.discarded == {}
    ensures Enabled(s, a) && WorkerAction(a) ==> JobsLeft(Do(s, a)) == JobsLeft(s) - 1 && !Do(s, a).stopping
    ensures JobsLeft(s) > 0 ==> exists b :: WorkerAction(b) && Enabled(s, b)
    ensures JobsLeft(s) == 0 ==> forall id: nat :: s.firstId < id <= s.lastId ==> id in s.finished
  {
    var b := if s.worker.InHand? then Claim else if s.worker.Executing? then Finish else Receive;
    assert JobsLeft(s) > 0 ==> WorkerAction(b) && Enabled(s, b);
    if JobsLeft(s) == 0 {
      forall id: nat | s.firstId < id <= s.lastId ensures id in s.finished { assert id in AllPlaces(s); }
    }
    hide OrderInv, DistinctInv;
  }

  lemma JobsStepDown(s: State, a: Action)
    requires Inv(s) && Enabled(s, a) && s.started && s.discarded == {} && !Do(s, a).stopping && !a.Enqueue?
    ensures !s.stopping && Do(s, a).started && Count(WorkerAction(a)) + JobsLeft(Do(s, a)) == JobsLeft(s)
  {
    hide OrderInv, DistinctInv, PlacesInv, ApartInv;
  }

  lemma {:induction false} JobsGoDown(states: seq<State>, actions: seq<Action>, j: nat, k: nat)
    requires Run(states, actions) && j <= k < |states| && states[j].started && !states[k].stopping
    requires forall i :: j <= i < k ==> !actions[i].Enqueue?
    ensures WorkerActions(actions, j, k) + JobsLeft(states[k]) == JobsLeft(states[j]) && states[k].started
    decreases k - j
  {
    hide Inv, Do, Enabled, JobsLeft, WorkerAction;
    if j < k {
      StillOpen(states, actions, k);
      JobsGoDown(states, actions, j, k - 1);
      JobsStepDown(states[k - 1], actions[k - 1]);
    }
  }

  lemma StillOpen(states: seq<State>, actions: seq<Action>, k: nat)
    requires Run(states, actions) && 0 < k < |states| && !states[k].stopping
    ensures Inv(states[k - 1]) && !states[k - 1].stopping && states[k - 1].discarded == {}
    ensures Enabled(states[k - 1], actions[k - 1]) && states[k] == Do(states[k - 1], actions[k - 1])
  {
    RunInv(states, actions, k - 1);
    if states[k - 1].stopping { NoStartAfterShutdown(states, actions, k - 1, k); }
    NothingDiscarded(states, actions, k - 1);
    hide Inv;
  }

  /** A run in which nobody asks for more: the worker takes the steps the jobs need, and then all of them have finished. */
  lemma JobsFinish(states: seq<State>, actions: seq<Action>, j: nat, k: nat)
    requires Run(states, actions) && j <= k < |states| && states[j].started && !states[k].stopping
    requires forall i :: j <= i < k ==> !actions[i].Enqueue?
    ensures WorkerActions(actions, j, k) <= JobsLeft(states[j])
    ensures WorkerActions(actions, j, k) == JobsLeft(states[j]) ==>
              forall id: nat :: states[k].firstId < id <= states[k].lastId ==> id in states[k].finished
  {
    JobsGoDown(states, actions, j, k);
    RunInv(states, actions, k);
    NothingDiscarded(states, actions, k);
    hide Inv, Do, Enabled, JobsLeft, Run;
    JobsGetDone(states[k], Receive);
  }

  // ----- The worker comes to an end

  /** Worker steps left after shutdown has begun: an idle worker may get ahead of the drain once. */
  function StepsToExit(s: State): nat {
    match s.worker
    case InHand(_) => 2
    case Executing(_) => 2
    case Idle => if s.draining && s.pending != [] then 3 else 1
    case _ => 0
  }

  function WorkerActions(actions: seq<Action>, from: nat, to: nat): nat
    requires from <= to <= |actions|
  {
    if from == to then 0 else WorkerActions(actions, from, to - 1) + Count(WorkerAction(actions[to - 1]))
  }

  /**
   From the start of shutdown the worker takes at most three more steps, from the end of the drain exactly one or two; when
   none is left it has exited.
   */
  lemma {:induction false} WorkerExitsSoon(states: seq<State>, actions: seq<Action>, j: nat, k: nat)
    requires Run(states, actions) && j <= k < |states| && states[j].stopping
    ensures WorkerActions(actions, j, k) + StepsToExit(states[k]) <= StepsToExit(states[j]) <= 3
    ensures !states[j].draining ==> WorkerActions(actions, j, k) + StepsToExit(states[k]) == StepsToExit(states[j]) <= 2
    ensures !states[j].draining ==> !states[k].draining
    ensures StepsToExit(states[k]) == 0 <==> states[k].worker.Exited? || states[k].worker.NotStarted?
    decreases k - j
  {
    RunInv(states, actions, j);
    if j < k {
      WorkerExitsSoon(states, actions, j, k - 1);
      NoStartAfterShutdown(states, actions, j, k - 1);
      RunInv(states, actions, k - 1);
      ExitStep(states[k - 1], actions[k - 1]);
      hide Inv, Do, Enabled, StepsToExit, Run;
    }
  }

  lemma ExitStep(s: State, a: Action)
    requires Inv(s) && Enabled(s, a) && s.stopping
    ensures Count(WorkerAction(a)) + StepsToExit(Do(s, a)) <= StepsToExit(s)
    ensures !s.draining ==> Count(WorkerAction(a)) + StepsToExit(Do(s, a)) == StepsToExit(s) && !Do(s, a).draining
    ensures StepsToExit(Do(s, a)) == 0 <==> Do(s, a).worker.Exited? || Do(s, a).worker.NotStarted?
  {
  }

  /** What drain and worker still have to do after shutdown has begun. */
  function ShutdownLeft(s: State): nat {
    StepsToExit(s) + if s.draining then |s.pending| + 1 else 0
  }

  /** Each step of the drain or the worker lowers what is left, nobody else raises it, and while something is left one of
      them can go on: so shutdown comes to its end. */
  lemma ShutdownEnds(s: State, a: Action)
    requires Inv(s) && s.stopping && Enabled(s, a)
    ensures WorkerAction(a) || a.Drain? ==> ShutdownLeft(Do(s, a)) < ShutdownLeft(s)
    ensures !(WorkerAction(a) || a.Drain?) ==> Do(s, a) == s
    ensures ShutdownLeft(s) > 0 ==> exists b :: (WorkerAction(b) || b.Drain?) && Enabled(s, b)
    ensures ShutdownLeft(s) == 0 ==> s.doneCloses == 1 && s.jobs == map[] && s.pending == []
  {
    var b := if s.draining then Drain else if s.worker.InHand? then Claim else if s.worker.Executing? then Finish else SeeStop;
    assert ShutdownLeft(s) > 0 ==> (WorkerAction(b) || b.Drain?) && Enabled(s, b);
    assert s.jobs.Keys == {} ==> s.jobs == map[];
  }

  /** The done channel is closed at most once, exactly when no worker is left after shutdown; then no job is active. */
  lemma DoneClosedOnce(states: seq<State>, actions: seq<Action>, k: nat)
    requires Run(states, actions) && k < |states|
    ensures var s := states[k];
            s.doneCloses <= 1 &&
            (s.doneCloses == 1 <==> s.stopping && (s.worker.Exited? || s.worker.NotStarted?)) &&
            (s.doneCloses == 1 ==> s.jobs == map[] && (s.draining || s.pending == []))
  {
    RunInv(states, actions, k);
    var s := states[k];
    assert s.jobs.Keys == {} ==> s.jobs == map[];
  }
}
