/**
 Coalescing library changes into one media-server scan (scheduleRefresh in backend/internal/mediarefresh/service.go). A timer
 that has fired still has to take the lock; a newer change may get there first.
 */
module ScanDebounce {
  /** `timers` is the pending timer of each library; `armed` timers still run, `fired` ones wait for the lock. */
  datatype State = State(
    timers: map<nat, nat>,
    armed: map<nat, nat>,
    fired: map<nat, nat>,
    next: nat,
    // histories: the newest change of each library, and the timers whose scans ran
    latest: map<nat, nat>,
    scans: seq<(nat, nat)>)

  datatype Action =
    | Schedule(library: nat, enabled: bool)
    | Fire(timer: nat)
    | Callback(timer: nat)

  predicate Enabled(s: State, a: Action) {
    match a
    case Schedule(_, _) => true
    case Fire(timer) => timer in s.armed
    case Callback(timer) => timer in s.fired
  }

  /** Stopping a timer keeps it from firing, but cannot call back one that has fired. */
  function Do(s: State, a: Action): State
    requires Enabled(s, a)
  {
    match a
    case Schedule(library, enabled) =>
      if library == 0 || !enabled then s
      else
        var armed := if library in s.timers then s.armed - {s.timers[library]} else s.armed;
        s.(timers := s.timers[library := s.next], armed := armed[s.next := library], next := s.next + 1,
           latest := s.latest[library := s.next])
    case Fire(timer) => s.(armed := s.armed - {timer}, fired := s.fired[timer := s.armed[timer]])
    case Callback(timer) =>
      var library, s0 := s.fired[timer], s.(fired := s.fired - {timer});
      if !(library in s.timers && s.timers[library] == timer) then s0
      else s0.(timers := s.timers - {library}, scans := s.scans + [(library, timer)])
  }

  predicate Init(s: State) {
    s.timers == map[] && s.armed == map[] && s.fired == map[] && s.latest == map[] && s.scans == []
  }

  // ----- The service in place

  class Service {
    var timers: map<nat, nat>
    var armed: map<nat, nat>
    var fired: map<nat, nat>
    var next: nat
    ghost var latest: map<nat, nat>
    var scans: seq<(nat, nat)>

    ghost function Snapshot(): State
      reads this
    {
      State(timers, armed, fired, next, latest, scans)
    }

    constructor ()
      ensures Init(Snapshot())
    {
      timers, armed, fired, next, latest, scans := map[], map[], map[], 0, map[], [];
    }

    method ScheduleRefresh(library: nat, enabled: bool)
      modifies this
      ensures Snapshot() == Do(old(Snapshot()), Schedule(library, enabled))
    {
      if library == 0 || !enabled { return; }
      if library in timers { armed := armed - {timers[library]}; }
      var t := next;
      armed, next := armed[t := library], next + 1;
      timers, latest := timers[library := t], latest[library := t];
    }

    method FireTimer(timer: nat)
      requires Enabled(Snapshot(), Fire(timer))
      modifies this
      ensures Snapshot() == Do(old(Snapshot()), Fire(timer))
    {
      fired := fired[timer := armed[timer]];
      armed := armed - {timer};
    }

    /** The timer's function, from taking the lock on. */
    method RunCallback(timer: nat)
      requires Enabled(Snapshot(), Callback(timer))
      modifies this
      ensures Snapshot() == Do(old(Snapshot()), Callback(timer))
    {
      var library := fired[timer];
      fired := fired - {timer};
      if library !in timers || timers[library] != timer { return; }
      timers := timers - {library};
      scans := scans + [(library, timer)];
    }
  }

  // ----- The invariant

  /** The pending timer of a library is its newest change, and it is still armed or has fired. */
  predicate PendingInv(s: State) {
    forall l :: l in s.timers ==>
      l in s.latest && s.latest[l] == s.timers[l] &&
      ((s.timers[l] in s.armed && s.armed[s.timers[l]] == l) || (s.timers[l] in s.fired && s.fired[s.timers[l]] == l))
  }

  predicate TimerInv(s: State) {
    (forall t :: t in s.armed ==> t < s.next && t !in s.fired && s.armed[t] in s.timers && s.timers[s.armed[t]] == t) &&
    (forall t :: t in s.fired ==> t < s.next && s.fired[t] in s.latest && t <= s.latest[s.fired[t]]) &&
    forall l :: l in s.latest ==> s.latest[l] < s.next
  }

  /** Every newest change is pending or has been scanned for. */
  predicate NotLost(s: State) {
    forall l :: l in s.latest ==> (l in s.timers && s.timers[l] == s.latest[l]) || (l !in s.timers && (l, s.latest[l]) in s.scans)
  }

  /** A library's scans are for later and later changes. */
  predicate ScansInv(s: State) {
    (forall i :: 0 <= i < |s.scans| ==>
       s.scans[i].0 in s.latest && s.scans[i].1 <= s.latest[s.scans[i].0] &&
       s.scans[i].1 !in s.armed && s.scans[i].1 !in s.fired &&
       (s.scans[i].0 in s.timers ==> s.scans[i].1 < s.timers[s.scans[i].0])) &&
    forall i, j :: 0 <= i < j < |s.scans| && s.scans[i].0 == s.scans[j].0 ==> s.scans[i].1 < s.scans[j].1
  }

  predicate Inv(s: State) { PendingInv(s) && TimerInv(s) && NotLost(s) && ScansInv(s) }

  lemma PendingStep(s: State, a: Action)
    requires Inv(s) && Enabled(s, a)
    ensures PendingInv(Do(s, a))
  {
    hide ScansInv, NotLost;
  }

  lemma TimerStep(s: State, a: Action)
    requires Inv(s) && Enabled(s, a)
    ensures TimerInv(Do(s, a))
  {
    hide ScansInv, NotLost;
  }

  lemma StepInv(s: State, a: Action)
    requires Inv(s) && Enabled(s, a)
    ensures Inv(Do(s, a))
  {
    hide Do, Enabled, PendingInv, TimerInv, NotLost, ScansInv;
    PendingStep(s, a);
    TimerStep(s, a);
    NotLostStep(s, a);
    ScansStep(s, a);
  }

  lemma NotLostStep(s: State, a: Action)
    requires PendingInv(s) && NotLost(s) && Enabled(s, a)
    ensures NotLost(Do(s, a))
  {
    PendingMeans(s);
    hide PendingInv;
  }

  lemma ScansStep(s: State, a: Action)
    requires Inv(s) && Enabled(s, a)
    ensures ScansInv(Do(s, a))
  {
    PendingMeans(s);
    hide PendingInv, NotLost;
  }

  lemma PendingMeans(s: State)
    requires PendingInv(s)
    ensures forall l :: l in s.timers ==> l in s.latest && s.latest[l] == s.timers[l]
  {
  }

  ghost predicate Run(states: seq<State>, actions: seq<Action>) {
    |states| == |actions| + 1 && Init(states[0]) &&
    forall k :: 0 <= k < |actions| ==> Enabled(states[k], actions[k]) && states[k + 1] == Do(states[k], actions[k])
  }

  lemma {:induction false} RunInv(states: seq<State>, actions: seq<Action>, k: nat)
    requires Run(states, actions) && k < |states|
    ensures Inv(states[k])
  {
    if k > 0 {
      RunInv(states, actions, k - 1);
      hide Inv, Do, Enabled;
      StepInv(states[k - 1], actions[k - 1]);
    }
  }

  // ----- What each step does

  /** A change of a library with a media server starts a new timer and stops the pending one. */
  lemma ScheduleOutcome(s: State, library: nat, enabled: bool)
    requires TimerInv(s)
    ensures var t := Do(s, Schedule(library, enabled));
            if library == 0 || !enabled then t == s
            else
              t.latest == s.latest[library := s.next] && s.next in t.armed && t.armed[s.next] == library && t.fired == s.fired &&
              t.scans == s.scans && t.next == s.next + 1 &&
              forall timer :: timer in s.armed ==>
                (timer in t.armed <==> !(library in s.timers && s.timers[library] == timer))
  {
  }

  // ----- What every run guarantees

  /** A superseded timer never scans: whatever scans is, at that moment, for its library's newest change. */
  lemma OnlyTheLatestScans(states: seq<State>, actions: seq<Action>, k: nat)
    requires Run(states, actions) && k < |actions| && states[k + 1].scans != states[k].scans
    ensures actions[k].Callback? &&
            var timer, library := actions[k].timer, states[k].fired[actions[k].timer];
            states[k + 1].scans == states[k].scans + [(library, timer)] &&
            library in states[k].latest && states[k].latest[library] == timer
  {
    RunInv(states, actions, k);
  }

  /** The newest change of a library is never lost: its timer is still running, has fired and waits, or has scanned. */
  lemma LatestIsNeverLost(states: seq<State>, actions: seq<Action>, k: nat, library: nat)
    requires Run(states, actions) && k < |states| && library in states[k].latest
    ensures var s, t := states[k], states[k].latest[library];
            t in s.armed || (t in s.fired && Do(s, Callback(t)).scans == s.scans + [(library, t)]) || (library, t) in s.scans
  {
    RunInv(states, actions, k);
  }

  /** No change is scanned for twice, and once nothing is pending the last scan of every library was for its newest change. */
  lemma ScansAreDistinct(states: seq<State>, actions: seq<Action>, k: nat, i: nat, j: nat)
    requires Run(states, actions) && k < |states| && i < j < |states[k].scans| && states[k].scans[i].0 == states[k].scans[j].0
    ensures states[k].scans[i].0 in states[k].latest
    ensures states[k].scans[i].1 < states[k].scans[j].1 <= states[k].latest[states[k].scans[i].0]
  {
    RunInv(states, actions, k);
  }

  /** Timer steps left until everything pending has been scanned. */
  function StepsLeft(s: State): nat { 2 * |s.armed.Keys| + |s.fired.Keys| }

  lemma StepsGoDown(s: State, a: Action)
    requires Enabled(s, a) && !a.Schedule? && (a.Fire? ==> a.timer !in s.fired)
    ensures StepsLeft(Do(s, a)) < StepsLeft(s)
  {
    KeysMove(s, a);
    var armed, fired := s.armed.Keys, s.fired.Keys;
    if a.Fire? {
      assert a.timer in armed && a.timer !in fired;
      assert |armed - {a.timer}| == |armed| - 1 && |fired + {a.timer}| == |fired| + 1;
    } else {
      assert a.timer in fired;
      assert |fired - {a.timer}| == |fired| - 1;
    }
    hide Do;
  }

  lemma KeysMove(s: State, a: Action)
    requires Enabled(s, a) && !a.Schedule?
    ensures Do(s, a).armed.Keys == if a.Fire? then s.armed.Keys - {a.timer} else s.armed.Keys
    ensures Do(s, a).fired.Keys == if a.Fire? then s.fired.Keys + {a.timer} else s.fired.Keys - {a.timer}
  {
  }

  /** Every timer step brings the scans closer, and when none is left nothing is pending. */
  lemma TimersDrain(s: State, a: Action)
    requires Inv(s) && Enabled(s, a) && !a.Schedule?
    ensures StepsLeft(Do(s, a)) < StepsLeft(s)
    ensures StepsLeft(Do(s, a)) == 0 ==> Do(s, a).timers == map[]
  {
    StepsGoDown(s, a);
    StepInv(s, a);
    var t := Do(s, a);
    hide Do, NotLost, ScansInv;
    if StepsLeft(t) == 0 {
      assert t.armed == map[] && t.fired == map[];
      assert t.timers.Keys == {};
    }
  }

  /** A change that no later one of its library supersedes has been scanned for as soon as no timer runs or waits any more. */
  lemma ChangeIsScannedFor(states: seq<State>, actions: seq<Action>, j: nat, k: nat)
    requires Run(states, actions) && j < k < |states|
    requires actions[j].Schedule? && actions[j].enabled && actions[j].library != 0
    requires forall i :: j < i < k && actions[i].Schedule? ==> !actions[i].enabled || actions[i].library != actions[j].library
    requires states[k].armed == map[] && states[k].fired == map[]
    ensures (actions[j].library, states[j].next) in states[k].scans
  {
    StaysLatest(states, actions, j, k);
    RunInv(states, actions, k);
  }

  lemma {:induction false} StaysLatest(states: seq<State>, actions: seq<Action>, j: nat, k: nat)
    requires Run(states, actions) && j < k < |states|
    requires actions[j].Schedule? && actions[j].enabled && actions[j].library != 0
    requires forall i :: j < i < k && actions[i].Schedule? ==> !actions[i].enabled || actions[i].library != actions[j].library
    ensures actions[j].library in states[k].latest && states[k].latest[actions[j].library] == states[j].next
    decreases k - j
  {
    if j + 1 < k { StaysLatest(states, actions, j, k - 1); }
  }
}
