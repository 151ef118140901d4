/** The cache of timeline windows (createTimelineCache in frontend/src/utils/episodeTimeline.ts). */
module TimelineCache {
  import opened Wrappers

  // Loading a window suspends at an await; its continuation runs later, after any number of other calls. Every load
  // carries the number of its controller, which also identifies the loading entry it put into the cache.

  type Items = seq<string>

  datatype Window =
    | Loading(load: nat)
    | Ready(items: Items, load: nat)
    | Failed(error: string, load: nat)

  /** `suspended` maps each load that is still awaited to its window; `aborted` are the signals that fired. */
  datatype State = State(
    windows: map<int, Window>,
    requests: map<int, nat>,
    disposed: bool,
    suspended: map<nat, int>,
    aborted: set<nat>,
    next: nat,
    notified: nat)

  datatype Action =
    | Ensure(from: int, retry: bool)
    | Settle(load: nat, outcome: Result<Items, string>)
    | Invalidate(matching: set<int>)
    | Reset
    | Dispose

  // ----- Steps

  predicate Enabled(s: State, a: Action) {
    a.Settle? ==> a.load in s.suspended
  }

  predicate Starts(s: State, from: int, retry: bool) {
    !s.disposed && !(from in s.windows && (!retry || !s.windows[from].Failed?))
  }

  /** The entry this load put into the cache is still there. */
  predicate Current(s: State, load: nat, from: int) {
    !s.disposed && load !in s.aborted && from in s.windows && s.windows[from] == Loading(load)
  }

  function Settled(load: nat, outcome: Result<Items, string>): Window {
    match outcome
    case Ok(items) => Ready(items, load)
    case Err(error) => Failed(error, load)
  }

  function AbortOf(s: State, froms: set<int>): set<nat> {
    set from | from in froms && from in s.requests :: s.requests[from]
  }

  function Do(s: State, a: Action): State
    requires Enabled(s, a)
  {
    match a
    case Ensure(from, retry) =>
      if !Starts(s, from, retry) then s
      else
        s.(windows := s.windows[from := Loading(s.next)], requests := s.requests[from := s.next],
           suspended := s.suspended[s.next := from], next := s.next + 1, notified := s.notified + 1)
    case Settle(load, outcome) =>
      var from := s.suspended[load];
      var answered := from in s.requests && s.requests[from] == load;
      s.(windows := if Current(s, load, from) then s.windows[from := Settled(load, outcome)] else s.windows,
         requests := if answered then s.requests - {from} else s.requests,
         suspended := s.suspended - {load},
         notified := if answered && !s.disposed then s.notified + 1 else s.notified)
    case Invalidate(matching) =>
      var hit := matching * s.windows.Keys;
      s.(windows := s.windows - hit, requests := s.requests - hit, aborted := s.aborted + AbortOf(s, hit),
         notified := if hit != {} && !s.disposed then s.notified + 1 else s.notified)
    case Reset => s.(windows := map[], requests := map[], aborted := s.aborted + AbortOf(s, s.requests.Keys))
    case Dispose => s.(disposed := true, windows := map[], requests := map[], aborted := s.aborted + AbortOf(s, s.requests.Keys))
  }

  predicate Init(s: State) {
    s.windows == map[] && s.requests == map[] && !s.disposed && s.suspended == map[] && s.aborted == {}
  }

  // ----- The cache in place

  class Cache {
    var windows: map<int, Window>
    var requests: map<int, nat>
    var disposed: bool
    var suspended: map<nat, int>
    var aborted: set<nat>
    var next: nat
    var notified: nat

    ghost function Snapshot(): State
      reads this
    {
      State(windows, requests, disposed, suspended, aborted, next, notified)
    }

    constructor ()
      ensures Init(Snapshot())
    {
      windows, requests, disposed, suspended, aborted, next, notified := map[], map[], false, map[], {}, 0, 0;
    }

    method Changed()
      modifies this`notified
      ensures notified == old(notified) + 1
    {
      notified := notified + 1;
    }

    /** Up to the await. */
    method Ensure(from: int, retry: bool)
      modifies this
      ensures Snapshot() == Do(old(Snapshot()), Action.Ensure(from, retry))
    {
      if disposed { return; }
      if from in windows {
        if !retry || !windows[from].Failed? { return; }
      }
      var controller := next;
      next := next + 1;
      requests := requests[from := controller];
      windows := windows[from := Loading(controller)];
      Changed();
      suspended := suspended[controller := from];
    }

    /** From the await on, whether the load succeeded or threw. */
    method Settle(controller: nat, outcome: Result<Items, string>)
      requires Enabled(Snapshot(), Action.Settle(controller, outcome))
      modifies this
      ensures Snapshot() == Do(old(Snapshot()), Action.Settle(controller, outcome))
    {
      var from := suspended[controller];
      suspended := suspended - {controller};
      var stale := disposed || controller in aborted || from !in windows || windows[from] != Loading(controller);
      if !stale {
        match outcome {
          case Ok(items) => windows := windows[from := Ready(items, controller)];
          case Err(error) => windows := windows[from := Failed(error, controller)];
        }
      }
      if from in requests && requests[from] == controller {
        requests := requests - {from};
        if !disposed { Changed(); }
      }
    }

    /** Aborts, forgets and drops every matching window. */
    method Invalidate(matches: (int, Window) -> bool) returns (invalidated: bool)
      modifies this
      ensures Snapshot() == Do(old(Snapshot()), Action.Invalidate(Matching(old(windows), matches)))
      ensures invalidated <==> Matching(old(windows), matches) != {}
    {
      hide AbortOf, Matching;
      ghost var hit := Matching(windows, matches);
      ghost var start := Snapshot();
      MatchingIs(windows, matches);
      NoneDropped(start, hit);
      invalidated := false;
      var rest := windows.Keys;
      while rest != {}
        invariant rest <= start.windows.Keys
        invariant windows == start.windows - (hit - rest) && requests == start.requests - (hit - rest)
        invariant aborted == start.aborted + AbortOf(start, hit - rest)
        invariant invalidated <==> hit - rest != {}
        invariant disposed == start.disposed && suspended == start.suspended && next == start.next && notified == start.notified
        decreases rest
      {
        var from := Pick(rest);
        DropOne(start, hit, rest, from);
        assert windows[from] == start.windows[from];
        if matches(from, windows[from]) {
          if from in requests { aborted := aborted + {requests[from]}; }
          requests, windows := requests - {from}, windows - {from};
          invalidated := true;
        }
        rest := rest - {from};
      }
      assert hit - rest == hit && hit * start.windows.Keys == hit;
      if invalidated && !disposed { Changed(); }
    }

    /** Drops the windows outside the visible span. */
    method Retain(first: int, end: int)
      modifies this
      ensures var outside := set from | from in old(windows) && (from + 14 <= first || from >= end);
              Snapshot() == Do(old(Snapshot()), Action.Invalidate(outside))
    {
      var p := (from: int, window: Window) => from + 14 <= first || from >= end;
      assert Matching(windows, p) == set from | from in windows && (from + 14 <= first || from >= end);
      var _ := Invalidate(p);
    }

    method ResetAll()
      modifies this
      ensures Snapshot() == Do(old(Snapshot()), Action.Reset)
    {
      ghost var start := Snapshot();
      var rest := requests.Keys;
      while rest != {}
        invariant rest <= start.requests.Keys && aborted == start.aborted + AbortOf(start, start.requests.Keys - rest)
        invariant Snapshot() == start.(aborted := aborted)
        decreases rest
      {
        var from := Pick(rest);
        DropOne(start, start.requests.Keys, rest, from);
        aborted, rest := aborted + {requests[from]}, rest - {from};
      }
      assert start.requests.Keys - {} == start.requests.Keys;
      requests, windows := map[], map[];
    }

    method DisposeAll()
      modifies this
      ensures Snapshot() == Do(old(Snapshot()), Action.Dispose)
    {
      disposed := true;
      ResetAll();
    }
  }

  function Matching(windows: map<int, Window>, matches: (int, Window) -> bool): set<int> {
    set from | from in windows && matches(from, windows[from])
  }

  lemma MatchingIs(windows: map<int, Window>, matches: (int, Window) -> bool)
    ensures forall from :: from in Matching(windows, matches) <==> from in windows && matches(from, windows[from])
    ensures Matching(windows, matches) <= windows.Keys
  {
  }

  lemma NoneDropped(s: State, hit: set<int>)
    requires hit <= s.windows.Keys
    ensures hit - s.windows.Keys == {} && s.windows - {} == s.windows && s.requests - {} == s.requests && AbortOf(s, {}) == {}
  {
  }

  lemma DropOne(s: State, hit: set<int>, rest: set<int>, from: int)
    requires from in rest
    ensures from !in hit ==> hit - (rest - {from}) == hit - rest
    ensures from in hit ==>
              hit - (rest - {from}) == (hit - rest) + {from} &&
              s.windows - (hit - (rest - {from})) == (s.windows - (hit - rest)) - {from} &&
              s.requests - (hit - (rest - {from})) == (s.requests - (hit - rest)) - {from} &&
              AbortOf(s, hit - (rest - {from})) == AbortOf(s, hit - rest) + if from in s.requests then {s.requests[from]} else {}
    ensures from in s.windows ==> from in s.windows - (hit - rest)
    ensures from in s.requests <==> from in s.requests - (hit - rest) || (from in s.requests && from in hit - rest)
  {
    if from in hit { assert hit - (rest - {from}) == (hit - rest) + {from}; } else { assert hit - (rest - {from}) == hit - rest; }
  }

  // ----- The invariant

  /** Loading windows and pending requests are the same thing, with the same load. */
  predicate OneToOne(s: State) {
    (forall from :: from in s.requests ==> from in s.windows && s.windows[from] == Loading(s.requests[from])) &&
    (forall from :: from in s.windows && s.windows[from].Loading? ==> from in s.requests)
  }

  /** A pending request is still awaited and not aborted; every other awaited load has been aborted. */
  predicate Awaited(s: State) {
    (forall from :: from in s.requests ==>
       s.requests[from] in s.suspended && s.suspended[s.requests[from]] == from && s.requests[from] !in s.aborted) &&
    forall load :: load in s.suspended && load !in s.aborted ==>
      s.suspended[load] in s.requests && s.requests[s.suspended[load]] == load
  }

  /** Loads are numbered in the order they start, and what a window shows was never aborted. */
  predicate Numbered(s: State) {
    (forall load :: load in s.suspended ==> load < s.next) && (forall load :: load in s.aborted ==> load < s.next) &&
    forall from :: from in s.windows ==> s.windows[from].load < s.next && s.windows[from].load !in s.aborted
  }

  /** No two windows come from one load. */
  predicate Apart(s: State) {
    (forall f, g :: f in s.windows && g in s.windows && f != g ==> s.windows[f].load != s.windows[g].load) &&
    forall load, f :: load in s.suspended && f in s.windows && s.windows[f].load == load ==> s.suspended[load] == f && s.windows[f].Loading?
  }

  predicate Quiet(s: State) { s.disposed ==> s.windows == map[] && s.requests == map[] }

  predicate Inv(s: State) { OneToOne(s) && Awaited(s) && Numbered(s) && Apart(s) && Quiet(s) }

  lemma InitInv(s: State)
    requires Init(s)
    ensures Inv(s)
  {
  }

  lemma AwaitedStep(s: State, a: Action)
    requires Inv(s) && Enabled(s, a)
    ensures Awaited(Do(s, a))
  {
    match a {
      case Invalidate(matching) => AbortIs(s, matching * s.windows.Keys); hide AbortOf;
      case Ensure(_, _) =>
      case Settle(_, _) =>
      case _ => AbortIs(s, s.requests.Keys); hide AbortOf;
    }
  }

  /** Dropping windows aborts their own loads and no others. */
  lemma AbortIs(s: State, hit: set<int>)
    requires Awaited(s)
    ensures forall from :: from in s.requests ==> (from in hit <==> s.requests[from] in AbortOf(s, hit))
    ensures forall load :: load in s.suspended && load !in s.aborted && s.suspended[load] in hit ==> load in AbortOf(s, hit)
  {
    forall from | from in s.requests ensures from in hit <==> s.requests[from] in AbortOf(s, hit) {
      if s.requests[from] in AbortOf(s, hit) {
        var f :| f in hit && f in s.requests && s.requests[f] == s.requests[from];
      }
    }
  }

  lemma StepInv(s: State, a: Action)
    requires Inv(s) && Enabled(s, a)
    ensures Inv(Do(s, a))
  {
    hide Do, OneToOne, Awaited, Numbered, Apart, Quiet;
    AwaitedStep(s, a);
    OneToOneStep(s, a);
    NumberedStep(s, a);
    ApartStep(s, a);
    QuietStep(s, a);
  }

  lemma OneToOneStep(s: State, a: Action)
    requires Inv(s) && Enabled(s, a)
    ensures OneToOne(Do(s, a))
  {
    hide Numbered, AbortOf;
  }

  lemma NumberedStep(s: State, a: Action)
    requires Inv(s) && Enabled(s, a)
    ensures Numbered(Do(s, a))
  {
    hide Quiet;
  }

  lemma ApartStep(s: State, a: Action)
    requires Inv(s) && Enabled(s, a)
    ensures Apart(Do(s, a))
  {
    hide AbortOf, Quiet;
  }

  lemma QuietStep(s: State, a: Action)
    requires Inv(s) && Enabled(s, a)
    ensures Quiet(Do(s, a))
  {
    hide OneToOne, Numbered, Apart, Awaited, AbortOf;
  }

  ghost predicate Run(states: seq<State>, actions: seq<Action>) {
    |states| == |actions| + 1 && Init(states[0]) &&
    forall k :: 0 <= k < |actions| ==> Enabled(states[k], actions[k]) && states[k + 1] == Do(states[k], actions[k])
  }

  lemma {:induction false} RunInv(states: seq<State>, actions: seq<Action>, k: nat)
    requires Run(states, actions) && k < |states|
    ensures Inv(states[k])
  {
    hide Inv, Do, Enabled;
    if k == 0 {
      InitInv(states[0]);
    } else {
      RunInv(states, actions, k - 1);
      StepInv(states[k - 1], actions[k - 1]);
    }
  }

  // ----- What each call does

  /** A load starts exactly when the cache is in use and the window is unknown, or failed and to be tried again. */
  lemma EnsureOutcome(s: State, from: int, retry: bool)
    ensures var t := Do(s, Ensure(from, retry));
            if !s.disposed && (from !in s.windows || (retry && s.windows[from].Failed?)) then
              t.windows == s.windows[from := Loading(s.next)] && t.requests == s.requests[from := s.next] &&
              t.suspended == s.suspended[s.next := from] && t.next == s.next + 1 && t.notified == s.notified + 1 &&
              t.aborted == s.aborted && !t.disposed
            else t == s
  {
  }

  /** Windows are dropped with their requests, whose loads are aborted; that is announced once. */
  lemma InvalidateOutcome(s: State, matching: set<int>)
    ensures var t := Do(s, Invalidate(matching));
            (forall from :: from in t.windows <==> from in s.windows && from !in matching) &&
            (forall from :: from in t.windows ==> t.windows[from] == s.windows[from]) &&
            (forall load :: load in t.aborted <==>
               load in s.aborted ||
               exists from :: from in matching && from in s.windows && from in s.requests && s.requests[from] == load) &&
            t.suspended == s.suspended && t.disposed == s.disposed &&
            t.notified == s.notified + if s.disposed || matching * s.windows.Keys == {} then 0 else 1
  {
  }

  /** Reset and dispose drop everything and abort what was pending, without a word. */
  lemma ResetOutcome(s: State, a: Action)
    requires a.Reset? || a.Dispose?
    ensures var t := Do(s, a);
            t.windows == map[] && t.requests == map[] && t.notified == s.notified && t.suspended == s.suspended &&
            (t.disposed <==> s.disposed || a.Dispose?) &&
            forall load :: load in t.aborted <==> load in s.aborted || exists from :: from in s.requests && s.requests[from] == load
  {
  }

  // ----- What every interleaving guarantees

  /** A window is loading exactly when its request is pending, awaited and not aborted; there is one request per loading window. */
  lemma LoadingMeansPending(states: seq<State>, actions: seq<Action>, k: nat, from: int, load: nat)
    requires Run(states, actions) && k < |states|
    ensures var s := states[k];
            (from in s.windows && s.windows[from] == Loading(load) <==> from in s.requests && s.requests[from] == load) &&
            (from in s.requests && s.requests[from] == load <==> load in s.suspended && s.suspended[load] == from && load !in s.aborted)
  {
    RunInv(states, actions, k);
  }

  /** The answer to a load that is no longer pending leaves windows and requests alone and notifies nobody. */
  lemma StaleAnswerChangesNothing(states: seq<State>, actions: seq<Action>, k: nat, load: nat, outcome: Result<Items, string>)
    requires Run(states, actions) && k < |states| && load in states[k].suspended
    requires var from := states[k].suspended[load]; !(from in states[k].requests && states[k].requests[from] == load)
    ensures var t := Do(states[k], Settle(load, outcome));
            t.windows == states[k].windows && t.requests == states[k].requests && t.notified == states[k].notified &&
            load in states[k].aborted
  {
    RunInv(states, actions, k);
  }

  /** The answer to a pending load becomes its window's content, ends its request, and touches no other window. */
  lemma PendingAnswerIsKept(states: seq<State>, actions: seq<Action>, k: nat, from: int, outcome: Result<Items, string>)
    requires Run(states, actions) && k < |states| && from in states[k].requests
    ensures var s, load := states[k], states[k].requests[from];
            Enabled(s, Settle(load, outcome)) &&
            var t := Do(s, Settle(load, outcome));
            t.windows == s.windows[from := if outcome.Ok? then Ready(outcome.value, load) else Failed(outcome.error, load)] &&
            t.requests == s.requests - {from} && t.notified == s.notified + 1
  {
    RunInv(states, actions, k);
  }

  /** Nothing is loaded, shown or announced after dispose. */
  lemma {:induction false} NothingAfterDispose(states: seq<State>, actions: seq<Action>, j: nat, k: nat)
    requires Run(states, actions) && j <= k < |states| && states[j].disposed
    ensures states[k].disposed && states[k].windows == map[] && states[k].requests == map[] && states[k].notified == states[j].notified
    decreases k - j
  {
    RunInv(states, actions, k);
    if j < k { NothingAfterDispose(states, actions, j, k - 1); }
    hide OneToOne, Awaited, Numbered, Apart;
  }

  /** Whatever a window holds after it was dropped comes from a load that started after the drop. */
  lemma {:induction false} DroppedWindowsAreReloaded(states: seq<State>, actions: seq<Action>, j: nat, k: nat, from: int)
    requires Run(states, actions) && j <= k < |states| && from !in states[j].windows
    ensures states[j].next <= states[k].next
    ensures from in states[k].windows ==> states[j].next <= states[k].windows[from].load
    decreases k - j
  {
    if j < k {
      DroppedWindowsAreReloaded(states, actions, j, k - 1, from);
      RunInv(states, actions, k - 1);
      hide Awaited, Numbered, Quiet;
    }
  }

  /** What a window shows is what its own load returned: step i started that load for it, step j brought the answer, and the load
      was never aborted. */
  lemma {:induction false} ShownItemsAreFresh(states: seq<State>, actions: seq<Action>, k: nat, f: int) returns (i: nat, j: nat)
    requires Run(states, actions) && k < |states| && f in states[k].windows
    ensures var w := states[k].windows[f];
            i < k && actions[i].Ensure? && actions[i].from == f && !states[i].disposed &&
            (f !in states[i].windows || (actions[i].retry && states[i].windows[f].Failed?)) &&
            states[i].next == w.load && w.load !in states[k].aborted &&
            (!w.Loading? ==> i < j < k && actions[j].Settle? && actions[j].load == w.load) &&
            (w.Ready? ==> actions[j].outcome == Ok(w.items)) && (w.Failed? ==> actions[j].outcome == Err(w.error))
    decreases k
  {
    i, j := 0, 0;
    if k > 0 {
      var s, a := states[k - 1], actions[k - 1];
      RunInv(states, actions, k - 1);
      RunInv(states, actions, k);
      WindowStep(s, a, f);
      hide Inv, Do, Enabled, Init;
      if f in s.windows && s.windows[f] == states[k].windows[f] {
        i, j := ShownItemsAreFresh(states, actions, k - 1, f);
      } else if a.Ensure? {
        i := k - 1;
      } else {
        i, j := ShownItemsAreFresh(states, actions, k - 1, f);
        j := k - 1;
      }
      NeverAborted(states[k], f);
    }
  }

  lemma NeverAborted(s: State, f: int)
    requires Inv(s) && f in s.windows
    ensures s.windows[f].load !in s.aborted
  {
  }

  /** A window is as it was, or was just asked for, or just got the answer to its load. */
  lemma WindowStep(s: State, a: Action, f: int)
    requires Inv(s) && Enabled(s, a) && f in Do(s, a).windows
    ensures var w := Do(s, a).windows[f];
            (f in s.windows && s.windows[f] == w) ||
            (a.Ensure? && a.from == f && !s.disposed && (f !in s.windows || (a.retry && s.windows[f].Failed?)) && w == Loading(s.next)) ||
            (a.Settle? && f in s.windows && s.windows[f] == Loading(a.load) &&
             w == if a.outcome.Ok? then Ready(a.outcome.value, a.load) else Failed(a.outcome.error, a.load))
  {
    hide OneToOne, Awaited, Apart, Quiet;
  }
}
