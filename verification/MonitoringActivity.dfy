/** The monitoring part of an activity entry (backend/internal/sync/monitoring_activity.go). */
module MonitoringActivity {
  import opened Wrappers
  import opened Scopes
  import opened Attribution

  // BuildMonitoringActivityDetails records the difference of two snapshots; the model adds what replaying it
  // rebuilds.

  const MAX_DETAILS := 50

  datatype Target = MediaTarget | NewSeasonsTarget | SeasonTarget(season: int) | EpisodeTarget(key: Key)

  datatype Change = Change(
    target: Target,
    before: Option<bool>,
    after: Option<bool>,
    effectiveBefore: bool,
    effectiveAfter: bool)

  datatype Details = Details(changes: seq<Change>, total: nat, truncated: bool)

  // ----- Settings and effects of one target

  function Setting(s: MonitoringState, t: Target): Option<bool> {
    match t
    case MediaTarget => Some(s.monitored)
    case NewSeasonsTarget => Some(s.newSeasons)
    case SeasonTarget(n) => Lookup(s.seasons, n)
    case EpisodeTarget(k) => Lookup(s.overrides, k)
  }

  predicate Effect(s: MonitoringState, t: Target) {
    match t
    case MediaTarget => s.monitored
    case NewSeasonsTarget => s.NewSeasonsMonitored()
    case SeasonTarget(n) => s.SeasonMonitored(n)
    case EpisodeTarget(k) => s.EpisodeMonitored(k)
  }

  /** The stored setting or its effect differs. */
  predicate Differs(b: MonitoringState, a: MonitoringState, t: Target) {
    Setting(b, t) != Setting(a, t) || Effect(b, t) != Effect(a, t)
  }

  function ChangeOf(b: MonitoringState, a: MonitoringState, t: Target): Change {
    Change(t, Setting(b, t), Setting(a, t), Effect(b, t), Effect(a, t))
  }

  /** The targets of the two snapshots. */
  predicate Concerned(b: MonitoringState, a: MonitoringState, t: Target) {
    match t
    case MediaTarget => true
    case NewSeasonsTarget => a.media == Series
    case SeasonTarget(n) => a.media == Series && (n in b.seasons || n in a.seasons)
    case EpisodeTarget(k) =>
      a.media == Series && (k in b.episodes || k in a.episodes || k in b.overrides || k in a.overrides)
  }

  // ----- The listing order

  predicate KeyLess(j: Key, k: Key) {
    j.season < k.season || (j.season == k.season && j.episode < k.episode)
  }

  predicate TargetLess(t: Target, u: Target) {
    match (t, u)
    case (MediaTarget, _) => u != MediaTarget
    case (_, MediaTarget) => false
    case (NewSeasonsTarget, _) => u != NewSeasonsTarget
    case (_, NewSeasonsTarget) => false
    case (SeasonTarget(m), SeasonTarget(n)) => m < n
    case (SeasonTarget(_), EpisodeTarget(_)) => true
    case (EpisodeTarget(_), SeasonTarget(_)) => false
    case (EpisodeTarget(j), EpisodeTarget(k)) => KeyLess(j, k)
  }

  predicate InOrder(changes: seq<Change>) {
    forall i, j :: 0 <= i < j < |changes| ==> TargetLess(changes[i].target, changes[j].target)
  }

  /** The untruncated difference: one change for each concerned target that differs, in order. */
  ghost predicate IsDifference(b: MonitoringState, a: MonitoringState, changes: seq<Change>) {
    InOrder(changes) &&
    (forall c :: c in changes ==> c == ChangeOf(b, a, c.target)) &&
    forall t :: ChangeOf(b, a, t) in changes <==> Concerned(b, a, t) && Differs(b, a, t)
  }

  ghost predicate Describes(b: MonitoringState, a: MonitoringState, d: Details) {
    exists all :: IsDifference(b, a, all) &&
      d == Details(if |all| > MAX_DETAILS then all[..MAX_DETAILS] else all, |all|, |all| > MAX_DETAILS)
  }

  // ----- The loops

  predicate Ascending(s: seq<int>) {
    forall i, j :: 0 <= i < j < |s| ==> s[i] < s[j]
  }

  method InsertNumber(sorted: seq<int>, x: int) returns (r: seq<int>)
    requires Ascending(sorted) && x !in sorted
    ensures Ascending(r)
    ensures forall n :: n in r <==> n == x || n in sorted
  {
    var at := 0;
    while at < |sorted| && sorted[at] < x
      invariant 0 <= at <= |sorted|
      invariant forall k :: 0 <= k < at ==> sorted[k] < x
    {
      at := at + 1;
    }
    InsertMembers(sorted, at, x);
    hide Insert;
    r := Insert(sorted, at, x);
  }

  method SortedSeasonNumbers(seasons: set<int>) returns (sorted: seq<int>)
    ensures Ascending(sorted)
    ensures forall n :: n in sorted <==> n in seasons
  {
    hide Ascending;
    sorted := [];
    var rest := seasons;
    assert Ascending([]) by { EmptyAscends(); }
    while rest != {}
      invariant rest <= seasons
      invariant Ascending(sorted)
      invariant forall n :: n in sorted <==> n in seasons - rest
      decreases rest
    {
      var x := Pick(rest);
      sorted := InsertNumber(sorted, x);
      rest := rest - {x};
    }
  }

  lemma EmptyAscends()
    ensures Ascending([])
  {
  }

  predicate KeysAscending(s: seq<Key>) {
    forall i, j :: 0 <= i < j < |s| ==> KeyLess(s[i], s[j])
  }

  method InsertKey(sorted: seq<Key>, x: Key) returns (r: seq<Key>)
    requires KeysAscending(sorted) && x !in sorted
    ensures KeysAscending(r)
    ensures forall k :: k in r <==> k == x || k in sorted
  {
    var at := 0;
    while at < |sorted| && KeyLess(sorted[at], x)
      invariant 0 <= at <= |sorted|
      invariant forall k :: 0 <= k < at ==> KeyLess(sorted[k], x)
    {
      at := at + 1;
    }
    hide KeyLess;
    forall k | at <= k < |sorted| ensures KeyLess(x, sorted[k]) {
    }
    InsertMembers(sorted, at, x);
    hide Insert;
    r := Insert(sorted, at, x);
  }

  method SortedEpisodeKeys(keys: set<Key>) returns (sorted: seq<Key>)
    ensures KeysAscending(sorted)
    ensures forall k :: k in sorted <==> k in keys
  {
    sorted := [];
    var rest := keys;
    while rest != {}
      invariant rest <= keys
      invariant KeysAscending(sorted)
      invariant forall k :: k in sorted <==> k in keys - rest
      decreases rest
    {
      var x := Pick(rest);
      sorted := InsertKey(sorted, x);
      rest := rest - {x};
    }
  }

  /** Changes so far: those of the differing targets up to some point of the order. */
  ghost predicate Collected(b: MonitoringState, a: MonitoringState, changes: seq<Change>, done: iset<Target>) {
    InOrder(changes) &&
    (forall c :: c in changes ==> c.target in done && c == ChangeOf(b, a, c.target)) &&
    forall t :: t in done ==> (ChangeOf(b, a, t) in changes <==> Differs(b, a, t))
  }

  /** One turn: record the target if it differs. */
  method Record(b: MonitoringState, a: MonitoringState, changes: seq<Change>, t: Target, ghost done: iset<Target>)
    returns (r: seq<Change>)
    requires Collected(b, a, changes, done)
    requires forall u :: u in done ==> TargetLess(u, t)
    ensures Collected(b, a, r, done + iset{t})
  {
    r := changes;
    var same := Setting(b, t) == Setting(a, t) && Effect(b, t) == Effect(a, t);
    if !same {
      r := changes + [ChangeOf(b, a, t)];
    }
    assert !TargetLess(t, t);
  }

  method RecordSeasons(b: MonitoringState, a: MonitoringState, start: seq<Change>, seasons: seq<int>, ghost done: iset<Target>)
    returns (changes: seq<Change>)
    requires Collected(b, a, start, done) && Ascending(seasons)
    requires forall t, n :: t in done ==> TargetLess(t, SeasonTarget(n))
    ensures Collected(b, a, changes, done + iset n | n in seasons :: SeasonTarget(n))
  {
    changes := start;
    ghost var seen := done;
    for i := 0 to |seasons|
      invariant seen == done + iset n | n in seasons[..i] :: SeasonTarget(n)
      invariant Collected(b, a, changes, seen)
    {
      assert seasons[..i + 1] == seasons[..i] + [seasons[i]];
      changes := Record(b, a, changes, SeasonTarget(seasons[i]), seen);
      seen := seen + iset{SeasonTarget(seasons[i])};
    }
    assert seasons[..|seasons|] == seasons;
  }

  method RecordEpisodes(b: MonitoringState, a: MonitoringState, start: seq<Change>, keys: seq<Key>, ghost done: iset<Target>)
    returns (changes: seq<Change>)
    requires Collected(b, a, start, done) && KeysAscending(keys)
    requires forall t, k :: t in done ==> TargetLess(t, EpisodeTarget(k))
    ensures Collected(b, a, changes, done + iset k | k in keys :: EpisodeTarget(k))
  {
    changes := start;
    ghost var seen := done;
    for i := 0 to |keys|
      invariant seen == done + iset k | k in keys[..i] :: EpisodeTarget(k)
      invariant Collected(b, a, changes, seen)
    {
      assert keys[..i + 1] == keys[..i] + [keys[i]];
      changes := Record(b, a, changes, EpisodeTarget(keys[i]), seen);
      seen := seen + iset{EpisodeTarget(keys[i])};
    }
    assert keys[..|keys|] == keys;
  }

  lemma CollectedAll(b: MonitoringState, a: MonitoringState, changes: seq<Change>, done: iset<Target>)
    requires Collected(b, a, changes, done)
    requires done == if a.media == Series then SeriesTargets(b, a) else iset{MediaTarget}
    ensures IsDifference(b, a, changes)
  {
    assert forall t :: t in done <==> Concerned(b, a, t);
    forall t ensures ChangeOf(b, a, t) in changes <==> Concerned(b, a, t) && Differs(b, a, t) {
      if ChangeOf(b, a, t) in changes { assert ChangeOf(b, a, t).target in done; }
    }
  }

  /** The targets of a series up to its last season, and up to its last episode. */
  ghost function SeasonTargets(b: MonitoringState, a: MonitoringState): iset<Target> {
    iset{MediaTarget, NewSeasonsTarget} + iset n | n in b.seasons.Keys + a.seasons.Keys :: SeasonTarget(n)
  }

  ghost function SeriesTargets(b: MonitoringState, a: MonitoringState): iset<Target> {
    SeasonTargets(b, a) +
    iset k | k in b.episodes || k in a.episodes || k in b.overrides || k in a.overrides :: EpisodeTarget(k)
  }

  method SeasonChanges(b: MonitoringState, a: MonitoringState, start: seq<Change>) returns (changes: seq<Change>)
    requires Collected(b, a, start, iset{MediaTarget})
    ensures Collected(b, a, changes, SeasonTargets(b, a))
  {
    changes := Record(b, a, start, NewSeasonsTarget, iset{MediaTarget});
    var seasons := SortedSeasonNumbers(b.seasons.Keys + a.seasons.Keys);
    changes := RecordSeasons(b, a, changes, seasons, iset{MediaTarget} + iset{NewSeasonsTarget});
    assert iset{MediaTarget} + iset{NewSeasonsTarget} + (iset n | n in seasons :: SeasonTarget(n)) == SeasonTargets(b, a);
  }

  method EpisodeChanges(b: MonitoringState, a: MonitoringState, start: seq<Change>) returns (changes: seq<Change>)
    requires Collected(b, a, start, SeasonTargets(b, a))
    ensures Collected(b, a, changes, SeriesTargets(b, a))
  {
    var listed := (set k | k in b.episodes) + (set k | k in a.episodes);
    var keys := SortedEpisodeKeys(listed + b.overrides.Keys + a.overrides.Keys);
    changes := RecordEpisodes(b, a, start, keys, SeasonTargets(b, a));
    assert SeasonTargets(b, a) + (iset k | k in keys :: EpisodeTarget(k)) == SeriesTargets(b, a);
  }

  method BuildMonitoringActivityDetails(b: MonitoringState, a: MonitoringState) returns (d: Details)
    ensures Describes(b, a, d)
  {
    var changes := Record(b, a, [], MediaTarget, iset{});
    if a.media == Series {
      changes := SeasonChanges(b, a, changes);
      changes := EpisodeChanges(b, a, changes);
      CollectedAll(b, a, changes, SeriesTargets(b, a));
    } else {
      CollectedAll(b, a, changes, iset{} + iset{MediaTarget});
    }
    d := Bounded(b, a, changes);
  }

  method Bounded(ghost b: MonitoringState, ghost a: MonitoringState, changes: seq<Change>) returns (d: Details)
    requires IsDifference(b, a, changes)
    ensures Describes(b, a, d)
  {
    var total := |changes|;
    var kept := if total > MAX_DETAILS then changes[..MAX_DETAILS] else changes;
    d := Details(kept, total, total > |kept|);
  }

  /** Two snapshots have one difference, so the entry does not depend on map iteration order. */
  lemma {:induction false} OneDifference(xs: seq<Change>, ys: seq<Change>)
    requires InOrder(xs) && InOrder(ys) && forall c :: c in xs <==> c in ys
    ensures xs == ys
    decreases |xs|
  {
    assert xs == [] || xs[0] in xs;
    assert ys == [] || ys[0] in ys;
    if xs != [] && ys != [] {
      assert xs[0] in ys && ys[0] in xs;
      var i :| 0 <= i < |ys| && ys[i] == xs[0];
      var j :| 0 <= j < |xs| && xs[j] == ys[0];
      OneWay(xs[0].target, ys[0].target);
      assert xs[0] == ys[0];
      assert xs == [xs[0]] + xs[1..] && ys == [ys[0]] + ys[1..];
      OneWay(xs[0].target, xs[0].target);
      assert xs[0] !in xs[1..] && ys[0] !in ys[1..];
      forall c ensures c in xs[1..] <==> c in ys[1..] {
        assert c in xs <==> c == xs[0] || c in xs[1..];
        assert c in ys <==> c == ys[0] || c in ys[1..];
      }
      OneDifference(xs[1..], ys[1..]);
    }
  }

  lemma OneWay(t: Target, u: Target)
    ensures !(TargetLess(t, u) && TargetLess(u, t))
  {
  }

  // ----- Replaying

  function Remove<K>(m: map<K, bool>, k: K): map<K, bool> {
    map j | j in m && j != k :: m[j]
  }

  /** Writes a setting; the two flags are never absent. */
  function Write(s: MonitoringState, t: Target, value: Option<bool>): MonitoringState {
    match t
    case MediaTarget => if value.Some? then s.(monitored := value.value) else s
    case NewSeasonsTarget => if value.Some? then s.(newSeasons := value.value) else s
    case SeasonTarget(n) => s.(seasons := if value.Some? then s.seasons[n := value.value] else Remove(s.seasons, n))
    case EpisodeTarget(k) => s.(overrides := if value.Some? then s.overrides[k := value.value] else Remove(s.overrides, k))
  }

  function Replay(s: MonitoringState, changes: seq<Change>): MonitoringState {
    if changes == [] then s
    else Write(Replay(s, changes[..|changes| - 1]), changes[|changes| - 1].target, changes[|changes| - 1].after)
  }

  function Undo(s: MonitoringState, changes: seq<Change>): MonitoringState {
    if changes == [] then s
    else Write(Undo(s, changes[..|changes| - 1]), changes[|changes| - 1].target, changes[|changes| - 1].before)
  }

  ghost predicate SameSettings(s: MonitoringState, u: MonitoringState) {
    s.monitored == u.monitored && s.newSeasons == u.newSeasons && s.seasons == u.seasons && s.overrides == u.overrides
  }

  lemma SettingsDecide(s: MonitoringState, u: MonitoringState)
    ensures SameSettings(s, u) <==> forall t :: Setting(s, t) == Setting(u, t)
  {
    if forall t :: Setting(s, t) == Setting(u, t) {
      assert Setting(s, MediaTarget) == Setting(u, MediaTarget);
      assert Setting(s, NewSeasonsTarget) == Setting(u, NewSeasonsTarget);
      forall n ensures Lookup(s.seasons, n) == Lookup(u.seasons, n) {
        assert Setting(s, SeasonTarget(n)) == Setting(u, SeasonTarget(n));
      }
      forall k ensures Lookup(s.overrides, k) == Lookup(u.overrides, k) {
        assert Setting(s, EpisodeTarget(k)) == Setting(u, EpisodeTarget(k));
      }
      SameLookups(s.seasons, u.seasons);
      SameLookups(s.overrides, u.overrides);
    }
  }

  lemma SameLookups<K>(m: map<K, bool>, n: map<K, bool>)
    requires forall k: K {:trigger k in m} {:trigger k in n} :: k in m.Keys + n.Keys ==> Lookup(m, k) == Lookup(n, k)
    ensures m == n
  {
    forall k ensures k in m <==> k in n { assert k in m.Keys + n.Keys ==> Lookup(m, k) == Lookup(n, k); }
    forall k | k in m ensures m[k] == n[k] { assert Lookup(m, k) == Lookup(n, k); }
  }

  lemma WriteSetting(s: MonitoringState, t: Target, value: Option<bool>, u: Target)
    requires t == MediaTarget || t == NewSeasonsTarget ==> value.Some?
    ensures Setting(Write(s, t, value), u) == if t == u then value else Setting(s, u)
  {
  }

  /** Recorded settings of the two flags are present. */
  ghost predicate FlagsPresent(changes: seq<Change>) {
    forall c :: c in changes && (c.target == MediaTarget || c.target == NewSeasonsTarget) ==> c.before.Some? && c.after.Some?
  }

  lemma {:induction false} ReplaySetting(s: MonitoringState, changes: seq<Change>, t: Target)
    requires InOrder(changes) && FlagsPresent(changes)
    ensures (forall c :: c in changes ==> c.target != t) ==>
              Setting(Replay(s, changes), t) == Setting(s, t) && Setting(Undo(s, changes), t) == Setting(s, t)
    ensures forall c :: c in changes && c.target == t ==>
              Setting(Replay(s, changes), t) == c.after && Setting(Undo(s, changes), t) == c.before
  {
    if changes != [] {
      var init, last := changes[..|changes| - 1], changes[|changes| - 1];
      assert changes == init + [last];
      ReplaySetting(s, init, t);
      WriteSetting(Replay(s, init), last.target, last.after, t);
      WriteSetting(Undo(s, init), last.target, last.before, t);
      hide Replay, Undo, Setting, Write;
      assert Replay(s, changes) == Write(Replay(s, init), last.target, last.after);
      assert Undo(s, changes) == Write(Undo(s, init), last.target, last.before);
      forall c | c in init ensures c.target != last.target {
        OneWay(last.target, last.target);
        var i :| 0 <= i < |init| && init[i] == c;
        assert TargetLess(changes[i].target, changes[|changes| - 1].target);
      }
    }
  }

  lemma DifferenceFlags(b: MonitoringState, a: MonitoringState, all: seq<Change>)
    requires IsDifference(b, a, all)
    ensures FlagsPresent(all)
  {
  }

  /** Replaying what was kept of a series' difference rebuilds the after settings exactly when every dropped change left
      its stored setting alone. */
  lemma ReplayKeptExactly(b: MonitoringState, a: MonitoringState, all: seq<Change>, n: nat)
    requires a.media == Series && IsDifference(b, a, all) && n <= |all|
    ensures SameSettings(Replay(b, all[..n]), a) <==> forall i :: n <= i < |all| ==> all[i].before == all[i].after
  {
    var kept := all[..n];
    DifferenceFlags(b, a, all);
    SettingsDecide(Replay(b, kept), a);
    forall t
      ensures Setting(Replay(b, kept), t) == Setting(a, t) <==>
                ChangeOf(b, a, t) in kept || Setting(b, t) == Setting(a, t)
    {
      ReplaySetting(b, kept, t);
      if ChangeOf(b, a, t) in kept {
        assert ChangeOf(b, a, t).target == t;
      } else {
        forall c | c in kept ensures c.target != t { assert c in all && c == ChangeOf(b, a, c.target); }
      }
    }
  }

  const QUIET := MonitoringState(Series, false, false, 51, map[], map[], [])

  function SwitchedOn(n: nat): (m: map<int, bool>)
    ensures forall k :: k in m <==> 1 <= k <= n
    ensures forall k :: k in m ==> m[k]
  {
    if n == 0 then map[] else SwitchedOn(n - 1)[n := true]
  }

  /** Switching on 51 seasons at once is one change too many: the entry cannot rebuild the settings. */
  lemma TruncationLosesASeason(d: Details)
    requires Describes(QUIET, QUIET.(seasons := SwitchedOn(51)), d)
    ensures d.truncated && !SameSettings(Replay(QUIET, d.changes), QUIET.(seasons := SwitchedOn(51)))
  {
    var a := QUIET.(seasons := SwitchedOn(51));
    var all := seq(51, i => Change(SeasonTarget(i + 1), None, Some(true), false, false));
    forall t ensures ChangeOf(QUIET, a, t) in all <==> Concerned(QUIET, a, t) && Differs(QUIET, a, t) {
      if t.SeasonTarget? && 1 <= t.season <= 51 { assert all[t.season - 1] == ChangeOf(QUIET, a, t); }
    }
    var other :| IsDifference(QUIET, a, other) &&
      d == Details(if |other| > MAX_DETAILS then other[..MAX_DETAILS] else other, |other|, |other| > MAX_DETAILS);
    assert IsDifference(QUIET, a, all);
    forall c ensures c in other <==> c in all {
      assert c in other || c in all ==> c == ChangeOf(QUIET, a, c.target);
      assert ChangeOf(QUIET, a, c.target) in other <==> ChangeOf(QUIET, a, c.target) in all;
    }
    OneDifference(other, all);
    assert all[50].before != all[50].after;
    ReplayKeptExactly(QUIET, a, all, MAX_DETAILS);
  }

  /** Difference and replay are inverse: an untruncated entry rebuilds either snapshot's settings from the other. */
  lemma ReplayIsInverse(b: MonitoringState, a: MonitoringState, d: Details)
    requires a.media == Series && Describes(b, a, d) && d.total <= MAX_DETAILS
    ensures SameSettings(Replay(b, d.changes), a) && SameSettings(Undo(a, d.changes), b)
  {
    var all := d.changes;
    assert IsDifference(b, a, all);
    assert all[..|all|] == all;
    ReplayKeptExactly(b, a, all, |all|);
    DifferenceFlags(b, a, all);
    SettingsDecide(Undo(a, all), b);
    forall t ensures Setting(Undo(a, all), t) == Setting(b, t) {
      ReplaySetting(a, all, t);
      if ChangeOf(b, a, t) in all {
        assert ChangeOf(b, a, t).target == t;
      } else {
        assert !Differs(b, a, t) || !Concerned(b, a, t);
      }
    }
  }

  /** What any entry promises: an exact total, each target once, only targets whose setting or effect changed, and a
      prefix of the ordered difference. */
  lemma EntryIsFaithful(b: MonitoringState, a: MonitoringState, d: Details, all: seq<Change>)
    requires Describes(b, a, d) && IsDifference(b, a, all)
    ensures d.total == |all| && d.changes <= all && |d.changes| <= MAX_DETAILS
    ensures d.truncated <==> d.changes != all
    ensures forall i, j :: 0 <= i < j < |d.changes| ==> d.changes[i].target != d.changes[j].target
    ensures forall c :: c in d.changes ==> c.before != c.after || c.effectiveBefore != c.effectiveAfter
  {
    var listing :| IsDifference(b, a, listing) &&
      d == Details(if |listing| > MAX_DETAILS then listing[..MAX_DETAILS] else listing, |listing|, |listing| > MAX_DETAILS);
    forall c ensures c in listing <==> c in all {
      if c in listing || c in all { assert c == ChangeOf(b, a, c.target); }
    }
    OneDifference(listing, all);
    forall i, j | 0 <= i < j < |d.changes| ensures d.changes[i].target != d.changes[j].target {
      OneWay(d.changes[i].target, d.changes[i].target);
    }
    forall c | c in d.changes ensures c.before != c.after || c.effectiveBefore != c.effectiveAfter {
      assert c in all && c == ChangeOf(b, a, c.target);
    }
  }

  // ----- The entry, told from the two snapshots alone

  /** The change gives the stored settings of its target and what they come to. */
  ghost predicate TellsTheTruth(b: MonitoringState, a: MonitoringState, c: Change) {
    match c.target
    case MediaTarget =>
      c.before == Some(b.monitored) && c.after == Some(a.monitored) &&
      c.effectiveBefore == b.monitored && c.effectiveAfter == a.monitored
    case NewSeasonsTarget =>
      c.before == Some(b.newSeasons) && c.after == Some(a.newSeasons) &&
      c.effectiveBefore == (b.monitored && b.newSeasons) && c.effectiveAfter == (a.monitored && a.newSeasons)
    case SeasonTarget(n) =>
      c.before == (if n in b.seasons then Some(b.seasons[n]) else None) &&
      c.after == (if n in a.seasons then Some(a.seasons[n]) else None) &&
      c.effectiveBefore == SeasonOn(b, n) && c.effectiveAfter == SeasonOn(a, n)
    case EpisodeTarget(k) =>
      c.before == (if k in b.overrides then Some(b.overrides[k]) else None) &&
      c.after == (if k in a.overrides then Some(a.overrides[k]) else None) &&
      c.effectiveBefore == KeyOn(b, k) && c.effectiveAfter == KeyOn(a, k)
  }

  /** The targets about which there is something to tell: the setting changed, or what it comes to. */
  ghost predicate WorthTelling(b: MonitoringState, a: MonitoringState, t: Target) {
    match t
    case MediaTarget => b.monitored != a.monitored
    case NewSeasonsTarget =>
      a.media == Series && (b.newSeasons != a.newSeasons || (b.monitored && b.newSeasons) != (a.monitored && a.newSeasons))
    case SeasonTarget(n) =>
      a.media == Series &&
      ((n in b.seasons) != (n in a.seasons) || (n in b.seasons && n in a.seasons && b.seasons[n] != a.seasons[n]) ||
       SeasonOn(b, n) != SeasonOn(a, n))
    case EpisodeTarget(k) =>
      a.media == Series && (k in b.episodes || k in a.episodes || k in b.overrides || k in a.overrides) &&
      ((k in b.overrides) != (k in a.overrides) || (k in b.overrides && k in a.overrides && b.overrides[k] != a.overrides[k]) ||
       KeyOn(b, k) != KeyOn(a, k))
  }

  /** The item, then new seasons, then the seasons by number, then the episodes by season and number. */
  ghost predicate ToldBefore(t: Target, u: Target) {
    match u
    case MediaTarget => false
    case NewSeasonsTarget => t == MediaTarget
    case SeasonTarget(n) => t == MediaTarget || t == NewSeasonsTarget || (t.SeasonTarget? && t.season < n)
    case EpisodeTarget(k) =>
      !t.EpisodeTarget? || t.key.season < k.season || (t.key.season == k.season && t.key.episode < k.episode)
  }

  lemma ChangeMeans(b: MonitoringState, a: MonitoringState, t: Target)
    ensures TellsTheTruth(b, a, ChangeOf(b, a, t))
    ensures Concerned(b, a, t) && Differs(b, a, t) <==> WorthTelling(b, a, t)
  {
  }

  /** An entry tells the truth about the first 50 targets worth telling, in order, and counts them all. */
  lemma EntryTells(b: MonitoringState, a: MonitoringState, d: Details)
    requires Describes(b, a, d)
    ensures forall c :: c in d.changes ==> TellsTheTruth(b, a, c) && WorthTelling(b, a, c.target)
    ensures forall i, j :: 0 <= i < j < |d.changes| ==> ToldBefore(d.changes[i].target, d.changes[j].target)
    ensures forall t :: WorthTelling(b, a, t) ==>
              (exists c :: c in d.changes && c.target == t) ||
              (|d.changes| == 50 && forall c :: c in d.changes ==> ToldBefore(c.target, t))
    ensures |d.changes| == (if d.total <= 50 then d.total else 50) && (d.truncated <==> d.total > 50)
  {
    var all: seq<Change> :| IsDifference(b, a, all) &&
      d == Details(if |all| > MAX_DETAILS then all[..MAX_DETAILS] else all, |all|, |all| > MAX_DETAILS);
    forall t, u ensures TargetLess(t, u) <==> ToldBefore(t, u) {
    }
    forall t ensures TellsTheTruth(b, a, ChangeOf(b, a, t)) && (ChangeOf(b, a, t) in all <==> WorthTelling(b, a, t)) {
      ChangeMeans(b, a, t);
    }
    hide TellsTheTruth, WorthTelling, ToldBefore, TargetLess, Differs, Concerned;
    forall c | c in d.changes ensures TellsTheTruth(b, a, c) && WorthTelling(b, a, c.target) {
      assert c in all && c == ChangeOf(b, a, c.target);
    }
    forall t | WorthTelling(b, a, t)
      ensures (exists c :: c in d.changes && c.target == t) ||
              (|d.changes| == 50 && forall c :: c in d.changes ==> ToldBefore(c.target, t))
    {
      var i :| 0 <= i < |all| && all[i] == ChangeOf(b, a, t);
      if i < |d.changes| {
        assert d.changes[i] == all[i] && all[i].target == t;
      } else {
        forall c | c in d.changes ensures ToldBefore(c.target, t) {
          var j :| 0 <= j < |d.changes| && d.changes[j] == c;
          assert all[j] == c && TargetLess(all[j].target, all[i].target);
        }
      }
    }
  }
}
