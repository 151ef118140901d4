/** The periodic refresh of a series' metadata (backend/internal/matching/refresh.go). */
module MetadataRefresh {
  import opened Wrappers
  import opened EpisodeCatalog

  // Which seasons are fetched, which episodes are added, and which new seasons become monitored. `fetch` is what the
  // provider answers for a season window, None for a failed request. The status is already trimmed.

  datatype State = State(
    seasons: Option<int>, status: string, episodes: map<Key, Content>, monitors: map<int, bool>,
    monitored: bool, monitorNew: bool)

  datatype Provider = Provider(seasons: int, status: string, fetch: int -> Option<seq<EpisodeData>>)

  function SeasonCount(s: State): int { if s.seasons.Some? && s.seasons.value >= 0 then s.seasons.value else 0 }

  // ----- The windows

  /** The last known season and every new one; all known seasons if there is none new. */
  predicate InWindows(old': int, provider: int, season: int) {
    if provider > old' then season >= 1 && old' <= season <= provider else 1 <= season <= old'
  }

  predicate Ascending(windows: seq<int>) { forall i, j :: 0 <= i < j < |windows| ==> windows[i] < windows[j] }

  method SeasonWindows(oldSeasons: int, providerSeasons: int) returns (windows: seq<int>)
    requires oldSeasons >= 0
    ensures Ascending(windows) && forall season :: season in windows <==> InWindows(oldSeasons, providerSeasons, season)
  {
    windows := [];
    if oldSeasons <= 0 && providerSeasons <= 0 { return; }
    if providerSeasons > oldSeasons {
      if oldSeasons > 0 { windows := windows + [oldSeasons]; }
      var season := oldSeasons + 1;
      while season <= providerSeasons
        invariant oldSeasons < season <= providerSeasons + 1 && Ascending(windows)
        invariant forall x :: x in windows <==> x >= 1 && oldSeasons <= x < season
      {
        assert forall i :: 0 <= i < |windows| ==> windows[i] in windows;
        windows := windows + [season];
        season := season + 1;
      }
      return;
    }
    var season := 1;
    while season <= oldSeasons
      invariant 1 <= season <= oldSeasons + 1 && Ascending(windows)
      invariant forall x :: x in windows <==> 1 <= x < season
    {
      assert forall i :: 0 <= i < |windows| ==> windows[i] in windows;
      windows := windows + [season];
      season := season + 1;
    }
  }

  // ----- The episodes

  /** The answers of the windows that could be fetched, one after the other. */
  function Fetched(windows: seq<int>, p: Provider): seq<EpisodeData> {
    if windows == [] then []
    else
      var last := p.fetch(windows[|windows| - 1]);
      Fetched(windows[..|windows| - 1], p) + if last.Some? then last.value else []
  }

  /** The first answer for a key. */
  function FirstFor(data: seq<EpisodeData>, key: Key): Option<Content> {
    if data == [] then None
    else
      var before := FirstFor(data[..|data| - 1], key);
      if before.Some? then before
      else if data[|data| - 1].key == key then Some(NewEpisode(data[|data| - 1]))
      else None
  }

  /** Stored episodes stay as they are; unknown keys are added once, as first told. */
  ghost predicate EpisodesAfter(stored: map<Key, Content>, data: seq<EpisodeData>, after: map<Key, Content>) {
    forall k :: Lookup(after, k) == if k in stored then Some(stored[k]) else FirstFor(data, k)
  }

  method FetchWindows(windows: seq<int>, p: Provider) returns (data: seq<EpisodeData>, failed: nat)
    ensures data == Fetched(windows, p)
  {
    data, failed := [], 0;
    for i := 0 to |windows|
      invariant data == Fetched(windows[..i], p)
    {
      assert windows[..i + 1][..i] == windows[..i];
      var answer := p.fetch(windows[i]);
      if answer.None? { failed := failed + 1; } else { data := data + answer.value; }
    }
    assert windows[..|windows|] == windows;
  }

  method AddEpisodes(stored: map<Key, Content>, data: seq<EpisodeData>) returns (after: map<Key, Content>, added: nat)
    ensures EpisodesAfter(stored, data, after) && (added == 0 <==> after == stored)
  {
    after, added := stored, 0;
    for i := 0 to |data|
      invariant EpisodesAfter(stored, data[..i], after)
      invariant added == 0 ==> after == stored
      invariant added > 0 ==> exists k :: k in after && k !in stored
    {
      assert data[..i + 1][..i] == data[..i];
      if data[i].key !in after {
        assert data[i].key !in stored by { assert Lookup(after, data[i].key) == None; }
        after, added := after[data[i].key := NewEpisode(data[i])], added + 1;
        assert data[i].key in after;
      }
    }
    assert data[..|data|] == data;
  }

  // ----- The future seasons

  predicate PolicyApplies(s: State, newSeasons: int) { s.monitored && s.monitorNew && newSeasons > SeasonCount(s) }

  ghost predicate MonitorsAfter(s: State, newSeasons: int, after: map<int, bool>) {
    forall n :: Lookup(after, n) ==
      if PolicyApplies(s, newSeasons) && SeasonCount(s) < n <= newSeasons then Some(true) else Lookup(s.monitors, n)
  }

  method ApplyFutureSeasonPolicy(s: State, newSeasons: int) returns (after: map<int, bool>, changes: seq<int>)
    ensures MonitorsAfter(s, newSeasons, after)
    ensures Ascending(changes) && forall n :: n in changes <==> Lookup(after, n) != Lookup(s.monitors, n)
  {
    after, changes := s.monitors, [];
    var old' := SeasonCount(s);
    if !s.monitored || !s.monitorNew || newSeasons <= old' { return; }
    var season := old' + 1;
    while season <= newSeasons
      invariant old' < season <= newSeasons + 1 && Ascending(changes)
      invariant forall n :: Lookup(after, n) == if old' < n < season then Some(true) else Lookup(s.monitors, n)
      invariant forall n :: n in changes <==> old' < n < season && Lookup(s.monitors, n) != Some(true)
    {
      assert forall i :: 0 <= i < |changes| ==> changes[i] in changes;
      assert Lookup(after, season) == Lookup(s.monitors, season);
      ghost var before := after;
      if season !in after || !after[season] {
        after, changes := after[season := true], changes + [season];
      }
      assert forall n :: Lookup(after, n) == if n == season then Some(true) else Lookup(before, n);
      season := season + 1;
    }
  }

  // ----- The whole refresh

  function NewSeasons(s: State, p: Provider): int { if p.seasons <= 0 then SeasonCount(s) else p.seasons }
  function NewStatus(s: State, p: Provider): string { if p.status == "" then s.status else p.status }

  /** What a refresh makes of the state; the season count is only written when it differs. */
  ghost predicate Refreshed(s: State, p: Provider, t: State) {
    exists windows ::
      Ascending(windows) && (forall n :: n in windows <==> InWindows(SeasonCount(s), p.seasons, n)) &&
      t.status == NewStatus(s, p) && SeasonCount(t) == NewSeasons(s, p) &&
      EpisodesAfter(s.episodes, Fetched(windows, p), t.episodes) && MonitorsAfter(s, NewSeasons(s, p), t.monitors) &&
      t.monitored == s.monitored && t.monitorNew == s.monitorNew
  }

  method RefreshSeriesMetadata(s: State, p: Provider) returns (t: State, changed: bool)
    ensures Refreshed(s, p, t)
    ensures RefreshedTo(s, p, t)
    ensures t.seasons == if p.seasons <= 0 || p.seasons == Known(s) then s.seasons else Some(p.seasons)
    ensures !changed ==> t == s
    ensures changed ==> t.status != s.status || SeasonCount(t) != SeasonCount(s) || t.episodes != s.episodes || t.monitors != s.monitors
  {
    hide RefreshedTo, Ascending, Fetched, EpisodesAfter;
    var oldSeasons := SeasonCount(s);
    var windows := SeasonWindows(oldSeasons, p.seasons);
    var data, failed := FetchWindows(windows, p);
    var newSeasons := if p.seasons <= 0 then oldSeasons else p.seasons;
    var newStatus := if p.status == "" then s.status else p.status;
    var episodes, added := AddEpisodes(s.episodes, data);
    var monitors, policy := ApplyFutureSeasonPolicy(s, newSeasons);
    hide InWindows;
    if policy == [] {
      assert forall n :: Lookup(monitors, n) == Lookup(s.monitors, n);
      assert forall n :: n in monitors <==> Lookup(monitors, n).Some?;
      assert forall n :: n in s.monitors <==> Lookup(s.monitors, n).Some?;
      assert monitors == s.monitors;
    } else {
      assert policy[0] in policy;
    }
    changed := s.status != newStatus || oldSeasons != newSeasons || added > 0 || policy != [];
    t := s.(seasons := if oldSeasons != newSeasons then Some(newSeasons) else s.seasons, status := newStatus,
            episodes := episodes, monitors := monitors);
    RefreshExactly(s, p, t);
    hide Refreshed, RefreshedTo;
  }

  // ----- The refreshed state in the provider's own terms

  /** A missing or negative season count stands for none. */
  function Known(s: State): int { if s.seasons.None? || s.seasons.value < 0 then 0 else s.seasons.value }

  /** The seasons looked at: all known ones; or the last known and the new ones if the provider has more. */
  predicate LookedAt(s: State, p: Provider, season: int) {
    season >= 1 && if p.seasons > Known(s) then Known(s) <= season <= p.seasons else season <= Known(s)
  }

  /** The i-th answer for season n is the first about the episode. */
  ghost predicate FirstTold(s: State, p: Provider, key: Key, n: int, i: nat) {
    LookedAt(s, p, n) && p.fetch(n).Some? && i < |p.fetch(n).value| && p.fetch(n).value[i].key == key &&
    (forall j :: 0 <= j < i ==> p.fetch(n).value[j].key != key) &&
    forall m, d :: LookedAt(s, p, m) && m < n && p.fetch(m).Some? && d in p.fetch(m).value ==> d.key != key
  }

  /** Stored episodes stay; unknown ones come as first told. A season becomes monitored exactly if it is new, and the item and
      its new seasons are monitored. Status and season count are the provider's, if it gives any. */
  ghost predicate RefreshedTo(s: State, p: Provider, t: State) {
    (forall key :: key in s.episodes ==> key in t.episodes && t.episodes[key] == s.episodes[key]) &&
    (forall key :: key in t.episodes && key !in s.episodes ==> exists n, i: nat :: FirstTold(s, p, key, n, i)) &&
    (forall key, n, i: nat :: FirstTold(s, p, key, n, i) && key !in s.episodes ==>
       var d := p.fetch(n).value[i];
       key in t.episodes &&
       t.episodes[key] == Content(d.title, d.overview, d.airDate, if d.runtime > 0 then Some(d.runtime) else None)) &&
    (forall n :: Lookup(t.monitors, n) ==
       if s.monitored && s.monitorNew && Known(s) < n <= p.seasons then Some(true) else Lookup(s.monitors, n)) &&
    t.status == (if p.status == "" then s.status else p.status) &&
    Known(t) == (if p.seasons <= 0 then Known(s) else p.seasons) &&
    t.monitored == s.monitored && t.monitorNew == s.monitorNew
  }

  /** The first of the data for the key. */
  ghost predicate FirstAt(data: seq<EpisodeData>, key: Key, i: nat) {
    i < |data| && data[i].key == key && forall j :: 0 <= j < i ==> data[j].key != key
  }

  lemma {:induction false} FirstForIs(data: seq<EpisodeData>, key: Key)
    ensures if FirstFor(data, key).Some? then exists i: nat :: FirstAt(data, key, i) && FirstFor(data, key) == Some(NewEpisode(data[i]))
            else forall d :: d in data ==> d.key != key
  {
    if data != [] {
      var init, last := data[..|data| - 1], data[|data| - 1];
      FirstForIs(init, key);
      assert data == init + [last];
      if i: nat :| FirstAt(init, key, i) && FirstFor(init, key) == Some(NewEpisode(init[i])) {
        assert FirstAt(data, key, i);
      } else if last.key == key {
        assert forall j :: 0 <= j < |init| ==> init[j] in init;
        assert FirstAt(data, key, |init|);
      }
    }
  }

  /** The answer for the key in the windows so far: in one of them, and in none before. */
  ghost predicate FirstIn(windows: seq<int>, p: Provider, key: Key, n: int, i: nat) {
    n in windows && p.fetch(n).Some? && FirstAt(p.fetch(n).value, key, i) &&
    forall m, d :: m in windows && m < n && p.fetch(m).Some? && d in p.fetch(m).value ==> d.key != key
  }

  lemma {:induction false} FirstForAppend(x: seq<EpisodeData>, y: seq<EpisodeData>, key: Key)
    ensures FirstFor(x + y, key) == if FirstFor(x, key).Some? then FirstFor(x, key) else FirstFor(y, key)
  {
    if y == [] {
      assert x + y == x;
    } else {
      FirstForAppend(x, y[..|y| - 1], key);
      assert (x + y)[..|x + y| - 1] == x + y[..|y| - 1];
    }
  }

  lemma {:induction false} FetchedFirst(windows: seq<int>, p: Provider, key: Key)
    requires Ascending(windows)
    ensures if FirstFor(Fetched(windows, p), key).Some? then
              exists n, i: nat ::
                FirstIn(windows, p, key, n, i) && FirstFor(Fetched(windows, p), key) == Some(NewEpisode(p.fetch(n).value[i]))
            else forall n, d :: n in windows && p.fetch(n).Some? && d in p.fetch(n).value ==> d.key != key
  {
    if windows != [] {
      var before, last := windows[..|windows| - 1], windows[|windows| - 1];
      FetchedFirst(before, p, key);
      FetchedFirstStep(windows, p, key);
    }
  }

  lemma FetchedFirstStep(windows: seq<int>, p: Provider, key: Key)
    requires windows != [] && Ascending(windows)
    requires var before := windows[..|windows| - 1];
             if FirstFor(Fetched(before, p), key).Some? then
               exists n, i: nat ::
                 FirstIn(before, p, key, n, i) && FirstFor(Fetched(before, p), key) == Some(NewEpisode(p.fetch(n).value[i]))
             else forall n, d :: n in before && p.fetch(n).Some? && d in p.fetch(n).value ==> d.key != key
    ensures if FirstFor(Fetched(windows, p), key).Some? then
              exists n, i: nat ::
                FirstIn(windows, p, key, n, i) && FirstFor(Fetched(windows, p), key) == Some(NewEpisode(p.fetch(n).value[i]))
            else forall n, d :: n in windows && p.fetch(n).Some? && d in p.fetch(n).value ==> d.key != key
  {
    var before, last := windows[..|windows| - 1], windows[|windows| - 1];
    var more := if p.fetch(last).Some? then p.fetch(last).value else [];
    FirstForAppend(Fetched(before, p), more, key);
    FirstForIs(more, key);
    assert windows == before + [last] && Fetched(windows, p) == Fetched(before, p) + more;
    hide Fetched, FirstFor, FirstAt;
    assert forall n :: n in before ==> n < last;
  }

  lemma EpisodesExactly(s: State, p: Provider, t: State, key: Key)
    requires Refreshed(s, p, t)
    ensures key in s.episodes ==> key in t.episodes && t.episodes[key] == s.episodes[key]
    ensures key in t.episodes && key !in s.episodes ==> exists n, i: nat :: FirstTold(s, p, key, n, i)
    ensures forall n, i: nat :: FirstTold(s, p, key, n, i) && key !in s.episodes ==>
              key in t.episodes && t.episodes[key] == NewEpisode(p.fetch(n).value[i])
  {
    var windows :| Ascending(windows) && (forall n :: n in windows <==> InWindows(SeasonCount(s), p.seasons, n)) &&
      EpisodesAfter(s.episodes, Fetched(windows, p), t.episodes);
    assert Lookup(t.episodes, key) == if key in s.episodes then Some(s.episodes[key]) else FirstFor(Fetched(windows, p), key);
    FetchedFirst(windows, p, key);
    assert forall n :: n in windows <==> LookedAt(s, p, n);
    hide Fetched, FirstFor, Refreshed, EpisodesAfter, Ascending, InWindows, LookedAt;
    forall n, i: nat ensures FirstTold(s, p, key, n, i) <==> FirstIn(windows, p, key, n, i) {
    }
    hide FirstTold;
    forall n, i: nat, m, j: nat | FirstIn(windows, p, key, n, i) && FirstIn(windows, p, key, m, j) ensures n == m && i == j {
      assert p.fetch(n).value[i] in p.fetch(n).value && p.fetch(m).value[j] in p.fetch(m).value;
    }
  }

  lemma RefreshExactly(s: State, p: Provider, t: State)
    requires Refreshed(s, p, t)
    ensures RefreshedTo(s, p, t)
  {
    assert MonitorsAfter(s, NewSeasons(s, p), t.monitors);
    hide Refreshed, FirstTold, EpisodesAfter;
    forall key
      ensures key in s.episodes ==> key in t.episodes && t.episodes[key] == s.episodes[key]
      ensures key in t.episodes && key !in s.episodes ==> exists n, i: nat :: FirstTold(s, p, key, n, i)
      ensures forall n, i: nat :: FirstTold(s, p, key, n, i) && key !in s.episodes ==>
                key in t.episodes && t.episodes[key] == NewEpisode(p.fetch(n).value[i])
    {
      EpisodesExactly(s, p, t, key);
    }
    OtherFields(s, p, t);
  }

  lemma OtherFields(s: State, p: Provider, t: State)
    requires Refreshed(s, p, t)
    ensures t.status == (if p.status == "" then s.status else p.status)
    ensures Known(t) == (if p.seasons <= 0 then Known(s) else p.seasons)
    ensures t.monitored == s.monitored && t.monitorNew == s.monitorNew
  {
  }

  // ----- What refreshing achieves

  lemma {:induction false} FirstForFinds(data: seq<EpisodeData>, key: Key)
    ensures FirstFor(data, key).Some? <==> exists d :: d in data && d.key == key
  {
    if data != [] {
      FirstForFinds(data[..|data| - 1], key);
      assert data == data[..|data| - 1] + [data[|data| - 1]];
    }
  }

  lemma {:induction false} FetchedFrom(windows: seq<int>, p: Provider)
    ensures forall d :: d in Fetched(windows, p) <==> exists n :: n in windows && p.fetch(n).Some? && d in p.fetch(n).value
  {
    if windows != [] {
      var before, last := windows[..|windows| - 1], windows[|windows| - 1];
      FetchedFrom(before, p);
      assert windows == before + [last];
      forall d ensures d in Fetched(windows, p) <==> exists n :: n in windows && p.fetch(n).Some? && d in p.fetch(n).value {
        if d in Fetched(before, p) {
          var n :| n in before && p.fetch(n).Some? && d in p.fetch(n).value;
          assert n in windows;
        }
      }
    }
  }

  /** The provider names an episode in some window the refresh looks at. */
  ghost predicate Told(p: Provider, from: int, to: int, key: Key) {
    exists n, d :: from <= n <= to && n >= 1 && p.fetch(n).Some? && d in p.fetch(n).value && d.key == key
  }

  function FirstWindow(s: State, p: Provider): int { if p.seasons > SeasonCount(s) then SeasonCount(s) else 1 }
  function LastWindow(s: State, p: Provider): int { if p.seasons > SeasonCount(s) then p.seasons else SeasonCount(s) }

  /** A refresh only adds: nothing stored changes or disappears, and exactly the episodes told in the windows are known afterwards. */
  lemma RefreshOnlyAdds(s: State, p: Provider, t: State, key: Key)
    requires Refreshed(s, p, t)
    ensures key in s.episodes ==> key in t.episodes && t.episodes[key] == s.episodes[key]
    ensures key in t.episodes <==> key in s.episodes || Told(p, FirstWindow(s, p), LastWindow(s, p), key)
  {
    var windows :| Ascending(windows) && (forall n :: n in windows <==> InWindows(SeasonCount(s), p.seasons, n)) &&
      EpisodesAfter(s.episodes, Fetched(windows, p), t.episodes);
    FetchedFrom(windows, p);
    FirstForFinds(Fetched(windows, p), key);
    assert Lookup(t.episodes, key) == if key in s.episodes then Some(s.episodes[key]) else FirstFor(Fetched(windows, p), key);
    hide Fetched, EpisodesAfter, FirstFor;
  }

  /** Monitoring only grows: every season monitored before still is, and new seasons are exactly those the policy adds. */
  lemma PolicyOnlyEnables(s: State, p: Provider, t: State, n: int)
    requires Refreshed(s, p, t)
    ensures n in s.monitors && s.monitors[n] ==> n in t.monitors && t.monitors[n]
    ensures Lookup(t.monitors, n) != Lookup(s.monitors, n) ==>
              s.monitored && s.monitorNew && SeasonCount(s) < n <= p.seasons && n in t.monitors && t.monitors[n]
  {
    assert Lookup(t.monitors, n) ==
           if PolicyApplies(s, NewSeasons(s, p)) && SeasonCount(s) < n <= NewSeasons(s, p) then Some(true)
           else Lookup(s.monitors, n);
  }

  /** Told about an older season that a growing season count made the first refresh skip, and not known after it. */
  ghost predicate Late(s: State, p: Provider, t: State, key: Key) {
    p.seasons > SeasonCount(s) && Told(p, 1, SeasonCount(s) - 1, key) && key !in t.episodes
  }

  /**
   With an unchanged provider the second refresh adds exactly the late episodes and changes nothing else, so it changes
   nothing exactly when there are none; the third changes nothing.
   */
  lemma RefreshSettles(s: State, p: Provider, t: State, u: State, v: State)
    requires Refreshed(s, p, t) && Refreshed(t, p, u) && Refreshed(u, p, v)
    ensures u.status == t.status && SeasonCount(u) == SeasonCount(t) && u.monitors == t.monitors
    ensures forall key :: key in t.episodes ==> key in u.episodes && u.episodes[key] == t.episodes[key]
    ensures forall key :: key in u.episodes && key !in t.episodes <==> Late(s, p, t, key)
    ensures u.episodes == t.episodes <==> forall key :: !Late(s, p, t, key)
    ensures v.episodes == u.episodes && v.monitors == u.monitors && v.status == u.status && SeasonCount(v) == SeasonCount(u)
  {
    SameMonitors(t, p, u);
    SameMonitors(u, p, v);
    forall key
      ensures key in t.episodes ==> key in u.episodes && u.episodes[key] == t.episodes[key]
      ensures key in u.episodes ==> key in v.episodes && v.episodes[key] == u.episodes[key]
      ensures key in v.episodes ==> key in u.episodes
      ensures key in u.episodes && key !in t.episodes <==> Late(s, p, t, key)
    {
      RefreshOnlyAdds(s, p, t, key);
      RefreshOnlyAdds(t, p, u, key);
      RefreshOnlyAdds(u, p, v, key);
      ToldApart(s, p, t, key);
      hide Refreshed, Told;
    }
    hide Refreshed, Late;
  }

  /** The second refresh looks at the older seasons the first one skipped, and at no others it has not looked at. */
  lemma ToldApart(s: State, p: Provider, t: State, key: Key)
    requires Refreshed(s, p, t)
    ensures Told(p, FirstWindow(t, p), LastWindow(t, p), key) ==>
              Told(p, FirstWindow(s, p), LastWindow(s, p), key) ||
              (p.seasons > SeasonCount(s) && Told(p, 1, SeasonCount(s) - 1, key))
    ensures p.seasons > SeasonCount(s) && Told(p, 1, SeasonCount(s) - 1, key) ==>
              Told(p, FirstWindow(t, p), LastWindow(t, p), key)
  {
    hide Refreshed, EpisodesAfter, Fetched;
    var from, to := FirstWindow(t, p), LastWindow(t, p);
    assert SeasonCount(t) == NewSeasons(s, p) by { SeasonsAfter(s, p, t); }
    if Told(p, from, to, key) {
      var n, d :| from <= n <= to && n >= 1 && p.fetch(n).Some? && d in p.fetch(n).value && d.key == key;
      assert FirstWindow(s, p) <= n <= LastWindow(s, p) || 1 <= n <= SeasonCount(s) - 1;
    }
    if p.seasons > SeasonCount(s) && Told(p, 1, SeasonCount(s) - 1, key) {
      var n, d :| 1 <= n <= SeasonCount(s) - 1 && p.fetch(n).Some? && d in p.fetch(n).value && d.key == key;
      assert from <= n <= to;
    }
  }

  lemma SeasonsAfter(s: State, p: Provider, t: State)
    requires Refreshed(s, p, t)
    ensures SeasonCount(t) == NewSeasons(s, p)
  {
  }

  const PILOT := EpisodeData(EpisodeCatalog.Key(1, 1), "Pilot", "", "2020-01-01", 0)

  /** A series grew from two seasons to three while season 1 got its first episode: it arrives with the second refresh. */
  lemma GrowthDelaysAnEpisode(t: State, u: State)
    requires var p := Provider(3, "", n => if n == 1 then Some([PILOT]) else Some([]));
             Refreshed(State(Some(2), "", map[], map[], false, false), p, t) && Refreshed(t, p, u)
    ensures PILOT.key !in t.episodes && PILOT.key in u.episodes
  {
    var s := State(Some(2), "", map[], map[], false, false);
    var p := Provider(3, "", n => if n == 1 then Some([PILOT]) else Some([]));
    RefreshOnlyAdds(s, p, t, PILOT.key);
    RefreshOnlyAdds(t, p, u, PILOT.key);
    SeasonsAfter(s, p, t);
    hide Refreshed;
    assert p.fetch(1).Some? && PILOT in p.fetch(1).value;
    assert FirstWindow(t, p) <= 1 <= LastWindow(t, p);
  }

  lemma SameMonitors(t: State, p: Provider, u: State)
    requires Refreshed(t, p, u) && p.seasons <= SeasonCount(t)
    ensures u.monitors == t.monitors
  {
    assert forall n :: Lookup(u.monitors, n) == Lookup(t.monitors, n);
    assert forall n :: n in u.monitors <==> Lookup(u.monitors, n).Some?;
    assert forall n :: n in t.monitors <==> Lookup(t.monitors, n).Some?;
  }
}
