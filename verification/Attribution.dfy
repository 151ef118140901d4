/** What one change newly enabled (backend/internal/sync/request_attribution.go). */
module Attribution {
  import opened Wrappers
  import opened Scopes

  /** A snapshot of an item's monitoring. */
  datatype MonitoringState = MonitoringState(
    media: MediaType,
    monitored: bool,
    newSeasons: bool,
    seasonCount: int,
    seasons: map<int, bool>,
    overrides: map<Key, bool>,
    episodes: seq<Key>)
  {
    /** Item gate and (episode override, else season flag). */
    predicate EpisodeMonitored(key: Key) {
      monitored && Selected(overrides, seasons, key)
    }

    predicate SeasonMonitored(season: int) {
      monitored && season in seasons && seasons[season]
    }

    predicate NewSeasonsMonitored() {
      monitored && newSeasons
    }
  }

  predicate Flips(before: MonitoringState, after: MonitoringState, key: Key) {
    !before.EpisodeMonitored(key) && after.EpisodeMonitored(key)
  }

  predicate SeasonFlips(before: MonitoringState, after: MonitoringState, season: int) {
    !before.SeasonMonitored(season) && after.SeasonMonitored(season)
  }

  predicate FutureFlips(before: MonitoringState, after: MonitoringState) {
    !before.NewSeasonsMonitored() && after.NewSeasonsMonitored()
  }

  /** Listed in the catalog, or overridden on either side of the change. */
  predicate KnownKey(before: MonitoringState, after: MonitoringState, key: Key) {
    key in after.episodes || key in before.overrides || key in after.overrides
  }

  // ----- What is attributed

  /** The season's default turned on, and so did every known key of the season. */
  ghost predicate SeasonAttributed(before: MonitoringState, after: MonitoringState, season: int) {
    SeasonFlips(before, after, season) &&
    forall k :: KnownKey(before, after, k) && k.season == season ==> Flips(before, after, k)
  }

  ghost predicate EpisodeAttributed(before: MonitoringState, after: MonitoringState, changed: seq<Key>, key: Key) {
    Flips(before, after, key) && (KnownKey(before, after, key) || key in changed) &&
    !SeasonAttributed(before, after, key.season)
  }

  /** Seasons 1 to n all turned on, in one step of the item's gate or of an edit that names them all. */
  ghost predicate WholeAttributed(before: MonitoringState, after: MonitoringState, changedSeasons: seq<int>) {
    after.seasonCount > 0 &&
    ((!before.monitored && after.monitored) || forall n :: 1 <= n <= after.seasonCount ==> n in changedSeasons) &&
    forall n :: 1 <= n <= after.seasonCount ==> SeasonAttributed(before, after, n)
  }

  /** Whether x is attributed, apart from the media scope that accompanies every attribution of a series. */
  ghost predicate Attributes(
      before: MonitoringState, after: MonitoringState, changedSeasons: seq<int>, changed: seq<Key>, x: Scope) {
    if before.media == Movie then x == MEDIA && !before.monitored && after.monitored
    else
      (x == FUTURE_SEASONS && FutureFlips(before, after)) ||
      if WholeAttributed(before, after, changedSeasons) then x == WHOLE_SERIES
      else
        (x == SeasonScope(x.season) && SeasonAttributed(before, after, x.season)) ||
        (x.kind == EpisodeKind && EpisodeAttributed(before, after, changed, Key(x.season, x.episode)))
  }

  ghost predicate Emitted(
      before: MonitoringState, after: MonitoringState, changedSeasons: seq<int>, changed: seq<Key>, x: Scope) {
    Attributes(before, after, changedSeasons, changed, x) ||
    (x == MEDIA && exists y :: Attributes(before, after, changedSeasons, changed, y))
  }

  // ----- The scopes, told from the two snapshots alone

  ghost predicate SeasonOn(s: MonitoringState, n: int) { s.monitored && n in s.seasons && s.seasons[n] }

  ghost predicate KeyOn(s: MonitoringState, k: Key) {
    s.monitored && if k in s.overrides then s.overrides[k] else k.season in s.seasons && s.seasons[k.season]
  }

  /** The key was not monitored and is now. */
  ghost predicate TurnsOn(b: MonitoringState, a: MonitoringState, k: Key) { KeyOn(a, k) && !KeyOn(b, k) }

  /** The season was not monitored and is now, and the same holds of every key of the season that either side knows of. */
  ghost predicate SeasonTurnsOn(b: MonitoringState, a: MonitoringState, n: int) {
    SeasonOn(a, n) && !SeasonOn(b, n) &&
    forall k: Key :: k.season == n && (k in a.episodes || k in b.overrides || k in a.overrides) ==> TurnsOn(b, a, k)
  }

  /** All numbered seasons turned on, because the item was switched on or because the edit named each of them. */
  ghost predicate SeriesTurnsOn(b: MonitoringState, a: MonitoringState, changedSeasons: seq<int>) {
    a.seasonCount > 0 && (forall n :: 1 <= n <= a.seasonCount ==> SeasonTurnsOn(b, a, n)) &&
    ((a.monitored && !b.monitored) || forall n :: 1 <= n <= a.seasonCount ==> n in changedSeasons)
  }

  ghost predicate ScopesOfSeries(b: MonitoringState, a: MonitoringState, changedSeasons: seq<int>, changed: seq<Key>, scopes: seq<Scope>) {
    (FUTURE_SEASONS in scopes <==> a.monitored && a.newSeasons && !(b.monitored && b.newSeasons)) &&
    (WHOLE_SERIES in scopes <==> SeriesTurnsOn(b, a, changedSeasons)) &&
    (forall n :: SeasonScope(n) in scopes <==> SeasonTurnsOn(b, a, n) && WHOLE_SERIES !in scopes) &&
    (forall k :: EpisodeScope(k) in scopes <==>
       TurnsOn(b, a, k) && (k in a.episodes || k in b.overrides || k in a.overrides || k in changed) &&
       !SeasonTurnsOn(b, a, k.season) && WHOLE_SERIES !in scopes) &&
    (MEDIA in scopes <==> exists x :: x in scopes && x != MEDIA) &&
    forall x :: x in scopes ==>
      x in {MEDIA, FUTURE_SEASONS, WHOLE_SERIES} || x == SeasonScope(x.season) || x == EpisodeScope(Key(x.season, x.episode))
  }

  lemma SeasonTurnsOnMeans(b: MonitoringState, a: MonitoringState, n: int)
    ensures SeasonTurnsOn(b, a, n) <==> SeasonAttributed(b, a, n)
  {
    forall k ensures TurnsOn(b, a, k) <==> Flips(b, a, k) {
    }
    hide TurnsOn, Flips;
  }

  lemma SeriesTurnsOnMeans(b: MonitoringState, a: MonitoringState, changedSeasons: seq<int>)
    ensures SeriesTurnsOn(b, a, changedSeasons) <==> WholeAttributed(b, a, changedSeasons)
  {
    forall n ensures SeasonTurnsOn(b, a, n) <==> SeasonAttributed(b, a, n) { SeasonTurnsOnMeans(b, a, n); }
    hide SeasonTurnsOn, SeasonAttributed;
  }

  lemma EpisodeScopeMeans(b: MonitoringState, a: MonitoringState, changedSeasons: seq<int>, changed: seq<Key>, k: Key)
    requires b.media == Series
    ensures Emitted(b, a, changedSeasons, changed, EpisodeScope(k)) <==>
              TurnsOn(b, a, k) && (k in a.episodes || k in b.overrides || k in a.overrides || k in changed) &&
              !SeasonTurnsOn(b, a, k.season) && !WholeAttributed(b, a, changedSeasons)
  {
    var x := EpisodeScope(k);
    assert Key(x.season, x.episode) == k;
    SeasonTurnsOnMeans(b, a, k.season);
    assert TurnsOn(b, a, k) <==> Flips(b, a, k);
    hide SeasonTurnsOn, SeasonAttributed, WholeAttributed, TurnsOn, Flips;
  }

  lemma OtherScopesMean(b: MonitoringState, a: MonitoringState, changedSeasons: seq<int>, changed: seq<Key>, x: Scope)
    requires b.media == Series
    ensures Emitted(b, a, changedSeasons, changed, FUTURE_SEASONS) <==> a.monitored && a.newSeasons && !(b.monitored && b.newSeasons)
    ensures Emitted(b, a, changedSeasons, changed, WHOLE_SERIES) <==> WholeAttributed(b, a, changedSeasons)
    ensures Emitted(b, a, changedSeasons, changed, SeasonScope(x.season)) <==>
              SeasonAttributed(b, a, x.season) && !WholeAttributed(b, a, changedSeasons)
    ensures Emitted(b, a, changedSeasons, changed, MEDIA) <==> exists y :: Emitted(b, a, changedSeasons, changed, y) && y != MEDIA
    ensures Emitted(b, a, changedSeasons, changed, x) ==>
              x in {MEDIA, FUTURE_SEASONS, WHOLE_SERIES} || x == SeasonScope(x.season) || x == EpisodeScope(Key(x.season, x.episode))
  {
    hide WholeAttributed, SeasonAttributed, EpisodeAttributed;
    if y :| Attributes(b, a, changedSeasons, changed, y) { assert y != MEDIA && Emitted(b, a, changedSeasons, changed, y); }
  }

  /** The emitted scopes of a change to a series are exactly those that the two snapshots call for. */
  lemma ScopesExactly(b: MonitoringState, a: MonitoringState, changedSeasons: seq<int>, changed: seq<Key>, scopes: seq<Scope>)
    requires b.media == Series && forall x :: x in scopes <==> Emitted(b, a, changedSeasons, changed, x)
    ensures ScopesOfSeries(b, a, changedSeasons, changed, scopes)
  {
    hide Emitted, WholeAttributed, SeasonAttributed, TurnsOn, SeasonTurnsOn, SeriesTurnsOn;
    SeriesTurnsOnMeans(b, a, changedSeasons);
    OtherScopesMean(b, a, changedSeasons, changed, MEDIA);
    forall n ensures SeasonScope(n) in scopes <==> SeasonTurnsOn(b, a, n) && WHOLE_SERIES !in scopes {
      OtherScopesMean(b, a, changedSeasons, changed, SeasonScope(n));
      SeasonTurnsOnMeans(b, a, n);
    }
    forall k ensures EpisodeScope(k) in scopes <==>
        TurnsOn(b, a, k) && (k in a.episodes || k in b.overrides || k in a.overrides || k in changed) &&
        !SeasonTurnsOn(b, a, k.season) && WHOLE_SERIES !in scopes
    {
      EpisodeScopeMeans(b, a, changedSeasons, changed, k);
    }
    forall x | x in scopes
      ensures x in {MEDIA, FUTURE_SEASONS, WHOLE_SERIES} || x == SeasonScope(x.season) || x == EpisodeScope(Key(x.season, x.episode))
    {
      OtherScopesMean(b, a, changedSeasons, changed, x);
    }
  }

  // ----- The loops

  function Of(groups: map<int, seq<Key>>, season: int): seq<Key> {
    if season in groups then groups[season] else []
  }

  /** The groups hold exactly the given keys, each under its season. */
  ghost predicate Groups(groups: map<int, seq<Key>>, keys: set<Key>) {
    forall s, k :: k in Of(groups, s) <==> k.season == s && k in keys
  }

  lemma GroupOne(groups: map<int, seq<Key>>, keys: set<Key>, key: Key)
    requires Groups(groups, keys)
    ensures Groups(groups[key.season := Of(groups, key.season) + [key]], keys + {key})
  {
    var next := groups[key.season := Of(groups, key.season) + [key]];
    forall s, k ensures k in Of(next, s) <==> k.season == s && k in keys + {key} {
      assert k in Of(groups, s) <==> k.season == s && k in keys;
    }
  }

  method AllIn(keys: seq<Key>, transitioned: set<Key>) returns (b: bool)
    ensures b <==> forall k :: k in keys ==> k in transitioned
  {
    for i := 0 to |keys|
      invariant forall j :: 0 <= j < i ==> keys[j] in transitioned
    {
      if keys[i] !in transitioned { return false; }
    }
    return true;
  }

  method OnlyIn(keys: seq<Key>, transitioned: set<Key>) returns (found: set<Key>)
    ensures forall k :: k in found <==> k in keys && k in transitioned
  {
    found := {};
    for i := 0 to |keys|
      invariant forall k :: k in found <==> k in keys[..i] && k in transitioned
    {
      assert keys[..i + 1] == keys[..i] + [keys[i]];
      if keys[i] in transitioned { found := found + {keys[i]}; }
    }
    assert keys[..|keys|] == keys;
  }

  /** One pass over the catalog. */
  method ReadCatalog(before: MonitoringState, after: MonitoringState)
    returns (seasonEpisodes: map<int, seq<Key>>, catalog: set<Key>, transitioned: set<Key>)
    ensures forall k :: k in catalog <==> k in after.episodes
    ensures Groups(seasonEpisodes, catalog)
    ensures forall k :: k in transitioned <==> k in catalog && Flips(before, after, k)
  {
    seasonEpisodes, catalog, transitioned := map[], {}, {};
    for i := 0 to |after.episodes|
      invariant forall k :: k in catalog <==> k in after.episodes[..i]
      invariant Groups(seasonEpisodes, catalog)
      invariant forall k :: k in transitioned <==> k in catalog && Flips(before, after, k)
    {
      var key := after.episodes[i];
      assert after.episodes[..i + 1] == after.episodes[..i] + [key];
      GroupOne(seasonEpisodes, catalog, key);
      seasonEpisodes := seasonEpisodes[key.season := Of(seasonEpisodes, key.season) + [key]];
      catalog := catalog + {key};
      if !before.EpisodeMonitored(key) && after.EpisodeMonitored(key) {
        transitioned := transitioned + {key};
      }
    }
    assert after.episodes[..|after.episodes|] == after.episodes;
  }

  /** One pass over the override keys that the catalog does not list. */
  method ReadOverrides(before: MonitoringState, after: MonitoringState, catalog: set<Key>)
    returns (extraEpisodes: map<int, seq<Key>>, transitioned: set<Key>)
    ensures Groups(extraEpisodes, before.overrides.Keys + after.overrides.Keys - catalog)
    ensures forall k :: k in transitioned <==>
              k in before.overrides.Keys + after.overrides.Keys - catalog && Flips(before, after, k)
  {
    var keys := before.overrides.Keys + after.overrides.Keys;
    extraEpisodes, transitioned := map[], {};
    var rest := keys;
    while rest != {}
      invariant rest <= keys
      invariant Groups(extraEpisodes, keys - rest - catalog)
      invariant forall k :: k in transitioned <==> k in keys - rest - catalog && Flips(before, after, k)
      decreases rest
    {
      var key := Pick(rest);
      if key !in catalog {
        GroupOne(extraEpisodes, keys - rest - catalog, key);
        assert keys - (rest - {key}) - catalog == keys - rest - catalog + {key};
        extraEpisodes := extraEpisodes[key.season := Of(extraEpisodes, key.season) + [key]];
        if !before.EpisodeMonitored(key) && after.EpisodeMonitored(key) {
          transitioned := transitioned + {key};
        }
      } else {
        assert keys - (rest - {key}) - catalog == keys - rest - catalog;
      }
      rest := rest - {key};
    }
  }

  /** The transitions of one season. */
  method ReadSeason(before: MonitoringState, after: MonitoringState, season: int,
                    episodes: seq<Key>, extra: seq<Key>, transitioned: set<Key>)
    returns (whole: bool, found: set<Key>)
    requires forall k :: k in episodes || k in extra <==> k.season == season && KnownKey(before, after, k)
    requires forall k :: k in transitioned <==> KnownKey(before, after, k) && Flips(before, after, k)
    ensures whole <==> SeasonAttributed(before, after, season)
    ensures forall k :: k in found <==> !whole && k.season == season && KnownKey(before, after, k) && Flips(before, after, k)
  {
    found := {};
    var defaultTransition := !before.SeasonMonitored(season) && after.SeasonMonitored(season);
    if |episodes| == 0 && |extra| == 0 {
      return defaultTransition, {};
    }
    whole := defaultTransition;
    var listed := AllIn(episodes, transitioned);
    var overridden := AllIn(extra, transitioned);
    whole := whole && listed && overridden;
    if !whole {
      var f := OnlyIn(episodes, transitioned);
      var g := OnlyIn(extra, transitioned);
      found := f + g;
    }
  }

  /** One pass over the seasons that the change may concern. */
  method ReadSeasons(before: MonitoringState, after: MonitoringState, seasonNumbers: set<int>,
                     seasonEpisodes: map<int, seq<Key>>, extraEpisodes: map<int, seq<Key>>,
                     catalog: set<Key>, transitioned: set<Key>)
    returns (seasonTransitions: set<int>, episodeTransitions: set<Key>)
    requires forall k :: k in catalog <==> k in after.episodes
    requires Groups(seasonEpisodes, catalog)
    requires Groups(extraEpisodes, before.overrides.Keys + after.overrides.Keys - catalog)
    requires forall k :: k in transitioned <==> KnownKey(before, after, k) && Flips(before, after, k)
    requires forall k :: KnownKey(before, after, k) ==> k.season in seasonNumbers
    requires forall s :: s in after.seasons ==> s in seasonNumbers
    ensures forall s :: s in seasonTransitions <==> SeasonAttributed(before, after, s)
    ensures forall k :: k in episodeTransitions <==>
              KnownKey(before, after, k) && Flips(before, after, k) && !SeasonAttributed(before, after, k.season)
  {
    seasonTransitions, episodeTransitions := {}, {};
    var rest := seasonNumbers;
    while rest != {}
      invariant rest <= seasonNumbers
      invariant forall s :: s in seasonTransitions <==> s in seasonNumbers - rest && SeasonAttributed(before, after, s)
      invariant forall k :: k in episodeTransitions <==>
                  k.season in seasonNumbers - rest && KnownKey(before, after, k) && Flips(before, after, k) &&
                  !SeasonAttributed(before, after, k.season)
      decreases rest
    {
      var season := Pick(rest);
      forall k
        ensures k in Of(seasonEpisodes, season) || k in Of(extraEpisodes, season) <==>
                  k.season == season && KnownKey(before, after, k)
      {
        assert k in Of(seasonEpisodes, season) <==> k.season == season && k in catalog;
      }
      var whole, found := ReadSeason(before, after, season, Of(seasonEpisodes, season), Of(extraEpisodes, season), transitioned);
      if whole {
        seasonTransitions := seasonTransitions + {season};
      }
      episodeTransitions := episodeTransitions + found;
      rest := rest - {season};
    }
  }

  method ReadChangedEpisodes(before: MonitoringState, after: MonitoringState, changed: seq<Key>) returns (found: set<Key>)
    ensures forall k :: k in found <==> k in changed && Flips(before, after, k)
  {
    found := {};
    for i := 0 to |changed|
      invariant forall k :: k in found <==> k in changed[..i] && Flips(before, after, k)
    {
      assert changed[..i + 1] == changed[..i] + [changed[i]];
      if !before.EpisodeMonitored(changed[i]) && after.EpisodeMonitored(changed[i]) {
        found := found + {changed[i]};
      }
    }
    assert changed[..|changed|] == changed;
  }

  method SetOf(seasons: seq<int>) returns (r: set<int>)
    ensures forall s :: s in r <==> s in seasons
  {
    r := {};
    for i := 0 to |seasons|
      invariant forall s :: s in r <==> s in seasons[..i]
    {
      assert seasons[..i + 1] == seasons[..i] + [seasons[i]];
      r := r + {seasons[i]};
    }
    assert seasons[..|seasons|] == seasons;
  }

  method AllSeasonsIn(count: int, seasons: set<int>) returns (all: bool)
    ensures all <==> forall n :: 1 <= n <= count ==> n in seasons
  {
    var n := 1;
    while n <= count
      invariant 1 <= n && forall k :: 1 <= k < n ==> k in seasons
      decreases count - n
    {
      if n !in seasons { return false; }
      n := n + 1;
    }
    return true;
  }

  method SeasonAndEpisodeScopes(seasonTransitions: set<int>, episodeTransitions: set<Key>) returns (seen: set<Scope>)
    ensures forall x :: x in seen <==>
              (x == SeasonScope(x.season) && x.season in seasonTransitions) ||
              (x.kind == EpisodeKind && Key(x.season, x.episode) in episodeTransitions && x.season !in seasonTransitions)
  {
    seen := {};
    var seasons := seasonTransitions;
    while seasons != {}
      invariant seasons <= seasonTransitions
      invariant forall x :: x in seen <==> x == SeasonScope(x.season) && x.season in seasonTransitions - seasons
      decreases seasons
    {
      var s := Pick(seasons);
      seen := seen + {SeasonScope(s)};
      seasons := seasons - {s};
    }
    var keys := episodeTransitions;
    while keys != {}
      invariant keys <= episodeTransitions
      invariant forall x :: x in seen <==>
                  (x == SeasonScope(x.season) && x.season in seasonTransitions) ||
                  (x.kind == EpisodeKind && Key(x.season, x.episode) in episodeTransitions - keys &&
                   x.season !in seasonTransitions)
      decreases keys
    {
      var k := Pick(keys);
      if k.season !in seasonTransitions {
        seen := seen + {EpisodeScope(k)};
      }
      keys := keys - {k};
    }
  }

  method NewlyEnabledRequestScopes(
      before: MonitoringState, after: MonitoringState, changedSeasons: seq<int>, changed: seq<Key>)
    returns (scopes: seq<Scope>)
    ensures Sorted(scopes)
    ensures forall x :: x in scopes <==> Emitted(before, after, changedSeasons, changed, x)
    ensures before.media == Movie ==> scopes == if after.monitored && !before.monitored then [MEDIA] else []
    ensures before.media == Series ==> ScopesOfSeries(before, after, changedSeasons, changed, scopes)
  {
    scopes := SeenScopes(before, after, changedSeasons, changed);
    if before.media == Series {
      ScopesExactly(before, after, changedSeasons, changed, scopes);
    } else {
      MovieScopes(before, after, changedSeasons, changed, scopes);
    }
    hide ScopesOfSeries, Emitted;
  }

  lemma MovieScopes(before: MonitoringState, after: MonitoringState, changedSeasons: seq<int>, changed: seq<Key>, scopes: seq<Scope>)
    requires before.media == Movie && Sorted(scopes) && forall x :: x in scopes <==> Emitted(before, after, changedSeasons, changed, x)
    ensures scopes == if after.monitored && !before.monitored then [MEDIA] else []
  {
    var due: seq<Scope> := if after.monitored && !before.monitored then [MEDIA] else [];
    assert after.monitored && !before.monitored ==> Attributes(before, after, changedSeasons, changed, MEDIA);
    OneListing(scopes, due, set x | x in due);
  }

  method SeenScopes(before: MonitoringState, after: MonitoringState, changedSeasons: seq<int>, changed: seq<Key>)
    returns (scopes: seq<Scope>)
    ensures Sorted(scopes)
    ensures forall x :: x in scopes <==> Emitted(before, after, changedSeasons, changed, x)
  {
    var seen: set<Scope> := {};
    if before.media == Movie {
      if !before.monitored && after.monitored {
        seen := {MEDIA};
      }
      scopes := SortedRequestScopes(seen);
      return;
    }
    if !(before.monitored && before.newSeasons) && after.monitored && after.newSeasons {
      seen := {FUTURE_SEASONS};
    }
    var transitions, whole := Transitions(before, after, changedSeasons, changed);
    if whole {
      seen := seen + {WHOLE_SERIES};
    } else {
      seen := seen + transitions;
    }
    assert forall x :: x in seen <==> Attributes(before, after, changedSeasons, changed, x);
    if seen != {} {
      var y :| y in seen;
      assert Attributes(before, after, changedSeasons, changed, y);
      seen := seen + {MEDIA};
    }
    scopes := SortedRequestScopes(seen);
  }

  /** The season and episode scopes of a series, and whether they amount to the whole series. */
  method Transitions(before: MonitoringState, after: MonitoringState, changedSeasons: seq<int>, changed: seq<Key>)
    returns (transitions: set<Scope>, whole: bool)
    ensures whole <==> WholeAttributed(before, after, changedSeasons)
    ensures forall x :: x in transitions <==>
              (x == SeasonScope(x.season) && SeasonAttributed(before, after, x.season)) ||
              (x.kind == EpisodeKind && EpisodeAttributed(before, after, changed, Key(x.season, x.episode)))
  {
    var seasonEpisodes, catalog, transitioned := ReadCatalog(before, after);
    var extraEpisodes, extraTransitioned := ReadOverrides(before, after, catalog);
    transitioned := transitioned + extraTransitioned;
    var changedSeasonSet := SetOf(changedSeasons);
    var keys := catalog + before.overrides.Keys + after.overrides.Keys;
    var seasonNumbers := (set k | k in keys :: k.season) + before.seasons.Keys + after.seasons.Keys + changedSeasonSet;
    assert forall k :: KnownKey(before, after, k) <==> k in keys;
    var seasonTransitions, episodeTransitions := ReadSeasons(
      before, after, seasonNumbers, seasonEpisodes, extraEpisodes, catalog, transitioned);
    var edited := ReadChangedEpisodes(before, after, changed);
    episodeTransitions := episodeTransitions + edited;
    var parentTransition := !before.monitored && after.monitored;
    var allSeasonsChanged := AllSeasonsIn(after.seasonCount, changedSeasonSet);
    whole := after.seasonCount > 0 && (parentTransition || allSeasonsChanged);
    if whole {
      whole := AllSeasonsIn(after.seasonCount, seasonTransitions);
      assert whole <==> forall n :: 1 <= n <= after.seasonCount ==> SeasonAttributed(before, after, n);
    }
    transitions := SeasonAndEpisodeScopes(seasonTransitions, episodeTransitions);
  }

  // ----- Sound, complete and without redundancy

  /** Every known key that turned on is covered by its season scope or by its own episode scope, never by both;
      a known key that did not is covered by neither. */
  lemma CoveredOnce(before: MonitoringState, after: MonitoringState, changedSeasons: seq<int>, changed: seq<Key>, key: Key)
    requires before.media == Series && !WholeAttributed(before, after, changedSeasons)
    requires KnownKey(before, after, key)
    ensures var bySeason := Emitted(before, after, changedSeasons, changed, SeasonScope(key.season));
            var byEpisode := Emitted(before, after, changedSeasons, changed, EpisodeScope(key));
            !(bySeason && byEpisode) && (bySeason || byEpisode <==> Flips(before, after, key))
  {
    var x := EpisodeScope(key);
    assert Key(x.season, x.episode) == key;
  }

  /** Some emitted scope speaks of the key; the whole series of the numbered seasons. */
  ghost predicate Named(before: MonitoringState, after: MonitoringState, changedSeasons: seq<int>, changed: seq<Key>, key: Key) {
    (Emitted(before, after, changedSeasons, changed, WHOLE_SERIES) && 1 <= key.season <= after.seasonCount) ||
    Emitted(before, after, changedSeasons, changed, SeasonScope(key.season)) ||
    Emitted(before, after, changedSeasons, changed, EpisodeScope(key))
  }

  /** A known key is named exactly when it turned on, except where the whole series stands for all scopes: then those outside
      the numbered seasons, such as specials, go unnamed. */
  lemma NamedExactly(before: MonitoringState, after: MonitoringState, changedSeasons: seq<int>, changed: seq<Key>, key: Key)
    requires before.media == Series && KnownKey(before, after, key)
    ensures Named(before, after, changedSeasons, changed, key) <==>
              Flips(before, after, key) &&
              (WholeAttributed(before, after, changedSeasons) ==> 1 <= key.season <= after.seasonCount)
  {
    if WholeAttributed(before, after, changedSeasons) {
      assert Attributes(before, after, changedSeasons, changed, WHOLE_SERIES);
      if 1 <= key.season <= after.seasonCount { assert SeasonAttributed(before, after, key.season); }
    } else {
      CoveredOnce(before, after, changedSeasons, changed, key);
    }
    hide WholeAttributed, SeasonAttributed, Flips;
  }

  const SPECIALS := MonitoringState(Series, false, false, 1, map[0 := true, 1 := true], map[], [Key(0, 1), Key(1, 1)])

  /** Switching such a series on names the whole series, and its special not at all. */
  lemma SpecialGoesUnnamed()
    ensures var after := SPECIALS.(monitored := true);
            Flips(SPECIALS, after, Key(0, 1)) && Emitted(SPECIALS, after, [], [], WHOLE_SERIES) &&
            !Named(SPECIALS, after, [], [], Key(0, 1))
  {
    var after := SPECIALS.(monitored := true);
    assert Key(0, 1) in after.episodes;
    assert SeasonAttributed(SPECIALS, after, 1);
    assert Attributes(SPECIALS, after, [], [], WHOLE_SERIES);
    NamedExactly(SPECIALS, after, [], [], Key(0, 1));
  }

  /** The meaning of each emitted scope. */
  lemma ScopesAreTrue(before: MonitoringState, after: MonitoringState, changedSeasons: seq<int>, changed: seq<Key>, x: Scope)
    requires before.media == Series && Emitted(before, after, changedSeasons, changed, x)
    ensures x.kind == SeasonKind ==>
              SeasonFlips(before, after, x.season) &&
              forall k :: KnownKey(before, after, k) && k.season == x.season ==> Flips(before, after, k)
    ensures x.kind == EpisodeKind ==> Flips(before, after, Key(x.season, x.episode))
    ensures x.kind == FutureSeasonsKind ==> FutureFlips(before, after)
    ensures x.kind == WholeSeriesKind ==>
              (forall n :: 1 <= n <= after.seasonCount ==> SeasonFlips(before, after, n)) &&
              forall k :: KnownKey(before, after, k) && 1 <= k.season <= after.seasonCount ==> Flips(before, after, k)
  {
    if x.kind == WholeSeriesKind {
      assert WholeAttributed(before, after, changedSeasons);
      forall n | 1 <= n <= after.seasonCount ensures SeasonFlips(before, after, n) {
        assert SeasonAttributed(before, after, n);
      }
      forall k | KnownKey(before, after, k) && 1 <= k.season <= after.seasonCount ensures Flips(before, after, k) {
        assert SeasonAttributed(before, after, k.season);
      }
    }
  }

  /** Nothing is emitted exactly when the change enabled nothing: no new-seasons flag, no known or edited key, and no
      season whose known keys all follow it. */
  lemma EmptyExactly(before: MonitoringState, after: MonitoringState, changedSeasons: seq<int>, changed: seq<Key>)
    requires before.media == Series
    ensures (forall x :: !Emitted(before, after, changedSeasons, changed, x)) <==>
              !FutureFlips(before, after) &&
              (forall k :: KnownKey(before, after, k) || k in changed ==> !Flips(before, after, k)) &&
              forall s :: !SeasonAttributed(before, after, s)
  {
    if forall x :: !Emitted(before, after, changedSeasons, changed, x) {
      assert !Emitted(before, after, changedSeasons, changed, FUTURE_SEASONS);
      assert !Emitted(before, after, changedSeasons, changed, WHOLE_SERIES);
      forall s ensures !SeasonAttributed(before, after, s) {
        assert !Emitted(before, after, changedSeasons, changed, SeasonScope(s));
      }
      forall k | KnownKey(before, after, k) || k in changed ensures !Flips(before, after, k) {
        var x := EpisodeScope(k);
        assert Key(x.season, x.episode) == k && !Emitted(before, after, changedSeasons, changed, x);
      }
    } else {
      var x :| Emitted(before, after, changedSeasons, changed, x);
      var y :| Attributes(before, after, changedSeasons, changed, y);
      if WholeAttributed(before, after, changedSeasons) {
        assert SeasonAttributed(before, after, 1);
      }
    }
  }

  /** A change that only switches things off is attributed to nobody. */
  lemma DisablingIsSilent(before: MonitoringState, after: MonitoringState, changedSeasons: seq<int>, changed: seq<Key>, x: Scope)
    requires before.media == after.media == Series
    requires after.NewSeasonsMonitored() ==> before.NewSeasonsMonitored()
    requires forall k :: after.EpisodeMonitored(k) ==> before.EpisodeMonitored(k)
    requires forall s :: after.SeasonMonitored(s) ==> before.SeasonMonitored(s)
    ensures !Emitted(before, after, changedSeasons, changed, x)
  {
    EmptyExactly(before, after, changedSeasons, changed);
  }
}
