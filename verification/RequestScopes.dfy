/** Compiling a selection into request scopes (backend/internal/matching/request_scopes.go). */
module RequestScopes {
  import opened Wrappers
  import opened Scopes

  // A request selects a key when the key's own flag says so or, without one, its season's flag does. The emitted
  // scopes are proved to cover exactly the selected keys.

  datatype SeasonFlag = SeasonFlag(season: int, monitored: bool)
  datatype EpisodeFlag = EpisodeFlag(key: Key, monitored: bool)

  datatype Request = Request(
    monitored: Option<bool>,
    monitorNewSeasons: Option<bool>,
    profile: Option<nat>,
    seasons: seq<SeasonFlag>,
    episodes: seq<EpisodeFlag>)

  /** What is known of a series: its listed episodes and the season count of its metadata. */
  datatype Catalog = Catalog(episodes: seq<Key>, seasonCount: Option<int>)

  predicate Active(media: MediaType, req: Request) {
    media == Series && req.monitored == Some(true)
  }

  predicate KnownSeason(cat: Catalog, season: int) {
    (cat.seasonCount.Some? && 1 <= season <= cat.seasonCount.value) ||
    exists k :: k in cat.episodes && k.season == season
  }

  predicate Submitted(seasons: seq<SeasonFlag>, season: int) {
    exists f :: f in seasons && f.season == season
  }

  predicate DistinctSeasons(seasons: seq<SeasonFlag>) {
    forall i, j :: 0 <= i < j < |seasons| ==> seasons[i].season != seasons[j].season
  }

  /** Season flags as a map; a repeated season keeps its last flag. */
  function Defaults(seasons: seq<SeasonFlag>): (m: map<int, bool>)
    ensures forall s :: s in m <==> Submitted(seasons, s)
    ensures forall s :: s in m ==> SeasonFlag(s, m[s]) in seasons
  {
    if seasons == [] then map[]
    else
      var last := seasons[|seasons| - 1];
      var rest := seasons[..|seasons| - 1];
      assert seasons == rest + [last];
      Defaults(rest)[last.season := last.monitored]
  }

  predicate HasOverride(episodes: seq<EpisodeFlag>, key: Key) {
    exists f :: f in episodes && f.key == key
  }

  /** Episode flags as a map; a repeated key keeps its last flag. */
  function Overrides(episodes: seq<EpisodeFlag>): (m: map<Key, bool>)
    ensures forall k :: k in m <==> HasOverride(episodes, k)
    ensures forall k :: k in m ==> EpisodeFlag(k, m[k]) in episodes
  {
    if episodes == [] then map[]
    else
      var last := episodes[|episodes| - 1];
      var rest := episodes[..|episodes| - 1];
      assert episodes == rest + [last];
      Overrides(rest)[last.key := last.monitored]
  }

  /** Override if present, else the season's flag. */
  predicate Selects(req: Request, key: Key) {
    Selected(Overrides(req.episodes), Defaults(req.seasons), key)
  }

  predicate Known(req: Request, cat: Catalog, key: Key) {
    key in cat.episodes || HasOverride(req.episodes, key)
  }

  // ----- Flags, told from the lists alone

  /** The last flag of the season. */
  ghost predicate LastSeasonFlag(seasons: seq<SeasonFlag>, season: int, on: bool) {
    exists i :: 0 <= i < |seasons| && seasons[i] == SeasonFlag(season, on) && forall j :: i < j < |seasons| ==> seasons[j].season != season
  }

  /** The last flag of the episode. */
  ghost predicate LastEpisodeFlag(episodes: seq<EpisodeFlag>, key: Key, on: bool) {
    exists i :: 0 <= i < |episodes| && episodes[i] == EpisodeFlag(key, on) && forall j :: i < j < |episodes| ==> episodes[j].key != key
  }

  ghost predicate Unflagged(episodes: seq<EpisodeFlag>, key: Key) { forall f :: f in episodes ==> f.key != key }

  /** What the lists ask for: the last flag of the episode rules, and without one the last flag of its season. */
  ghost predicate AsksFor(req: Request, key: Key) {
    LastEpisodeFlag(req.episodes, key, true) ||
    (Unflagged(req.episodes, key) && LastSeasonFlag(req.seasons, key.season, true))
  }

  lemma LastSeasonFlagAppend(rest: seq<SeasonFlag>, last: SeasonFlag, season: int, on: bool)
    ensures LastSeasonFlag(rest + [last], season, on) <==>
              if last.season == season then last.monitored == on else LastSeasonFlag(rest, season, on)
  {
    var seasons := rest + [last];
    assert seasons[|rest|] == last;
    if i :| 0 <= i < |rest| && rest[i] == SeasonFlag(season, on) && forall j :: i < j < |rest| ==> rest[j].season != season {
      assert seasons[i] == SeasonFlag(season, on);
    }
    if i :| 0 <= i < |rest| && seasons[i] == SeasonFlag(season, on) && forall j :: i < j < |seasons| ==> seasons[j].season != season {
      assert rest[i] == seasons[i] && forall j :: i < j < |rest| ==> rest[j] == seasons[j];
    }
  }

  lemma LastEpisodeFlagAppend(rest: seq<EpisodeFlag>, last: EpisodeFlag, key: Key, on: bool)
    ensures LastEpisodeFlag(rest + [last], key, on) <==>
              if last.key == key then last.monitored == on else LastEpisodeFlag(rest, key, on)
  {
    var episodes := rest + [last];
    assert episodes[|rest|] == last;
    if i :| 0 <= i < |rest| && rest[i] == EpisodeFlag(key, on) && forall j :: i < j < |rest| ==> rest[j].key != key {
      assert episodes[i] == EpisodeFlag(key, on);
    }
    if i :| 0 <= i < |rest| && episodes[i] == EpisodeFlag(key, on) && forall j :: i < j < |episodes| ==> episodes[j].key != key {
      assert rest[i] == episodes[i] && forall j :: i < j < |rest| ==> rest[j] == episodes[j];
    }
  }

  lemma {:induction false} DefaultIsLast(seasons: seq<SeasonFlag>, season: int, on: bool)
    ensures season in Defaults(seasons) && Defaults(seasons)[season] == on <==> LastSeasonFlag(seasons, season, on)
  {
    if seasons != [] {
      var rest, last := seasons[..|seasons| - 1], seasons[|seasons| - 1];
      DefaultIsLast(rest, season, on);
      LastSeasonFlagAppend(rest, last, season, on);
      assert seasons == rest + [last];
      hide LastSeasonFlag, Submitted;
    }
  }

  lemma {:induction false} OverrideIsLast(episodes: seq<EpisodeFlag>, key: Key, on: bool)
    ensures key in Overrides(episodes) && Overrides(episodes)[key] == on <==> LastEpisodeFlag(episodes, key, on)
  {
    if episodes != [] {
      var rest, last := episodes[..|episodes| - 1], episodes[|episodes| - 1];
      OverrideIsLast(rest, key, on);
      LastEpisodeFlagAppend(rest, last, key, on);
      assert episodes == rest + [last];
      hide LastEpisodeFlag, HasOverride;
    }
  }

  /** A key is selected exactly when the lists ask for it. */
  lemma SelectsMeansAsked(req: Request, key: Key)
    ensures Selects(req, key) <==> AsksFor(req, key)
  {
    DefaultIsLast(req.seasons, key.season, true);
    OverrideIsLast(req.episodes, key, true);
    hide LastSeasonFlag, LastEpisodeFlag;
    assert Unflagged(req.episodes, key) <==> !HasOverride(req.episodes, key);
    hide Unflagged, HasOverride, Overrides, Defaults;
  }

  // ----- Normalization

  function NewSeasons(req: Request): bool {
    req.monitorNewSeasons.None? || req.monitorNewSeasons.value
  }

  /** An empty season list, or a selection without any exclusion that also asks for new seasons, means every known season. */
  predicate FillsKnownSeasons(req: Request) {
    req.seasons == [] ||
    (NewSeasons(req) &&
     (forall i :: 0 <= i < |req.seasons| ==> req.seasons[i].monitored) &&
     (forall i :: 0 <= i < |req.episodes| ==> req.episodes[i].monitored))
  }

  predicate SeasonOrder(seasons: seq<SeasonFlag>) {
    forall i, j :: 0 <= i < j < |seasons| ==> seasons[i].season <= seasons[j].season
  }

  /** What normalization promises of its result. */
  ghost predicate Normalizes(media: MediaType, req: Request, cat: Catalog, r: Request) {
    if !Active(media, req) then r == req
    else
      r == req.(monitorNewSeasons := Some(NewSeasons(req)), seasons := r.seasons) &&
      if !FillsKnownSeasons(req) then r.seasons == req.seasons
      else
        SeasonOrder(r.seasons) &&
        (DistinctSeasons(req.seasons) ==> DistinctSeasons(r.seasons)) &&
        forall f :: multiset(r.seasons)[f] == multiset(req.seasons)[f] + Filled(req, cat, f)
  }

  /** The same without a helper: new seasons are wanted by default; an empty season list, or one without any exclusion that
      also wants new seasons, gets a flag for every known season it does not have, and is put in order. */
  ghost predicate NormalizedTo(media: MediaType, req: Request, cat: Catalog, r: Request) {
    if media != Series || req.monitored != Some(true) then r == req
    else
      r.monitored == req.monitored && r.profile == req.profile && r.episodes == req.episodes &&
      r.monitorNewSeasons == Some(req.monitorNewSeasons != Some(false)) &&
      if req.seasons == [] ||
         (req.monitorNewSeasons != Some(false) && (forall f :: f in req.seasons ==> f.monitored) &&
          forall f :: f in req.episodes ==> f.monitored)
      then
        (forall i, j :: 0 <= i < j < |r.seasons| ==> r.seasons[i].season <= r.seasons[j].season) &&
        forall f :: multiset(r.seasons)[f] == multiset(req.seasons)[f] + if f.monitored && MissingSeason(req, cat, f.season) then 1 else 0
      else r.seasons == req.seasons
  }

  /** A season of the metadata, or of a listed episode, for which no flag was submitted. */
  ghost predicate MissingSeason(req: Request, cat: Catalog, season: int) {
    (forall f :: f in req.seasons ==> f.season != season) &&
    ((cat.seasonCount.Some? && 1 <= season <= cat.seasonCount.value) || exists k :: k in cat.episodes && k.season == season)
  }

  lemma NormalizesMeans(media: MediaType, req: Request, cat: Catalog, r: Request)
    requires Normalizes(media, req, cat, r)
    ensures NormalizedTo(media, req, cat, r)
  {
    assert (forall i :: 0 <= i < |req.seasons| ==> req.seasons[i].monitored) <==> forall f :: f in req.seasons ==> f.monitored;
    assert (forall i :: 0 <= i < |req.episodes| ==> req.episodes[i].monitored) <==> forall f :: f in req.episodes ==> f.monitored;
    if Active(media, req) && FillsKnownSeasons(req) {
      forall f ensures Filled(req, cat, f) == if f.monitored && MissingSeason(req, cat, f.season) then 1 else 0 {
      }
      hide Filled, MissingSeason;
    }
  }

  /** A known season that was not submitted is filled in once. */
  function Filled(req: Request, cat: Catalog, f: SeasonFlag): nat {
    if f.monitored && KnownSeason(cat, f.season) && !Submitted(req.seasons, f.season) then 1 else 0
  }

  lemma FilledFlags(req: Request, cat: Catalog, seasons: seq<SeasonFlag>)
    requires forall f :: multiset(seasons)[f] == multiset(req.seasons)[f] + Filled(req, cat, f)
    ensures forall f :: f in seasons <==> f in req.seasons || Filled(req, cat, f) == 1
  {
    forall f ensures f in seasons <==> f in req.seasons || Filled(req, cat, f) == 1 {
      assert multiset(seasons)[f] == multiset(req.seasons)[f] + Filled(req, cat, f);
      assert f in seasons <==> multiset(seasons)[f] > 0;
      assert f in req.seasons <==> multiset(req.seasons)[f] > 0;
    }
    hide Filled;
  }

  /** The flags of a normalized request, in particular that none is lost. */
  lemma NormalizedFlags(media: MediaType, req: Request, cat: Catalog, r: Request)
    requires Active(media, req) && Normalizes(media, req, cat, r)
    ensures forall f :: f in r.seasons <==> f in req.seasons || (FillsKnownSeasons(req) && Filled(req, cat, f) == 1)
  {
    if FillsKnownSeasons(req) { FilledFlags(req, cat, r.seasons); }
    hide Filled;
  }

  method SortSeasons(seasons: seq<SeasonFlag>) returns (r: seq<SeasonFlag>)
    ensures SeasonOrder(r) && multiset(r) == multiset(seasons)
    ensures DistinctSeasons(seasons) ==> DistinctSeasons(r)
  {
    r := [];
    for i := 0 to |seasons|
      invariant SeasonOrder(r) && multiset(r) == multiset(seasons[..i])
      invariant DistinctSeasons(seasons) ==> DistinctSeasons(r)
    {
      assert seasons[..i + 1] == seasons[..i] + [seasons[i]];
      if DistinctSeasons(seasons) {
        forall k | 0 <= k < |r| ensures r[k].season != seasons[i].season {
          assert r[k] in multiset(r) && r[k] in seasons[..i];
        }
      }
      r := InsertSeason(r, seasons[i]);
    }
    assert seasons[..|seasons|] == seasons;
  }

  method InsertSeason(sorted: seq<SeasonFlag>, x: SeasonFlag) returns (r: seq<SeasonFlag>)
    requires SeasonOrder(sorted)
    ensures SeasonOrder(r) && multiset(r) == multiset(sorted) + multiset{x}
    ensures DistinctSeasons(sorted) && (forall k :: 0 <= k < |sorted| ==> sorted[k].season != x.season) ==> DistinctSeasons(r)
  {
    var at := 0;
    while at < |sorted| && sorted[at].season <= x.season
      invariant 0 <= at <= |sorted|
      invariant forall k :: 0 <= k < at ==> sorted[k].season <= x.season
    {
      at := at + 1;
    }
    InsertCounts(sorted, at, x);
    r := Insert(sorted, at, x);
  }

  /** Appends a monitored flag unless the season was seen. */
  method AddSeason(seen: set<int>, seasons: seq<SeasonFlag>, season: int)
    returns (seen': set<int>, seasons': seq<SeasonFlag>)
    requires forall s :: s in seen <==> Submitted(seasons, s)
    ensures seen' == seen + {season}
    ensures seasons' == if season in seen then seasons else seasons + [SeasonFlag(season, true)]
    ensures forall s :: s in seen' <==> Submitted(seasons', s)
  {
    seen', seasons' := seen, seasons;
    if season !in seen {
      seen', seasons' := seen + {season}, seasons + [SeasonFlag(season, true)];
      assert SeasonFlag(season, true) in seasons';
    }
  }

  /** The flags gathered so far: the submitted ones, then one monitored flag for each season of an extra set. */
  ghost predicate Gathered(req: Request, extra: set<int>, seasons: seq<SeasonFlag>) {
    (DistinctSeasons(req.seasons) ==> DistinctSeasons(seasons)) &&
    forall f :: multiset(seasons)[f] ==
      multiset(req.seasons)[f] + if f.monitored && f.season in extra && !Submitted(req.seasons, f.season) then 1 else 0
  }

  lemma GatheredFlags(req: Request, extra: set<int>, seasons: seq<SeasonFlag>)
    requires Gathered(req, extra, seasons)
    ensures forall f :: f in seasons <==>
              f in req.seasons || (f.monitored && f.season in extra && !Submitted(req.seasons, f.season))
  {
    forall f ensures f in seasons <==> f in req.seasons || (f.monitored && f.season in extra && !Submitted(req.seasons, f.season)) {
      assert f in multiset(seasons) <==> multiset(seasons)[f] > 0;
      assert f in multiset(req.seasons) <==> multiset(req.seasons)[f] > 0;
    }
  }

  lemma GatherOne(req: Request, extra: set<int>, seasons: seq<SeasonFlag>, season: int)
    requires Gathered(req, extra, seasons)
    ensures Gathered(req, extra + {season},
                     if Submitted(seasons, season) then seasons else seasons + [SeasonFlag(season, true)])
  {
    GatheredFlags(req, extra, seasons);
    assert multiset(seasons + [SeasonFlag(season, true)]) == multiset(seasons) + multiset{SeasonFlag(season, true)};
    assert Submitted(req.seasons, season) ==> Submitted(seasons, season) by {
      if Submitted(req.seasons, season) {
        var f :| f in req.seasons && f.season == season;
        assert f in seasons;
      }
    }
    if Submitted(seasons, season) && !Submitted(req.seasons, season) {
      var f :| f in seasons && f.season == season;
      assert f == SeasonFlag(season, true);
    }
  }

  method NormalizeSeriesRequest(media: MediaType, req: Request, cat: Catalog) returns (r: Request)
    ensures Normalizes(media, req, cat, r)
    ensures NormalizedTo(media, req, cat, r)
  {
    forall q | Normalizes(media, req, cat, q) ensures NormalizedTo(media, req, cat, q) { NormalizesMeans(media, req, cat, q); }
    hide NormalizedTo;
    r := req;
    if media != Series || req.monitored != Some(true) {
      return;
    }
    if req.monitorNewSeasons.None? {
      r := r.(monitorNewSeasons := Some(true));
    }
    var fill := |req.seasons| == 0;
    if !fill && r.monitorNewSeasons.value {
      fill := true;
      for i := 0 to |req.seasons|
        invariant fill <==> forall k :: 0 <= k < i ==> req.seasons[k].monitored
      {
        fill := fill && req.seasons[i].monitored;
      }
      ghost var seasonsOn := fill;
      for i := 0 to |req.episodes|
        invariant fill <==> seasonsOn && forall k :: 0 <= k < i ==> req.episodes[k].monitored
      {
        fill := fill && req.episodes[i].monitored;
      }
    }
    if !fill {
      return;
    }
    var flags := FillKnownSeasons(req, cat);
    var seasons := SortSeasons(flags);
    r := r.(seasons := seasons);
  }

  /** The seasons 1 to n. */
  function Counting(n: int): (r: set<int>)
    ensures forall s :: s in r <==> 1 <= s <= n
    decreases n
  {
    if n < 1 then {} else Counting(n - 1) + {n}
  }

  method SeenSeasons(seasons: seq<SeasonFlag>) returns (seen: set<int>)
    ensures forall s :: s in seen <==> Submitted(seasons, s)
  {
    seen := {};
    for i := 0 to |seasons|
      invariant seen == set f | f in seasons[..i] :: f.season
    {
      assert seasons[..i + 1] == seasons[..i] + [seasons[i]];
      seen := seen + {seasons[i].season};
    }
    assert seasons[..|seasons|] == seasons;
  }

  method FillKnownSeasons(req: Request, cat: Catalog) returns (seasons: seq<SeasonFlag>)
    ensures DistinctSeasons(req.seasons) ==> DistinctSeasons(seasons)
    ensures forall f :: multiset(seasons)[f] == multiset(req.seasons)[f] + Filled(req, cat, f)
  {
    hide Gathered, Submitted, Filled, DistinctSeasons;
    var seen := SeenSeasons(req.seasons);
    seasons := req.seasons;
    ghost var counted: set<int> := {};
    NothingGathered(req);
    if cat.seasonCount.Some? {
      seen, seasons := AddCounted(req, seen, cat.seasonCount.value);
      counted := Counting(cat.seasonCount.value);
    }
    seasons := AddListed(req, seen, seasons, counted, cat.episodes);
    GatheredFills(req, cat, counted + Listed(cat.episodes, |cat.episodes|), seasons);
  }

  lemma NothingGathered(req: Request)
    ensures Gathered(req, {}, req.seasons)
  {
  }

  method AddListed(req: Request, before: set<int>, start: seq<SeasonFlag>, ghost counted: set<int>, episodes: seq<Key>)
    returns (seasons: seq<SeasonFlag>)
    requires (forall s :: s in before <==> Submitted(start, s)) && Gathered(req, counted, start)
    ensures Gathered(req, counted + Listed(episodes, |episodes|), seasons)
  {
    hide Gathered, Submitted;
    var seen := before;
    seasons := start;
    assert counted + Listed(episodes, 0) == counted;
    for i := 0 to |episodes|
      invariant forall s :: s in seen <==> Submitted(seasons, s)
      invariant Gathered(req, counted + Listed(episodes, i), seasons)
    {
      var season := episodes[i].season;
      GatherOne(req, counted + Listed(episodes, i), seasons, season);
      seen, seasons := AddSeason(seen, seasons, season);
      assert counted + Listed(episodes, i + 1) == counted + Listed(episodes, i) + {season};
    }
  }

  lemma GatheredFills(req: Request, cat: Catalog, known: set<int>, seasons: seq<SeasonFlag>)
    requires Gathered(req, known, seasons) && forall s :: s in known <==> KnownSeason(cat, s)
    ensures DistinctSeasons(req.seasons) ==> DistinctSeasons(seasons)
    ensures forall f :: multiset(seasons)[f] == multiset(req.seasons)[f] + Filled(req, cat, f)
  {
    hide KnownSeason, Submitted, DistinctSeasons;
  }

  /** The seasons of the first n keys. */
  function Listed(keys: seq<Key>, n: nat): (r: set<int>)
    requires n <= |keys|
    ensures forall s :: s in r <==> exists i :: 0 <= i < n && keys[i].season == s
  {
    if n == 0 then {} else Listed(keys, n - 1) + {keys[n - 1].season}
  }

  method AddCounted(req: Request, before: set<int>, count: int) returns (seen: set<int>, seasons: seq<SeasonFlag>)
    requires forall s :: s in before <==> Submitted(req.seasons, s)
    ensures forall s :: s in seen <==> Submitted(seasons, s)
    ensures Gathered(req, Counting(count), seasons)
  {
    seen, seasons := before, req.seasons;
    var season := 1;
    assert Gathered(req, {}, seasons);
    hide Gathered, Counting, Submitted;
    while season <= count
      invariant 1 <= season && (season <= count + 1 || season == 1)
      invariant forall s :: s in seen <==> Submitted(seasons, s)
      invariant Gathered(req, Counting(season - 1), seasons)
      decreases count - season
    {
      GatherOne(req, Counting(season - 1), seasons, season);
      seen, seasons := AddSeason(seen, seasons, season);
      season := season + 1;
    }
  }

  // ----- Compilation

  predicate Excludes(overrides: map<Key, bool>, season: int) {
    exists k :: k in overrides && k.season == season && !overrides[k]
  }

  /** A flag that stands for its whole season. */
  predicate Full(req: Request, f: SeasonFlag) {
    f.monitored && !Excludes(Overrides(req.episodes), f.season)
  }

  predicate Whole(req: Request, cat: Catalog) {
    (forall f :: f in req.seasons ==> f.monitored) &&
    (cat.seasonCount.Some? ==> forall n :: 1 <= n <= cat.seasonCount.value ==> SeasonOn(req, n)) &&
    (forall k :: k in Overrides(req.episodes) ==> Overrides(req.episodes)[k]) &&
    (forall k :: k in cat.episodes ==> Selects(req, k))
  }

  predicate SeasonOn(req: Request, season: int) {
    season in Defaults(req.seasons) && Defaults(req.seasons)[season]
  }

  /** The scopes that one season flag contributes. */
  predicate Contributes(req: Request, cat: Catalog, f: SeasonFlag, x: Scope) {
    if Full(req, f) then x == SeasonScope(f.season)
    else
      var key := Key(x.season, x.episode);
      x.kind == EpisodeKind && x.season == f.season && key in cat.episodes &&
      if key in Overrides(req.episodes) then Overrides(req.episodes)[key] else f.monitored
  }

  predicate Enabled(req: Request, x: Scope) {
    var key := Key(x.season, x.episode);
    x.kind == EpisodeKind && key in Overrides(req.episodes) && Overrides(req.episodes)[key]
  }

  /** Which scopes the compilation emits. */
  predicate Emits(media: MediaType, req: Request, cat: Catalog, x: Scope) {
    x == MEDIA ||
    (Active(media, req) &&
     ((x == FUTURE_SEASONS && req.monitorNewSeasons == Some(true)) ||
      (req.seasons != [] &&
       if Whole(req, cat) then x == WHOLE_SERIES
       else Enabled(req, x) || exists f :: f in req.seasons && Contributes(req, cat, f, x))))
  }

  method HasExclusion(overrides: map<Key, bool>, season: int) returns (b: bool)
    ensures b == Excludes(overrides, season)
  {
    var rest := overrides.Keys;
    while rest != {}
      invariant rest <= overrides.Keys
      invariant forall k :: k in overrides.Keys - rest ==> k.season != season || overrides[k]
      decreases rest
    {
      var k := Pick(rest);
      if k.season == season && !overrides[k] { return true; }
      rest := rest - {k};
    }
    return false;
  }

  method AllOn(overrides: map<Key, bool>) returns (b: bool)
    ensures b <==> forall k :: k in overrides ==> overrides[k]
  {
    var rest := overrides.Keys;
    while rest != {}
      invariant rest <= overrides.Keys
      invariant forall k :: k in overrides.Keys - rest ==> overrides[k]
      decreases rest
    {
      var k := Pick(rest);
      if !overrides[k] { return false; }
      rest := rest - {k};
    }
    return true;
  }

  method EpisodesBySeason(episodes: seq<Key>) returns (m: map<int, seq<int>>)
    ensures forall k :: k in episodes <==> k.season in m && k.episode in m[k.season]
  {
    m := map[];
    for i := 0 to |episodes|
      invariant forall k :: k in episodes[..i] <==> k.season in m && k.episode in m[k.season]
    {
      var e := episodes[i];
      assert episodes[..i + 1] == episodes[..i] + [e];
      m := m[e.season := (if e.season in m then m[e.season] else []) + [e.episode]];
    }
    assert episodes[..|episodes|] == episodes;
  }

  method AllSelected(req: Request, episodes: seq<Key>, overrides: map<Key, bool>, defaults: map<int, bool>)
    returns (all: bool)
    requires overrides == Overrides(req.episodes) && defaults == Defaults(req.seasons)
    ensures all <==> forall k :: k in episodes ==> Selects(req, k)
  {
    for i := 0 to |episodes|
      invariant forall j :: 0 <= j < i ==> Selects(req, episodes[j])
    {
      var e := episodes[i];
      var monitored := e.season in defaults && defaults[e.season];
      if e in overrides { monitored := overrides[e]; }
      if !monitored {
        assert !Selects(req, e);
        return false;
      }
    }
    return true;
  }

  method WantsWholeSeries(req: Request, cat: Catalog, overrides: map<Key, bool>, defaults: map<int, bool>)
    returns (whole: bool)
    requires overrides == Overrides(req.episodes) && defaults == Defaults(req.seasons)
    ensures whole == Whole(req, cat)
  {
    var allSubmittedSeasons := true;
    for i := 0 to |req.seasons|
      invariant allSubmittedSeasons <==> forall k :: 0 <= k < i ==> req.seasons[k].monitored
    {
      allSubmittedSeasons := allSubmittedSeasons && req.seasons[i].monitored;
    }
    var allKnownSeasons := true;
    if cat.seasonCount.Some? {
      var n := 1;
      while n <= cat.seasonCount.value
        invariant n >= 1 && forall k :: 1 <= k < n ==> SeasonOn(req, k)
        invariant allKnownSeasons
        decreases cat.seasonCount.value - n
      {
        if !(n in defaults && defaults[n]) {
          assert !SeasonOn(req, n);
          allKnownSeasons := false;
          break;
        }
        n := n + 1;
      }
    }
    var allKnownEpisodes := false;
    if |cat.episodes| > 0 {
      allKnownEpisodes := AllSelected(req, cat.episodes, overrides, defaults);
    }
    var overridesOn := AllOn(overrides);
    if !overridesOn {
      allKnownEpisodes := false;
    }
    if |cat.episodes| == 0 {
      allKnownEpisodes := allSubmittedSeasons && overridesOn;
    }
    whole := allSubmittedSeasons && allKnownSeasons && allKnownEpisodes;
  }

  method BuildRequestScopes(media: MediaType, req: Request, cat: Catalog) returns (scopes: seq<Scope>)
    ensures Sorted(scopes)
    ensures forall x :: x in scopes <==> Emits(media, req, cat, x)
    ensures forall x :: x in scopes <==> ScopeDue(media, req, cat, x)
  {
    forall x ensures Emits(media, req, cat, x) <==> ScopeDue(media, req, cat, x) { EmitsExactly(media, req, cat, x); }
    hide ScopeDue;
    var seen := {MEDIA};
    if media == Series && req.monitored == Some(true) {
      if req.monitorNewSeasons == Some(true) {
        seen := seen + {FUTURE_SEASONS};
      }
      if |req.seasons| != 0 {
        var overrides, defaults := Overrides(req.episodes), Defaults(req.seasons);
        var seasonEpisodes := EpisodesBySeason(cat.episodes);
        var whole := WantsWholeSeries(req, cat, overrides, defaults);
        if whole {
          seen := seen + {WHOLE_SERIES};
        } else {
          ghost var base := seen;
          var perSeason := SeasonContributions(req, cat, overrides, seasonEpisodes);
          var enabled := EnabledOverrides(req, overrides);
          seen := seen + perSeason + enabled;
        }
      }
    }
    scopes := SortedRequestScopes(seen);
  }

  method SeasonContributions(req: Request, cat: Catalog, overrides: map<Key, bool>, seasonEpisodes: map<int, seq<int>>)
    returns (seen: set<Scope>)
    requires overrides == Overrides(req.episodes)
    requires forall k :: k in cat.episodes <==> k.season in seasonEpisodes && k.episode in seasonEpisodes[k.season]
    ensures forall x :: x in seen <==> exists f :: f in req.seasons && Contributes(req, cat, f, x)
  {
    seen := {};
    for i := 0 to |req.seasons|
      invariant forall x :: x in seen <==> exists f :: f in req.seasons[..i] && Contributes(req, cat, f, x)
    {
      var f := req.seasons[i];
      ghost var before := seen;
      assert req.seasons[..i + 1] == req.seasons[..i] + [f];
      var hasExclusion := HasExclusion(overrides, f.season);
      if f.monitored && !hasExclusion {
        seen := seen + {SeasonScope(f.season)};
      } else {
        var numbers := if f.season in seasonEpisodes then seasonEpisodes[f.season] else [];
        var found := EpisodesOn(f, overrides, numbers);
        assert forall x :: x in found <==> Contributes(req, cat, f, x);
        seen := seen + found;
      }
      assert forall x :: x in seen <==> x in before || Contributes(req, cat, f, x);
    }
    assert req.seasons[..|req.seasons|] == req.seasons;
  }

  method EpisodesOn(f: SeasonFlag, overrides: map<Key, bool>, numbers: seq<int>) returns (found: set<Scope>)
    ensures forall x :: x in found <==>
              x.kind == EpisodeKind && x.season == f.season && x.episode in numbers &&
              var key := Key(x.season, x.episode); if key in overrides then overrides[key] else f.monitored
  {
    found := {};
    for i := 0 to |numbers|
      invariant forall x :: x in found <==>
                  x.kind == EpisodeKind && x.season == f.season && x.episode in numbers[..i] &&
                  var key := Key(x.season, x.episode); if key in overrides then overrides[key] else f.monitored
    {
      var key := Key(f.season, numbers[i]);
      assert numbers[..i + 1] == numbers[..i] + [numbers[i]];
      var monitored := f.monitored;
      if key in overrides { monitored := overrides[key]; }
      if monitored { found := found + {EpisodeScope(key)}; }
    }
    assert numbers[..|numbers|] == numbers;
  }

  method EnabledOverrides(req: Request, overrides: map<Key, bool>) returns (found: set<Scope>)
    requires overrides == Overrides(req.episodes)
    ensures forall x :: x in found <==> Enabled(req, x)
  {
    found := {};
    var rest := overrides.Keys;
    while rest != {}
      invariant rest <= overrides.Keys
      invariant forall x :: x in found <==> Enabled(req, x) && Key(x.season, x.episode) !in rest
      decreases rest
    {
      var key := Pick(rest);
      if overrides[key] { found := found + {EpisodeScope(key)}; }
      rest := rest - {key};
    }
  }

  // ----- The scopes, told from the lists alone

  /** No episode of the season is excluded. */
  ghost predicate NothingExcluded(req: Request, season: int) {
    forall k :: LastEpisodeFlag(req.episodes, k, false) ==> k.season != season
  }

  /** Everything the request could name is asked for. */
  ghost predicate AsksForAll(req: Request, cat: Catalog) {
    (forall f :: f in req.seasons ==> f.monitored) &&
    (forall k :: !LastEpisodeFlag(req.episodes, k, false)) &&
    (forall n :: cat.seasonCount.Some? && 1 <= n <= cat.seasonCount.value ==> LastSeasonFlag(req.seasons, n, true)) &&
    forall k :: k in cat.episodes ==> AsksFor(req, k)
  }

  /** Which scopes a request gets, kind by kind. */
  ghost predicate ScopeDue(media: MediaType, req: Request, cat: Catalog, x: Scope) {
    var active := media == Series && req.monitored == Some(true);
    var detailed := active && req.seasons != [] && !AsksForAll(req, cat);
    match x.kind
    case MediaKind => x == MEDIA
    case FutureSeasonsKind => x == FUTURE_SEASONS && active && req.monitorNewSeasons == Some(true)
    case WholeSeriesKind => x == WHOLE_SERIES && active && req.seasons != [] && AsksForAll(req, cat)
    case SeasonKind => x == SeasonScope(x.season) && detailed && SeasonFlag(x.season, true) in req.seasons && NothingExcluded(req, x.season)
    case EpisodeKind =>
      var key := Key(x.season, x.episode);
      detailed &&
      (LastEpisodeFlag(req.episodes, key, true) ||
       (key in cat.episodes && Unflagged(req.episodes, key) && SeasonFlag(key.season, true) in req.seasons &&
        !NothingExcluded(req, key.season)))
  }

  lemma ExcludesMeans(req: Request, season: int)
    ensures Excludes(Overrides(req.episodes), season) <==> !NothingExcluded(req, season)
  {
    forall k ensures k in Overrides(req.episodes) && !Overrides(req.episodes)[k] <==> LastEpisodeFlag(req.episodes, k, false) {
      OverrideIsLast(req.episodes, k, false);
    }
    hide LastEpisodeFlag, Overrides;
  }

  lemma WholeMeans(req: Request, cat: Catalog)
    ensures Whole(req, cat) <==> AsksForAll(req, cat)
  {
    forall k
      ensures k in Overrides(req.episodes) && !Overrides(req.episodes)[k] <==> LastEpisodeFlag(req.episodes, k, false)
      ensures Selects(req, k) <==> AsksFor(req, k)
    {
      OverrideIsLast(req.episodes, k, false);
      SelectsMeansAsked(req, k);
    }
    forall n ensures SeasonOn(req, n) <==> LastSeasonFlag(req.seasons, n, true) { DefaultIsLast(req.seasons, n, true); }
    hide LastEpisodeFlag, LastSeasonFlag, Overrides, Defaults, Selects, AsksFor, SeasonOn;
  }

  /** The compilation emits exactly these scopes. */
  lemma EmitsExactly(media: MediaType, req: Request, cat: Catalog, x: Scope)
    ensures Emits(media, req, cat, x) <==> ScopeDue(media, req, cat, x)
  {
    var key := Key(x.season, x.episode);
    WholeMeans(req, cat);
    ExcludesMeans(req, x.season);
    OverrideIsLast(req.episodes, key, true);
    assert Unflagged(req.episodes, key) <==> key !in Overrides(req.episodes);
    hide Whole, AsksForAll, Excludes, NothingExcluded, LastEpisodeFlag, Unflagged, Overrides;
    if x.kind == SeasonKind || x.kind == EpisodeKind {
      assert forall f :: f in req.seasons && f.season == x.season && f.monitored ==> f == SeasonFlag(x.season, true);
    }
  }

  // ----- Compilation preserves meaning

  /** The key lies in an emitted whole-series, season or episode scope. */
  predicate Covers(media: MediaType, req: Request, cat: Catalog, key: Key) {
    Emits(media, req, cat, WHOLE_SERIES) || Emits(media, req, cat, SeasonScope(key.season)) ||
    Emits(media, req, cat, EpisodeScope(key))
  }

  /** An episode scope stands for an enabled override, or for a known episode of a season that has no scope of its own. */
  lemma EpisodeScopeEmitted(media: MediaType, req: Request, cat: Catalog, key: Key)
    requires Active(media, req) && req.seasons != [] && !Whole(req, cat)
    ensures Emits(media, req, cat, EpisodeScope(key)) <==>
              (key in Overrides(req.episodes) && Overrides(req.episodes)[key]) ||
              exists f :: f in req.seasons && !Full(req, f) && f.season == key.season && key in cat.episodes &&
                if key in Overrides(req.episodes) then Overrides(req.episodes)[key] else f.monitored
  {
    hide Active, Whole, Full, Overrides;
    var x := EpisodeScope(key);
    assert Key(x.season, x.episode) == key;
    forall f | f in req.seasons && !Full(req, f) && f.season == key.season && key in cat.episodes &&
      (if key in Overrides(req.episodes) then Overrides(req.episodes)[key] else f.monitored)
      ensures Contributes(req, cat, f, x)
    {
    }
  }

  /** A listed key that the last flag of its season leaves out, although an earlier flag of the season is on. */
  predicate Misled(req: Request, key: Key) {
    key !in Overrides(req.episodes) && key.season in Defaults(req.seasons) && !Defaults(req.seasons)[key.season] &&
    SeasonFlag(key.season, true) in req.seasons
  }

  /** Whatever the flags, a known key is covered exactly when the request selects it or repeated flags mislead it. */
  lemma CoverageExactly(media: MediaType, req: Request, cat: Catalog, key: Key)
    requires Active(media, req) && req.seasons != [] && Known(req, cat, key)
    ensures Covers(media, req, cat, key) <==> Selects(req, key) || Misled(req, key)
  {
    if Whole(req, cat) {
      assert Emits(media, req, cat, WHOLE_SERIES);
    } else {
      EpisodeScopeEmitted(media, req, cat, key);
      assert !Emits(media, req, cat, WHOLE_SERIES);
      forall f | f in req.seasons && f.season == key.season && f.monitored ensures f == SeasonFlag(key.season, true) {
      }
      hide Emits, Whole, Overrides, Defaults;
    }
  }

  lemma DistinctNotMisled(req: Request, key: Key)
    requires DistinctSeasons(req.seasons)
    ensures !Misled(req, key)
  {
    assert Misled(req, key) ==> SeasonFlag(key.season, false) in req.seasons;
  }

  /** A catalog or override key is covered by the emitted scopes exactly when the request selects it. */
  lemma CoverageIsSelection(media: MediaType, req: Request, cat: Catalog, key: Key)
    requires Active(media, req) && DistinctSeasons(req.seasons) && req.seasons != []
    requires Known(req, cat, key)
    ensures Covers(media, req, cat, key) <==> Selects(req, key)
  {
    CoverageExactly(media, req, cat, key);
    DistinctNotMisled(req, key);
  }

  ghost predicate Faithful(media: MediaType, req: Request, cat: Catalog) {
    forall key :: Known(req, cat, key) ==> (Covers(media, req, cat, key) <==> Selects(req, key))
  }

  ghost predicate NoOverrideOn(req: Request) {
    forall k :: k in Overrides(req.episodes) ==> !Overrides(req.episodes)[k]
  }

  /** The compilation is faithful on every known key exactly when, with an empty season list, no override is on, and
      otherwise no listed key is misled by repeated flags of its season. */
  lemma FaithfulExactly(media: MediaType, req: Request, cat: Catalog)
    requires Active(media, req)
    ensures Faithful(media, req, cat) <==>
              if req.seasons == [] then NoOverrideOn(req) else forall key :: key in cat.episodes ==> !Misled(req, key)
  {
    if req.seasons != [] {
      forall key | Known(req, cat, key)
        ensures Covers(media, req, cat, key) <==> Selects(req, key) || Misled(req, key)
        ensures Misled(req, key) ==> key in cat.episodes && !Selects(req, key)
      {
        CoverageExactly(media, req, cat, key);
      }
      hide Covers, Selects, Misled;
    } else {
      assert forall key :: !Covers(media, req, cat, key);
      if !NoOverrideOn(req) {
        var k :| k in Overrides(req.episodes) && Overrides(req.episodes)[k];
        assert Known(req, cat, k) && Selects(req, k);
      }
    }
  }

  /** Conflicting flags for one season: the season scope is emitted for the first flag, while the last one rules. */
  lemma ConflictingFlagsMislead()
    ensures var req := Request(Some(true), Some(false), None, [SeasonFlag(1, true), SeasonFlag(1, false)], []);
            var cat := Catalog([Key(1, 1)], None);
            Normalizes(Series, req, cat, req) && Covers(Series, req, cat, Key(1, 1)) && !Selects(req, Key(1, 1))
  {
    var req := Request(Some(true), Some(false), None, [SeasonFlag(1, true), SeasonFlag(1, false)], []);
    assert req.seasons[..1] == [SeasonFlag(1, true)];
    assert req.seasons[0] in req.seasons && Defaults(req.seasons)[1] == false;
    CoverageExactly(Series, req, Catalog([Key(1, 1)], None), Key(1, 1));
  }

  /** Of a series without known seasons, an episode asked for by name alone is selected but never covered. */
  lemma EpisodeOfUnknownSeriesIsDropped(r: Request)
    requires Normalizes(Series, Request(Some(true), None, None, [], [EpisodeFlag(Key(1, 1), true)]), Catalog([], None), r)
    ensures Known(r, Catalog([], None), Key(1, 1)) && Selects(r, Key(1, 1)) && !Covers(Series, r, Catalog([], None), Key(1, 1))
  {
    NormalizedSeasons(Series, Request(Some(true), None, None, [], [EpisodeFlag(Key(1, 1), true)]), Catalog([], None), r);
    assert EpisodeFlag(Key(1, 1), true) in r.episodes;
  }

  // ----- From the raw request to the scopes

  /** What the user asked for, before normalization. */
  predicate Intends(req: Request, cat: Catalog, key: Key) {
    var overrides, defaults := Overrides(req.episodes), Defaults(req.seasons);
    if key in overrides then overrides[key]
    else if key.season in defaults then defaults[key.season]
    else FillsKnownSeasons(req) && KnownSeason(cat, key.season)
  }

  /** Normalizing turns the intention into plain flags. */
  lemma NormalizedSelection(media: MediaType, req: Request, cat: Catalog, r: Request, key: Key)
    requires Active(media, req) && Normalizes(media, req, cat, r)
    ensures Active(media, r) && r.episodes == req.episodes
    ensures DistinctSeasons(req.seasons) ==> DistinctSeasons(r.seasons)
    ensures Selects(r, key) <==> Intends(req, cat, key)
    ensures Misled(r, key) <==> Misled(req, key)
  {
    NormalizedFlags(media, req, cat, r);
    if FillsKnownSeasons(req) && key.season !in Defaults(req.seasons) && KnownSeason(cat, key.season) {
      assert SeasonFlag(key.season, true) in r.seasons;
    }
    if SeasonOn(r, key.season) {
      assert SeasonFlag(key.season, true) in r.seasons;
    }
    if SeasonOn(req, key.season) {
      assert SeasonFlag(key.season, true) in r.seasons;
    }
  }

  /** Nothing is asked of a series whose request names no season and of which no season is known. */
  predicate NoSeasons(req: Request, cat: Catalog) {
    req.seasons == [] && cat.episodes == [] && (cat.seasonCount.None? || cat.seasonCount.value < 1)
  }

  /** End to end, a known key is covered exactly when the raw request intends it or its repeated flags mislead it; and
      no key is if there are no seasons at all. */
  lemma CompiledIntention(media: MediaType, req: Request, cat: Catalog, r: Request, key: Key)
    requires Active(media, req) && Normalizes(media, req, cat, r) && Known(req, cat, key)
    ensures Covers(media, r, cat, key) <==> !NoSeasons(req, cat) && (Intends(req, cat, key) || Misled(req, key))
  {
    NormalizedSelection(media, req, cat, r, key);
    NormalizedSeasons(media, req, cat, r);
    if r.seasons != [] {
      CoverageExactly(media, r, cat, key);
    }
  }

  /** The same from the lists alone, for the scopes that are emitted for the normalized request: a known key is covered exactly
      when its last flag is on, or it has none and some flag of its season is on or its season was filled in. */
  lemma CompiledExactly(media: MediaType, req: Request, cat: Catalog, r: Request, scopes: seq<Scope>, key: Key)
    requires Active(media, req) && Normalizes(media, req, cat, r) && Known(req, cat, key)
    requires forall x :: x in scopes <==> Emits(media, r, cat, x)
    ensures WHOLE_SERIES in scopes || SeasonScope(key.season) in scopes || EpisodeScope(key) in scopes <==>
              !(req.seasons == [] && cat.episodes == [] && (cat.seasonCount.None? || cat.seasonCount.value < 1)) &&
              (LastEpisodeFlag(req.episodes, key, true) ||
               (Unflagged(req.episodes, key) &&
                (SeasonFlag(key.season, true) in req.seasons ||
                 ((req.seasons == [] ||
                   (req.monitorNewSeasons != Some(false) && (forall f :: f in req.seasons ==> f.monitored) &&
                    forall f :: f in req.episodes ==> f.monitored)) &&
                  MissingSeason(req, cat, key.season)))))
  {
    CompiledIntention(media, req, cat, r, key);
    OverrideIsLast(req.episodes, key, true);
    assert Unflagged(req.episodes, key) <==> key !in Overrides(req.episodes);
    assert (forall i :: 0 <= i < |req.seasons| ==> req.seasons[i].monitored) <==> forall f :: f in req.seasons ==> f.monitored;
    assert (forall i :: 0 <= i < |req.episodes| ==> req.episodes[i].monitored) <==> forall f :: f in req.episodes ==> f.monitored;
    assert KnownSeason(cat, key.season) && key.season !in Defaults(req.seasons) <==> MissingSeason(req, cat, key.season);
    hide Emits, Overrides, LastEpisodeFlag, Unflagged, MissingSeason, KnownSeason;
  }

  lemma NormalizedSeasons(media: MediaType, req: Request, cat: Catalog, r: Request)
    requires Active(media, req) && Normalizes(media, req, cat, r)
    ensures r.seasons == [] <==> NoSeasons(req, cat)
  {
    NormalizedFlags(media, req, cat, r);
    assert r.seasons == [] || r.seasons[0] in r.seasons;
    assert req.seasons == [] || req.seasons[0] in req.seasons;
    assert cat.episodes == [] || (cat.episodes[0] in cat.episodes && KnownSeason(cat, cat.episodes[0].season));
    assert req.seasons == [] ==> forall n :: KnownSeason(cat, n) ==> SeasonFlag(n, true) in r.seasons;
    assert cat.seasonCount.Some? && cat.seasonCount.value >= 1 ==> KnownSeason(cat, 1);
  }

  /** Normalizing a normalized request changes nothing. */
  lemma NormalizedTwice(media: MediaType, req: Request, cat: Catalog, r: Request, q: Request)
    requires Normalizes(media, req, cat, r) && Normalizes(media, r, cat, q)
    ensures q == r
  {
    if Active(media, req) && FillsKnownSeasons(req) && FillsKnownSeasons(r) {
      NormalizedFlags(media, req, cat, r);
      forall f ensures Filled(r, cat, f) == 0 {
        if KnownSeason(cat, f.season) && !Submitted(req.seasons, f.season) {
          assert Filled(req, cat, SeasonFlag(f.season, true)) == 1;
          assert SeasonFlag(f.season, true) in r.seasons;
        }
        if Submitted(req.seasons, f.season) {
          var g :| g in req.seasons && g.season == f.season;
          assert g in r.seasons;
        }
      }
      assert multiset(q.seasons) == multiset(r.seasons);
      assert forall i :: 0 <= i < |r.seasons| ==> r.seasons[i] in r.seasons;
      SameOrder(q.seasons, r.seasons);
    }
  }

  predicate AllMonitored(flags: seq<SeasonFlag>) { forall i :: 0 <= i < |flags| ==> flags[i].monitored }

  /** Monitored flags have one order by season. */
  lemma {:induction false} SameOrder(x: seq<SeasonFlag>, y: seq<SeasonFlag>)
    requires SeasonOrder(x) && SeasonOrder(y) && multiset(x) == multiset(y) && AllMonitored(y)
    ensures x == y
  {
    if |x| == 0 || |y| == 0 {
      assert |x| == |multiset(x)| == |multiset(y)| == |y|;
    } else {
      SameHead(x, y);
      SameTail(x, y);
      SameOrder(x[1..], y[1..]);
      assert x == [x[0]] + x[1..] && y == [y[0]] + y[1..];
    }
  }

  lemma SameHead(x: seq<SeasonFlag>, y: seq<SeasonFlag>)
    requires |x| > 0 && |y| > 0 && SeasonOrder(x) && SeasonOrder(y) && multiset(x) == multiset(y) && AllMonitored(y)
    ensures x[0] == y[0]
  {
    assert x[0] in multiset(y) && y[0] in multiset(x);
    var i :| 0 <= i < |y| && y[i] == x[0];
    var j :| 0 <= j < |x| && x[j] == y[0];
  }

  lemma SameTail(x: seq<SeasonFlag>, y: seq<SeasonFlag>)
    requires |x| > 0 && |y| > 0 && x[0] == y[0] && multiset(x) == multiset(y)
    ensures multiset(x[1..]) == multiset(y[1..])
  {
    assert x == [x[0]] + x[1..] && y == [y[0]] + y[1..];
    assert multiset(x[1..]) == multiset(x) - multiset{x[0]} && multiset(y[1..]) == multiset(y) - multiset{y[0]};
  }

  // ----- Requests that ask for nothing

  method HasRequestedContent(media: MediaType, req: Request, scopes: seq<Scope>) returns (b: bool)
    ensures b <==> !Active(media, req) || exists x :: x in scopes && x.kind != MediaKind
  {
    if media != Series || req.monitored != Some(true) { return true; }
    for i := 0 to |scopes|
      invariant forall k :: 0 <= k < i ==> scopes[k].kind == MediaKind
    {
      if scopes[i].kind != MediaKind { return true; }
    }
    return false;
  }

  /** No scope but the item's own is emitted. */
  ghost predicate TurnedAway(media: MediaType, req: Request, cat: Catalog) {
    forall x :: Emits(media, req, cat, x) ==> x.kind == MediaKind
  }

  /** A request is turned away exactly when it wants no future season and either names no season at all, or names no full
      season and neither selects nor misleads a known key. */
  lemma TurnedAwayExactly(media: MediaType, req: Request, cat: Catalog)
    requires Active(media, req)
    ensures TurnedAway(media, req, cat) <==>
              req.monitorNewSeasons != Some(true) &&
              (req.seasons == [] ||
               ((forall f :: f in req.seasons ==> !Full(req, f)) &&
                forall key :: Known(req, cat, key) ==> !Selects(req, key) && !Misled(req, key)))
  {
    if req.seasons == [] {
      assert req.monitorNewSeasons == Some(true) ==> Emits(media, req, cat, FUTURE_SEASONS);
    } else if TurnedAway(media, req, cat) {
      assert !Emits(media, req, cat, FUTURE_SEASONS) && !Emits(media, req, cat, WHOLE_SERIES);
      forall f | f in req.seasons ensures !Full(req, f) {
        assert !Emits(media, req, cat, SeasonScope(f.season));
      }
      forall key | Known(req, cat, key) ensures !Selects(req, key) && !Misled(req, key) {
        assert !Emits(media, req, cat, SeasonScope(key.season)) && !Emits(media, req, cat, EpisodeScope(key));
        CoverageExactly(media, req, cat, key);
      }
    } else if req.monitorNewSeasons != Some(true) && forall f :: f in req.seasons ==> !Full(req, f) {
      var x :| Emits(media, req, cat, x) && x.kind != MediaKind;
      EmittedWithoutSeason(media, req, cat, x);
    }
  }

  /** Without a full season, whatever is emitted selects or misleads a known key. */
  lemma EmittedWithoutSeason(media: MediaType, req: Request, cat: Catalog, x: Scope)
    requires Active(media, req) && req.seasons != []
    requires req.monitorNewSeasons != Some(true) && forall f :: f in req.seasons ==> !Full(req, f)
    requires Emits(media, req, cat, x) && x.kind != MediaKind
    ensures x.kind == EpisodeKind && Known(req, cat, Key(x.season, x.episode))
    ensures Selects(req, Key(x.season, x.episode)) || Misled(req, Key(x.season, x.episode))
  {
    if Whole(req, cat) {
      assert req.seasons[0] in req.seasons && Full(req, req.seasons[0]);
      assert false;
    }
    var key := Key(x.season, x.episode);
    assert Known(req, cat, key);
    assert Emits(media, req, cat, EpisodeScope(key));
    CoverageExactly(media, req, cat, key);
  }

  /** A request for one episode of a series without known seasons is turned away, although it selects that episode. */
  lemma OverrideAloneIsTurnedAway(r: Request)
    requires Normalizes(Series, Request(Some(true), Some(false), None, [], [EpisodeFlag(Key(1, 1), true)]), Catalog([], None), r)
    ensures TurnedAway(Series, r, Catalog([], None)) && Known(r, Catalog([], None), Key(1, 1)) && Selects(r, Key(1, 1))
  {
    NormalizedSeasons(Series, Request(Some(true), Some(false), None, [], [EpisodeFlag(Key(1, 1), true)]), Catalog([], None), r);
    TurnedAwayExactly(Series, r, Catalog([], None));
    assert EpisodeFlag(Key(1, 1), true) in r.episodes;
  }
}
