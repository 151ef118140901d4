/** Applying a request to stored monitors (backend/internal/matching/requests.go). */
module Requests {
  import opened Wrappers
  import opened Scopes
  import opened RequestScopes

  // Both paths: applyExistingRequest, and the creation writes of AddMediaToLibraryFull. Rows are the fields of
  // MonitorRows, written in place; `Monitors` is their abstract value.

  datatype Monitors = Monitors(
    monitored: bool,
    newSeasons: bool,
    profile: Option<nat>,
    seasons: map<int, bool>,
    overrides: map<Key, bool>)

  /** The stored setting of a key, before the item's own gate. */
  predicate Stored(m: Monitors, key: Key) {
    Selected(m.overrides, m.seasons, key)
  }

  /** Effective monitoring: item gate and (episode override, else season flag). */
  predicate Effective(m: Monitors, key: Key) {
    m.monitored && Stored(m, key)
  }

  predicate EffectiveSeason(m: Monitors, season: int) {
    m.monitored && season in m.seasons && m.seasons[season]
  }

  predicate EffectiveNewSeasons(m: Monitors) {
    m.monitored && m.newSeasons
  }

  // ----- Writing scopes, as functions

  function ClearSeason(m: Monitors, season: int): Monitors {
    m.(seasons := m.seasons[season := true],
       overrides := map k | k in m.overrides && k.season != season :: m.overrides[k])
  }

  function ClearSeasons(m: Monitors, flags: seq<SeasonFlag>): Monitors {
    if flags == [] then m
    else ClearSeason(ClearSeasons(m, flags[..|flags| - 1]), flags[|flags| - 1].season)
  }

  function ApplyScope(m: Monitors, flags: seq<SeasonFlag>, x: Scope): Monitors {
    match x.kind
    case WholeSeriesKind => ClearSeasons(m, flags)
    case SeasonKind => ClearSeason(m, x.season)
    case EpisodeKind => m.(overrides := m.overrides[Key(x.season, x.episode) := true])
    case _ => m
  }

  function ApplyScopes(m: Monitors, flags: seq<SeasonFlag>, scopes: seq<Scope>): Monitors {
    if scopes == [] then m
    else ApplyScope(ApplyScopes(m, flags, scopes[..|scopes| - 1]), flags, scopes[|scopes| - 1])
  }

  /** The rows after the request, when its profile could be loaded. */
  function AfterRequest(m: Monitors, req: Request, scopes: seq<Scope>): Monitors {
    var withProfile := if m.profile.None? then m.(profile := req.profile) else m;
    if req.monitored != Some(true) then withProfile
    else
      ApplyScopes(withProfile.(monitored := true, newSeasons := m.newSeasons || req.monitorNewSeasons == Some(true)),
                  req.seasons, scopes)
  }

  /** The rows written when the item is created. */
  function Created(req: Request): Monitors {
    Monitors(req.monitored == Some(true), req.monitorNewSeasons == Some(true), req.profile,
             Defaults(req.seasons), Overrides(req.episodes))
  }

  /** The rows are what was submitted: each season as flagged, each episode as flagged last. */
  ghost predicate CreatedAs(req: Request, m: Monitors) {
    m.monitored == (req.monitored == Some(true)) && m.newSeasons == (req.monitorNewSeasons == Some(true)) && m.profile == req.profile &&
    (forall s, b :: s in m.seasons && m.seasons[s] == b <==> SeasonFlag(s, b) in req.seasons) &&
    forall k, b :: k in m.overrides && m.overrides[k] == b <==> LastEpisodeFlag(req.episodes, k, b)
  }

  lemma CreatedRows(req: Request)
    requires DistinctSeasons(req.seasons)
    ensures CreatedAs(req, Created(req))
  {
    forall s, b | SeasonFlag(s, b) in req.seasons ensures s in Defaults(req.seasons) && Defaults(req.seasons)[s] == b {
      assert SeasonFlag(s, Defaults(req.seasons)[s]) in req.seasons;
    }
    forall k, b ensures k in Overrides(req.episodes) && Overrides(req.episodes)[k] == b <==> LastEpisodeFlag(req.episodes, k, b) {
      OverrideIsLast(req.episodes, k, b);
    }
  }

  datatype RequestError = ProfileNotFound | DuplicateSeason

  lemma OneMoreFlag(flags: seq<SeasonFlag>, i: nat)
    requires i < |flags| && DistinctSeasons(flags[..i])
    ensures Defaults(flags[..i + 1]) == Defaults(flags[..i])[flags[i].season := flags[i].monitored]
    ensures flags[i].season in Defaults(flags[..i]) ==> !DistinctSeasons(flags)
    ensures flags[i].season !in Defaults(flags[..i]) ==> DistinctSeasons(flags[..i + 1])
  {
    assert flags[..i + 1] == flags[..i] + [flags[i]] && flags[..i + 1][..i] == flags[..i];
    DistinctSoFar(flags, i);
    hide DistinctSeasons;
  }

  /** The next flag repeats a season exactly when one before it has that season. */
  lemma DistinctSoFar(flags: seq<SeasonFlag>, i: nat)
    requires i < |flags| && DistinctSeasons(flags[..i])
    ensures Submitted(flags[..i], flags[i].season) ==> !DistinctSeasons(flags)
    ensures !Submitted(flags[..i], flags[i].season) ==> DistinctSeasons(flags[..i + 1])
  {
    if Submitted(flags[..i], flags[i].season) {
      var j :| 0 <= j < i && flags[..i][j].season == flags[i].season;
      assert flags[j].season == flags[i].season;
    } else {
      forall j | 0 <= j < i ensures flags[j].season != flags[i].season {
        assert flags[j] in flags[..i];
      }
    }
  }

  class MonitorRows {
    var monitored: bool
    var newSeasons: bool
    var profile: Option<nat>
    var seasons: map<int, bool>
    var overrides: map<Key, bool>

    ghost function State(): Monitors
      reads this
    {
      Monitors(monitored, newSeasons, profile, seasons, overrides)
    }

    /** A fresh item without any row. */
    constructor ()
      ensures State() == Monitors(false, false, None, map[], map[])
    {
      monitored, newSeasons, profile, seasons, overrides := false, false, None, map[], map[];
    }

    method MonitorSeason(season: int)
      modifies this`seasons
      ensures seasons == old(seasons)[season := true]
    {
      if season in seasons {
        if !seasons[season] {
          seasons := seasons[season := true];
        }
      } else {
        seasons := seasons[season := true];
      }
    }

    method DeleteEpisodeMonitorsBySeason(season: int)
      modifies this`overrides
      ensures overrides == map k | k in old(overrides) && k.season != season :: old(overrides)[k]
    {
      overrides := map k | k in overrides && k.season != season :: overrides[k];
    }

    method RequestSeason(season: int)
      modifies this`seasons, this`overrides
      ensures State() == ClearSeason(old(State()), season)
    {
      MonitorSeason(season);
      DeleteEpisodeMonitorsBySeason(season);
    }

    method ApplyExistingRequest(req: Request, scopes: seq<Scope>, profiles: set<nat>)
      returns (r: Result<bool, RequestError>)
      modifies this
      ensures r.Err? <==> old(profile).None? && req.profile.Some? && req.profile.value !in profiles
      ensures r.Err? ==> State() == old(State())
      ensures r.Ok? ==> State() == AfterRequest(old(State()), req, scopes)
      ensures r.Ok? ==> Settled(old(State()), req, scopes, State())
      ensures r.Ok? ==> (r.value <==> old(profile).None? && req.profile.Some?)
    {
      RequestSettles(State(), req, scopes);
      hide Settled;
      var given := false;
      if profile.None? && req.profile.Some? {
        if req.profile.value !in profiles {
          return Err(ProfileNotFound);
        }
        profile, given := req.profile, true;
      }
      if req.monitored != Some(true) {
        return Ok(given);
      }
      monitored := true;
      if req.monitorNewSeasons == Some(true) {
        newSeasons := true;
      }
      ghost var start := State();
      for i := 0 to |scopes|
        invariant State() == ApplyScopes(start, req.seasons, scopes[..i])
      {
        assert scopes[..i + 1][..i] == scopes[..i];
        match scopes[i].kind {
          case WholeSeriesKind =>
            ghost var before := State();
            for j := 0 to |req.seasons|
              invariant State() == ClearSeasons(before, req.seasons[..j])
            {
              assert req.seasons[..j + 1][..j] == req.seasons[..j];
              RequestSeason(req.seasons[j].season);
            }
            assert req.seasons[..|req.seasons|] == req.seasons;
          case SeasonKind =>
            RequestSeason(scopes[i].season);
          case EpisodeKind =>
            overrides := overrides[Key(scopes[i].season, scopes[i].episode) := true];
          case _ =>
        }
      }
      assert scopes[..|scopes|] == scopes;
      return Ok(given);
    }

    method CreateSeasonMonitors(flags: seq<SeasonFlag>) returns (r: Result<(), RequestError>)
      requires seasons == map[]
      modifies this`seasons
      ensures r.Ok? <==> DistinctSeasons(flags)
      ensures seasons == if r.Ok? then Defaults(flags) else map[]
    {
      for i := 0 to |flags|
        invariant DistinctSeasons(flags[..i]) && seasons == Defaults(flags[..i])
      {
        OneMoreFlag(flags, i);
        if flags[i].season in seasons {
          seasons := map[];
          return Err(DuplicateSeason);
        }
        seasons := seasons[flags[i].season := flags[i].monitored];
      }
      assert flags[..|flags|] == flags;
      return Ok(());
    }

    /** The monitor writes of a newly created item: a season submitted twice violates the unique index. */
    method CreateMonitors(req: Request) returns (r: Result<(), RequestError>)
      requires State() == Monitors(false, false, None, map[], map[])
      modifies this
      ensures r.Ok? <==> DistinctSeasons(req.seasons)
      ensures r.Ok? ==> State() == Created(req)
      ensures r.Ok? ==> CreatedAs(req, State())
      ensures r.Err? ==> State() == old(State())
    {
      hide CreatedAs, DistinctSeasons, Defaults, Overrides, Submitted, HasOverride;
      if DistinctSeasons(req.seasons) { CreatedRows(req); }
      r := CreateSeasonMonitors(req.seasons);
      if r.Err? { return; }
      CreateEpisodeMonitors(req.episodes);
      monitored, newSeasons, profile := req.monitored == Some(true), req.monitorNewSeasons == Some(true), req.profile;
      return Ok(());
    }

    method CreateEpisodeMonitors(flags: seq<EpisodeFlag>)
      requires overrides == map[]
      modifies this`overrides
      ensures overrides == Overrides(flags)
    {
      for i := 0 to |flags|
        invariant overrides == Overrides(flags[..i])
      {
        assert flags[..i + 1][..i] == flags[..i];
        overrides := overrides[flags[i].key := flags[i].monitored];
      }
      assert flags[..|flags|] == flags;
    }
  }

  // ----- What a request adds

  /** The scope turns a season on and clears its overrides. */
  predicate Clears(flags: seq<SeasonFlag>, x: Scope, season: int) {
    if x.kind == WholeSeriesKind then Submitted(flags, season) else x.kind == SeasonKind && x.season == season
  }

  /** The scope turns the key on. */
  predicate Reaches(flags: seq<SeasonFlag>, x: Scope, key: Key) {
    Clears(flags, x, key.season) || (x.kind == EpisodeKind && Key(x.season, x.episode) == key)
  }

  predicate Reached(flags: seq<SeasonFlag>, scopes: seq<Scope>, key: Key) {
    exists x :: x in scopes && Reaches(flags, x, key)
  }

  lemma {:induction false} ClearedSeasons(m: Monitors, flags: seq<SeasonFlag>, key: Key)
    ensures var m' := ClearSeasons(m, flags);
            m' == m.(seasons := m'.seasons, overrides := m'.overrides) &&
            Lookup(m'.overrides, key) == (if Submitted(flags, key.season) then None else Lookup(m.overrides, key)) &&
            Lookup(m'.seasons, key.season) == if Submitted(flags, key.season) then Some(true) else Lookup(m.seasons, key.season)
  {
    if flags != [] {
      ClearedSeasons(m, flags[..|flags| - 1], key);
      assert flags == flags[..|flags| - 1] + [flags[|flags| - 1]];
    }
  }

  /** One scope, seen from one key. */
  lemma Step(m: Monitors, flags: seq<SeasonFlag>, x: Scope, key: Key)
    ensures var m' := ApplyScope(m, flags, x);
            m' == m.(seasons := m'.seasons, overrides := m'.overrides) &&
            Lookup(m'.overrides, key) ==
              (if Clears(flags, x, key.season) then None
               else if x.kind == EpisodeKind && Key(x.season, x.episode) == key then Some(true)
               else Lookup(m.overrides, key)) &&
            Lookup(m'.seasons, key.season) ==
              if Clears(flags, x, key.season) then Some(true) else Lookup(m.seasons, key.season)
  {
    if x.kind == WholeSeriesKind { ClearedSeasons(m, flags, key); }
  }

  lemma ReachedOneMore(flags: seq<SeasonFlag>, init: seq<Scope>, x: Scope, key: Key)
    ensures Reached(flags, init + [x], key) <==> Reached(flags, init, key) || Reaches(flags, x, key)
  {
    if Reached(flags, init, key) {
      var y :| y in init && Reaches(flags, y, key);
      assert y in init + [x];
    }
    assert x in init + [x];
  }

  lemma {:induction false} ScopesEffect(m: Monitors, flags: seq<SeasonFlag>, scopes: seq<Scope>, key: Key)
    ensures var m' := ApplyScopes(m, flags, scopes);
            m' == m.(seasons := m'.seasons, overrides := m'.overrides) &&
            (Stored(m', key) <==> Stored(m, key) || Reached(flags, scopes, key))
  {
    if scopes != [] {
      var init, x := scopes[..|scopes| - 1], scopes[|scopes| - 1];
      ScopesEffect(m, flags, init, key);
      Step(ApplyScopes(m, flags, init), flags, x, key);
      ReachedOneMore(flags, init, x, key);
      hide ApplyScope, Stored, Lookup, Reached;
      assert scopes == init + [x];
    }
  }

  /** Exactly what an active request does to a key: what was stored stays, and what its scopes reach is added. */
  lemma ExactEffect(m: Monitors, req: Request, scopes: seq<Scope>, key: Key)
    requires req.monitored == Some(true)
    ensures Effective(AfterRequest(m, req, scopes), key) <==> Stored(m, key) || Reached(req.seasons, scopes, key)
  {
    var withProfile := if m.profile.None? then m.(profile := req.profile) else m;
    var start := withProfile.(monitored := true, newSeasons := m.newSeasons || req.monitorNewSeasons == Some(true));
    ScopesEffect(start, req.seasons, scopes, key);
  }

  lemma {:induction false} SeasonStays(m: Monitors, flags: seq<SeasonFlag>, scopes: seq<Scope>, season: int)
    requires season in m.seasons && m.seasons[season]
    ensures var m' := ApplyScopes(m, flags, scopes); season in m'.seasons && m'.seasons[season]
  {
    if scopes != [] {
      SeasonStays(m, flags, scopes[..|scopes| - 1], season);
      Step(ApplyScopes(m, flags, scopes[..|scopes| - 1]), flags, scopes[|scopes| - 1], Key(season, 0));
    }
  }

  /** Additive: nothing effectively monitored becomes unmonitored, whatever the request and its scopes. */
  lemma RequestIsAdditive(m: Monitors, req: Request, scopes: seq<Scope>, key: Key, season: int)
    ensures var m' := AfterRequest(m, req, scopes);
            (Effective(m, key) ==> Effective(m', key)) &&
            (EffectiveSeason(m, season) ==> EffectiveSeason(m', season)) &&
            (EffectiveNewSeasons(m) ==> EffectiveNewSeasons(m')) &&
            (m.profile.Some? ==> m'.profile == m.profile)
  {
    if req.monitored == Some(true) {
      ExactEffect(m, req, scopes, key);
      var withProfile := if m.profile.None? then m.(profile := req.profile) else m;
      var start := withProfile.(monitored := true, newSeasons := m.newSeasons || req.monitorNewSeasons == Some(true));
      ScopesEffect(start, req.seasons, scopes, key);
      if EffectiveSeason(m, season) { SeasonStays(start, req.seasons, scopes, season); }
    }
  }

  // ----- The rows afterwards, one by one

  /** The scope turns the season on: its own, or every submitted one if the whole series was asked for. */
  ghost predicate TurnsOn(flags: seq<SeasonFlag>, x: Scope, season: int) {
    (x.kind == SeasonKind && x.season == season) || (x.kind == WholeSeriesKind && exists f :: f in flags && f.season == season)
  }

  ghost predicate Names(x: Scope, key: Key) { x.kind == EpisodeKind && x.season == key.season && x.episode == key.episode }

  ghost predicate SomeTurnsOn(flags: seq<SeasonFlag>, scopes: seq<Scope>, season: int) {
    exists x :: x in scopes && TurnsOn(flags, x, season)
  }

  /** A scope names the episode and none after it turns its season on. */
  ghost predicate NamedLast(flags: seq<SeasonFlag>, scopes: seq<Scope>, key: Key) {
    exists i :: 0 <= i < |scopes| && Names(scopes[i], key) && forall j :: i < j < |scopes| ==> !TurnsOn(flags, scopes[j], key.season)
  }

  /** The override of an episode is on if it was named last; otherwise a scope that turns the season on takes it away;
      otherwise it is as before. */
  ghost predicate OverrideSettled(flags: seq<SeasonFlag>, scopes: seq<Scope>, before: map<Key, bool>, after: map<Key, bool>, key: Key) {
    if NamedLast(flags, scopes, key) then key in after && after[key]
    else if SomeTurnsOn(flags, scopes, key.season) then key !in after
    else Lookup(after, key) == Lookup(before, key)
  }

  ghost predicate SeasonSettled(flags: seq<SeasonFlag>, scopes: seq<Scope>, before: map<int, bool>, after: map<int, bool>, season: int) {
    if SomeTurnsOn(flags, scopes, season) then season in after && after[season]
    else Lookup(after, season) == Lookup(before, season)
  }

  /** What an accepted request leaves: a profile only if there was none; without an active request nothing else changes; an
      active one switches the item on, and new seasons if it asks for them, and settles seasons and overrides. */
  ghost predicate Settled(m: Monitors, req: Request, scopes: seq<Scope>, after: Monitors) {
    after.profile == (if m.profile.None? then req.profile else m.profile) &&
    after.monitored == (m.monitored || req.monitored == Some(true)) &&
    after.newSeasons == (m.newSeasons || (req.monitored == Some(true) && req.monitorNewSeasons == Some(true))) &&
    if req.monitored != Some(true) then after.seasons == m.seasons && after.overrides == m.overrides
    else
      (forall season :: SeasonSettled(req.seasons, scopes, m.seasons, after.seasons, season)) &&
      forall key :: OverrideSettled(req.seasons, scopes, m.overrides, after.overrides, key)
  }

  lemma ClearsMeans(flags: seq<SeasonFlag>, x: Scope, season: int)
    ensures Clears(flags, x, season) <==> TurnsOn(flags, x, season)
  {
  }

  lemma SomeTurnsOnAppend(flags: seq<SeasonFlag>, init: seq<Scope>, x: Scope, season: int)
    ensures SomeTurnsOn(flags, init + [x], season) <==> SomeTurnsOn(flags, init, season) || TurnsOn(flags, x, season)
  {
    hide TurnsOn;
    assert x in init + [x];
    if y :| y in init && TurnsOn(flags, y, season) { assert y in init + [x]; }
  }

  lemma NamedLastAppend(flags: seq<SeasonFlag>, init: seq<Scope>, x: Scope, key: Key)
    ensures NamedLast(flags, init + [x], key) <==>
              !TurnsOn(flags, x, key.season) && (Names(x, key) || NamedLast(flags, init, key))
  {
    var scopes := init + [x];
    assert scopes[|init|] == x && (Names(x, key) ==> !TurnsOn(flags, x, key.season));
    hide TurnsOn, Names;
    if i :| 0 <= i < |init| && Names(init[i], key) && forall j :: i < j < |init| ==> !TurnsOn(flags, init[j], key.season) {
      assert Names(scopes[i], key);
    }
    if i :| 0 <= i < |init| && Names(scopes[i], key) && forall j :: i < j < |scopes| ==> !TurnsOn(flags, scopes[j], key.season) {
      assert init[i] == scopes[i] && forall j :: i < j < |init| ==> init[j] == scopes[j];
    }
  }

  lemma SettledAppend(m: Monitors, flags: seq<SeasonFlag>, init: seq<Scope>, x: Scope, middle: Monitors, after: Monitors, key: Key)
    requires OverrideSettled(flags, init, m.overrides, middle.overrides, key)
    requires SeasonSettled(flags, init, m.seasons, middle.seasons, key.season)
    requires Lookup(after.overrides, key) ==
               if TurnsOn(flags, x, key.season) then None else if Names(x, key) then Some(true) else Lookup(middle.overrides, key)
    requires Lookup(after.seasons, key.season) ==
               if TurnsOn(flags, x, key.season) then Some(true) else Lookup(middle.seasons, key.season)
    ensures OverrideSettled(flags, init + [x], m.overrides, after.overrides, key)
    ensures SeasonSettled(flags, init + [x], m.seasons, after.seasons, key.season)
  {
    NamedLastAppend(flags, init, x, key);
    SomeTurnsOnAppend(flags, init, x, key.season);
    hide NamedLast, SomeTurnsOn, TurnsOn, Names;
  }

  lemma {:induction false} ScopesSettle(m: Monitors, flags: seq<SeasonFlag>, scopes: seq<Scope>, key: Key)
    ensures var after := ApplyScopes(m, flags, scopes);
            after == m.(seasons := after.seasons, overrides := after.overrides) &&
            OverrideSettled(flags, scopes, m.overrides, after.overrides, key) &&
            SeasonSettled(flags, scopes, m.seasons, after.seasons, key.season)
  {
    if scopes != [] {
      var init, x := scopes[..|scopes| - 1], scopes[|scopes| - 1];
      var middle := ApplyScopes(m, flags, init);
      ScopesSettle(m, flags, init, key);
      Step(middle, flags, x, key);
      ClearsMeans(flags, x, key.season);
      hide OverrideSettled, SeasonSettled, ApplyScope, Clears, TurnsOn, Lookup;
      SettledAppend(m, flags, init, x, middle, ApplyScopes(m, flags, scopes), key);
      assert scopes == init + [x];
    }
  }

  lemma RequestSettles(m: Monitors, req: Request, scopes: seq<Scope>)
    ensures Settled(m, req, scopes, AfterRequest(m, req, scopes))
  {
    if req.monitored == Some(true) {
      var withProfile := if m.profile.None? then m.(profile := req.profile) else m;
      var start := withProfile.(monitored := true, newSeasons := m.newSeasons || req.monitorNewSeasons == Some(true));
      var after := AfterRequest(m, req, scopes);
      forall key
        ensures OverrideSettled(req.seasons, scopes, m.overrides, after.overrides, key)
        ensures SeasonSettled(req.seasons, scopes, m.seasons, after.seasons, key.season)
      {
        ScopesSettle(start, req.seasons, scopes, key);
      }
      forall season ensures SeasonSettled(req.seasons, scopes, m.seasons, after.seasons, season) { assert Key(season, 0).season == season; }
      ScopesSettle(start, req.seasons, scopes, Key(0, 0));
      hide OverrideSettled, SeasonSettled, ApplyScopes;
    }
  }

  // ----- Idempotence

  ghost predicate Same(m: Monitors, n: Monitors, key: Key) {
    Lookup(m.overrides, key) == Lookup(n.overrides, key)
  }

  ghost predicate SameSeason(m: Monitors, n: Monitors, season: int) {
    Lookup(m.seasons, season) == Lookup(n.seasons, season)
  }

  /** Writing the scopes sets a key's override to a value of their own, or leaves it alone: m and n are any two states. */
  lemma {:induction false} OverrideIsConstantOrKept(m: Monitors, n: Monitors, flags: seq<SeasonFlag>, scopes: seq<Scope>, key: Key)
    ensures var m', n' := ApplyScopes(m, flags, scopes), ApplyScopes(n, flags, scopes);
            Same(m', n', key) || (Same(m', m, key) && Same(n', n, key))
  {
    if scopes != [] {
      var init := scopes[..|scopes| - 1];
      OverrideIsConstantOrKept(m, n, flags, init, key);
      Step(ApplyScopes(m, flags, init), flags, scopes[|scopes| - 1], key);
      Step(ApplyScopes(n, flags, init), flags, scopes[|scopes| - 1], key);
      hide ApplyScope, Lookup;
    }
  }

  lemma {:induction false} SeasonIsConstantOrKept(m: Monitors, n: Monitors, flags: seq<SeasonFlag>, scopes: seq<Scope>, season: int)
    ensures var m', n' := ApplyScopes(m, flags, scopes), ApplyScopes(n, flags, scopes);
            SameSeason(m', n', season) || (SameSeason(m', m, season) && SameSeason(n', n, season))
  {
    if scopes != [] {
      var init := scopes[..|scopes| - 1];
      SeasonIsConstantOrKept(m, n, flags, init, season);
      Step(ApplyScopes(m, flags, init), flags, scopes[|scopes| - 1], Key(season, 0));
      Step(ApplyScopes(n, flags, init), flags, scopes[|scopes| - 1], Key(season, 0));
      hide ApplyScope, Lookup;
    }
  }

  lemma ScopesTwice(m: Monitors, flags: seq<SeasonFlag>, scopes: seq<Scope>)
    ensures ApplyScopes(ApplyScopes(m, flags, scopes), flags, scopes) == ApplyScopes(m, flags, scopes)
  {
    var once := ApplyScopes(m, flags, scopes);
    var twice := ApplyScopes(once, flags, scopes);
    forall key ensures Same(once, twice, key) {
      OverrideIsConstantOrKept(m, once, flags, scopes, key);
    }
    forall season ensures SameSeason(once, twice, season) {
      SeasonIsConstantOrKept(m, once, flags, scopes, season);
    }
    assert once.overrides == twice.overrides by {
      forall key ensures key in once.overrides <==> key in twice.overrides { assert Same(once, twice, key); }
      forall key | key in once.overrides ensures once.overrides[key] == twice.overrides[key] { assert Same(once, twice, key); }
    }
    assert once.seasons == twice.seasons by {
      forall s ensures s in once.seasons <==> s in twice.seasons { assert SameSeason(once, twice, s); }
      forall s | s in once.seasons ensures once.seasons[s] == twice.seasons[s] { assert SameSeason(once, twice, s); }
    }
    ScopesEffect(m, flags, scopes, Key(0, 0));
    ScopesEffect(once, flags, scopes, Key(0, 0));
  }

  /** Applying a request twice equals applying it once. */
  lemma RequestIsIdempotent(m: Monitors, req: Request, scopes: seq<Scope>)
    ensures AfterRequest(AfterRequest(m, req, scopes), req, scopes) == AfterRequest(m, req, scopes)
  {
    if req.monitored == Some(true) {
      var withProfile := if m.profile.None? then m.(profile := req.profile) else m;
      var start := withProfile.(monitored := true, newSeasons := m.newSeasons || req.monitorNewSeasons == Some(true));
      ScopesEffect(start, req.seasons, scopes, Key(0, 0));
      ScopesTwice(start, req.seasons, scopes);
    }
  }

  // ----- Agreement with the creation path

  const NO_ROWS := Monitors(false, false, None, map[], map[])

  /** Both paths monitor the same known keys. */
  ghost predicate PathsAgree(req: Request, cat: Catalog, scopes: seq<Scope>) {
    forall key :: Known(req, cat, key) ==>
      (Effective(AfterRequest(NO_ROWS, req, scopes), key) <==> Effective(Created(req), key))
  }

  /** Every override belongs to a submitted season. */
  predicate OverridesSubmitted(req: Request) {
    forall k :: k in Overrides(req.episodes) ==> Submitted(req.seasons, k.season)
  }

  /** The compiled scopes reach a known key exactly when the request selects it or its repeated flags mislead it, unless
      the whole series was requested and the key's season was not submitted. */
  lemma CompiledReach(media: MediaType, req: Request, cat: Catalog, scopes: seq<Scope>, key: Key)
    requires Active(media, req) && req.seasons != []
    requires forall x :: x in scopes <==> Emits(media, req, cat, x)
    requires Known(req, cat, key)
    ensures Reached(req.seasons, scopes, key) <==>
              (Selects(req, key) || Misled(req, key)) && (Whole(req, cat) ==> Submitted(req.seasons, key.season))
  {
    CoverageExactly(media, req, cat, key);
    if !Whole(req, cat) {
      PartReach(media, req, cat, scopes, key);
    }
  }

  lemma PartReach(media: MediaType, req: Request, cat: Catalog, scopes: seq<Scope>, key: Key)
    requires Active(media, req) && req.seasons != [] && !Whole(req, cat)
    requires forall x :: x in scopes <==> Emits(media, req, cat, x)
    ensures Reached(req.seasons, scopes, key) <==> Covers(media, req, cat, key)
  {
    hide Whole;
    if Reached(req.seasons, scopes, key) {
      var x :| x in scopes && Reaches(req.seasons, x, key);
      assert x == SeasonScope(key.season) || x == EpisodeScope(key);
    }
    assert Reaches(req.seasons, SeasonScope(key.season), key) && Reaches(req.seasons, EpisodeScope(key), key);
    assert !Emits(media, req, cat, WHOLE_SERIES);
  }

  /** With submitted seasons, the two paths agree exactly unless a whole-series request carries an override
      outside the submitted seasons: the existing-item path then clears only the submitted ones. */
  lemma PathsAgreeExactly(media: MediaType, req: Request, cat: Catalog, scopes: seq<Scope>)
    requires Active(media, req) && DistinctSeasons(req.seasons) && req.seasons != []
    requires forall x :: x in scopes <==> Emits(media, req, cat, x)
    ensures PathsAgree(req, cat, scopes) <==> (Whole(req, cat) ==> OverridesSubmitted(req))
  {
    forall key | Known(req, cat, key)
      ensures Effective(AfterRequest(NO_ROWS, req, scopes), key) <==>
                Selects(req, key) && (Whole(req, cat) ==> Submitted(req.seasons, key.season))
      ensures Effective(Created(req), key) <==> Selects(req, key)
    {
      ExactEffect(NO_ROWS, req, scopes, key);
      CompiledReach(media, req, cat, scopes, key);
      DistinctNotMisled(req, key);
    }
    if Whole(req, cat) {
      if OverridesSubmitted(req) {
        forall key | Known(req, cat, key) && Selects(req, key) ensures Submitted(req.seasons, key.season) {
          assert key in Overrides(req.episodes) || key.season in Defaults(req.seasons);
        }
      } else {
        var k :| k in Overrides(req.episodes) && !Submitted(req.seasons, k.season);
        assert Known(req, cat, k) && Selects(req, k);
      }
    }
  }

  /** On a series of one season, asking for an episode of season 9 is a whole-series request: only the creation path
      monitors that episode. */
  lemma StrayEpisodeDividesThePaths(r: Request, scopes: seq<Scope>)
    requires Normalizes(Series, Request(Some(true), None, None, [], [EpisodeFlag(Key(9, 1), true)]),
                        Catalog([Key(1, 1)], Some(1)), r)
    requires forall x :: x in scopes <==> Emits(Series, r, Catalog([Key(1, 1)], Some(1)), x)
    ensures Whole(r, Catalog([Key(1, 1)], Some(1))) && !OverridesSubmitted(r)
    ensures !PathsAgree(r, Catalog([Key(1, 1)], Some(1)), scopes)
  {
    var cat := Catalog([Key(1, 1)], Some(1));
    NormalizedFlags(Series, Request(Some(true), None, None, [], [EpisodeFlag(Key(9, 1), true)]), cat, r);
    assert KnownSeason(cat, 1) && forall n :: KnownSeason(cat, n) ==> n == 1;
    assert SeasonFlag(1, true) in r.seasons && forall f :: f in r.seasons ==> f == SeasonFlag(1, true);
    assert EpisodeFlag(Key(9, 1), true) in r.episodes && !Submitted(r.seasons, 9);
    assert DistinctSeasons([]);
    PathsAgreeExactly(Series, r, cat, scopes);
  }

  /** Without submitted seasons only the creation path keeps the overrides. */
  lemma PathsAgreeWithoutSeasons(media: MediaType, req: Request, cat: Catalog, scopes: seq<Scope>)
    requires Active(media, req) && req.seasons == []
    requires forall x :: x in scopes <==> Emits(media, req, cat, x)
    ensures PathsAgree(req, cat, scopes) <==> NoOverrideOn(req)
  {
    forall key
      ensures !Effective(AfterRequest(NO_ROWS, req, scopes), key)
      ensures Effective(Created(req), key) <==> key in Overrides(req.episodes) && Overrides(req.episodes)[key]
    {
      ExactEffect(NO_ROWS, req, scopes, key);
      assert forall x :: x in scopes ==> !Reaches(req.seasons, x, key);
    }
    if !NoOverrideOn(req) {
      var k :| k in Overrides(req.episodes) && Overrides(req.episodes)[k];
      assert Known(req, cat, k);
    }
  }

  /** Of a series without known seasons, only the creation path keeps an episode asked for by name. */
  lemma UnknownSeriesDividesThePaths(r: Request, scopes: seq<Scope>)
    requires Normalizes(Series, Request(Some(true), None, None, [], [EpisodeFlag(Key(1, 1), true)]), Catalog([], None), r)
    requires forall x :: x in scopes <==> Emits(Series, r, Catalog([], None), x)
    ensures !PathsAgree(r, Catalog([], None), scopes)
  {
    NormalizedSeasons(Series, Request(Some(true), None, None, [], [EpisodeFlag(Key(1, 1), true)]), Catalog([], None), r);
    PathsAgreeWithoutSeasons(Series, r, Catalog([], None), scopes);
    assert EpisodeFlag(Key(1, 1), true) in r.episodes;
    assert Key(1, 1) in Overrides(r.episodes);
  }

  /** The requested content arrives on any existing item: every known key of a submitted season that the
      request selects is effectively monitored afterwards. */
  lemma SelectionArrives(media: MediaType, m: Monitors, req: Request, cat: Catalog, scopes: seq<Scope>, key: Key)
    requires Active(media, req)
    requires forall x :: x in scopes <==> Emits(media, req, cat, x)
    requires Known(req, cat, key) && Submitted(req.seasons, key.season) && Selects(req, key)
    ensures Effective(AfterRequest(m, req, scopes), key)
  {
    CompiledReach(media, req, cat, scopes, key);
    ExactEffect(m, req, scopes, key);
  }
}
