/**
 Request scopes and the order in which both packages list them
 (sortedRequestScopes in backend/internal/matching/request_scopes.go and
 backend/internal/sync/request_attribution.go).
 */
module Scopes {
  import opened Wrappers

  datatype MediaType = Movie | Series

  datatype Key = Key(season: int, episode: int)

  /** The override of an episode if there is one, else the flag of its season. */
  predicate Selected(overrides: map<Key, bool>, seasons: map<int, bool>, key: Key) {
    if key in overrides then overrides[key] else key.season in seasons && seasons[key.season]
  }

  /** In the alphabetical order of the stored names: episode, future_seasons, media, season, whole_series. */
  datatype Kind = EpisodeKind | FutureSeasonsKind | MediaKind | SeasonKind | WholeSeriesKind {
    function Rank(): nat {
      match this
      case EpisodeKind => 0
      case FutureSeasonsKind => 1
      case MediaKind => 2
      case SeasonKind => 3
      case WholeSeriesKind => 4
    }
  }

  datatype Scope = Scope(kind: Kind, season: int, episode: int)

  const MEDIA := Scope(MediaKind, 0, 0)
  const FUTURE_SEASONS := Scope(FutureSeasonsKind, 0, 0)
  const WHOLE_SERIES := Scope(WholeSeriesKind, 0, 0)

  function SeasonScope(season: int): Scope { Scope(SeasonKind, season, 0) }

  function EpisodeScope(key: Key): Scope { Scope(EpisodeKind, key.season, key.episode) }

  predicate Less(x: Scope, y: Scope) {
    if x.season != y.season then x.season < y.season
    else if x.episode != y.episode then x.episode < y.episode
    else x.kind.Rank() < y.kind.Rank()
  }

  /** The names under which the scopes are stored. */
  function Name(kind: Kind): string {
    match kind
    case EpisodeKind => "episode"
    case FutureSeasonsKind => "future_seasons"
    case MediaKind => "media"
    case SeasonKind => "season"
    case WholeSeriesKind => "whole_series"
  }

  /** The order of strings. */
  predicate Before(x: string, y: string) {
    y != [] && (x == [] || x[0] < y[0] || (x[0] == y[0] && Before(x[1..], y[1..])))
  }

  /** No string comes before itself. */
  lemma {:induction false} NotBeforeItself(x: string)
    ensures !Before(x, x)
  {
    if x != [] { NotBeforeItself(x[1..]); }
  }

  /** By season, then episode, then name. */
  lemma LessExactly(x: Scope, y: Scope)
    ensures Less(x, y) <==>
              x.season < y.season ||
              (x.season == y.season &&
               (x.episode < y.episode || (x.episode == y.episode && Before(Name(x.kind), Name(y.kind)))))
  {
    NotBeforeItself(Name(x.kind));
  }

  predicate Sorted(scopes: seq<Scope>) {
    forall i, j :: 0 <= i < j < |scopes| ==> Less(scopes[i], scopes[j])
  }

  ghost predicate Lists(scopes: seq<Scope>, seen: set<Scope>) {
    Sorted(scopes) && forall x :: x in scopes <==> x in seen
  }

  /** A set of scopes has one listing, so the output does not depend on map iteration order. */
  lemma {:induction false} OneListing(s: seq<Scope>, t: seq<Scope>, seen: set<Scope>)
    requires Lists(s, seen) && Lists(t, seen)
    ensures s == t
    decreases |s|
  {
    assert s == [] || s[0] in s;
    assert t == [] || t[0] in t;
    if s != [] && t != [] {
      assert s[0] in seen && t[0] in seen && s[0] in t && t[0] in s;
      var i :| 0 <= i < |t| && t[i] == s[0];
      var j :| 0 <= j < |s| && s[j] == t[0];
      assert s[0] == t[0];
      assert s == [s[0]] + s[1..] && t == [t[0]] + t[1..];
      forall x ensures x in s[1..] <==> x in seen - {s[0]} {
      }
      forall x ensures x in t[1..] <==> x in seen - {s[0]} {
      }
      OneListing(s[1..], t[1..], seen - {s[0]});
    }
  }

  /** Where x belongs among sorted scopes. */
  method InsertScope(scopes: seq<Scope>, x: Scope) returns (r: seq<Scope>)
    requires Sorted(scopes) && x !in scopes
    ensures Sorted(r)
    ensures forall y :: y in r <==> y == x || y in scopes
  {
    var i := 0;
    while i < |scopes| && Less(scopes[i], x)
      invariant 0 <= i <= |scopes|
      invariant forall k :: 0 <= k < i ==> Less(scopes[k], x)
    {
      i := i + 1;
    }
    InsertMembers(scopes, i, x);
    hide Insert;
    r := Insert(scopes, i, x);
    forall k | i <= k < |scopes| ensures Less(x, scopes[k]) {
      assert scopes[i] != x;
    }
  }

  method SortedRequestScopes(seen: set<Scope>) returns (scopes: seq<Scope>)
    ensures Lists(scopes, seen)
  {
    scopes := [];
    var rest := seen;
    while rest != {}
      invariant rest <= seen
      invariant Lists(scopes, seen - rest)
      decreases rest
    {
      var x := Pick(rest);
      scopes := InsertScope(scopes, x);
      rest := rest - {x};
    }
  }
}
