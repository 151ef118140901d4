/** The automatic grab of missing episodes (backend/internal/monitor/service.go). */
module AutoGrab {
  import opened Wrappers
  import opened DownloadRows
  import Scopes

  // An index over the item's downloads says which episodes are already on their way, a release is picked for each
  // wanted episode, and queuing it adds a row to the downloads. What the title parser reads off a release is part of
  // the release; its numbers are not negative. Episode identifiers are positive, as the database numbers them.

  datatype Parsed = Parsed(season: Option<nat>, episode: Option<nat>, episodeEnd: Option<nat>, special: bool)

  predicate IsSeasonPack(p: Parsed) { p.season.Some? && p.episode.None? && !p.special }

  datatype Download = Download(
    status: Status, linked: bool, episodeID: Option<nat>, season: Option<nat>, parsed: Parsed, url: string)

  datatype Release = Release(parsed: Parsed, url: string)

  datatype Episode = Episode(id: nat, season: nat, number: nat)

  predicate Imported(dl: Download) { dl.linked && (dl.status.Seeding? || dl.status.Completed?) }

  /** Rows that still stand for episodes on their way. */
  predicate Counts(dl: Download) { Active(dl.status) && !Imported(dl) }

  // ----- Which episodes a download covers

  predicate IsRange(p: Parsed) { p.episode.Some? && p.episodeEnd.Some? && p.episodeEnd.value > p.episode.value }

  /** The last episode a numbered title names. */
  function LastEpisode(p: Parsed): nat
    requires p.episode.Some?
  {
    if IsRange(p) then p.episodeEnd.value else p.episode.value
  }

  /** Title numbers speak for a row that has no episode, or that names more episodes than its own. */
  predicate KeyedByTitle(dl: Download) {
    dl.parsed.season.Some? && dl.parsed.episode.Some? && (dl.episodeID.None? || IsRange(dl.parsed))
  }

  predicate Covers(dl: Download, e: Episode) {
    Counts(dl) &&
    (dl.episodeID == Some(e.id) ||
     (IsSeasonPack(dl.parsed) && dl.season == Some(e.season) && dl.episodeID.None?) ||
     (KeyedByTitle(dl) && dl.parsed.season.value == e.season && dl.parsed.episode.value <= e.number <= LastEpisode(dl.parsed)))
  }

  /** A direct scan of the rows. */
  ghost predicate OnItsWay(dls: seq<Download>, e: Episode) { exists dl :: dl in dls && Covers(dl, e) }

  /** A row whose title names episode 0 of the season: its key is the one of a season pack. */
  predicate NamesEpisodeZero(dl: Download, season: nat) {
    Counts(dl) && KeyedByTitle(dl) && dl.parsed.season.value == season && dl.parsed.episode.value == 0
  }

  // ----- The index

  datatype Key = Key(episodeID: nat, season: nat, episode: nat)

  function TitleKeys(p: Parsed): set<Key>
    requires p.season.Some? && p.episode.Some?
  {
    set n | p.episode.value <= n <= LastEpisode(p) :: Key(0, p.season.value, n)
  }

  function KeysOf(dl: Download): set<Key> {
    if !Counts(dl) then {}
    else
      (if dl.episodeID.Some? then {Key(dl.episodeID.value, 0, 0)} else {}) +
      (if IsSeasonPack(dl.parsed) && dl.season.Some? && dl.episodeID.None? then {Key(0, dl.season.value, 0)} else {}) +
      (if KeyedByTitle(dl) then TitleKeys(dl.parsed) else {})
  }

  /** One row's keys: its episode, its season, and every episode its title names. */
  method AddKeys(m: set<Key>, dl: Download) returns (more: set<Key>)
    ensures more == m + KeysOf(dl)
  {
    more := m;
    if !Active(dl.status) || Imported(dl) { return; }
    if dl.episodeID.Some? { more := more + {Key(dl.episodeID.value, 0, 0)}; }
    if IsSeasonPack(dl.parsed) && dl.season.Some? && dl.episodeID.None? { more := more + {Key(0, dl.season.value, 0)}; }
    if dl.parsed.season.Some? && dl.parsed.episode.Some? {
      if dl.episodeID.None? || IsRange(dl.parsed) {
        ghost var before := more;
        var n, end := dl.parsed.episode.value, if IsRange(dl.parsed) then dl.parsed.episodeEnd.value else dl.parsed.episode.value;
        while n <= end
          invariant dl.parsed.episode.value <= n <= end + 1
          invariant more == before + set k | k in TitleKeys(dl.parsed) && k.episode < n
        {
          more := more + {Key(0, dl.parsed.season.value, n)};
          n := n + 1;
        }
      }
    }
  }

  method BuildDownloadMap(dls: seq<Download>) returns (m: set<Key>)
    ensures forall k :: k in m <==> exists dl :: dl in dls && k in KeysOf(dl)
  {
    hide KeysOf;
    m := {};
    for i := 0 to |dls|
      invariant forall k :: k in m <==> exists dl :: dl in dls[..i] && k in KeysOf(dl)
    {
      assert dls[..i + 1] == dls[..i] + [dls[i]];
      m := AddKeys(m, dls[i]);
    }
    assert dls[..|dls|] == dls;
  }

  predicate HasActiveDownloadForEpisode(m: set<Key>, e: Episode) {
    Key(e.id, 0, 0) in m || Key(0, e.season, 0) in m || Key(0, e.season, e.number) in m
  }

  ghost predicate IsIndexOf(m: set<Key>, dls: seq<Download>) {
    forall k :: k in m <==> exists dl :: dl in dls && k in KeysOf(dl)
  }

  predicate ProperIDs(dls: seq<Download>) { forall dl :: dl in dls && dl.episodeID.Some? ==> dl.episodeID.value > 0 }

  /**
   The index answers yes exactly when some row covers the episode or some row names episode 0 of its season. So it is wrong
   about an episode exactly when no row covers it and one names episode 0 of its season.
   */
  lemma IndexIsScan(dls: seq<Download>, m: set<Key>, e: Episode)
    requires IsIndexOf(m, dls) && ProperIDs(dls) && e.id > 0
    ensures HasActiveDownloadForEpisode(m, e) <==>
              OnItsWay(dls, e) || exists dl :: dl in dls && NamesEpisodeZero(dl, e.season)
  {
    forall dl | dl in dls ensures HasActiveDownloadForEpisode(KeysOf(dl), e) <==> Covers(dl, e) || NamesEpisodeZero(dl, e.season) {
    }
    hide KeysOf, Covers, NamesEpisodeZero;
    if HasActiveDownloadForEpisode(m, e) {
      var k :| k in m && (k == Key(e.id, 0, 0) || k == Key(0, e.season, 0) || k == Key(0, e.season, e.number));
      var dl :| dl in dls && k in KeysOf(dl);
      assert HasActiveDownloadForEpisode(KeysOf(dl), e);
    }
  }

  /** A download of the unaired pilot S01E00 makes the index answer yes for S01E05, which nothing covers. */
  lemma EpisodeZeroHidesTheSeason()
    ensures var dls := [Download(Pending, false, None, Some(1), Parsed(Some(1), Some(0), None, false), "pilot")];
            var e := Episode(7, 1, 5);
            !OnItsWay(dls, e) && forall m :: IsIndexOf(m, dls) ==> HasActiveDownloadForEpisode(m, e)
  {
    var dl := Download(Pending, false, None, Some(1), Parsed(Some(1), Some(0), None, false), "pilot");
    forall m | IsIndexOf(m, [dl]) ensures HasActiveDownloadForEpisode(m, Episode(7, 1, 5)) {
      assert dl in [dl] && Key(0, 1, 0) in KeysOf(dl);
    }
  }

  // ----- Picking a release

  datatype PackPreference = PreferPacks | PreferEpisodes | PacksOnly

  /** A numbered release that names the episode. */
  predicate NamesEpisode(r: Release, e: Episode) {
    r.parsed.season == Some(e.season) && r.parsed.episode.Some? &&
    (r.parsed.episode.value == e.number ||
     (r.parsed.episodeEnd.Some? && r.parsed.episode.value <= e.number <= r.parsed.episodeEnd.value))
  }

  predicate PacksSeason(r: Release, e: Episode) { r.parsed.season == Some(e.season) && IsSeasonPack(r.parsed) }

  /** What a release may do for an episode: pack its season, or name it. */
  predicate Serves(r: Release, e: Episode, pack: bool) { if pack then PacksSeason(r, e) else NamesEpisode(r, e) }

  /** The first release that does, in the order of the ranking. */
  function First(results: seq<Release>, e: Episode, pack: bool): (best: Option<Release>)
    ensures if best.None? then forall r :: r in results ==> !Serves(r, e, pack)
            else exists k :: 0 <= k < |results| && results[k] == best.value && Serves(results[k], e, pack) &&
                             forall j :: 0 <= j < k ==> !Serves(results[j], e, pack)
  {
    if results == [] then None
    else
      var init, last := results[..|results| - 1], results[|results| - 1];
      var before := First(init, e, pack);
      assert results == init + [last];
      if before.Some? then
        before
      else if Serves(last, e, pack) then
        assert results[|init|] == last && forall j :: 0 <= j < |init| ==> results[j] in init;
        Some(last)
      else None
  }

  function Preferred(pref: PackPreference, mostMissing: bool, episode: Option<Release>, pack: Option<Release>): Option<Release> {
    match pref
    case PacksOnly => pack
    case PreferPacks => if mostMissing && pack.Some? then pack else if episode.Some? then episode else pack
    case PreferEpisodes => if episode.Some? then episode else pack
  }

  function Best(results: seq<Release>, e: Episode, pref: PackPreference, mostMissing: bool): (best: Option<Release>)
    ensures best.Some? ==> best.value in results && (NamesEpisode(best.value, e) || PacksSeason(best.value, e))
  {
    Preferred(pref, mostMissing, First(results, e, false), First(results, e, true))
  }

  method FindBestForEpisode(results: seq<Release>, e: Episode, pref: PackPreference, mostMissing: bool) returns (best: Option<Release>)
    ensures best == Best(results, e, pref, mostMissing)
  {
    var bestEpisode: Option<Release>, bestPack: Option<Release> := None, None;
    for i := 0 to |results|
      invariant bestEpisode == First(results[..i], e, false) && bestPack == First(results[..i], e, true)
    {
      var r := results[i];
      assert results[..i + 1][..i] == results[..i];
      if r.parsed.season != Some(e.season) {
        continue;
      }
      if r.parsed.episode.Some? {
        if r.parsed.episode.value == e.number {
          if bestEpisode.None? { bestEpisode := Some(r); }
        }
        if r.parsed.episodeEnd.Some? {
          if r.parsed.episode.value <= e.number <= r.parsed.episodeEnd.value {
            if bestEpisode.None? { bestEpisode := Some(r); }
          }
        }
      } else if IsSeasonPack(r.parsed) {
        if bestPack.None? { bestPack := Some(r); }
      }
    }
    assert results[..|results|] == results;
    match pref {
      case PacksOnly => best := bestPack;
      case PreferPacks => best := if mostMissing && bestPack.Some? then bestPack else if bestEpisode.Some? then bestEpisode else bestPack;
      case PreferEpisodes => best := if bestEpisode.Some? then bestEpisode else bestPack;
    }
  }

  // ----- Queuing it

  /** createAutoDownload's row: a pack stands for its season, anything else for the wanted episode. */
  function QueuedRow(r: Release, e: Episode): Download {
    Download(Pending, false, if IsSeasonPack(r.parsed) then None else Some(e.id), Some(e.season), r.parsed, r.url)
  }

  /** What became of a queued row: its status moved on, but it is still active and not imported. */
  predicate StillOnItsWay(row: Download, now: Download) { Counts(now) && now == row.(status := now.status, linked := now.linked) }

  /** Queuing the release found for an episode covers it, whatever else is queued or changes, until the row ends or is imported. */
  lemma QueuedEpisodeIsCovered(r: Release, e: Episode, now: Download, dls: seq<Download>, m: set<Key>)
    requires NamesEpisode(r, e) || PacksSeason(r, e)
    requires StillOnItsWay(QueuedRow(r, e), now) && now in dls && IsIndexOf(m, dls)
    ensures Covers(now, e) && HasActiveDownloadForEpisode(m, e)
  {
    if IsSeasonPack(r.parsed) {
      assert Key(0, e.season, 0) in KeysOf(now);
    } else {
      assert Key(e.id, 0, 0) in KeysOf(now);
    }
  }

  /** So are all other episodes of a pack's season, and of the range the release names. */
  lemma QueuedRangeIsCovered(r: Release, e: Episode, other: Episode, now: Download, dls: seq<Download>, m: set<Key>)
    requires NamesEpisode(r, e) || PacksSeason(r, e)
    requires StillOnItsWay(QueuedRow(r, e), now) && now in dls && IsIndexOf(m, dls)
    requires other.season == e.season
    requires IsSeasonPack(r.parsed) || (IsRange(r.parsed) && r.parsed.episode.value <= other.number <= r.parsed.episodeEnd.value)
    ensures Covers(now, other) && HasActiveDownloadForEpisode(m, other)
  {
    if IsSeasonPack(r.parsed) {
      assert Key(0, e.season, 0) in KeysOf(now);
    } else {
      assert Key(0, other.season, other.number) in TitleKeys(r.parsed);
      assert Key(0, other.season, other.number) in KeysOf(now);
    }
  }

  // ----- Files that are already there

  datatype MediaFile = MediaFile(season: Option<nat>, episode: Option<nat>, parsed: Parsed)

  /** A file covers its own episode and, when its name agrees with that, the range its name goes on to. */
  predicate HasEpisode(f: MediaFile, season: nat, number: nat) {
    f.season == Some(season) && f.episode.Some? &&
    (f.episode.value == number ||
     (f.parsed.season == f.season && f.parsed.episode == f.episode && f.parsed.episodeEnd.Some? &&
      f.episode.value < number <= f.parsed.episodeEnd.value))
  }

  ghost predicate InLibrary(files: seq<MediaFile>, season: nat, number: nat) {
    exists f :: f in files && HasEpisode(f, season, number)
  }

  method BuildFileMap(files: seq<MediaFile>) returns (m: set<(nat, nat)>)
    ensures forall s: nat, n: nat :: (s, n) in m <==> InLibrary(files, s, n)
  {
    m := {};
    for i := 0 to |files|
      invariant forall s: nat, n: nat :: (s, n) in m <==> InLibrary(files[..i], s, n)
    {
      assert files[..i + 1] == files[..i] + [files[i]];
      var f := files[i];
      ghost var before := m;
      if f.season.Some? && f.episode.Some? {
        m := m + {(f.season.value, f.episode.value)};
        if f.parsed.season == f.season && f.parsed.episode == f.episode && f.parsed.episodeEnd.Some? {
          var n := f.episode.value + 1;
          while n <= f.parsed.episodeEnd.value
            invariant f.episode.value < n
            invariant forall x: nat, y: nat :: (x, y) in m <==>
                        (x, y) in before ||
                        (x == f.season.value &&
                         (y == f.episode.value || (f.episode.value < y < n && y <= f.parsed.episodeEnd.value)))
          {
            m := m + {(f.season.value, n)};
            n := n + 1;
          }
        }
      }
      assert forall x: nat, y: nat :: (x, y) in m <==> (x, y) in before || HasEpisode(f, x, y);
      hide HasEpisode;
    }
    assert files[..|files|] == files;
  }

  // ----- Which episodes are wanted

  datatype Listed = Listed(episode: Episode, aired: bool)

  /** The override of the episode if there is one, else the flag of its season. */
  predicate Monitored(overrides: map<Scopes.Key, bool>, seasons: map<int, bool>, e: Episode) {
    Scopes.Selected(overrides, seasons, Scopes.Key(e.season, e.number))
  }

  /** Aired, monitored, without a file, and without a row that covers it or hides its season. */
  ghost predicate Wanted(l: Listed, overrides: map<Scopes.Key, bool>, seasons: map<int, bool>, files: seq<MediaFile>, dls: seq<Download>) {
    l.aired && Monitored(overrides, seasons, l.episode) &&
    !InLibrary(files, l.episode.season, l.episode.number) &&
    !OnItsWay(dls, l.episode) && !(exists dl :: dl in dls && NamesEpisodeZero(dl, l.episode.season))
  }

  method WantedEpisodes(listed: seq<Listed>, overrides: map<Scopes.Key, bool>, seasons: map<int, bool>,
      files: seq<MediaFile>, dls: seq<Download>) returns (wanted: seq<Episode>)
    requires ProperIDs(dls) && forall l :: l in listed ==> l.episode.id > 0
    ensures forall e :: e in wanted <==> exists l :: l in listed && l.episode == e && Wanted(l, overrides, seasons, files, dls)
  {
    var fileMap := BuildFileMap(files);
    var downloadMap := BuildDownloadMap(dls);
    wanted := [];
    for i := 0 to |listed|
      invariant forall e :: e in wanted <==> exists l :: l in listed[..i] && l.episode == e && Wanted(l, overrides, seasons, files, dls)
    {
      assert listed[..i + 1] == listed[..i] + [listed[i]];
      var l := listed[i];
      var e := l.episode;
      IndexIsScan(dls, downloadMap, e);
      ghost var want := Wanted(l, overrides, seasons, files, dls);
      assert want <==>
             l.aired && Monitored(overrides, seasons, e) && (e.season, e.number) !in fileMap &&
             !HasActiveDownloadForEpisode(downloadMap, e);
      hide Wanted;
      if !l.aired { continue; }
      var key := Scopes.Key(e.season, e.number);
      if key in overrides {
        if !overrides[key] { continue; }
      } else if e.season !in seasons || !seasons[e.season] {
        continue;
      }
      if (e.season, e.number) in fileMap { continue; }
      if HasActiveDownloadForEpisode(downloadMap, e) { continue; }
      wanted := wanted + [e];
    }
    assert listed[..|listed|] == listed;
  }

  // ----- The same, told row by row

  /** The row blocks another grab of the episode: it is under way or done without being imported, and is for the episode, or a
      pack of its season, or a title without an episode of its own, or of several, that names the episode or episode 0. */
  predicate Blocks(dl: Download, e: Episode) {
    var p := dl.parsed;
    dl.status in {Pending, Downloading, Downloaded, Importing, Seeding, Completed} &&
    !(dl.linked && dl.status in {Seeding, Completed}) &&
    (dl.episodeID == Some(e.id) ||
     (dl.episodeID.None? && p.season.Some? && p.episode.None? && !p.special && dl.season == Some(e.season)) ||
     (p.season == Some(e.season) && p.episode.Some? &&
      (if p.episodeEnd.Some? && p.episodeEnd.value > p.episode.value
       then p.episode.value <= e.number <= p.episodeEnd.value || p.episode.value == 0
       else dl.episodeID.None? && (p.episode.value == e.number || p.episode.value == 0))))
  }

  lemma BlocksMeans(dl: Download, e: Episode)
    ensures Blocks(dl, e) <==> Covers(dl, e) || NamesEpisodeZero(dl, e.season)
  {
  }

  /** The file is of the episode, or of an earlier one from which its name goes on to it. */
  predicate Holds(f: MediaFile, e: Episode) {
    f.season == Some(e.season) && f.episode.Some? &&
    (f.episode == Some(e.number) ||
     (f.parsed.season == f.season && f.parsed.episode == f.episode && f.episode.value < e.number &&
      f.parsed.episodeEnd.Some? && e.number <= f.parsed.episodeEnd.value))
  }

  /** Wanted are the aired, monitored episodes that no file holds and no row blocks. */
  lemma WantedExactly(l: Listed, overrides: map<Scopes.Key, bool>, seasons: map<int, bool>, files: seq<MediaFile>, dls: seq<Download>)
    ensures var key := Scopes.Key(l.episode.season, l.episode.number);
            Wanted(l, overrides, seasons, files, dls) <==>
              l.aired && (if key in overrides then overrides[key] else key.season in seasons && seasons[key.season]) &&
              (forall f :: f in files ==> !Holds(f, l.episode)) && forall dl :: dl in dls ==> !Blocks(dl, l.episode)
  {
    forall dl | dl in dls ensures Blocks(dl, l.episode) <==> Covers(dl, l.episode) || NamesEpisodeZero(dl, l.episode.season) {
      BlocksMeans(dl, l.episode);
    }
    forall f | f in files ensures Holds(f, l.episode) <==> HasEpisode(f, l.episode.season, l.episode.number) {
    }
    hide Covers, NamesEpisodeZero, Blocks, HasEpisode, Holds;
  }

  /** The k-th result is the first that names the episode, alone or in a range, or the first pack of its season. */
  predicate FirstEpisode(results: seq<Release>, e: Episode, k: nat) {
    k < |results| && NumberedFor(results[k].parsed, e) && forall j :: 0 <= j < k ==> !NumberedFor(results[j].parsed, e)
  }

  predicate FirstPack(results: seq<Release>, e: Episode, k: nat) {
    k < |results| && PackFor(results[k].parsed, e) && forall j :: 0 <= j < k ==> !PackFor(results[j].parsed, e)
  }

  predicate NumberedFor(p: Parsed, e: Episode) {
    p.season == Some(e.season) &&
    (p.episode == Some(e.number) ||
     (p.episode.Some? && p.episodeEnd.Some? && p.episode.value <= e.number <= p.episodeEnd.value))
  }

  predicate PackFor(p: Parsed, e: Episode) { p.season == Some(e.season) && p.episode.None? && !p.special }

  /** A pack is taken if only packs will do, if they are preferred and most of the season is missing, or if nothing names the
      episode; otherwise the first release that names it. */
  lemma BestExactly(results: seq<Release>, e: Episode, pref: PackPreference, mostMissing: bool)
    ensures var best := Best(results, e, pref, mostMissing);
            var packed, named := exists k: nat :: FirstPack(results, e, k), exists k: nat :: FirstEpisode(results, e, k);
            if packed && (pref == PacksOnly || (pref == PreferPacks && mostMissing) || !named) then
              exists k: nat :: FirstPack(results, e, k) && best == Some(results[k])
            else if named && pref != PacksOnly then exists k: nat :: FirstEpisode(results, e, k) && best == Some(results[k])
            else best == None
  {
    var episode, pack := First(results, e, false), First(results, e, true);
    assert forall r :: r in results ==>
             (Serves(r, e, false) <==> NumberedFor(r.parsed, e)) && (Serves(r, e, true) <==> PackFor(r.parsed, e));
    hide First, NumberedFor, PackFor, Serves;
    if episode.Some? {
      var k :| 0 <= k < |results| && results[k] == episode.value && Serves(results[k], e, false) &&
               forall j :: 0 <= j < k ==> !Serves(results[j], e, false);
      assert FirstEpisode(results, e, k);
    }
    if pack.Some? {
      var k :| 0 <= k < |results| && results[k] == pack.value && Serves(results[k], e, true) &&
               forall j :: 0 <= j < k ==> !Serves(results[j], e, true);
      assert FirstPack(results, e, k);
    }
  }

  /** The row that is queued is pending, belongs to the item's season, and to the episode unless the release is a pack. */
  lemma QueuedRowExactly(r: Release, e: Episode)
    ensures var row := QueuedRow(r, e);
            row.status == Pending && !row.linked && row.season == Some(e.season) && row.parsed == r.parsed && row.url == r.url &&
            row.episodeID == if r.parsed.season.Some? && r.parsed.episode.None? && !r.parsed.special then None else Some(e.id)
  {
  }
}
