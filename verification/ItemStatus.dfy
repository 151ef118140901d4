/** The status of a library item (RecalcMediaItemStatus in backend/internal/sync/service.go). */
module ItemStatus {
  import opened Wrappers
  import opened AutoGrab
  import Scopes

  // And how it agrees with what the monitor still looks for (backend/internal/monitor/service.go).

  /** Other states, such as "new" for an item still to be matched, are set elsewhere. */
  datatype ItemState = Available | Partial | Missing | Requested | Other(name: string)

  datatype Item = Item(movie: bool, requested: bool, monitored: bool)

  /** The monitors of an item. */
  datatype Monitors = Monitors(overrides: map<Scopes.Key, bool>, seasons: map<int, bool>)

  /** A row of exactly this season and episode. */
  ghost predicate HasRow(files: seq<MediaFile>, e: Episode) {
    exists f :: f in files && f.season == Some(e.season) && f.episode == Some(e.number)
  }

  /** Aired, and monitored if the item is: the episodes whose files decide the status. */
  predicate Counted(item: Item, m: Monitors, l: Listed) {
    l.aired && (item.monitored ==> AutoGrab.Monitored(m.overrides, m.seasons, l.episode))
  }

  ghost predicate AllCovered(item: Item, m: Monitors, listed: seq<Listed>, files: seq<MediaFile>) {
    forall l :: l in listed && Counted(item, m, l) ==> HasRow(files, l.episode)
  }

  ghost function StatusOf(item: Item, m: Monitors, listed: seq<Listed>, files: seq<MediaFile>): ItemState {
    if item.movie then
      if files != [] then Available else if item.requested then Requested else Missing
    else if files == [] && item.requested then Requested
    else if files == [] && !item.monitored && !exists l :: l in listed && Counted(item, m, l) then Missing
    else if AllCovered(item, m, listed, files) then Available
    else if files != [] then Partial
    else Missing
  }

  /** An episode whose file counts: it has aired, and in a monitored item its override, or else its season, is on. */
  ghost predicate FileCounts(item: Item, m: Monitors, l: Listed) {
    var key := Scopes.Key(l.episode.season, l.episode.number);
    l.aired &&
    (item.monitored ==> if key in m.overrides then m.overrides[key] else key.season in m.seasons && m.seasons[key.season])
  }

  /** No file is listed under exactly this season and episode. */
  ghost predicate FileMissing(files: seq<MediaFile>, l: Listed) {
    forall f :: f in files ==> f.season != Some(l.episode.season) || f.episode != Some(l.episode.number)
  }

  /** Each status, told from the files: what is requested stays so until there is a file; a film is available with one; a series
      is available if no file that counts is missing, unless it is unmonitored, without files, and nothing has aired; with some
      files it is partial, and without any missing. */
  lemma StatusExactly(item: Item, m: Monitors, listed: seq<Listed>, files: seq<MediaFile>)
    ensures var status := StatusOf(item, m, listed, files);
            var counts := exists l :: l in listed && FileCounts(item, m, l);
            var lacking := exists l :: l in listed && FileCounts(item, m, l) && FileMissing(files, l);
            (status == Requested <==> files == [] && item.requested) &&
            (status == Available <==>
               if item.movie then files != []
               else !lacking && (files != [] || (!item.requested && (item.monitored || counts)))) &&
            (status == Partial <==> !item.movie && files != [] && lacking) &&
            (status == Missing <==> files == [] && !item.requested && (item.movie || lacking || (!item.monitored && !counts)))
  {
    forall l | l in listed
      ensures FileCounts(item, m, l) <==> Counted(item, m, l)
      ensures FileMissing(files, l) <==> !HasRow(files, l.episode)
    {
    }
    hide FileCounts, FileMissing, Counted, HasRow;
  }

  method AiredEpisodes(listed: seq<Listed>) returns (aired: seq<Listed>)
    ensures forall l :: l in aired <==> l in listed && l.aired
  {
    aired := [];
    for i := 0 to |listed|
      invariant forall l :: l in aired <==> l in listed[..i] && l.aired
    {
      assert listed[..i + 1] == listed[..i] + [listed[i]];
      if listed[i].aired { aired := aired + [listed[i]]; }
    }
    assert listed[..|listed|] == listed;
  }

  method MonitoredEpisodes(m: Monitors, listed: seq<Listed>) returns (monitored: seq<Listed>)
    ensures forall l :: l in monitored <==> l in listed && AutoGrab.Monitored(m.overrides, m.seasons, l.episode)
  {
    monitored := [];
    for i := 0 to |listed|
      invariant forall l :: l in monitored <==> l in listed[..i] && AutoGrab.Monitored(m.overrides, m.seasons, l.episode)
    {
      assert listed[..i + 1] == listed[..i] + [listed[i]];
      var e := listed[i].episode;
      var key := Scopes.Key(e.season, e.number);
      if key in m.overrides {
        if m.overrides[key] { monitored := monitored + [listed[i]]; }
        continue;
      }
      if e.season in m.seasons && m.seasons[e.season] { monitored := monitored + [listed[i]]; }
    }
    assert listed[..|listed|] == listed;
  }

  method CountCovered(wanted: seq<Listed>, files: seq<MediaFile>) returns (covered: nat)
    ensures covered <= |wanted| && (covered == |wanted| <==> forall l :: l in wanted ==> HasRow(files, l.episode))
    ensures covered > 0 ==> files != []
  {
    var fileSet: set<(nat, nat)> := {};
    for i := 0 to |files|
      invariant forall e: Episode :: (e.season, e.number) in fileSet <==> HasRow(files[..i], e)
    {
      assert files[..i + 1] == files[..i] + [files[i]];
      if files[i].season.Some? && files[i].episode.Some? {
        fileSet := fileSet + {(files[i].season.value, files[i].episode.value)};
      }
    }
    assert files[..|files|] == files;
    covered := 0;
    for i := 0 to |wanted|
      invariant covered <= i && (covered == i <==> forall l :: l in wanted[..i] ==> HasRow(files, l.episode))
      invariant covered > 0 ==> files != []
    {
      assert wanted[..i + 1] == wanted[..i] + [wanted[i]];
      if (wanted[i].episode.season, wanted[i].episode.number) in fileSet { covered := covered + 1; }
    }
    assert wanted[..|wanted|] == wanted;
  }

  method RecalcStatus(item: Item, m: Monitors, listed: seq<Listed>, files: seq<MediaFile>) returns (status: ItemState)
    ensures status == StatusOf(item, m, listed, files)
  {
    var hasFiles := files != [];
    if item.movie { return if hasFiles then Available else if item.requested then Requested else Missing; }
    if !hasFiles && item.requested { return Requested; }
    var wanted := AiredEpisodes(listed);
    if item.monitored { wanted := MonitoredEpisodes(m, wanted); }
    hide HasRow;
    assert forall l :: l in wanted <==> l in listed && Counted(item, m, l);
    var covered := CountCovered(wanted, files);
    if |wanted| == 0 { return if hasFiles || item.monitored then Available else Missing; }
    assert wanted[0] in wanted;
    if covered == |wanted| { return Available; }
    if covered > 0 { return Partial; }
    return if hasFiles then Partial else Missing;
  }

  // ----- What is stored

  datatype Row = Row(item: Item, status: ItemState, deletionPending: bool, matched: bool)

  datatype RecalcError = ErrDeletionPending

  class Items {
    var row: Option<Row>

    constructor (r: Option<Row>)
      ensures row == r
    {
      row := r;
    }

    /** An item being deleted is refused; one that is gone, or has no metadata yet, keeps its status: "new" is what the matcher
        looks for. */
    method RecalcMediaItemStatus(m: Monitors, listed: seq<Listed>, files: seq<MediaFile>) returns (r: Result<bool, RecalcError>)
      modifies this
      ensures old(row).None? ==> r == Ok(false) && row.None?
      ensures old(row).Some? && old(row).value.deletionPending ==> r == Err(ErrDeletionPending) && row == old(row)
      ensures old(row).Some? && !old(row).value.deletionPending ==>
                var before := old(row).value;
                var status := if before.matched then StatusOf(before.item, m, listed, files) else before.status;
                row == Some(before.(status := status)) && r == Ok(status != before.status)
    {
      if row.None? { return Ok(false); }
      if row.value.deletionPending { return Err(ErrDeletionPending); }
      if !row.value.matched { return Ok(false); }
      var status := RecalcStatus(row.value.item, m, listed, files);
      if status == row.value.status { return Ok(false); }
      row := Some(row.value.(status := status));
      return Ok(true);
    }
  }

  // ----- Agreement with the monitor

  /** The monitor misses no file: every aired, monitored episode is in the library by its own rules. */
  ghost predicate MonitorMissesNothing(m: Monitors, listed: seq<Listed>, files: seq<MediaFile>) {
    forall l :: l in listed && l.aired && AutoGrab.Monitored(m.overrides, m.seasons, l.episode) ==>
      InLibrary(files, l.episode.season, l.episode.number)
  }

  /** A wanted episode that only the range in a file's name covers, not a row of its own. */
  ghost predicate OnlyInRange(m: Monitors, listed: seq<Listed>, files: seq<MediaFile>) {
    exists l :: l in listed && l.aired && AutoGrab.Monitored(m.overrides, m.seasons, l.episode) &&
      InLibrary(files, l.episode.season, l.episode.number) && !HasRow(files, l.episode)
  }

  /**
   For a monitored series, "available" is exactly "the monitor misses nothing, no wanted episode is covered by a range alone,
   and it is not a request without files": the monitor reads ranges off file names and knows no requests, the status does not
   read ranges and keeps requests apart.
   */
  lemma AvailableAgainstMonitor(item: Item, m: Monitors, listed: seq<Listed>, files: seq<MediaFile>)
    requires !item.movie && item.monitored
    ensures StatusOf(item, m, listed, files) == Available <==>
              !(files == [] && item.requested) && MonitorMissesNothing(m, listed, files) && !OnlyInRange(m, listed, files)
  {
    forall e: Episode | HasRow(files, e) ensures InLibrary(files, e.season, e.number) {
      var f :| f in files && f.season == Some(e.season) && f.episode == Some(e.number);
      assert HasEpisode(f, e.season, e.number);
    }
    hide HasRow, InLibrary, Monitored;
  }

  /** A file S01E01-E02 completes the season for the monitor, yet the series stays "partial". */
  lemma RangeFileStaysPartial()
    ensures var m, item := Monitors(map[], map[1 := true]), Item(false, false, true);
            var listed := [Listed(Episode(1, 1, 1), true), Listed(Episode(2, 1, 2), true)];
            var files := [MediaFile(Some(1), Some(1), Parsed(Some(1), Some(1), Some(2), false))];
            MonitorMissesNothing(m, listed, files) && StatusOf(item, m, listed, files) == Partial
  {
    var f := MediaFile(Some(1), Some(1), Parsed(Some(1), Some(1), Some(2), false));
    assert HasEpisode(f, 1, 1) && HasEpisode(f, 1, 2) && f in [f];
    var l := Listed(Episode(2, 1, 2), true);
    assert l in [Listed(Episode(1, 1, 1), true), l];
    assert !HasRow([f], l.episode);
  }

  /** A requested series of which nothing has aired stays "requested", although the monitor misses nothing. */
  lemma UnairedRequestStaysRequested(listed: seq<Listed>, m: Monitors)
    requires forall l :: l in listed ==> !l.aired
    ensures var item := Item(false, true, true);
            MonitorMissesNothing(m, listed, []) && !OnlyInRange(m, listed, []) && StatusOf(item, m, listed, []) == Requested &&
            StatusOf(item.(requested := false), m, listed, []) == Available
  {
    AvailableAgainstMonitor(Item(false, false, true), m, listed, []);
  }
}
