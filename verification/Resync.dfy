/** Resyncing one media item with the disk (captureResyncPreimage to applyResyncCandidate in backend/internal/sync/service.go). */
module Resync {
  import opened Wrappers
  import opened LibraryFolders

  // The folder scan runs outside the transaction; the transaction applies it only if the item's file rows are still
  // those the scan started from.

  datatype Content = Content(
    fileName: string, size: int, resolution: string, sourceType: string, season: Option<int>, episode: Option<int>)

  /** A row of media_files; `stamp` stands for the times the row carries. */
  datatype File = File(id: nat, path: Path, content: Content, stamp: nat)

  datatype Stat = Size(bytes: int) | Gone | Failing

  /** What a scan of each readable folder finds, what stat says of a path, and what a file name parses to. */
  datatype Disk = Disk(folders: map<string, map<Path, Content>>, stat: Path -> Stat, parse: string -> Content)

  /** A scan finds files below the folder it scans. */
  ghost predicate WellFormed(disk: Disk) {
    forall d, p :: d in disk.folders && p in disk.folders[d] ==> p.top == Some(d)
  }

  /** The item and library identity a scan relies on. */
  datatype Identity = Identity(item: nat, mediaType: string, library: nat, libraryPath: string)

  datatype Preimage = Preimage(identity: Identity, files: seq<File>)

  datatype Candidate = Candidate(freshByPath: map<Path, Content>, removePaths: set<Path>, failedWindows: nat)

  datatype Counts = Counts(updated: nat, added: nat, removed: nat)

  datatype ResyncError = ErrStale | ErrNotFound | ErrDeletionPending | ErrUnique

  // ----- What the scan should find

  predicate TopFolder(files: map<Path, Content>, d: string) { exists p :: p in files && p.top == Some(d) }

  /** Found by scanning one of the item's folders. */
  function Found(files: map<Path, Content>, disk: Disk, p: Path): Option<Content> {
    if p.top.Some? && TopFolder(files, p.top.value) && p.top.value in disk.folders
    then Lookup(disk.folders[p.top.value], p)
    else None
  }

  /** A tracked file the folder scan missed, although its folder could be read. */
  predicate Missed(files: map<Path, Content>, disk: Disk, p: Path) {
    p in files && p.top.Some? && p.top.value in disk.folders && Found(files, disk, p).None?
  }

  function Parsed(disk: Disk, fileName: string, bytes: int): Content {
    disk.parse(fileName).(fileName := fileName, size := bytes)
  }

  function FreshAt(files: map<Path, Content>, disk: Disk, p: Path): Option<Content> {
    if Found(files, disk, p).Some? then Found(files, disk, p)
    else if Missed(files, disk, p) && disk.stat(p).Size? then Some(Parsed(disk, files[p].fileName, disk.stat(p).bytes))
    else None
  }

  predicate Removable(files: map<Path, Content>, disk: Disk, p: Path) { Missed(files, disk, p) && disk.stat(p).Gone? }

  ghost predicate ScanOf(files: map<Path, Content>, disk: Disk, c: Candidate) {
    (forall p :: Lookup(c.freshByPath, p) == FreshAt(files, disk, p)) &&
    forall p :: p in c.removePaths <==> Removable(files, disk, p)
  }

  // ----- What the commit should do

  /** An unnumbered file keeps an episode it was given, unless its season now says otherwise. */
  function Merged(current: Content, scanned: Content): Content {
    var sticky := scanned.episode.None? && current.season.Some? && current.episode.Some? &&
                  (scanned.season.None? || scanned.season == current.season);
    var f := if sticky then scanned.(season := current.season, episode := current.episode) else scanned;
    f.(fileName := current.fileName)
  }

  function After(files: map<Path, Content>, c: Candidate, p: Path): Option<Content> {
    if p in c.removePaths then None
    else if p !in c.freshByPath then Lookup(files, p)
    else if p in files then Some(Merged(files[p], c.freshByPath[p]))
    else Some(c.freshByPath[p])
  }

  ghost predicate Committed(files: map<Path, Content>, c: Candidate, after: map<Path, Content>) {
    forall p :: Lookup(after, p) == After(files, c, p)
  }

  ghost function UpdatedPaths(files: map<Path, Content>, scanned: map<Path, Content>): set<Path> {
    set p | p in scanned && p in files && Merged(files[p], scanned[p]) != files[p]
  }

  // ----- Resync converges

  lemma MergeTwice(current: Content, f: Content)
    ensures Merged(Merged(current, f), f) == Merged(current, f)
    ensures Merged(f, f) == f
  {
  }

  /** The item never reaches beyond the folders it started from. */
  lemma FoldersShrink(files: map<Path, Content>, disk: Disk, c: Candidate, after: map<Path, Content>, d: string)
    requires WellFormed(disk) && ScanOf(files, disk, c) && Committed(files, c, after)
    requires TopFolder(after, d)
    ensures TopFolder(files, d)
  {
    var p :| p in after && p.top == Some(d);
    assert Lookup(after, p) == After(files, c, p);
    assert Lookup(c.freshByPath, p) == FreshAt(files, disk, p);
    if p in files { assert TopFolder(files, d); }
  }

  /** On an unchanged disk the second scan finds, path by path, what the first commit left. */
  lemma SecondScan(files: map<Path, Content>, disk: Disk, c: Candidate, after: map<Path, Content>, p: Path)
    requires WellFormed(disk) && ScanOf(files, disk, c) && Committed(files, c, after)
    ensures !Removable(after, disk, p)
    ensures FreshAt(after, disk, p).Some? ==> p in after && Merged(after[p], FreshAt(after, disk, p).value) == after[p]
  {
    assert Lookup(after, p) == After(files, c, p);
    assert Lookup(c.freshByPath, p) == FreshAt(files, disk, p);
    assert p in c.removePaths <==> Removable(files, disk, p);
    if p in after && p.top.Some? { assert TopFolder(after, p.top.value); }
    if p.top.Some? && TopFolder(after, p.top.value) { FoldersShrink(files, disk, c, after, p.top.value); }
    if p in c.freshByPath {
      if p in files { MergeTwice(files[p], c.freshByPath[p]); } else { MergeTwice(c.freshByPath[p], c.freshByPath[p]); }
    }
  }

  /** A second resync of an unchanged disk changes nothing and reports 0 updated, 0 added, 0 removed. */
  lemma ResyncConverges(files: map<Path, Content>, disk: Disk, c: Candidate, after: map<Path, Content>, again: Candidate)
    requires WellFormed(disk) && ScanOf(files, disk, c) && Committed(files, c, after) && ScanOf(after, disk, again)
    ensures Committed(after, again, after)
    ensures UpdatedPaths(after, again.freshByPath) == {} && again.freshByPath.Keys <= after.Keys && again.removePaths == {}
  {
    forall p
      ensures p !in again.removePaths
      ensures p in again.freshByPath ==> p in after && Merged(after[p], again.freshByPath[p]) == after[p]
    {
      SecondScan(files, disk, c, after, p);
      assert Lookup(again.freshByPath, p) == FreshAt(after, disk, p);
      assert p in again.removePaths <==> Removable(after, disk, p);
    }
    hide ScanOf, Committed, Merged;
    assert forall p :: Lookup(after, p) == After(after, again, p);
  }

  /** An episode given to an unnumbered file survives the rescan, unless the season now contradicts it. */
  lemma AssignmentSticks(files: map<Path, Content>, c: Candidate, after: map<Path, Content>, p: Path)
    requires Committed(files, c, after) && p in files && p !in c.removePaths
    requires files[p].season.Some? && files[p].episode.Some?
    ensures p in after
    ensures after[p].season == files[p].season && after[p].episode == files[p].episode <==>
              p in c.freshByPath ==>
                (c.freshByPath[p].episode.None? && (c.freshByPath[p].season.None? || c.freshByPath[p].season == files[p].season)) ||
                (c.freshByPath[p].season == files[p].season && c.freshByPath[p].episode == files[p].episode)
  {
    assert Lookup(after, p) == After(files, c, p);
  }

  // ----- The scan in steps

  function Contents(rows: map<Path, File>): map<Path, Content> { map p | p in rows :: rows[p].content }

  /** The rows of the item, in the order the store lists them. */
  ghost predicate Lists(files: seq<File>, rows: map<Path, File>) {
    (forall p :: p in rows ==> rows[p].path == p && rows[p] in files) &&
    (forall f :: f in files ==> f.path in rows && rows[f.path] == f) && DistinctIds(files)
  }

  predicate DistinctIds(files: seq<File>) { forall i, j :: 0 <= i < j < |files| ==> files[i].id != files[j].id }

  method TopFolders(files: seq<File>, ghost rows: map<Path, File>) returns (tops: set<string>)
    requires Lists(files, rows)
    ensures forall d :: d in tops <==> TopFolder(Contents(rows), d)
  {
    tops := {};
    for k := 0 to |files|
      invariant forall d :: d in tops <==> exists f :: f in files[..k] && f.path.top == Some(d)
    {
      assert files[..k + 1] == files[..k] + [files[k]];
      if files[k].path.top.Some? { tops := tops + {files[k].path.top.value}; }
    }
    assert files[..|files|] == files;
    forall d ensures d in tops <==> TopFolder(Contents(rows), d) {
      if TopFolder(Contents(rows), d) {
        var p :| p in Contents(rows) && p.top == Some(d);
        assert rows[p] in files && rows[p].path == p;
      }
    }
  }

  /** Every readable folder contributes its files; the others are remembered. */
  method ScanFolders(tops: set<string>, disk: Disk, ghost files: map<Path, Content>)
    returns (freshByPath: map<Path, Content>, failedTops: set<string>)
    requires WellFormed(disk) && forall d :: d in tops <==> TopFolder(files, d)
    ensures forall p :: Lookup(freshByPath, p) == Found(files, disk, p)
    ensures forall d :: d in failedTops <==> d in tops && d !in disk.folders
  {
    freshByPath, failedTops := map[], {};
    var rest := tops;
    while rest != {}
      invariant rest <= tops
      invariant forall p :: Lookup(freshByPath, p) ==
                              if p.top.Some? && p.top.value in tops && p.top.value !in rest then Found(files, disk, p) else None
      invariant forall d :: d in failedTops <==> d in tops && d !in rest && d !in disk.folders
      decreases rest
    {
      var d := Pick(rest);
      rest := rest - {d};
      if d in disk.folders {
        freshByPath := freshByPath + disk.folders[d];
      } else {
        failedTops := failedTops + {d};
      }
    }
  }

  /** The files the folder scan missed are looked at one by one. */
  method InspectMissed(files: seq<File>, disk: Disk, found: map<Path, Content>, failedTops: set<string>, ghost rows: map<Path, File>)
    returns (freshByPath: map<Path, Content>, removePaths: set<Path>, failedFiles: nat)
    requires Lists(files, rows) && forall p :: Lookup(found, p) == Found(Contents(rows), disk, p)
    requires forall d :: d in failedTops <==> TopFolder(Contents(rows), d) && d !in disk.folders
    ensures forall p :: Lookup(freshByPath, p) == FreshAt(Contents(rows), disk, p)
    ensures forall p :: p in removePaths <==> Removable(Contents(rows), disk, p)
    ensures failedFiles == |FailingPaths(files, rows, disk)|
  {
    freshByPath, removePaths, failedFiles := found, {}, 0;
    NoneInspected(files, rows, disk, found);
    hide FailingPaths, Inspected, Contents, FreshAt, Removable;
    for k := 0 to |files|
      invariant Inspected(files[..k], Contents(rows), disk, found, freshByPath, removePaths)
      invariant failedFiles == |FailingPaths(files[..k], rows, disk)|
    {
      InspectStep(files, k, rows, disk, found, failedTops, freshByPath, removePaths);
      FailingStep(files, rows, disk, k);
      hide Lists, Missed;
      var f := files[k];
      if f.path !in freshByPath && f.path.top.Some? {
        if f.path.top.value !in failedTops {
          var info := disk.stat(f.path);
          match info {
            case Size(bytes) => freshByPath := freshByPath[f.path := Parsed(disk, f.content.fileName, bytes)];
            case Gone => removePaths := removePaths + {f.path};
            case Failing => failedFiles := failedFiles + 1;
          }
        }
      }
    }
    assert files[..|files|] == files;
    AllInspected(files, rows, disk, found, freshByPath, removePaths);
  }

  /** The tracked files seen so far have been decided about. */
  ghost predicate Inspected(seen: seq<File>, files: map<Path, Content>, disk: Disk, found: map<Path, Content>,
      freshByPath: map<Path, Content>, removePaths: set<Path>)
  {
    (forall p :: Lookup(freshByPath, p) == if Listed(seen, p) then FreshAt(files, disk, p) else Lookup(found, p)) &&
    forall p :: p in removePaths <==> Listed(seen, p) && Removable(files, disk, p)
  }

  lemma NoneInspected(files: seq<File>, rows: map<Path, File>, disk: Disk, found: map<Path, Content>)
    ensures Inspected(files[..0], Contents(rows), disk, found, found, {}) && FailingPaths(files[..0], rows, disk) == {}
  {
  }

  lemma AllInspected(files: seq<File>, rows: map<Path, File>, disk: Disk, found: map<Path, Content>,
      freshByPath: map<Path, Content>, removePaths: set<Path>)
    requires Lists(files, rows) && Inspected(files, Contents(rows), disk, found, freshByPath, removePaths)
    requires forall p :: Lookup(found, p) == Found(Contents(rows), disk, p)
    ensures forall p :: Lookup(freshByPath, p) == FreshAt(Contents(rows), disk, p)
    ensures forall p :: p in removePaths <==> Removable(Contents(rows), disk, p)
  {
    hide Found;
    forall p
      ensures Lookup(freshByPath, p) == FreshAt(Contents(rows), disk, p)
      ensures p in removePaths <==> Removable(Contents(rows), disk, p)
    {
      assert p in rows ==> rows[p] in files && rows[p].path == p;
      assert Listed(files, p) || p !in rows;
    }
  }

  /** The next file is decided about: missed by the scan of a readable folder, it is fresh, gone or left alone. */
  lemma InspectStep(files: seq<File>, k: nat, rows: map<Path, File>, disk: Disk, found: map<Path, Content>, failedTops: set<string>,
      freshByPath: map<Path, Content>, removePaths: set<Path>)
    requires k < |files| && Lists(files, rows) && Inspected(files[..k], Contents(rows), disk, found, freshByPath, removePaths)
    requires forall p :: Lookup(found, p) == Found(Contents(rows), disk, p)
    requires forall d :: d in failedTops <==> TopFolder(Contents(rows), d) && d !in disk.folders
    ensures var f := files[k];
            var missed := f.path !in freshByPath && f.path.top.Some? && f.path.top.value !in failedTops;
            (missed <==> Missed(Contents(rows), disk, f.path)) &&
            Inspected(files[..k + 1], Contents(rows), disk, found,
              if missed && disk.stat(f.path).Size?
              then freshByPath[f.path := Parsed(disk, f.content.fileName, disk.stat(f.path).bytes)] else freshByPath,
              if missed && disk.stat(f.path).Gone? then removePaths + {f.path} else removePaths)
  {
    var f := files[k];
    MissedExactly(files, k, rows, disk, found, failedTops, freshByPath, removePaths);
    hide Lists, Found, Contents, Parsed, TopFolder, Missed, FreshAt, Removable;
    ListedStep(files, k);
    hide Listed;
  }

  lemma MissedExactly(files: seq<File>, k: nat, rows: map<Path, File>, disk: Disk, found: map<Path, Content>, failedTops: set<string>,
      freshByPath: map<Path, Content>, removePaths: set<Path>)
    requires k < |files| && Lists(files, rows) && Inspected(files[..k], Contents(rows), disk, found, freshByPath, removePaths)
    requires forall p :: Lookup(found, p) == Found(Contents(rows), disk, p)
    requires forall d :: d in failedTops <==> TopFolder(Contents(rows), d) && d !in disk.folders
    ensures var f := files[k];
            f.path in Contents(rows) && Contents(rows)[f.path] == f.content &&
            Lookup(freshByPath, f.path) == Found(Contents(rows), disk, f.path) &&
            var missed := f.path !in freshByPath && f.path.top.Some? && f.path.top.value !in failedTops;
            (missed <==> Missed(Contents(rows), disk, f.path)) &&
            (Removable(Contents(rows), disk, f.path) <==> missed && disk.stat(f.path).Gone?) &&
            FreshAt(Contents(rows), disk, f.path) ==
              if missed && disk.stat(f.path).Size? then Some(Parsed(disk, f.content.fileName, disk.stat(f.path).bytes))
              else Lookup(freshByPath, f.path)
  {
    var f := files[k];
    NotListedYet(files, k, rows);
    assert f.path in rows && rows[f.path] == f && Contents(rows)[f.path] == f.content;
    assert f.path.top.Some? ==> TopFolder(Contents(rows), f.path.top.value);
    assert Lookup(freshByPath, f.path) == Found(Contents(rows), disk, f.path);
    hide Lists, Found, Contents, TopFolder;
  }

  lemma NotListedYet(files: seq<File>, k: nat, rows: map<Path, File>)
    requires k < |files| && Lists(files, rows)
    ensures !Listed(files[..k], files[k].path)
  {
    assert forall j :: 0 <= j < k ==> files[j] in files && files[j].id != files[k].id;
  }

  /** The tracked files of readable folders that the scan missed and that could not be inspected. */
  function FailingPaths(files: seq<File>, rows: map<Path, File>, disk: Disk): set<Path> {
    set p | p in rows && Listed(files, p) && Missed(Contents(rows), disk, p) && disk.stat(p).Failing?
  }

  lemma FailingStep(files: seq<File>, rows: map<Path, File>, disk: Disk, k: nat)
    requires k < |files| && Lists(files, rows)
    ensures |FailingPaths(files[..k + 1], rows, disk)| ==
              |FailingPaths(files[..k], rows, disk)| +
              if Missed(Contents(rows), disk, files[k].path) && disk.stat(files[k].path).Failing? then 1 else 0
  {
    hide Missed, Contents, Listed, FailingPaths;
    ListedStep(files, k);
    NotListedYet(files, k, rows);
    assert files[k].path in rows;
    hide Lists;
    OneMoreFailing(files[..k], files[..k + 1], rows, disk, files[k].path);
  }

  lemma OneMoreFailing(before: seq<File>, after: seq<File>, rows: map<Path, File>, disk: Disk, p: Path)
    requires p in rows && !Listed(before, p) && forall q :: Listed(after, q) <==> Listed(before, q) || q == p
    ensures |FailingPaths(after, rows, disk)| ==
              |FailingPaths(before, rows, disk)| + if Missed(Contents(rows), disk, p) && disk.stat(p).Failing? then 1 else 0
  {
    hide Missed, Contents, Listed;
    assert FailingPaths(after, rows, disk) ==
           FailingPaths(before, rows, disk) + if Missed(Contents(rows), disk, p) && disk.stat(p).Failing? then {p} else {};
  }

  predicate Listed(files: seq<File>, p: Path) { exists f :: f in files && f.path == p }

  lemma ListedStep(files: seq<File>, k: nat)
    requires k < |files|
    ensures forall p :: Listed(files[..k + 1], p) <==> Listed(files[..k], p) || p == files[k].path
  {
    assert files[..k + 1] == files[..k] + [files[k]];
  }

  method ScanCandidate(files: seq<File>, disk: Disk, ghost rows: map<Path, File>) returns (c: Candidate)
    requires Lists(files, rows) && WellFormed(disk)
    ensures ScanOf(Contents(rows), disk, c)
    ensures c.failedWindows == |UnreadableFolders(rows, disk)| + |UninspectedFiles(rows, disk)|
  {
    var tops := TopFolders(files, rows);
    var found, failedTops := ScanFolders(tops, disk, Contents(rows));
    var freshByPath, removePaths, failedFiles := InspectMissed(files, disk, found, failedTops, rows);
    c := Candidate(freshByPath, removePaths, |failedTops| + failedFiles);
    FailuresAre(files, rows, disk, failedTops);
  }

  /** The folders of the item that could not be read. */
  function UnreadableFolders(rows: map<Path, File>, disk: Disk): set<string> {
    set p | p in rows && p.top.Some? && p.top.value !in disk.folders :: p.top.value
  }

  /** The tracked files that no listing names and that may or may not be there. */
  function UninspectedFiles(rows: map<Path, File>, disk: Disk): set<Path> {
    set p | p in rows && p.top.Some? && p.top.value in disk.folders && p !in disk.folders[p.top.value] && disk.stat(p).Failing?
  }

  lemma FailuresAre(files: seq<File>, rows: map<Path, File>, disk: Disk, failedTops: set<string>)
    requires Lists(files, rows) && forall d :: d in failedTops <==> TopFolder(Contents(rows), d) && d !in disk.folders
    ensures failedTops == UnreadableFolders(rows, disk) && FailingPaths(files, rows, disk) == UninspectedFiles(rows, disk)
  {
    forall p | p in rows ensures Listed(files, p) && (p.top.Some? ==> TopFolder(Contents(rows), p.top.value)) {
      assert rows[p] in files && rows[p].path == p;
      assert p in Contents(rows);
    }
    hide Lists;
    forall d | d in failedTops ensures d in UnreadableFolders(rows, disk) {
      var p :| p in Contents(rows) && p.top == Some(d);
    }
  }

  // ----- Is the preimage still there?

  method SameMediaFilePreimage(before: seq<File>, after: seq<File>) returns (same: bool)
    requires DistinctIds(after)
    ensures same <==> |before| == |after| && forall f :: f in before ==> f in after
  {
    if |before| != |after| { return false; }
    var afterByID: map<nat, File> := map[];
    for k := 0 to |after|
      invariant forall f :: f in after[..k] ==> f.id in afterByID && afterByID[f.id] == f
      invariant forall i :: i in afterByID ==> afterByID[i] in after[..k] && afterByID[i].id == i
    {
      assert after[..k + 1] == after[..k] + [after[k]];
      assert forall j :: 0 <= j < k ==> after[j].id != after[k].id;
      afterByID := afterByID[after[k].id := after[k]];
    }
    assert after[..|after|] == after;
    for k := 0 to |before|
      invariant forall f :: f in before[..k] ==> f in after
    {
      assert before[..k + 1] == before[..k] + [before[k]];
      var f := before[k];
      if f.id !in afterByID || afterByID[f.id] != f {
        assert f in before && f !in after;
        return false;
      }
    }
    assert before[..|before|] == before;
    same := true;
  }

  lemma {:induction false} SizeOfDistinct(files: seq<File>)
    requires DistinctIds(files)
    ensures |set f | f in files| == |files|
  {
    if files != [] {
      var before, last := files[..|files| - 1], files[|files| - 1];
      SizeOfDistinct(before);
      assert files == before + [last];
      assert (set f | f in files) == (set f | f in before) + {last};
      assert forall f :: f in before ==> f.id != last.id;
    }
  }

  /** Equal lengths and one direction are enough: with distinct identifiers the row sets are equal. */
  lemma OneDirectionSuffices(before: seq<File>, after: seq<File>)
    requires DistinctIds(before) && DistinctIds(after)
    ensures (|before| == |after| && forall f :: f in before ==> f in after) <==> forall f :: f in before <==> f in after
  {
    var b, a := set f | f in before, set f | f in after;
    SizeOfDistinct(before);
    SizeOfDistinct(after);
    if forall f :: f in before <==> f in after {
      assert a == b;
    } else if |before| == |after| && forall f :: f in before ==> f in after {
      assert b <= a;
      SubsetOfSameSize(b, a);
      assert forall f :: f in after ==> f in a;
      assert false;
    }
  }

  lemma SubsetOfSameSize<T>(b: set<T>, a: set<T>)
    requires b <= a && |b| == |a|
    ensures a == b
  {
    assert |a - b| == |a| - |b|;
  }

  /** Two tables with the same listing are the same table. */
  lemma SameListingSameRows(before: seq<File>, after: seq<File>, rows: map<Path, File>, now: map<Path, File>)
    requires Lists(before, rows) && Lists(after, now)
    ensures (forall f :: f in before <==> f in after) <==> rows == now
  {
    if forall f :: f in before <==> f in after {
      assert forall p :: p in rows ==> rows[p] in after && p in now && now[p] == rows[p];
      assert forall p :: p in now ==> now[p] in before && p in rows;
    }
  }

  // ----- The transaction

  /** The table of one item: rows by path, with identifiers of their own below the next one to be given out. */
  ghost predicate Table(rows: map<Path, File>, nextId: nat) {
    (forall p :: p in rows ==> rows[p].path == p && rows[p].id < nextId) &&
    forall p, q :: p in rows && q in rows && p != q ==> rows[p].id != rows[q].id
  }

  function AfterScanned(files: map<Path, Content>, scanned: map<Path, Content>, p: Path): Option<Content> {
    if p !in scanned then Lookup(files, p)
    else if p in files then Some(Merged(files[p], scanned[p]))
    else Some(scanned[p])
  }

  /** A row keeps its identifier and, unless its content changes, its times. */
  ghost predicate SameRows(rows: map<Path, File>, after: map<Path, File>) {
    forall p :: p in rows && p in after ==>
      after[p].id == rows[p].id && (after[p].content == rows[p].content ==> after[p] == rows[p])
  }

  predicate NeedsUpdate(current: Content, f: Content) {
    current.resolution != f.resolution || current.sourceType != f.sourceType || current.size != f.size ||
    current.season != f.season || current.episode != f.episode
  }

  /** One scanned file against its row: the row is updated in place, left alone, or created. */
  method ApplyFile(row: Option<File>, path: Path, f: Content, nextId: nat, clock: nat) returns (after: File, updated: bool)
    ensures after.path == (if row.Some? then row.value.path else path)
    ensures row.Some? ==> after.id == row.value.id && after.content == Merged(row.value.content, f)
    ensures row.Some? ==> (updated <==> after.content != row.value.content) && (!updated ==> after == row.value)
    ensures row.None? ==> after.id == nextId && after.content == f && !updated
  {
    if row.None? { return File(nextId, path, f, clock), false; }
    var current, scanned := row.value, f;
    if scanned.episode.None? && current.content.season.Some? && current.content.episode.Some? {
      if scanned.season.None? || scanned.season == current.content.season {
        scanned := scanned.(season := current.content.season, episode := current.content.episode);
      }
    }
    if !NeedsUpdate(current.content, scanned) { return current, false; }
    var content := current.content.(size := scanned.size, resolution := scanned.resolution,
      sourceType := scanned.sourceType, season := scanned.season, episode := scanned.episode);
    return File(current.id, current.path, content, clock), true;
  }

  /** Still untouched while its turn has not come, and as the scan wants it afterwards. */
  ghost predicate AppliedBut(files: map<Path, Content>, scanned: map<Path, Content>, rest: set<Path>, tx: map<Path, File>) {
    forall p :: Lookup(Contents(tx), p) == if p in rest then Lookup(files, p) else AfterScanned(files, scanned, p)
  }

  /** The loop over the scanned files, with `rest` still to come. */
  ghost predicate Applying(rows: map<Path, File>, others: set<Path>, scanned: map<Path, Content>, rest: set<Path>,
      tx: map<Path, File>, next: nat, updated: nat, added: nat)
  {
    rest <= scanned.Keys && Table(tx, next) && SameRows(rows, tx) && AppliedBut(Contents(rows), scanned, rest, tx) &&
    (forall p :: p in scanned && p !in rest && p !in rows ==> p !in others) &&
    (forall p :: p in rest ==> Lookup(tx, p) == Lookup(rows, p)) &&
    updated == |UpdatedPaths(Contents(rows), scanned) - rest| && added == |scanned.Keys - rows.Keys - rest|
  }

  method ApplyScanned(rows: map<Path, File>, others: set<Path>, scanned: map<Path, Content>, nextId: nat, clock: nat)
    returns (ok: bool, tx: map<Path, File>, next: nat, updated: nat, added: nat)
    requires Table(rows, nextId)
    ensures ok <==> forall p :: p in scanned && p !in rows ==> p !in others
    ensures ok ==> Applying(rows, others, scanned, {}, tx, next, updated, added)
  {
    tx, next, updated, added := rows, nextId, 0, 0;
    var rest := scanned.Keys;
    NothingApplied(rows, others, scanned, nextId);
    hide Applying;
    while rest != {}
      invariant Applying(rows, others, scanned, rest, tx, next, updated, added)
      decreases rest
    {
      var p := Pick(rest);
      TurnOf(rows, others, scanned, rest, tx, next, updated, added, p);
      var row := Lookup(tx, p);
      if row.None? && p in others { return false, tx, next, updated, added; }
      var after, update := ApplyFile(row, p, scanned[p], next, clock);
      ApplyOne(rows, others, scanned, rest, tx, next, updated, added, p, after, update);
      if row.None? { next, added := next + 1, added + 1; }
      if update { updated := updated + 1; }
      tx, rest := tx[p := after], rest - {p};
    }
    ok := true;
  }

  lemma NothingApplied(rows: map<Path, File>, others: set<Path>, scanned: map<Path, Content>, next: nat)
    requires Table(rows, next)
    ensures Applying(rows, others, scanned, scanned.Keys, rows, next, 0, 0)
  {
    assert UpdatedPaths(Contents(rows), scanned) - scanned.Keys == {} == scanned.Keys - rows.Keys - scanned.Keys;
  }

  lemma TurnOf(rows: map<Path, File>, others: set<Path>, scanned: map<Path, Content>, rest: set<Path>,
      tx: map<Path, File>, next: nat, updated: nat, added: nat, p: Path)
    requires Applying(rows, others, scanned, rest, tx, next, updated, added) && p in rest
    ensures p in scanned && Lookup(tx, p) == Lookup(rows, p) && (p in tx ==> tx[p].path == p)
  {
  }

  lemma OneLess(s: set<Path>, rest: set<Path>, p: Path)
    requires p in rest
    ensures |s - (rest - {p})| == |s - rest| + if p in s then 1 else 0
  {
    assert s - (rest - {p}) == (s - rest) + if p in s then {p} else {};
  }

  /** What ApplyFile makes of one path, put into the table. */
  lemma ApplyOne(rows: map<Path, File>, others: set<Path>, scanned: map<Path, Content>, rest: set<Path>,
      tx: map<Path, File>, next: nat, updated: nat, added: nat, p: Path, after: File, update: bool)
    requires Applying(rows, others, scanned, rest, tx, next, updated, added) && p in rest && p in scanned && after.path == p
    requires p in tx ==>
               after.id == tx[p].id && after.content == Merged(tx[p].content, scanned[p]) &&
               (update <==> after.content != tx[p].content) && (!update ==> after == tx[p])
    requires p !in tx ==> p !in others && after.id == next && after.content == scanned[p] && !update
    ensures Applying(rows, others, scanned, rest - {p}, tx[p := after],
                     if p in tx then next else next + 1, if update then updated + 1 else updated, if p in tx then added else added + 1)
  {
    hide Table, SameRows, AppliedBut, UpdatedPaths, Contents, Merged, AfterScanned;
    TurnOf(rows, others, scanned, rest, tx, next, updated, added, p);
    TableStep(rows, scanned, rest, tx, next, p, after);
    CountStep(rows, scanned, rest, p, tx, update);
    LookupStep(rows, tx, rest, p, after);
  }

  lemma CountStep(rows: map<Path, File>, scanned: map<Path, Content>, rest: set<Path>, p: Path, tx: map<Path, File>, update: bool)
    requires p in rest && p in scanned && Lookup(tx, p) == Lookup(rows, p)
    requires update <==> p in tx && Merged(tx[p].content, scanned[p]) != tx[p].content
    ensures |UpdatedPaths(Contents(rows), scanned) - (rest - {p})| ==
              |UpdatedPaths(Contents(rows), scanned) - rest| + if update then 1 else 0
    ensures |scanned.Keys - rows.Keys - (rest - {p})| == |scanned.Keys - rows.Keys - rest| + if p in tx then 0 else 1
  {
    OneLess(UpdatedPaths(Contents(rows), scanned), rest, p);
    OneLess(scanned.Keys - rows.Keys, rest, p);
    hide UpdatedPaths, Contents, Merged;
  }

  lemma LookupStep(rows: map<Path, File>, tx: map<Path, File>, rest: set<Path>, p: Path, after: File)
    requires forall q :: q in rest ==> Lookup(tx, q) == Lookup(rows, q)
    ensures forall q :: q in rest - {p} ==> Lookup(tx[p := after], q) == Lookup(rows, q)
  {
  }

  lemma TableStep(rows: map<Path, File>, scanned: map<Path, Content>, rest: set<Path>, tx: map<Path, File>, next: nat, p: Path, after: File)
    requires Table(tx, next) && SameRows(rows, tx) && AppliedBut(Contents(rows), scanned, rest, tx)
    requires p in rest && p in scanned && Lookup(tx, p) == Lookup(rows, p) && after.path == p
    requires p in tx ==>
               after.id == tx[p].id && after.content == Merged(tx[p].content, scanned[p]) &&
               (after.content == tx[p].content ==> after == tx[p])
    requires p !in tx ==> after.id == next && after.content == scanned[p]
    ensures Table(tx[p := after], if p in tx then next else next + 1) && SameRows(rows, tx[p := after])
    ensures AppliedBut(Contents(rows), scanned, rest - {p}, tx[p := after])
  {
    TableWith(rows, tx, next, p, after);
    hide Merged, Table, SameRows;
  }

  lemma TableWith(rows: map<Path, File>, tx: map<Path, File>, next: nat, p: Path, after: File)
    requires Table(tx, next) && SameRows(rows, tx) && Lookup(tx, p) == Lookup(rows, p) && after.path == p
    requires if p in tx then after.id == tx[p].id && (after.content == tx[p].content ==> after == tx[p]) else after.id == next
    ensures Table(tx[p := after], if p in tx then next else next + 1) && SameRows(rows, tx[p := after])
  {
  }

  lemma CommittedAfter(rows: map<Path, File>, others: set<Path>, c: Candidate, tx: map<Path, File>, next: nat, updated: nat, added: nat)
    requires Applying(rows, others, c.freshByPath, {}, tx, next, updated, added)
    ensures Committed(Contents(rows), c, Contents(tx - c.removePaths))
    ensures Table(tx - c.removePaths, next) && SameRows(rows, tx - c.removePaths)
    ensures updated == |UpdatedPaths(Contents(rows), c.freshByPath)| && added == |c.freshByPath.Keys - rows.Keys|
  {
    hide Table, SameRows, Contents, UpdatedPaths, AppliedBut, Committed;
    FewerRows(rows, tx, next, c.removePaths);
    RemovedRows(rows, c, tx);
  }

  lemma FewerRows(rows: map<Path, File>, tx: map<Path, File>, next: nat, gone: set<Path>)
    requires Table(tx, next) && SameRows(rows, tx)
    ensures Table(tx - gone, next) && SameRows(rows, tx - gone)
  {
  }

  lemma RemovedRows(rows: map<Path, File>, c: Candidate, tx: map<Path, File>)
    requires AppliedBut(Contents(rows), c.freshByPath, {}, tx)
    ensures Committed(Contents(rows), c, Contents(tx - c.removePaths))
  {
    hide Merged;
    forall p ensures Lookup(Contents(tx - c.removePaths), p) == After(Contents(rows), c, p) {
      assert Lookup(Contents(tx), p) == AfterScanned(Contents(rows), c.freshByPath, p);
    }
  }

  lemma Untracked(rows: map<Path, File>, others: set<Path>, c: Candidate, tx: map<Path, File>, next: nat, updated: nat, added: nat)
    requires Applying(rows, others, c.freshByPath, {}, tx, next, updated, added) && rows.Keys !! others
    ensures (tx - c.removePaths).Keys !! others
  {
    forall p | p in tx ensures p !in others {
      assert Lookup(Contents(tx), p) == AfterScanned(Contents(rows), c.freshByPath, p);
      assert p in rows || p in c.freshByPath;
    }
  }

  /** The tables a resync reads and writes; other workers may change anything between the capture and the apply. */
  class Catalog {
    var present: bool
    var deletionPending: bool
    var identity: Identity
    var rows: map<Path, File>
    var others: set<Path>
    var nextId: nat
    var clock: nat

    ghost predicate Valid()
      reads this
    {
      Table(rows, nextId) && rows.Keys !! others
    }

    constructor (i: Identity, tracked: set<Path>)
      ensures Valid() && present && !deletionPending && identity == i && rows == map[] && others == tracked
    {
      present, deletionPending, identity, rows, others, nextId, clock := true, false, i, map[], tracked, 0, 0;
    }

    method ListMediaFiles() returns (files: seq<File>)
      requires Valid()
      ensures Lists(files, rows)
    {
      files := [];
      var rest := rows.Keys;
      while rest != {}
        invariant rest <= rows.Keys && DistinctIds(files)
        invariant forall f :: f in files <==> f.path in rows && f.path !in rest && rows[f.path] == f
        decreases rest
      {
        var p := Pick(rest);
        assert forall j :: 0 <= j < |files| ==> files[j] in files;
        files, rest := files + [rows[p]], rest - {p};
      }
    }

    method CapturePreimage() returns (r: Result<Preimage, ResyncError>)
      requires Valid()
      ensures r.Ok? <==> present && !deletionPending
      ensures r.Err? ==> r.error == if present then ErrDeletionPending else ErrNotFound
      ensures r.Ok? ==> r.value.identity == identity && Lists(r.value.files, rows)
    {
      if !present { return Err(ErrNotFound); }
      if deletionPending { return Err(ErrDeletionPending); }
      var files := ListMediaFiles();
      r := Ok(Preimage(identity, files));
    }

    /**
     Commits exactly when the item, its library and its rows are those of the preimage; then the outcome is a function of
     the preimage and the scan alone. In every other case nothing is written.
     */
    method ApplyResyncCandidate(preimage: Preimage, c: Candidate, ghost before: map<Path, File>) returns (r: Result<Counts, ResyncError>)
      requires Valid() && Lists(preimage.files, before)
      modifies this
      ensures Valid() && identity == old(identity) && others == old(others)
      ensures r.Ok? <==>
                old(present && !deletionPending && identity == preimage.identity && rows == before) &&
                forall p :: p in c.freshByPath && p !in before ==> p !in others
      ensures r.Err? ==> rows == old(rows)
      ensures !old(present) || (!old(deletionPending) && old(identity != preimage.identity || rows != before)) ==> r == Err(ErrStale)
      ensures old(present && deletionPending) ==> r == Err(ErrDeletionPending)
      ensures old(present && !deletionPending && identity == preimage.identity && rows == before) && r.Err? ==> r == Err(ErrUnique)
      ensures r.Ok? ==> Committed(Contents(before), c, Contents(rows)) && SameRows(before, rows)
      ensures r.Ok? ==> r.value.updated == |UpdatedPaths(Contents(before), c.freshByPath)|
      ensures r.Ok? ==> r.value.added == |c.freshByPath.Keys - before.Keys| && r.value.removed == |c.removePaths|
    {
      hide Applying, Contents, Table, SameRows, UpdatedPaths, Lists, Committed;
      if !present { return Err(ErrStale); }
      if deletionPending { return Err(ErrDeletionPending); }
      var current := ListMediaFiles();
      ListsDistinct(current, rows);
      ListsDistinct(preimage.files, before);
      var same := SameMediaFilePreimage(preimage.files, current);
      OneDirectionSuffices(preimage.files, current);
      SameListingSameRows(preimage.files, current, before, rows);
      if identity != preimage.identity || !same { return Err(ErrStale); }
      var ok, tx, next, updated, added := ApplyScanned(rows, others, c.freshByPath, nextId, clock);
      if !ok { return Err(ErrUnique); }
      CommittedAfter(rows, others, c, tx, next, updated, added);
      Untracked(rows, others, c, tx, next, updated, added);
      rows, nextId, clock := tx - c.removePaths, next, clock + 1;
      r := Ok(Counts(updated, added, |c.removePaths|));
    }
  }

  lemma ListsDistinct(files: seq<File>, rows: map<Path, File>)
    requires Lists(files, rows)
    ensures DistinctIds(files)
  {
  }

  // ----- The outcome row by row

  /** A row brought up to date with what was found: it stays the same row, keeps its name, and keeps the episode it was given
      if the file is unnumbered and its season does not say otherwise. */
  predicate BroughtUpToDate(before: File, found: Content, now: File) {
    var was, f := before.content, now.content;
    now.id == before.id && now.path == before.path && (f == was ==> now == before) &&
    f.fileName == was.fileName && f.size == found.size && f.resolution == found.resolution && f.sourceType == found.sourceType &&
    if found.episode.None? && was.season.Some? && was.episode.Some? && (found.season.None? || found.season == was.season)
    then f.season == was.season && f.episode == was.episode
    else f.season == found.season && f.episode == found.episode
  }

  /** What becomes of a tracked file: nothing if its folder could not be read; otherwise the row is brought up to date with the
      file in the listing, or with the file that is there although the listing does not name it; it is removed only if the file
      is gone for certain. */
  ghost predicate RowSettled(before: File, disk: Disk, now: Option<File>) {
    var p := before.path;
    if p.top.None? || p.top.value !in disk.folders then now == Some(before)
    else if p in disk.folders[p.top.value] then now.Some? && BroughtUpToDate(before, disk.folders[p.top.value][p], now.value)
    else
      match disk.stat(p)
      case Gone => now.None?
      case Failing => now == Some(before)
      case Size(bytes) => now.Some? && BroughtUpToDate(before, disk.parse(before.content.fileName).(size := bytes), now.value)
  }

  /** The listing of a readable folder in which the item has a file names a file the item does not track. */
  ghost predicate ListedNew(rows: map<Path, File>, disk: Disk, p: Path) {
    p !in rows && p.top.Some? && p.top.value in disk.folders && p in disk.folders[p.top.value] && exists q :: q in rows && q.top == p.top
  }

  /** These are the new rows. */
  ghost predicate NewRowSettled(before: map<Path, File>, disk: Disk, p: Path, now: Option<File>) {
    if ListedNew(before, disk, p)
    then now.Some? && now.value.path == p && now.value.content == disk.folders[p.top.value][p]
    else now.None?
  }

  ghost predicate Resynced(before: map<Path, File>, disk: Disk, after: map<Path, File>) {
    forall p ::
      if p in before then RowSettled(before[p], disk, Lookup(after, p)) else NewRowSettled(before, disk, p, Lookup(after, p))
  }

  lemma OldRowSettles(rows: map<Path, File>, disk: Disk, c: Candidate, after: map<Path, File>, p: Path)
    requires ScanOf(Contents(rows), disk, c) && Committed(Contents(rows), c, Contents(after)) && SameRows(rows, after)
    requires p in rows && rows[p].path == p && (p in after ==> after[p].path == p)
    ensures RowSettled(rows[p], disk, Lookup(after, p))
  {
    var files := Contents(rows);
    assert Lookup(c.freshByPath, p) == FreshAt(files, disk, p);
    assert p in c.removePaths <==> Removable(files, disk, p);
    assert Lookup(Contents(after), p) == After(files, c, p);
    assert p in files && (p.top.Some? ==> TopFolder(files, p.top.value));
    hide ScanOf, Committed, TopFolder;
  }

  lemma NewRowSettles(rows: map<Path, File>, disk: Disk, c: Candidate, after: map<Path, File>, p: Path)
    requires ScanOf(Contents(rows), disk, c) && Committed(Contents(rows), c, Contents(after))
    requires p !in rows && (p in after ==> after[p].path == p)
    ensures NewRowSettled(rows, disk, p, Lookup(after, p))
  {
    var files := Contents(rows);
    assert Lookup(c.freshByPath, p) == FreshAt(files, disk, p);
    assert p in c.removePaths <==> Removable(files, disk, p);
    assert Lookup(Contents(after), p) == After(files, c, p);
    assert p.top.Some? ==> (TopFolder(files, p.top.value) <==> exists q :: q in rows && q.top == p.top) by {
      if q :| q in rows && q.top == p.top { assert q in files; }
    }
    hide ScanOf, Committed, TopFolder;
  }

  /** The counts tell how many rows changed, came and went. */
  lemma CountsSettle(rows: map<Path, File>, disk: Disk, c: Candidate, after: map<Path, File>)
    requires ScanOf(Contents(rows), disk, c) && Committed(Contents(rows), c, Contents(after))
    ensures UpdatedPaths(Contents(rows), c.freshByPath) ==
              (set p | p in rows && p in after && after[p].content != rows[p].content)
    ensures c.freshByPath.Keys - rows.Keys == after.Keys - rows.Keys && c.removePaths == rows.Keys - after.Keys
  {
    var files := Contents(rows);
    forall p
      ensures p in c.removePaths ==> p in rows && p !in c.freshByPath
      ensures Lookup(Contents(after), p) == After(files, c, p)
      ensures p in after <==> Lookup(Contents(after), p).Some?
    {
      assert Lookup(c.freshByPath, p) == FreshAt(files, disk, p);
      assert p in c.removePaths <==> Removable(files, disk, p);
      assert Lookup(Contents(after), p) == After(files, c, p);
    }
    hide ScanOf, Committed, Merged;
  }

  lemma FreshIsListed(rows: map<Path, File>, disk: Disk, c: Candidate, p: Path)
    requires ScanOf(Contents(rows), disk, c) && p !in rows
    ensures p in c.freshByPath <==> ListedNew(rows, disk, p)
  {
    var files := Contents(rows);
    assert Lookup(c.freshByPath, p) == FreshAt(files, disk, p);
    assert p.top.Some? ==> (TopFolder(files, p.top.value) <==> exists q :: q in rows && q.top == p.top) by {
      if q :| q in rows && q.top == p.top { assert q in files; }
    }
    hide ScanOf, TopFolder;
  }

  lemma RowsSettle(rows: map<Path, File>, disk: Disk, c: Candidate, after: map<Path, File>, next: nat, now: nat)
    requires ScanOf(Contents(rows), disk, c) && Committed(Contents(rows), c, Contents(after)) && SameRows(rows, after)
    requires Table(rows, next) && Table(after, now)
    ensures Resynced(rows, disk, after)
  {
    forall p
      ensures if p in rows then RowSettled(rows[p], disk, Lookup(after, p)) else NewRowSettled(rows, disk, p, Lookup(after, p))
    {
      if p in rows { OldRowSettles(rows, disk, c, after, p); } else { NewRowSettles(rows, disk, c, after, p); }
    }
    hide RowSettled, NewRowSettled;
  }

  /** Without interference every row is settled as folder and stat say, and counted; the resync fails exactly if the item is gone
      or being deleted, or another item already tracks a file it found. */
  method ResyncMediaItem(catalog: Catalog, disk: Disk) returns (r: Result<Counts, ResyncError>, ghost c: Candidate)
    requires catalog.Valid() && WellFormed(disk)
    modifies catalog
    ensures catalog.Valid()
    ensures r.Err? ==> catalog.rows == old(catalog.rows)
    ensures r.Ok? ==> Resynced(old(catalog.rows), disk, catalog.rows)
    ensures r.Ok? ==>
              r.value.updated == |set p | p in old(catalog.rows) && p in catalog.rows &&
                                      catalog.rows[p].content != old(catalog.rows)[p].content|
    ensures r.Ok? ==> r.value.added == |catalog.rows.Keys - old(catalog.rows).Keys|
    ensures r.Ok? ==> r.value.removed == |old(catalog.rows).Keys - catalog.rows.Keys|
    ensures r.Ok? ==> ScanOf(Contents(old(catalog.rows)), disk, c)
    ensures r.Ok? ==> Committed(Contents(old(catalog.rows)), c, Contents(catalog.rows))
    ensures r.Ok? ==> r.value.updated == |UpdatedPaths(Contents(old(catalog.rows)), c.freshByPath)|
    ensures r.Ok? ==> r.value.added == |c.freshByPath.Keys - old(catalog.rows).Keys| && r.value.removed == |c.removePaths|
    ensures old(catalog.present && !catalog.deletionPending) ==>
              (r.Err? <==> exists p :: p in catalog.others && ListedNew(old(catalog.rows), disk, p)) &&
              (r.Err? ==> r == Err(ErrUnique))
    ensures old(!catalog.present) ==> r == Err(ErrNotFound)
    ensures old(catalog.present && catalog.deletionPending) ==> r == Err(ErrDeletionPending)
  {
    ghost var before := catalog.rows;
    c := Candidate(map[], {}, 0);
    var captured := catalog.CapturePreimage();
    if captured.Err? { return Err(captured.error), c; }
    var candidate := ScanCandidate(captured.value.files, disk, before);
    c := candidate;
    ghost var next := catalog.nextId;
    r := catalog.ApplyResyncCandidate(captured.value, candidate, before);
    forall p | p !in before ensures p in c.freshByPath <==> ListedNew(before, disk, p) { FreshIsListed(before, disk, c, p); }
    if r.Ok? {
      RowsSettle(before, disk, c, catalog.rows, next, catalog.nextId);
      CountsSettle(before, disk, c, catalog.rows);
    }
    hide Resynced, Contents, ScanOf, Committed, ListedNew;
  }
}
