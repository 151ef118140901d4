/** Reconciling a library with what is on its disk (SyncLibrary in backend/internal/sync/service.go). */
module LibrarySync {
  import opened Wrappers
  import opened LibraryFolders
  import opened LibraryTables

  // Scan every top-level folder, plan one candidate per item from the scan and the tracked files, and apply the
  // candidates one transaction at a time. A folder whose scan fails is remembered, not treated as empty.

  /** A directory of the library: `title` is its grouping key, `scan` is None when the folder could not be read. */
  datatype Entry = Entry(path: string, title: string, scan: Option<seq<Path>>)

  datatype File = File(path: Path, item: nat)

  // ----- The scan

  function Readable(entries: seq<Entry>): seq<Folder> {
    if entries == [] then []
    else
      var last := entries[|entries| - 1];
      Readable(entries[..|entries| - 1]) + if last.scan.Some? then [Folder(last.path, last.title, last.scan.value)] else []
  }

  ghost predicate FailedFolder(entries: seq<Entry>, path: string) {
    exists e :: e in entries && e.path == path && e.scan.None?
  }

  method Scan(entries: seq<Entry>) returns (folders: seq<Folder>, scanFailed: set<string>)
    ensures folders == Readable(entries)
    ensures forall x :: x in scanFailed <==> FailedFolder(entries, x)
  {
    folders, scanFailed := [], {};
    for k := 0 to |entries|
      invariant folders == Readable(entries[..k])
      invariant forall x :: x in scanFailed <==> FailedFolder(entries[..k], x)
    {
      ScanStep(entries, k);
      hide Readable, FailedFolder;
      if entries[k].scan.None? {
        scanFailed := scanFailed + {entries[k].path};
      } else {
        folders := folders + [Folder(entries[k].path, entries[k].title, entries[k].scan.value)];
      }
    }
    assert entries[..|entries|] == entries;
  }

  lemma ScanStep(entries: seq<Entry>, k: nat)
    requires k < |entries|
    ensures Readable(entries[..k + 1]) == Readable(entries[..k]) +
              if entries[k].scan.Some? then [Folder(entries[k].path, entries[k].title, entries[k].scan.value)] else []
    ensures forall x :: FailedFolder(entries[..k + 1], x) <==>
              FailedFolder(entries[..k], x) || (entries[k].scan.None? && entries[k].path == x)
  {
    assert entries[..k + 1] == entries[..k] + [entries[k]];
    forall x ensures FailedFolder(entries[..k + 1], x) <==>
        FailedFolder(entries[..k], x) || (entries[k].scan.None? && entries[k].path == x)
    {
      if FailedFolder(entries[..k], x) {
        var e :| e in entries[..k] && e.path == x && e.scan.None?;
        assert e in entries[..k + 1];
      }
    }
  }

  /** The directory listing names each folder once, and a scan finds files below the folder it scans. */
  predicate Listing(entries: seq<Entry>) {
    (forall i, j :: 0 <= i < j < |entries| ==> entries[i].path != entries[j].path) &&
    forall e, p :: e in entries && e.scan.Some? && p in e.scan.value ==> p.top == Some(e.path)
  }

  lemma {:induction false} ReadableScans(entries: seq<Entry>)
    requires Listing(entries)
    ensures Scanned(Readable(entries))
    ensures forall f :: f in Readable(entries) <==> Entry(f.path, f.title, Some(f.files)) in entries
  {
    if entries != [] {
      var before, last := entries[..|entries| - 1], entries[|entries| - 1];
      ReadableScans(before);
      assert entries == before + [last];
      assert forall e :: e in before ==> e.path != last.path;
    }
  }

  ghost predicate OnDisk(groups: seq<Group>, p: Path) { exists g :: g in groups && p in g.files }

  method DiskPaths(groups: seq<Group>) returns (disk: set<Path>)
    ensures forall p :: p in disk <==> OnDisk(groups, p)
  {
    disk := {};
    for k := 0 to |groups|
      invariant forall p :: p in disk <==> OnDisk(groups[..k], p)
    {
      assert groups[..k + 1] == groups[..k] + [groups[k]];
      disk := disk + set p | p in groups[k].files;
    }
    assert groups[..|groups|] == groups;
  }

  // ----- The tracked files

  ghost predicate Lists(rows: seq<File>, files: map<Path, nat>) {
    forall p, i :: File(p, i) in rows <==> p in files && files[p] == i
  }

  /** The store lists its rows in an order of its own. */
  method ListMediaFiles(files: map<Path, nat>) returns (rows: seq<File>)
    ensures Lists(rows, files)
  {
    rows := [];
    var rest := files.Keys;
    while rest != {}
      invariant rest <= files.Keys
      invariant forall p, i :: File(p, i) in rows <==> p in files && p !in rest && files[p] == i
      decreases rest
    {
      var p := Pick(rest);
      rows, rest := rows + [File(p, files[p])], rest - {p};
    }
  }

  /** Tracked, not seen, and not below a folder that could not be read. */
  ghost predicate Stale(files: map<Path, nat>, disk: set<Path>, scanFailed: set<string>, p: Path) {
    p in files && p !in disk && !(p.top.Some? && p.top.value in scanFailed)
  }

  method StalePaths(rows: seq<File>, ghost files: map<Path, nat>, disk: set<Path>, scanFailed: set<string>)
    returns (stale: seq<File>)
    requires Lists(rows, files)
    ensures forall p, i :: File(p, i) in stale <==> Stale(files, disk, scanFailed, p) && files[p] == i
  {
    stale := [];
    for k := 0 to |rows|
      invariant forall r :: r in stale <==> r in rows[..k] && Stale(files, disk, scanFailed, r.path)
    {
      assert rows[..k + 1] == rows[..k] + [rows[k]];
      var path := rows[k].path;
      assert File(path, rows[k].item) in rows;
      if path !in disk {
        if !(path.top.Some? && path.top.value in scanFailed) { stale := stale + [rows[k]]; }
      }
    }
    assert rows[..|rows|] == rows;
  }

  /** A folder belongs to an item that tracks a file below it: the last one listed. */
  ghost predicate Owners(files: map<Path, nat>, owners: map<string, nat>) {
    (forall p :: p in files && p.top.Some? ==> p.top.value in owners) &&
    forall x :: x in owners ==> exists p :: p in files && p.top == Some(x) && files[p] == owners[x]
  }

  method FolderOwners(rows: seq<File>, ghost files: map<Path, nat>) returns (owners: map<string, nat>)
    requires Lists(rows, files)
    ensures Owners(files, owners)
  {
    owners := map[];
    for k := 0 to |rows|
      invariant forall r :: r in rows[..k] && r.path.top.Some? ==> r.path.top.value in owners
      invariant forall x :: x in owners ==> exists p :: p in files && p.top == Some(x) && files[p] == owners[x]
    {
      assert rows[..k + 1] == rows[..k] + [rows[k]];
      var path := rows[k].path;
      assert File(path, rows[k].item) in rows;
      if path.top.Some? { owners := owners[path.top.value := rows[k].item]; }
    }
    assert rows[..|rows|] == rows;
    forall p | p in files && p.top.Some? ensures p.top.value in owners { assert File(p, files[p]) in rows; }
  }

  /** The first folder of the group that has an owner decides. */
  function Home(folders: seq<string>, owners: map<string, nat>): Option<nat> {
    if folders == [] then None
    else if folders[0] in owners then Some(owners[folders[0]])
    else Home(folders[1..], owners)
  }

  method FindHome(folders: seq<string>, owners: map<string, nat>) returns (home: Option<nat>)
    ensures home == Home(folders, owners)
  {
    for k := 0 to |folders|
      invariant Home(folders, owners) == Home(folders[k..], owners)
    {
      if folders[k] in owners { return Some(owners[folders[k]]); }
    }
    return None;
  }

  // ----- The plan

  ghost predicate RemovalPlan(stale: seq<File>, cands: map<nat, Candidate>) {
    (forall i :: i in cands ==>
       cands[i].item == Some(i) && cands[i].add == [] && !cands[i].deleteIfEmpty && cands[i].remove != [] &&
       forall p :: p in cands[i].remove <==> File(p, i) in stale) &&
    forall r :: r in stale ==> r.item in cands
  }

  method PlanRemovals(stale: seq<File>) returns (cands: map<nat, Candidate>)
    ensures RemovalPlan(stale, cands)
  {
    cands := map[];
    for k := 0 to |stale|
      invariant RemovalPlan(stale[..k], cands)
    {
      assert stale[..k + 1] == stale[..k] + [stale[k]];
      var i := stale[k].item;
      var c := if i in cands then cands[i] else Candidate(Some(i), [], [], false);
      assert forall p :: p in c.remove <==> File(p, i) in stale[..k];
      cands := cands[i := c.(remove := c.remove + [stale[k].path])];
    }
    assert stale[..|stale|] == stale;
  }

  /** A scanned file the item does not track yet, in a group the item owns. */
  ghost predicate Due(groups: seq<Group>, owners: map<string, nat>, tracked: set<Path>, i: nat, p: Path) {
    p !in tracked && exists g :: g in groups && Home(g.folders, owners) == Some(i) && p in g.files
  }

  predicate NewGroup(g: Group, owners: map<string, nat>) { g.files != [] && Home(g.folders, owners).None? }

  ghost predicate Owed(groups: seq<Group>, owners: map<string, nat>, tracked: set<Path>, drafts: map<nat, Candidate>,
      i: nat, c: Candidate)
  {
    c.item == Some(i) && !c.deleteIfEmpty && c.remove == (if i in drafts then drafts[i].remove else []) &&
    forall p :: p in c.add <==> Due(groups, owners, tracked, i, p)
  }

  ghost predicate AdditionPlan(groups: seq<Group>, owners: map<string, nat>, tracked: set<Path>,
      drafts: map<nat, Candidate>, cands: map<nat, Candidate>)
  {
    (forall i :: i in cands ==> Owed(groups, owners, tracked, drafts, i, cands[i])) &&
    (forall i :: i in drafts ==> i in cands) &&
    forall i, p :: Due(groups, owners, tracked, i, p) ==> i in cands
  }

  /** One new candidate per group without a home, in the order of the groups. */
  function NewPlan(groups: seq<Group>, owners: map<string, nat>): seq<Candidate> {
    if groups == [] then []
    else
      var last := groups[|groups| - 1];
      NewPlan(groups[..|groups| - 1], owners) + if NewGroup(last, owners) then [Candidate(None, last.files, [], false)] else []
  }

  method UntrackedFiles(files: seq<Path>, tracked: set<Path>) returns (add: seq<Path>)
    ensures forall p :: p in add <==> p in files && p !in tracked
  {
    add := [];
    for k := 0 to |files|
      invariant forall p :: p in add <==> p in files[..k] && p !in tracked
    {
      assert files[..k + 1] == files[..k] + [files[k]];
      if files[k] !in tracked { add := add + [files[k]]; }
    }
    assert files[..|files|] == files;
  }

  method PlanAdditions(groups: seq<Group>, owners: map<string, nat>, tracked: set<Path>, drafts: map<nat, Candidate>)
    returns (cands: map<nat, Candidate>, news: seq<Candidate>)
    requires forall i :: i in drafts ==> drafts[i].item == Some(i) && drafts[i].add == [] && !drafts[i].deleteIfEmpty
    ensures AdditionPlan(groups, owners, tracked, drafts, cands)
    ensures news == NewPlan(groups, owners)
  {
    cands, news := drafts, [];
    assert groups[..0] == [];
    hide AdditionPlan, Due, Home, Extended;
    for k := 0 to |groups|
      invariant AdditionPlan(groups[..k], owners, tracked, drafts, cands)
      invariant news == NewPlan(groups[..k], owners)
    {
      assert groups[..k + 1][..k] == groups[..k];
      ghost var before := cands;
      var isNew;
      cands, isNew := AddGroup(groups[k], owners, tracked, cands);
      if isNew { news := news + [Candidate(None, groups[k].files, [], false)]; }
      AdditionStep(groups, k, owners, tracked, drafts, before, cands);
    }
    assert groups[..|groups|] == groups;
  }

  /** One group: its home gets the files it does not track; without a home the group is a new item. */
  method AddGroup(g: Group, owners: map<string, nat>, tracked: set<Path>, before: map<nat, Candidate>)
    returns (cands: map<nat, Candidate>, isNew: bool)
    ensures isNew <==> NewGroup(g, owners)
    ensures Extended(g, owners, tracked, before, cands)
  {
    cands, isNew := before, false;
    if g.files == [] { return; }
    var home := FindHome(g.folders, owners);
    if home.None? { return cands, true; }
    var i := home.value;
    var c := if i in cands then cands[i] else Candidate(Some(i), [], [], false);
    var more := UntrackedFiles(g.files, tracked);
    cands := cands[i := c.(add := c.add + more)];
  }

  /** The candidates after one more group: its home, if it has one, is owed the group's untracked files. */
  ghost predicate Extended(g: Group, owners: map<string, nat>, tracked: set<Path>,
      before: map<nat, Candidate>, after: map<nat, Candidate>)
  {
    var home := Home(g.folders, owners);
    if g.files == [] || home.None? then after == before
    else
      var i := home.value;
      var c := if i in before then before[i] else Candidate(Some(i), [], [], false);
      i in after && after == before[i := after[i]] && after[i] == c.(add := after[i].add) &&
      forall p :: p in after[i].add <==> p in c.add || (p in g.files && p !in tracked)
  }

  lemma OwedStep(groups: seq<Group>, k: nat, more: seq<Group>, owners: map<string, nat>, tracked: set<Path>,
      drafts: map<nat, Candidate>, before: map<nat, Candidate>, after: map<nat, Candidate>, i: nat)
    requires k < |groups| && more == groups[..k + 1] && AdditionPlan(groups[..k], owners, tracked, drafts, before)
    requires Extended(groups[k], owners, tracked, before, after)
    requires forall i :: i in drafts ==> drafts[i].item == Some(i) && drafts[i].add == [] && !drafts[i].deleteIfEmpty
    ensures i in after ==> Owed(more, owners, tracked, drafts, i, after[i])
    ensures i in before ==> i in after
    ensures forall p :: Due(more, owners, tracked, i, p) ==> i in after
  {
    DueGrows(groups, k, owners, tracked);
    assert i in before ==> Owed(groups[..k], owners, tracked, drafts, i, before[i]);
    hide Due, Home, AdditionPlan;
    assert forall p :: Due(groups[..k], owners, tracked, i, p) ==> i in before;
  }

  lemma AdditionStep(groups: seq<Group>, k: nat, owners: map<string, nat>, tracked: set<Path>,
      drafts: map<nat, Candidate>, before: map<nat, Candidate>, after: map<nat, Candidate>)
    requires k < |groups| && AdditionPlan(groups[..k], owners, tracked, drafts, before)
    requires Extended(groups[k], owners, tracked, before, after)
    requires forall i :: i in drafts ==> drafts[i].item == Some(i) && drafts[i].add == [] && !drafts[i].deleteIfEmpty
    ensures AdditionPlan(groups[..k + 1], owners, tracked, drafts, after)
  {
    var more := groups[..k + 1];
    forall i: nat
      ensures i in after ==> Owed(more, owners, tracked, drafts, i, after[i])
      ensures i in before ==> i in after
      ensures forall p :: Due(more, owners, tracked, i, p) ==> i in after
    {
      OwedStep(groups, k, more, owners, tracked, drafts, before, after, i);
    }
    hide Due, Owed, Extended;
  }

  lemma DueGrows(groups: seq<Group>, k: nat, owners: map<string, nat>, tracked: set<Path>)
    requires k < |groups|
    ensures forall i: nat, p :: Due(groups[..k + 1], owners, tracked, i, p) <==>
              Due(groups[..k], owners, tracked, i, p) ||
              (p !in tracked && Home(groups[k].folders, owners) == Some(i) && p in groups[k].files)
  {
    assert groups[..k + 1] == groups[..k] + [groups[k]];
  }

  // ----- Orphans

  /** All files of the item are stale, it has at least one, and nobody waits for it. */
  ghost predicate Orphan(rows: seq<File>, stale: seq<File>, items: map<nat, Item>, i: nat) {
    (exists r :: r in stale && r.item == i) && (forall r :: r in rows && r.item == i ==> r in stale) &&
    i in items && !items[i].awaited && !items[i].monitored
  }

  method FindOrphans(rows: seq<File>, stale: seq<File>, items: map<nat, Item>) returns (orphans: set<nat>)
    ensures forall i :: i in orphans <==> Orphan(rows, stale, items, i)
  {
    var counts: map<nat, nat> := map[];
    for k := 0 to |rows|
      invariant forall i :: i in counts <==> exists r :: r in rows[..k] && r.item == i && r !in stale
    {
      assert rows[..k + 1] == rows[..k] + [rows[k]];
      if rows[k] !in stale {
        var i := rows[k].item;
        counts := counts[i := 1 + if i in counts then counts[i] else 0];
      }
    }
    assert rows[..|rows|] == rows;
    orphans := {};
    for k := 0 to |stale|
      invariant forall i :: i in orphans <==>
                  (exists r :: r in stale[..k] && r.item == i) && i !in counts && i in items && !items[i].awaited && !items[i].monitored
    {
      assert stale[..k + 1] == stale[..k] + [stale[k]];
      var i := stale[k].item;
      if i !in counts && i in items && !items[i].awaited && !items[i].monitored { orphans := orphans + {i}; }
    }
    assert stale[..|stale|] == stale;
  }

  function Marked(c: Candidate, orphan: bool): Candidate { c.(deleteIfEmpty := orphan && c.add == []) }

  method MarkOrphans(cands: map<nat, Candidate>, orphans: set<nat>) returns (marked: map<nat, Candidate>)
    requires forall i :: i in cands ==> !cands[i].deleteIfEmpty
    ensures marked.Keys == cands.Keys
    ensures forall i :: i in cands ==> marked[i] == Marked(cands[i], i in orphans)
  {
    marked := cands;
    var rest := orphans;
    while rest != {}
      invariant marked.Keys == cands.Keys && rest <= orphans
      invariant forall i :: i in cands ==> marked[i] == Marked(cands[i], i in orphans && i !in rest)
      decreases rest
    {
      var i := Pick(rest);
      rest := rest - {i};
      if i in marked && marked[i].add == [] { marked := marked[i := marked[i].(deleteIfEmpty := true)]; }
    }
  }

  // ----- The order of application

  predicate Busy(c: Candidate) { c.add != [] || c.remove != [] }

  method Least(ids: set<nat>) returns (least: nat)
    requires ids != {}
    ensures least in ids && forall i :: i in ids ==> least <= i
  {
    least := Pick(ids);
    var rest := ids - {least};
    while rest != {}
      invariant rest <= ids && least in ids && forall i :: i in ids - rest ==> least <= i
      decreases rest
    {
      var i := Pick(rest);
      assert forall j :: j in ids - (rest - {i}) ==> j == i || j in ids - rest;
      rest := rest - {i};
      if i < least { least := i; }
    }
    assert ids - rest == ids;
  }

  /** The busy candidates in ascending order of their items. */
  ghost predicate InOrder(cands: map<nat, Candidate>, plan: seq<Candidate>) {
    (forall c :: c in plan ==> c.item.Some? && c.item.value in cands && c == cands[c.item.value] && Busy(c)) &&
    (forall i :: i in cands && Busy(cands[i]) ==> cands[i] in plan) &&
    forall j, k :: 0 <= j < k < |plan| ==> plan[j].item.value < plan[k].item.value
  }

  method SortCandidates(cands: map<nat, Candidate>) returns (plan: seq<Candidate>)
    requires forall i :: i in cands ==> cands[i].item == Some(i)
    ensures InOrder(cands, plan)
  {
    plan := [];
    var rest := cands.Keys;
    while rest != {}
      invariant rest <= cands.Keys
      invariant forall c :: c in plan ==>
                  c.item.Some? && c.item.value in cands && c == cands[c.item.value] && Busy(c) &&
                  forall i :: i in rest ==> c.item.value < i
      invariant forall i :: i in cands && i !in rest && Busy(cands[i]) ==> cands[i] in plan
      invariant forall j, k :: 0 <= j < k < |plan| ==> plan[j].item.value < plan[k].item.value
      decreases rest
    {
      var i := Least(rest);
      if Busy(cands[i]) {
        assert forall j :: 0 <= j < |plan| ==> plan[j] in plan;
        plan := plan + [cands[i]];
      }
      rest := rest - {i};
    }
  }

  // ----- The plan is sound

  /** What the sync knows: the tables, the groups of the scan, the owner of each folder and the stale rows. */
  datatype Knowledge = Knowledge(tables: Tables, groups: seq<Group>, owners: map<string, nat>, stale: seq<File>)

  /** The scan yields files of one group each, and every stale row is a row of the table that the scan did not see. */
  ghost predicate Known(k: Knowledge) {
    Consistent(k.tables) && Owners(k.tables.files, k.owners) &&
    (forall i, j, p :: 0 <= i < j < |k.groups| && p in k.groups[i].files ==> p !in k.groups[j].files) &&
    (forall g, p :: g in k.groups && p in g.files ==> p.top.Some? && p.top.value in g.folders) &&
    forall r :: r in k.stale ==> r.path in k.tables.files && k.tables.files[r.path] == r.item && !OnDisk(k.groups, r.path)
  }

  ghost predicate Owing(k: Knowledge, i: nat, p: Path) { Due(k.groups, k.owners, k.tables.files.Keys, i, p) }

  ghost predicate Orphaned(k: Knowledge, i: nat) {
    (exists r :: r in k.stale && r.item == i) &&
    (forall p :: p in k.tables.files && k.tables.files[p] == i ==> File(p, i) in k.stale) &&
    i in k.tables.items && !k.tables.items[i].awaited && !k.tables.items[i].monitored
  }

  ghost predicate ForItem(k: Knowledge, i: nat, c: Candidate) {
    c.item == Some(i) && Busy(c) &&
    (forall p :: p in c.remove <==> File(p, i) in k.stale) &&
    (forall p :: p in c.add <==> Owing(k, i, p)) &&
    (c.deleteIfEmpty <==> c.add == [] && Orphaned(k, i))
  }

  /** Candidates of known items in ascending order, then the new items. */
  ghost predicate Planned(k: Knowledge, known: seq<Candidate>) {
    (forall c :: c in known ==> c.item.Some? && ForItem(k, c.item.value, c)) &&
    (forall j, l :: 0 <= j < l < |known| ==> known[j].item.value < known[l].item.value) &&
    (forall r :: r in k.stale ==> exists c :: c in known && c.item == Some(r.item)) &&
    forall i: nat, p :: Owing(k, i, p) ==> exists c :: c in known && c.item == Some(i)
  }

  lemma {:induction false} HomeIsOwned(folders: seq<string>, owners: map<string, nat>)
    ensures Home(folders, owners).Some? ==> exists x :: x in folders && x in owners && owners[x] == Home(folders, owners).value
    ensures Home(folders, owners).None? ==> forall x :: x in folders ==> x !in owners
  {
    if folders != [] { HomeIsOwned(folders[1..], owners); }
  }

  lemma {:induction false} NewCandidates(groups: seq<Group>, owners: map<string, nat>)
    ensures forall c :: c in NewPlan(groups, owners) ==>
              c.item.None? && c.remove == [] && exists g :: g in groups && NewGroup(g, owners) && c.add == g.files
    ensures forall g :: g in groups && NewGroup(g, owners) ==> Candidate(None, g.files, [], false) in NewPlan(groups, owners)
  {
    if groups != [] {
      NewCandidates(groups[..|groups| - 1], owners);
      assert groups == groups[..|groups| - 1] + [groups[|groups| - 1]];
      hide NewGroup;
    }
  }

  lemma {:induction false} NewCandidatesApart(groups: seq<Group>, owners: map<string, nat>, i: nat, j: nat, p: Path)
    requires forall i, j, p :: 0 <= i < j < |groups| && p in groups[i].files ==> p !in groups[j].files
    requires i < j < |NewPlan(groups, owners)| && p in NewPlan(groups, owners)[i].add
    ensures p !in NewPlan(groups, owners)[j].add
  {
    var before, last := groups[..|groups| - 1], groups[|groups| - 1];
    var plan := NewPlan(before, owners);
    if j < |plan| {
      NewCandidatesApart(before, owners, i, j, p);
    } else {
      NewCandidates(before, owners);
      assert plan[i] in plan;
      var g :| g in before && NewGroup(g, owners) && plan[i].add == g.files;
      var l :| 0 <= l < |before| && before[l] == g;
      assert p in groups[l].files;
    }
  }

  /** A file has one group, so it is owed to one item or to none. */
  lemma OneGroup(k: Knowledge, g: Group, h: Group, p: Path)
    requires Known(k) && g in k.groups && h in k.groups && p in g.files && p in h.files
    ensures g == h
  {
    var i :| 0 <= i < |k.groups| && k.groups[i] == g;
    var j :| 0 <= j < |k.groups| && k.groups[j] == h;
  }

  /** The files of a group without a home are not tracked. */
  lemma NewGroupUntracked(k: Knowledge, g: Group, p: Path)
    requires Known(k) && g in k.groups && NewGroup(g, k.owners) && p in g.files
    ensures p !in k.tables.files
  {
    HomeIsOwned(g.folders, k.owners);
    assert p.top.value in g.folders;
  }

  /** Owed files belong to items the store knows. */
  lemma OwedToKnown(k: Knowledge, i: nat, p: Path)
    requires Known(k) && Owing(k, i, p)
    ensures i in k.tables.items && p !in k.tables.files
  {
    var g :| g in k.groups && Home(g.folders, k.owners) == Some(i) && p in g.files;
    HomeIsOwned(g.folders, k.owners);
  }

  lemma ForItemFits(k: Knowledge, i: nat, c: Candidate)
    requires Known(k) && ForItem(k, i, c)
    ensures Fits(k.tables, c)
    ensures Deletes(k.tables, c) <==> c.add == [] && Orphaned(k, i)
  {
    forall p | p in c.add ensures p !in k.tables.files { OwedToKnown(k, i, p); }
    if c.add != [] { OwedToKnown(k, i, c.add[0]); }
    hide Owing, OnDisk, Owners;
    forall p | p in c.remove ensures p in k.tables.files && k.tables.files[p] == i { assert File(p, i) in k.stale; }
    if c.remove != [] { assert c.remove[0] in c.remove; }
    assert i in k.tables.items;
    if Orphaned(k, i) && c.add == [] {
      assert forall p :: p in PathsOfItem(k.tables.files, i) ==> p in c.remove;
    }
  }

  lemma NewApart(k: Knowledge, i: nat, j: nat, p: Path)
    requires Known(k) && i < j < |NewPlan(k.groups, k.owners)| && p in NewPlan(k.groups, k.owners)[i].add
    ensures p !in NewPlan(k.groups, k.owners)[j].add
  {
    NewCandidatesApart(k.groups, k.owners, i, j, p);
  }

  lemma PlanIsSound(k: Knowledge, known: seq<Candidate>)
    requires Known(k) && Planned(k, known)
    ensures PlanFits(k.tables, known + NewPlan(k.groups, k.owners))
  {
    var news := NewPlan(k.groups, k.owners);
    var plan := known + news;
    NewCandidates(k.groups, k.owners);
    hide Known, NewPlan;
    forall c | c in plan ensures Fits(k.tables, c) {
      if c in known { ForItemFits(k, c.item.value, c); } else {
        var g :| g in k.groups && NewGroup(g, k.owners) && c.add == g.files;
        forall p | p in c.add ensures p !in k.tables.files { NewGroupUntracked(k, g, p); }
      }
    }
    hide Fits, Orphaned;
    assert forall j :: 0 <= j < |known| ==> plan[j] == known[j] && plan[j] in known;
    assert forall j :: |known| <= j < |plan| ==> plan[j] == news[j - |known|] && plan[j] in news;
    forall i, j, p | 0 <= i < j < |plan| && p in plan[i].add ensures p !in plan[j].add {
      if i >= |known| {
        NewApart(k, i - |known|, j - |known|, p);
      } else if p in plan[j].add {
        assert Owing(k, plan[i].item.value, p);
        var g :| g in k.groups && Home(g.folders, k.owners) == plan[i].item && p in g.files;
        if j < |known| {
          assert Owing(k, plan[j].item.value, p);
          var h :| h in k.groups && Home(h.folders, k.owners) == plan[j].item && p in h.files;
          OneGroup(k, g, h, p);
        } else {
          var h :| h in k.groups && NewGroup(h, k.owners) && plan[j].add == h.files;
          OneGroup(k, g, h, p);
        }
      }
    }
  }

  // ----- What the sync leaves behind

  ghost predicate StaleRow(k: Knowledge, p: Path) {
    p in k.tables.files && File(p, k.tables.files[p]) in k.stale
  }

  /** The tracked files are the files on disk and the old ones that were not stale; files keep their item. */
  ghost predicate FilesReconciled(k: Knowledge, files: map<Path, nat>) {
    (forall p :: p in files <==> OnDisk(k.groups, p) || (p in k.tables.files && !StaleRow(k, p))) &&
    forall p :: p in files && p in k.tables.files ==> files[p] == k.tables.files[p]
  }

  predicate AllAt(files: map<Path, nat>, paths: seq<Path>, i: nat) {
    forall p :: p in paths ==> p in files && files[p] == i
  }

  /** New files go to the item their group belongs to, or together to one new item. */
  ghost predicate GroupsReconciled(k: Knowledge, files: map<Path, nat>) {
    forall g :: g in k.groups ==>
      if Home(g.folders, k.owners).Some? then
        forall p :: p in g.files && p !in k.tables.files ==> p in files && files[p] == Home(g.folders, k.owners).value
      else exists i :: i >= k.tables.next && AllAt(files, g.files, i)
  }

  /** An item disappears exactly when all its files did, none came, and nobody waits for it. */
  ghost predicate ItemsReconciled(k: Knowledge, items: map<nat, Item>) {
    forall i :: i in k.tables.items ==>
      (i in items <==> !(Orphaned(k, i) && forall p :: !Owing(k, i, p))) &&
      (i in items ==> items[i] == k.tables.items[i])
  }

  lemma RemovedExactly(k: Knowledge, known: seq<Candidate>, p: Path)
    requires Known(k) && Planned(k, known)
    ensures (exists c :: c in known + NewPlan(k.groups, k.owners) && p in c.remove) <==> StaleRow(k, p)
  {
    NewCandidates(k.groups, k.owners);
    var plan := known + NewPlan(k.groups, k.owners);
    hide NewPlan, OnDisk, Owing, Orphaned;
    if StaleRow(k, p) {
      var c :| c in known && c.item == Some(k.tables.files[p]);
      assert c in plan && p in c.remove;
    }
    forall c | c in plan && p in c.remove ensures StaleRow(k, p) {
      if c in known { assert File(p, c.item.value) in k.stale; }
    }
  }

  lemma AddedExactly(k: Knowledge, known: seq<Candidate>, p: Path)
    requires Known(k) && Planned(k, known)
    ensures (exists c :: c in known + NewPlan(k.groups, k.owners) && p in c.add) <==> OnDisk(k.groups, p) && p !in k.tables.files
  {
    NewCandidates(k.groups, k.owners);
    var plan := known + NewPlan(k.groups, k.owners);
    hide NewPlan;
    if OnDisk(k.groups, p) && p !in k.tables.files {
      var g :| g in k.groups && p in g.files;
      if Home(g.folders, k.owners).Some? {
        var i := Home(g.folders, k.owners).value;
        assert Owing(k, i, p);
        var c :| c in known && c.item == Some(i);
        assert c in plan && p in c.add;
      } else {
        assert Candidate(None, g.files, [], false) in plan;
      }
    }
    forall c | c in plan && p in c.add ensures OnDisk(k.groups, p) && p !in k.tables.files {
      if c in known {
        assert Owing(k, c.item.value, p);
      } else {
        var g :| g in k.groups && NewGroup(g, k.owners) && c.add == g.files;
        NewGroupUntracked(k, g, p);
      }
    }
  }

  lemma FilesFollow(k: Knowledge, known: seq<Candidate>, files: map<Path, nat>)
    requires Known(k) && Planned(k, known)
    requires forall p :: Lookup(files, p) == Where(k.tables, known + NewPlan(k.groups, k.owners), p)
    ensures FilesReconciled(k, files)
  {
    var plan := known + NewPlan(k.groups, k.owners);
    PlanIsSound(k, known);
    forall p
      ensures p in files <==> OnDisk(k.groups, p) || (p in k.tables.files && !StaleRow(k, p))
      ensures p in files && p in k.tables.files ==> files[p] == k.tables.files[p]
    {
      assert Lookup(files, p) == Where(k.tables, plan, p);
      RemovedExactly(k, known, p);
      AddedExactly(k, known, p);
      if p in k.tables.files {
        TrackedPath(k.tables, plan, p);
        assert OnDisk(k.groups, p) ==> !StaleRow(k, p);
      } else if exists c :: c in plan && p in c.add {
        var c :| c in plan && p in c.add;
        var j :| 0 <= j < |plan| && plan[j] == c;
        AddedPath(k.tables, plan, j, p);
      } else {
        UntrackedStays(k.tables, plan, p);
      }
      hide *;
    }
  }

  lemma GroupsFollow(k: Knowledge, known: seq<Candidate>, files: map<Path, nat>)
    requires Known(k) && Planned(k, known)
    requires forall p :: Lookup(files, p) == Where(k.tables, known + NewPlan(k.groups, k.owners), p)
    ensures GroupsReconciled(k, files)
  {
    PlanIsSound(k, known);
    hide Known, Planned, NewPlan, PlanFits, Where, AllAt, Home, Lookup;
    forall g | g in k.groups
      ensures if Home(g.folders, k.owners).Some? then
                forall p :: p in g.files && p !in k.tables.files ==> p in files && files[p] == Home(g.folders, k.owners).value
              else exists i :: i >= k.tables.next && AllAt(files, g.files, i)
    {
      if Home(g.folders, k.owners).Some? {
        forall p | p in g.files && p !in k.tables.files ensures p in files && files[p] == Home(g.folders, k.owners).value {
          HomeGetsFile(k, known, files, g, p);
        }
      } else {
        var i := NewItemGetsFiles(k, known, files, g);
      }
    }
  }

  /** The group's home is owed its untracked files, so its candidate adds them. */
  lemma HomeGetsFile(k: Knowledge, known: seq<Candidate>, files: map<Path, nat>, g: Group, p: Path)
    requires Known(k) && Planned(k, known) && PlanFits(k.tables, known + NewPlan(k.groups, k.owners))
    requires forall p :: Lookup(files, p) == Where(k.tables, known + NewPlan(k.groups, k.owners), p)
    requires g in k.groups && Home(g.folders, k.owners).Some? && p in g.files && p !in k.tables.files
    ensures p in files && files[p] == Home(g.folders, k.owners).value
  {
    hide NewPlan, PlanFits, Known;
    var plan, i := known + NewPlan(k.groups, k.owners), Home(g.folders, k.owners).value;
    assert Owing(k, i, p);
    var c :| c in known && c.item == Some(i);
    var j :| 0 <= j < |known| && known[j] == c;
    assert plan[j] == c && ForItem(k, i, c);
    AddedPath(k.tables, plan, j, p);
    assert Lookup(files, p) == Where(k.tables, plan, p);
  }

  /** A group without a home has a candidate of its own. */
  lemma NewItemGetsFiles(k: Knowledge, known: seq<Candidate>, files: map<Path, nat>, g: Group) returns (i: nat)
    requires Known(k) && Planned(k, known) && PlanFits(k.tables, known + NewPlan(k.groups, k.owners))
    requires forall p :: Lookup(files, p) == Where(k.tables, known + NewPlan(k.groups, k.owners), p)
    requires g in k.groups && Home(g.folders, k.owners).None?
    ensures i >= k.tables.next && AllAt(files, g.files, i)
  {
    NewCandidates(k.groups, k.owners);
    hide NewPlan, PlanFits, Known, Planned;
    var news := NewPlan(k.groups, k.owners);
    var plan, c := known + news, Candidate(None, g.files, [], false);
    if g.files == [] { return k.tables.next; }
    var l :| 0 <= l < |news| && news[l] == c;
    var j := |known| + l;
    assert plan[j] == c;
    i := IdOf(k.tables, plan[..j], c);
    forall p | p in g.files ensures p in files && files[p] == i {
      AddedPath(k.tables, plan, j, p);
      assert Lookup(files, p) == Where(k.tables, plan, p);
    }
  }

  /** Groups without a home do not share an item. */
  ghost predicate NewItemsApart(k: Knowledge, files: map<Path, nat>) {
    forall g, h, p, q :: g in k.groups && h in k.groups && Home(g.folders, k.owners).None? && Home(h.folders, k.owners).None? ==>
      p in g.files && q in h.files && p in files && q in files && files[p] == files[q] ==> g == h
  }

  lemma {:induction false} NewsGrow(plan: seq<Candidate>, a: nat, b: nat)
    requires a < b <= |plan| && plan[a].item.None?
    ensures News(plan[..a]) < News(plan[..b])
  {
    assert plan[..b][..b - 1] == plan[..b - 1];
    if a < b - 1 { NewsGrow(plan, a, b - 1); }
  }

  /** The candidate of a group without a home, and the item it creates. */
  lemma NewItemOf(k: Knowledge, known: seq<Candidate>, files: map<Path, nat>, g: Group, p: Path) returns (j: nat)
    requires Known(k) && Planned(k, known) && PlanFits(k.tables, known + NewPlan(k.groups, k.owners))
    requires forall p :: Lookup(files, p) == Where(k.tables, known + NewPlan(k.groups, k.owners), p)
    requires g in k.groups && Home(g.folders, k.owners).None? && p in g.files && p in files
    ensures var plan := known + NewPlan(k.groups, k.owners);
            j < |plan| && plan[j] == Candidate(None, g.files, [], false) && files[p] == k.tables.next + News(plan[..j])
  {
    NewCandidates(k.groups, k.owners);
    hide NewPlan, PlanFits, Known, Planned, News;
    var news := NewPlan(k.groups, k.owners);
    var plan, c := known + news, Candidate(None, g.files, [], false);
    var l :| 0 <= l < |news| && news[l] == c;
    j := |known| + l;
    assert plan[j] == c;
    AddedPath(k.tables, plan, j, p);
    assert Lookup(files, p) == Where(k.tables, plan, p);
  }

  lemma NewItemsFollow(k: Knowledge, known: seq<Candidate>, files: map<Path, nat>)
    requires Known(k) && Planned(k, known)
    requires forall p :: Lookup(files, p) == Where(k.tables, known + NewPlan(k.groups, k.owners), p)
    ensures NewItemsApart(k, files)
  {
    PlanIsSound(k, known);
    var plan := known + NewPlan(k.groups, k.owners);
    hide NewPlan, Planned, PlanFits, Where, Home, Lookup, News, Known;
    forall g, h, p, q | g in k.groups && h in k.groups && Home(g.folders, k.owners).None? && Home(h.folders, k.owners).None? &&
                        p in g.files && q in h.files && p in files && q in files && files[p] == files[q]
      ensures g == h
    {
      var a := NewItemOf(k, known, files, g, p);
      var b := NewItemOf(k, known, files, h, q);
      if a < b { NewsGrow(plan, a, b); } else if b < a { NewsGrow(plan, b, a); }
      assert a == b && g.files == h.files;
      OneGroup(k, g, h, p);
    }
  }

  lemma ItemsFollow(k: Knowledge, known: seq<Candidate>, items: map<nat, Item>)
    requires Known(k) && Planned(k, known)
    requires forall i :: Lookup(items, i) == Kept(k.tables, known + NewPlan(k.groups, k.owners), i)
    ensures ItemsReconciled(k, items)
  {
    hide Known, Planned, Kept, NewPlan, Orphaned, Owing;
    forall i | i in k.tables.items
      ensures i in items <==> !(Orphaned(k, i) && forall p :: !Owing(k, i, p))
      ensures i in items ==> items[i] == k.tables.items[i]
    {
      assert Lookup(items, i) == Kept(k.tables, known + NewPlan(k.groups, k.owners), i);
      ItemFollows(k, known, i);
    }
  }

  lemma ItemFollows(k: Knowledge, known: seq<Candidate>, i: nat)
    requires Known(k) && Planned(k, known) && i in k.tables.items
    ensures Kept(k.tables, known + NewPlan(k.groups, k.owners), i) ==
              if Orphaned(k, i) && forall p :: !Owing(k, i, p) then None else Some(k.tables.items[i])
  {
    var plan := known + NewPlan(k.groups, k.owners);
    PlanIsSound(k, known);
    NewCandidates(k.groups, k.owners);
    KeptItem(k.tables, plan, i);
    hide NewPlan, PlanFits, Kept, Owing, Deletes;
    forall c | c in plan && c.item == Some(i)
      ensures Deletes(k.tables, c) <==> Orphaned(k, i) && forall p :: !Owing(k, i, p)
    {
      assert c in known;
      CandidateDeletes(k, i, c);
    }
    if Orphaned(k, i) {
      var c :| c in known && c.item == Some(i);
      assert c in plan;
    }
    hide Orphaned, Known;
  }

  lemma CandidateDeletes(k: Knowledge, i: nat, c: Candidate)
    requires Known(k) && ForItem(k, i, c) && i in k.tables.items
    ensures Deletes(k.tables, c) <==> Orphaned(k, i) && forall p :: !Owing(k, i, p)
  {
    ForItemFits(k, i, c);
    assert c.add == [] || c.add[0] in c.add;
    hide Orphaned, Owing, Deletes, Known;
  }

  // ----- The outcome in terms of folders and tables alone

  /** Folders of one show: those of one title in a series library, a single folder otherwise. */
  predicate SameShow(series: bool, e: Entry, f: Entry) { if series then e.title == f.title else e.path == f.path }

  /** A readable folder of the show of e below which some file is tracked. */
  ghost predicate Owning(files: map<Path, nat>, series: bool, e: Entry, f: Entry) {
    f.scan.Some? && SameShow(series, e, f) && exists q :: q in files && q.top == Some(f.path)
  }

  ghost predicate Leads(files: map<Path, nat>, entries: seq<Entry>, series: bool, e: Entry, l: nat) {
    l < |entries| && Owning(files, series, e, entries[l]) && forall m :: 0 <= m < l ==> !Owning(files, series, e, entries[m])
  }

  ghost predicate Unowned(files: map<Path, nat>, entries: seq<Entry>, series: bool, e: Entry) {
    forall f :: f in entries ==> !Owning(files, series, e, f)
  }

  /** A file the scan of e found and nobody tracks. */
  ghost predicate NewFile(files: map<Path, nat>, entries: seq<Entry>, e: Entry, p: Path) {
    e in entries && e.scan.Some? && p in e.scan.value && p !in files
  }

  /** The item of a tracked file below the folder. */
  ghost predicate ItemBelow(files: map<Path, nat>, x: string, i: nat) { exists q :: q in files && q.top == Some(x) && files[q] == i }

  /** New files go to an item with files below the first owning folder of their show, or else to a new item. */
  ghost predicate NewFilesPlaced(t: Tables, entries: seq<Entry>, series: bool, files: map<Path, nat>) {
    (forall e, p :: NewFile(t.files, entries, e, p) ==>
       p in files &&
       (forall l: nat :: Leads(t.files, entries, series, e, l) ==> ItemBelow(t.files, entries[l].path, files[p])) &&
       (Unowned(t.files, entries, series, e) ==> files[p] >= t.next))
  }

  /** The new files of a show have one item; shows without an owner have items of their own. */
  ghost predicate ShowsShareItems(t: Tables, entries: seq<Entry>, series: bool, files: map<Path, nat>) {
    forall e, f, p, q :: NewFile(t.files, entries, e, p) && NewFile(t.files, entries, f, q) && p in files && q in files ==>
      (SameShow(series, e, f) ==> files[p] == files[q]) &&
      (!SameShow(series, e, f) && Unowned(t.files, entries, series, e) && Unowned(t.files, entries, series, f) ==> files[p] != files[q])
  }

  /** An item disappears exactly when it had files, has none left, and nobody waits for it; new items have files and come from disk. */
  ghost predicate ItemsSettled(before: Tables, after: Tables) {
    (forall i :: i in before.items ==>
       (i !in after.items <==>
          (exists p :: p in before.files && before.files[p] == i) && (forall p :: p in after.files ==> after.files[p] != i) &&
          !before.items[i].awaited && !before.items[i].monitored) &&
       (i in after.items ==> after.items[i] == before.items[i])) &&
    forall i :: i in after.items && i !in before.items ==>
      i >= before.next && after.items[i] == Item(false, false, false) && exists p :: p in after.files && after.files[p] == i
  }

  lemma {:induction false} HomeAppend(folders: seq<string>, x: string, owners: map<string, nat>)
    ensures Home(folders + [x], owners) ==
              if Home(folders, owners).Some? then Home(folders, owners) else if x in owners then Some(owners[x]) else None
  {
    if folders != [] {
      HomeAppend(folders[1..], x, owners);
      assert (folders + [x])[1..] == folders[1..] + [x];
    }
  }

  /** The group of a readable folder. */
  function ShowGroup(entries: seq<Entry>, series: bool, e: Entry): Group
    requires e.scan.Some?
  {
    if series then Group(PathsOf(Readable(entries), e.title), FilesOf(Readable(entries), e.title)) else Group([e.path], e.scan.value)
  }

  /** Its home is the owner of the first readable folder of the show that has one. */
  ghost predicate FirstOwner(entries: seq<Entry>, series: bool, e: Entry, owners: map<string, nat>, home: Option<nat>) {
    if home.None? then forall f :: f in entries && f.scan.Some? && SameShow(series, e, f) ==> f.path !in owners
    else
      exists l :: 0 <= l < |entries| && entries[l].scan.Some? && SameShow(series, e, entries[l]) &&
                  entries[l].path in owners && owners[entries[l].path] == home.value &&
                  forall m :: 0 <= m < l && entries[m].scan.Some? && SameShow(series, e, entries[m]) ==> entries[m].path !in owners
  }

  lemma ReadablePaths(entries: seq<Entry>, title: string)
    requires entries != []
    ensures var before, last := entries[..|entries| - 1], entries[|entries| - 1];
            PathsOf(Readable(entries), title) ==
              PathsOf(Readable(before), title) + if last.scan.Some? && last.title == title then [last.path] else []
  {
    var before, last := entries[..|entries| - 1], entries[|entries| - 1];
    assert PathsOf(Readable(before), title) + [] == PathsOf(Readable(before), title);
    if last.scan.Some? {
      var folders := Readable(entries);
      assert folders[|folders| - 1].path == last.path && folders[..|folders| - 1] == Readable(before);
    } else {
      assert Readable(entries) == Readable(before);
    }
  }

  lemma FirstOwnerAppend(before: seq<Entry>, last: Entry, e: Entry, owners: map<string, nat>, home: Option<nat>)
    requires FirstOwner(before, true, e, owners, home)
    ensures FirstOwner(before + [last], true, e, owners,
              if home.Some? then home
              else if last.scan.Some? && last.title == e.title && last.path in owners then Some(owners[last.path]) else None)
  {
    var entries := before + [last];
    assert forall m :: 0 <= m < |before| ==> entries[m] == before[m] && before[m] in before;
    assert entries[|before|] == last;
  }

  lemma SeriesHomeStep(entries: seq<Entry>, e: Entry, owners: map<string, nat>)
    requires entries != []
    requires FirstOwner(entries[..|entries| - 1], true, e, owners, Home(PathsOf(Readable(entries[..|entries| - 1]), e.title), owners))
    ensures FirstOwner(entries, true, e, owners, Home(PathsOf(Readable(entries), e.title), owners))
  {
    hide Home, PathsOf, Readable, FirstOwner;
    var before, last := entries[..|entries| - 1], entries[|entries| - 1];
    var folders := PathsOf(Readable(before), e.title);
    HomeAppend(folders, last.path, owners);
    ReadablePaths(entries, e.title);
    FirstOwnerAppend(before, last, e, owners, Home(folders, owners));
    assert entries == before + [last] && folders + [] == folders;
  }

  lemma {:induction false} SeriesHome(entries: seq<Entry>, e: Entry, owners: map<string, nat>)
    ensures FirstOwner(entries, true, e, owners, Home(PathsOf(Readable(entries), e.title), owners))
  {
    if entries != [] {
      SeriesHome(entries[..|entries| - 1], e, owners);
      SeriesHomeStep(entries, e, owners);
    }
  }

  lemma ShowHome(entries: seq<Entry>, series: bool, e: Entry, owners: map<string, nat>)
    requires Listing(entries) && e in entries && e.scan.Some?
    ensures FirstOwner(entries, series, e, owners, Home(ShowGroup(entries, series, e).folders, owners))
  {
    if series {
      SeriesHome(entries, e, owners);
    } else {
      var l :| 0 <= l < |entries| && entries[l] == e;
      assert Home([e.path][1..], owners) == None;
    }
  }

  lemma ShowGroupIsThere(entries: seq<Entry>, series: bool, e: Entry)
    requires Listing(entries) && e in entries && e.scan.Some?
    ensures ShowGroup(entries, series, e) in GroupsOf(Readable(entries), series)
    ensures forall p :: p in e.scan.value ==> p in ShowGroup(entries, series, e).files
    ensures e.path in ShowGroup(entries, series, e).folders
  {
    ReadableScans(entries);
    var folders := Readable(entries);
    var f, groups := Folder(e.path, e.title, e.scan.value), GroupsOf(folders, series);
    assert f in folders;
    if series {
      GroupMembers(folders, e.title);
      var titles := Titles(folders);
      var k :| 0 <= k < |titles| && titles[k] == e.title;
      assert groups[k] == ShowGroup(entries, series, e);
    } else {
      var k :| 0 <= k < |folders| && folders[k] == f;
      assert groups[k] == ShowGroup(entries, series, e);
    }
  }

  /** Two readable folders have one group exactly when they are of one show. */
  lemma OneShowOneGroup(entries: seq<Entry>, series: bool, e: Entry, f: Entry)
    requires Listing(entries) && e in entries && e.scan.Some? && f in entries && f.scan.Some?
    ensures ShowGroup(entries, series, e) == ShowGroup(entries, series, f) <==> SameShow(series, e, f)
  {
    ReadableScans(entries);
    ShowGroupIsThere(entries, series, e);
    ShowGroupIsThere(entries, series, f);
    var x, y := Folder(e.path, e.title, e.scan.value), Folder(f.path, f.title, f.scan.value);
    GroupsByTitle(Readable(entries), series, x, y);
    hide Readable, GroupsOf, Scanned;
    assert e.path == f.path ==> e == f;
    if ShowGroup(entries, series, e) == ShowGroup(entries, series, f) {
      assert Together(GroupsOf(Readable(entries), series), e.path, f.path);
    }
  }

  /** The first owning folder of the show gives the home; without one there is none. */
  lemma LeadsMeansHome(files: map<Path, nat>, entries: seq<Entry>, series: bool, e: Entry, owners: map<string, nat>, home: Option<nat>)
    requires Owners(files, owners) && FirstOwner(entries, series, e, owners, home)
    ensures forall l: nat :: Leads(files, entries, series, e, l) ==> home.Some? && ItemBelow(files, entries[l].path, home.value)
    ensures Unowned(files, entries, series, e) ==> home.None?
  {
    hide SameShow;
    assert forall f :: f in entries && f.scan.Some? && SameShow(series, e, f) ==> (f.path in owners <==> Owning(files, series, e, f));
    forall l: nat | Leads(files, entries, series, e, l) ensures home.Some? && ItemBelow(files, entries[l].path, home.value) {
      assert entries[l].path in owners && ItemBelow(files, entries[l].path, owners[entries[l].path]);
    }
  }

  /** What the groups say of every group, told for one readable folder. */
  lemma NewFileFollows(k: Knowledge, entries: seq<Entry>, series: bool, files: map<Path, nat>, e: Entry, p: Path)
    requires Listing(entries) && k.groups == GroupsOf(Readable(entries), series) && Owners(k.tables.files, k.owners)
    requires GroupsReconciled(k, files) && NewFile(k.tables.files, entries, e, p)
    ensures ShowGroup(entries, series, e) in k.groups && p in ShowGroup(entries, series, e).files && p in files
    ensures forall l: nat :: Leads(k.tables.files, entries, series, e, l) ==> ItemBelow(k.tables.files, entries[l].path, files[p])
    ensures Unowned(k.tables.files, entries, series, e) ==>
              files[p] >= k.tables.next && Home(ShowGroup(entries, series, e).folders, k.owners).None?
  {
    var g := ShowGroup(entries, series, e);
    ShowGroupIsThere(entries, series, e);
    ShowHome(entries, series, e, k.owners);
    LeadsMeansHome(k.tables.files, entries, series, e, k.owners, Home(g.folders, k.owners));
    hide Readable, GroupsOf, Listing, ShowGroup, Home, Owners, FirstOwner, Leads, Unowned, ItemBelow;
  }

  lemma NewFilesFollow(k: Knowledge, entries: seq<Entry>, series: bool, files: map<Path, nat>)
    requires Listing(entries) && k.groups == GroupsOf(Readable(entries), series) && Owners(k.tables.files, k.owners)
    requires GroupsReconciled(k, files)
    ensures NewFilesPlaced(k.tables, entries, series, files)
  {
    hide Readable, GroupsOf, Listing, ShowGroup, Home, GroupsReconciled, Owners, Owning, ItemBelow, Unowned, NewFile;
    forall e, p | NewFile(k.tables.files, entries, e, p)
      ensures p in files
      ensures forall l: nat :: Leads(k.tables.files, entries, series, e, l) ==> ItemBelow(k.tables.files, entries[l].path, files[p])
      ensures Unowned(k.tables.files, entries, series, e) ==> files[p] >= k.tables.next
    {
      NewFileFollows(k, entries, series, files, e, p);
    }
  }

  /** Both files are in the groups of their shows, and the groups decide. */
  lemma TwoNewFiles(k: Knowledge, entries: seq<Entry>, series: bool, files: map<Path, nat>, e: Entry, p: Path, f: Entry, q: Path)
    requires Listing(entries) && k.groups == GroupsOf(Readable(entries), series) && Owners(k.tables.files, k.owners)
    requires GroupsReconciled(k, files) && NewItemsApart(k, files)
    requires NewFile(k.tables.files, entries, e, p) && NewFile(k.tables.files, entries, f, q) && p in files && q in files
    ensures SameShow(series, e, f) ==> files[p] == files[q]
    ensures !SameShow(series, e, f) && Unowned(k.tables.files, entries, series, e) && Unowned(k.tables.files, entries, series, f) ==>
              files[p] != files[q]
  {
    NewFileFollows(k, entries, series, files, e, p);
    NewFileFollows(k, entries, series, files, f, q);
    OneShowOneGroup(entries, series, e, f);
    hide Readable, GroupsOf, Listing, ShowGroup, Home, Owners, Leads, ItemBelow, Unowned, SameShow;
  }

  lemma ShowsFollow(k: Knowledge, entries: seq<Entry>, series: bool, files: map<Path, nat>)
    requires Listing(entries) && k.groups == GroupsOf(Readable(entries), series) && Owners(k.tables.files, k.owners)
    requires GroupsReconciled(k, files) && NewItemsApart(k, files)
    ensures ShowsShareItems(k.tables, entries, series, files)
  {
    hide Readable, GroupsOf, Listing, ShowGroup, Home, GroupsReconciled, NewItemsApart, Owners, Unowned, NewFile, SameShow;
    forall e, f, p, q | NewFile(k.tables.files, entries, e, p) && NewFile(k.tables.files, entries, f, q) && p in files && q in files
      ensures SameShow(series, e, f) ==> files[p] == files[q]
      ensures !SameShow(series, e, f) && Unowned(k.tables.files, entries, series, e) && Unowned(k.tables.files, entries, series, f) ==>
                files[p] != files[q]
    {
      TwoNewFiles(k, entries, series, files, e, p, f, q);
    }
  }

  /** An item loses its record exactly when no file of it is left. */
  lemma OldItemSettles(k: Knowledge, files: map<Path, nat>, i: nat)
    requires Known(k) && FilesReconciled(k, files) && GroupsReconciled(k, files) && i in k.tables.items
    requires !k.tables.items[i].awaited && !k.tables.items[i].monitored
    ensures Orphaned(k, i) && (forall p :: !Owing(k, i, p)) <==>
              (exists p :: p in k.tables.files && k.tables.files[p] == i) && (forall p :: p in files ==> files[p] != i)
  {
    var was := k.tables.files;
    if Orphaned(k, i) && forall p :: !Owing(k, i, p) {
      forall p | p in files ensures files[p] != i { OrphanHasNone(k, files, i, p); }
      var r :| r in k.stale && r.item == i;
      assert r.path in was && was[r.path] == i;
    }
    if p0 :| p0 in was && was[p0] == i && forall p :: p in files ==> files[p] != i {
      forall p | p in was && was[p] == i ensures File(p, i) in k.stale { assert p !in files; }
      assert File(p0, i) in k.stale;
      forall p | Owing(k, i, p) ensures false { OwedArrives(k, files, i, p); }
    }
  }

  lemma OrphanHasNone(k: Knowledge, files: map<Path, nat>, i: nat, p: Path)
    requires Known(k) && FilesReconciled(k, files) && GroupsReconciled(k, files) && i in k.tables.items
    requires Orphaned(k, i) && (forall p :: !Owing(k, i, p)) && p in files
    ensures files[p] != i
  {
    if p in k.tables.files {
      assert k.tables.files[p] == i ==> StaleRow(k, p);
    } else {
      var g :| g in k.groups && p in g.files;
      assert !Owing(k, i, p);
      hide Home, Orphaned, StaleRow, Owners;
    }
  }

  lemma OwedArrives(k: Knowledge, files: map<Path, nat>, i: nat, p: Path)
    requires GroupsReconciled(k, files) && Owing(k, i, p)
    ensures p in files && files[p] == i
  {
    hide Home;
  }

  /** A candidate for a new item has files. */
  lemma NewCandidateHasFiles(k: Knowledge, known: seq<Candidate>, c: Candidate)
    requires Planned(k, known) && c in known + NewPlan(k.groups, k.owners) && c.item.None?
    ensures c.add != []
  {
    NewCandidates(k.groups, k.owners);
    hide NewPlan, ForItem;
  }

  lemma CreatedItemHasFile(k: Knowledge, known: seq<Candidate>, files: map<Path, nat>, j: nat)
    requires Planned(k, known) && PlanFits(k.tables, known + NewPlan(k.groups, k.owners))
    requires forall p :: Lookup(files, p) == Where(k.tables, known + NewPlan(k.groups, k.owners), p)
    requires j < |known + NewPlan(k.groups, k.owners)| && (known + NewPlan(k.groups, k.owners))[j].item.None?
    ensures exists p :: p in files && files[p] == k.tables.next + News((known + NewPlan(k.groups, k.owners))[..j])
  {
    var plan := known + NewPlan(k.groups, k.owners);
    NewCandidateHasFiles(k, known, plan[j]);
    hide NewPlan, PlanFits, Planned, News;
    var p := plan[j].add[0];
    AddedPath(k.tables, plan, j, p);
    assert Lookup(files, p) == Where(k.tables, plan, p);
  }

  /** A new item comes from a group without a home, whose files it gets. */
  lemma NewItemSettles(k: Knowledge, known: seq<Candidate>, t: Tables, i: nat)
    requires Planned(k, known) && PlanFits(k.tables, known + NewPlan(k.groups, k.owners))
    requires forall p :: Lookup(t.files, p) == Where(k.tables, known + NewPlan(k.groups, k.owners), p)
    requires Lookup(t.items, i) == Kept(k.tables, known + NewPlan(k.groups, k.owners), i)
    requires i in t.items && i !in k.tables.items
    ensures i >= k.tables.next && t.items[i] == Item(false, false, false) && exists p :: p in t.files && t.files[p] == i
  {
    var plan := known + NewPlan(k.groups, k.owners);
    KeptNewItem(k.tables, plan, i);
    hide NewPlan, Kept, PlanFits, Planned, Where, News;
    var j :| 0 <= j < |plan| && plan[j].item.None? && i == k.tables.next + News(plan[..j]);
    CreatedItemHasFile(k, known, t.files, j);
  }

  lemma OldItemsSettle(k: Knowledge, t: Tables, i: nat)
    requires Known(k) && FilesReconciled(k, t.files) && GroupsReconciled(k, t.files) && ItemsReconciled(k, t.items)
    requires i in k.tables.items
    ensures i !in t.items <==>
              (exists p :: p in k.tables.files && k.tables.files[p] == i) && (forall p :: p in t.files ==> t.files[p] != i) &&
              !k.tables.items[i].awaited && !k.tables.items[i].monitored
  {
    hide Known, Orphaned, Owing, FilesReconciled, GroupsReconciled;
    if !k.tables.items[i].awaited && !k.tables.items[i].monitored {
      OldItemSettles(k, t.files, i);
    } else {
      WaitedForStays(k, i);
    }
  }

  lemma ItemsSettle(k: Knowledge, known: seq<Candidate>, t: Tables)
    requires Known(k) && Planned(k, known)
    requires forall p :: Lookup(t.files, p) == Where(k.tables, known + NewPlan(k.groups, k.owners), p)
    requires forall i :: Lookup(t.items, i) == Kept(k.tables, known + NewPlan(k.groups, k.owners), i)
    requires FilesReconciled(k, t.files) && GroupsReconciled(k, t.files) && ItemsReconciled(k, t.items)
    ensures ItemsSettled(k.tables, t)
  {
    hide Known, Planned, NewPlan, PlanFits, Where, Kept, Orphaned, Owing, FilesReconciled, GroupsReconciled, Lookup;
    PlanIsSound(k, known);
    NewItemsSettle(k, known, t);
    forall i | i in k.tables.items
      ensures i !in t.items <==>
                (exists p :: p in k.tables.files && k.tables.files[p] == i) && (forall p :: p in t.files ==> t.files[p] != i) &&
                !k.tables.items[i].awaited && !k.tables.items[i].monitored
    {
      OldItemsSettle(k, t, i);
    }
  }

  lemma NewItemsSettle(k: Knowledge, known: seq<Candidate>, t: Tables)
    requires Planned(k, known) && PlanFits(k.tables, known + NewPlan(k.groups, k.owners))
    requires forall p :: Lookup(t.files, p) == Where(k.tables, known + NewPlan(k.groups, k.owners), p)
    requires forall i :: Lookup(t.items, i) == Kept(k.tables, known + NewPlan(k.groups, k.owners), i)
    ensures forall i :: i in t.items && i !in k.tables.items ==>
              i >= k.tables.next && t.items[i] == Item(false, false, false) && exists p :: p in t.files && t.files[p] == i
  {
    hide Planned, NewPlan, PlanFits, Where, Kept;
    forall i | i in t.items && i !in k.tables.items
      ensures i >= k.tables.next && t.items[i] == Item(false, false, false) && exists p :: p in t.files && t.files[p] == i
    {
      assert Lookup(t.items, i) == Kept(k.tables, known + NewPlan(k.groups, k.owners), i);
      NewItemSettles(k, known, t, i);
    }
  }

  lemma WaitedForStays(k: Knowledge, i: nat)
    requires i in k.tables.items && (k.tables.items[i].awaited || k.tables.items[i].monitored)
    ensures !Orphaned(k, i)
  {
  }

  // ----- The sync

  /** A path the scan saw. */
  ghost predicate Seen(entries: seq<Entry>, p: Path) { exists e :: e in entries && e.scan.Some? && p in e.scan.value }

  lemma SeenInGroups(entries: seq<Entry>, groups: seq<Group>, p: Path)
    requires Listing(entries) && Partition(Readable(entries), groups)
    ensures OnDisk(groups, p) <==> Seen(entries, p)
  {
    ReadableScans(entries);
    var folders := Readable(entries);
    if OnDisk(groups, p) {
      var g :| g in groups && p in g.files;
      var f :| f in folders && p in f.files;
      assert Entry(f.path, f.title, Some(f.files)) in entries;
    }
    if Seen(entries, p) {
      var e :| e in entries && e.scan.Some? && p in e.scan.value;
      assert Folder(e.path, e.title, e.scan.value) in folders;
    }
  }

  /** What the plan rests on: the tracked files, the groups on disk, the owners of folders and the stale files. */
  ghost predicate Plans(t: Tables, entries: seq<Entry>, series: bool, plan: seq<Candidate>, k: Knowledge, known: seq<Candidate>) {
    Listing(entries) && k.tables == t && k.groups == GroupsOf(Readable(entries), series) &&
    Known(k) && Planned(k, known) && plan == known + NewPlan(k.groups, k.owners) &&
    forall p :: p in t.files ==>
      (StaleRow(k, p) <==> !Seen(entries, p) && !(p.top.Some? && FailedFolder(entries, p.top.value)))
  }

  method MakePlan(t: Tables, entries: seq<Entry>, series: bool) returns (plan: seq<Candidate>)
    requires Listing(entries) && Consistent(t)
    ensures exists k, known :: Plans(t, entries, series, plan, k, known)
  {
    var folders, scanFailed := Scan(entries);
    var groups := GroupFolders(folders, series);
    var disk := DiskPaths(groups);
    var rows := ListMediaFiles(t.files);
    var stale := StalePaths(rows, t.files, disk, scanFailed);
    var drafts := PlanRemovals(stale);
    var owners := FolderOwners(rows, t.files);
    var cands, news := PlanAdditions(groups, owners, t.files.Keys, drafts);
    var orphans := FindOrphans(rows, stale, t.items);
    var marked := MarkOrphans(cands, orphans);
    var ordered := SortCandidates(marked);
    plan := ordered + news;
    ghost var k := Knowledge(t, groups, owners, stale);
    KnowledgeIsSound(entries, series, disk, scanFailed, k);
    PlanIsMade(k, rows, drafts, cands, orphans, marked, ordered);
    assert Plans(t, entries, series, plan, k, ordered);
  }

  lemma PlansMean(t: Tables, entries: seq<Entry>, series: bool, plan: seq<Candidate>, k: Knowledge, known: seq<Candidate>)
    requires Plans(t, entries, series, plan, k, known)
    ensures Listing(entries) && k.tables == t && k.groups == GroupsOf(Readable(entries), series)
    ensures Known(k) && Planned(k, known) && plan == known + NewPlan(k.groups, k.owners)
    ensures forall p :: p in t.files ==>
              (StaleRow(k, p) <==> !Seen(entries, p) && !(p.top.Some? && FailedFolder(entries, p.top.value)))
  {
  }

  lemma ScanPartitions(entries: seq<Entry>, series: bool)
    requires Listing(entries)
    ensures Partition(Readable(entries), GroupsOf(Readable(entries), series))
  {
    ReadableScans(entries);
    GroupingPartitions(Readable(entries), series);
  }

  lemma PartitionApart(folders: seq<Folder>, groups: seq<Group>)
    requires Partition(folders, groups)
    ensures forall i, j, p :: 0 <= i < j < |groups| && p in groups[i].files ==> p !in groups[j].files
    ensures forall g, p :: g in groups && p in g.files ==> p.top.Some? && p.top.value in g.folders
  {
    forall i, j, p | 0 <= i < j < |groups| && p in groups[i].files ensures p !in groups[j].files {
      assert groups[i] in groups && groups[j] in groups;
      var x := p.top.value;
      assert x in groups[i].folders && x !in groups[j].folders;
    }
  }

  lemma KnowledgeIsSound(entries: seq<Entry>, series: bool, disk: set<Path>, scanFailed: set<string>, k: Knowledge)
    requires Listing(entries) && Consistent(k.tables) && k.groups == GroupsOf(Readable(entries), series)
    requires forall x :: x in scanFailed <==> FailedFolder(entries, x)
    requires forall p :: p in disk <==> OnDisk(k.groups, p)
    requires forall p, i :: File(p, i) in k.stale <==> Stale(k.tables.files, disk, scanFailed, p) && k.tables.files[p] == i
    requires Owners(k.tables.files, k.owners)
    ensures Known(k)
    ensures forall p :: p in k.tables.files ==>
              (StaleRow(k, p) <==> !Seen(entries, p) && !(p.top.Some? && FailedFolder(entries, p.top.value)))
  {
    hide GroupsOf, Readable, Listing, Consistent, Owners, FailedFolder, Partition, Seen, OnDisk;
    ScanPartitions(entries, series);
    PartitionApart(Readable(entries), k.groups);
    forall r | r in k.stale ensures r.path in k.tables.files && k.tables.files[r.path] == r.item && !OnDisk(k.groups, r.path) {
      assert r == File(r.path, r.item);
    }
    forall p | p in k.tables.files
      ensures StaleRow(k, p) <==> !Seen(entries, p) && !(p.top.Some? && FailedFolder(entries, p.top.value))
    {
      SeenInGroups(entries, k.groups, p);
      assert p in disk <==> OnDisk(k.groups, p);
    }
  }

  /** The stages of the plan: removals, additions, orphans marked, candidates put in order. */
  ghost predicate Staged(k: Knowledge, drafts: map<nat, Candidate>, cands: map<nat, Candidate>, orphans: set<nat>,
      marked: map<nat, Candidate>, known: seq<Candidate>)
  {
    RemovalPlan(k.stale, drafts) && AdditionPlan(k.groups, k.owners, k.tables.files.Keys, drafts, cands) &&
    (forall i :: i in orphans <==> Orphaned(k, i)) &&
    marked.Keys == cands.Keys && (forall i :: i in cands ==> marked[i] == Marked(cands[i], i in orphans)) &&
    InOrder(marked, known)
  }

  lemma OrphanRows(k: Knowledge, rows: seq<File>, i: nat)
    requires Known(k) && Lists(rows, k.tables.files)
    ensures Orphan(rows, k.stale, k.tables.items, i) <==> Orphaned(k, i)
  {
    hide Known;
  }

  lemma CandidateIsForItem(k: Knowledge, drafts: map<nat, Candidate>, cands: map<nat, Candidate>, orphans: set<nat>,
      marked: map<nat, Candidate>, known: seq<Candidate>, i: nat)
    requires Staged(k, drafts, cands, orphans, marked, known) && i in marked && Busy(marked[i])
    ensures ForItem(k, i, marked[i])
  {
    assert Owed(k.groups, k.owners, k.tables.files.Keys, drafts, i, cands[i]);
    hide InOrder, AdditionPlan, Due, Orphaned;
    forall p ensures p in cands[i].remove <==> File(p, i) in k.stale {
      assert i in drafts || File(p, i) !in k.stale;
    }
  }

  lemma StaleHasCandidate(k: Knowledge, drafts: map<nat, Candidate>, cands: map<nat, Candidate>, orphans: set<nat>,
      marked: map<nat, Candidate>, known: seq<Candidate>, r: File)
    requires Staged(k, drafts, cands, orphans, marked, known) && r in k.stale
    ensures exists c :: c in known && c.item == Some(r.item)
  {
    hide Due, Orphaned;
    assert r.item in drafts && r.item in cands && Owed(k.groups, k.owners, k.tables.files.Keys, drafts, r.item, cands[r.item]);
    assert marked[r.item] in known;
  }

  lemma OwedHasCandidate(k: Knowledge, drafts: map<nat, Candidate>, cands: map<nat, Candidate>, orphans: set<nat>,
      marked: map<nat, Candidate>, known: seq<Candidate>, i: nat, p: Path)
    requires Staged(k, drafts, cands, orphans, marked, known) && Owing(k, i, p)
    ensures exists c :: c in known && c.item == Some(i)
  {
    hide Due, Orphaned, RemovalPlan;
    assert i in cands && Owed(k.groups, k.owners, k.tables.files.Keys, drafts, i, cands[i]);
    assert p in cands[i].add && marked[i] in known;
  }

  lemma PlanIsMade(k: Knowledge, rows: seq<File>, drafts: map<nat, Candidate>, cands: map<nat, Candidate>,
      orphans: set<nat>, marked: map<nat, Candidate>, known: seq<Candidate>)
    requires Known(k) && Lists(rows, k.tables.files) && RemovalPlan(k.stale, drafts)
    requires AdditionPlan(k.groups, k.owners, k.tables.files.Keys, drafts, cands)
    requires forall i :: i in orphans <==> Orphan(rows, k.stale, k.tables.items, i)
    requires marked.Keys == cands.Keys && forall i :: i in cands ==> marked[i] == Marked(cands[i], i in orphans)
    requires InOrder(marked, known)
    ensures Planned(k, known)
  {
    hide Known, Lists, Orphan, Orphaned, RemovalPlan, AdditionPlan, ForItem, Owing, Marked, Busy;
    forall i: nat ensures Orphan(rows, k.stale, k.tables.items, i) <==> Orphaned(k, i) { OrphanRows(k, rows, i); }
    assert Staged(k, drafts, cands, orphans, marked, known);
    hide Staged;
    forall i | i in marked && Busy(marked[i]) ensures ForItem(k, i, marked[i]) {
      CandidateIsForItem(k, drafts, cands, orphans, marked, known, i);
    }
    forall r | r in k.stale ensures exists c :: c in known && c.item == Some(r.item) {
      StaleHasCandidate(k, drafts, cands, orphans, marked, known, r);
    }
    forall i: nat, p | Owing(k, i, p) ensures exists c :: c in known && c.item == Some(i) {
      OwedHasCandidate(k, drafts, cands, orphans, marked, known, i, p);
    }
  }

  /** The tracked files after the sync, told from the scan alone. */
  lemma TrackedAfterSync(k: Knowledge, entries: seq<Entry>, series: bool, files: map<Path, nat>)
    requires Listing(entries) && k.groups == GroupsOf(Readable(entries), series) && FilesReconciled(k, files)
    requires forall p :: p in k.tables.files ==>
               (StaleRow(k, p) <==> !Seen(entries, p) && !(p.top.Some? && FailedFolder(entries, p.top.value)))
    ensures forall p :: p in files <==>
              Seen(entries, p) || (p in k.tables.files && p.top.Some? && FailedFolder(entries, p.top.value))
  {
    hide GroupsOf, Readable, Listing, FailedFolder, Partition, Seen, OnDisk, StaleRow;
    ScanPartitions(entries, series);
    forall p
      ensures p in files <==> Seen(entries, p) || (p in k.tables.files && p.top.Some? && FailedFolder(entries, p.top.value))
    {
      SeenInGroups(entries, k.groups, p);
    }
  }

  /** The item of the candidate is being deleted. */
  predicate Refused(t: Tables, c: Candidate) {
    c.item.Some? && c.item.value in t.items && t.items[c.item.value].deletionPending
  }

  /** The sync got through the candidates before j, with these tables and counts, and j is refused, or they are all. */
  ghost predicate StopsAt(t: Tables, plan: seq<Candidate>, j: nat, s: Summary) {
    j <= |plan| && (forall i :: 0 <= i < j ==> !Refused(t, plan[i])) && (j < |plan| ==> Refused(t, plan[j])) &&
    ApplyAll(t, plan[..j]) == Ok(s)
  }

  // ----- Items being deleted

  /** The sync changes nothing about the files of an item that is being deleted. */
  ghost predicate DeletionRespected(before: Tables, after: Tables) {
    forall i, p :: i in before.items && before.items[i].deletionPending ==>
      (p in after.files && after.files[p] == i <==> p in before.files && before.files[p] == i)
  }

  /** A tracked file of the item was neither seen nor below a folder that could not be read. */
  ghost predicate LosesFile(files: map<Path, nat>, entries: seq<Entry>, i: nat) {
    exists p :: p in files && files[p] == i && !Seen(entries, p) && !(p.top.Some? && FailedFolder(entries, p.top.value))
  }

  /** A new file was found in a show below whose first owning folder the item has a file. */
  ghost predicate GainsFile(files: map<Path, nat>, entries: seq<Entry>, series: bool, i: nat) {
    exists e, p, l: nat :: NewFile(files, entries, e, p) && Leads(files, entries, series, e, l) && ItemBelow(files, entries[l].path, i)
  }

  /** A plan that is applied to its end has no candidate for such an item. */
  lemma NothingForDeleted(k: Knowledge, known: seq<Candidate>, i: nat)
    requires Planned(k, known) && i in k.tables.items && k.tables.items[i].deletionPending
    requires forall c :: c in known ==> !Refused(k.tables, c)
    ensures forall r :: r in k.stale ==> r.item != i
    ensures forall p :: !Owing(k, i, p)
  {
    hide Owing, ForItem;
  }

  lemma DeletionIsRespected(k: Knowledge, known: seq<Candidate>, t: Tables)
    requires Known(k) && Planned(k, known) && (forall c :: c in known ==> !Refused(k.tables, c))
    requires FilesReconciled(k, t.files) && GroupsReconciled(k, t.files)
    ensures DeletionRespected(k.tables, t)
  {
    forall i, p | i in k.tables.items && k.tables.items[i].deletionPending
      ensures p in t.files && t.files[p] == i <==> p in k.tables.files && k.tables.files[p] == i
    {
      hide Planned, Owners, Home;
      NothingForDeleted(k, known, i);
      assert !Owing(k, i, p);
      if p in k.tables.files && k.tables.files[p] == i {
        assert !StaleRow(k, p);
      } else if p in t.files && p !in k.tables.files {
        var g :| g in k.groups && p in g.files;
      }
    }
  }

  /** A refused candidate has something to do for its item. */
  lemma RefusedHasWork(k: Knowledge, entries: seq<Entry>, series: bool, known: seq<Candidate>, c: Candidate)
    requires Listing(entries) && k.groups == GroupsOf(Readable(entries), series) && Known(k) && Planned(k, known)
    requires forall p :: p in k.tables.files ==>
               (StaleRow(k, p) <==> !Seen(entries, p) && !(p.top.Some? && FailedFolder(entries, p.top.value)))
    requires c in known && Refused(k.tables, c)
    ensures var i := c.item.value;
            LosesFile(k.tables.files, entries, i) || GainsFile(k.tables.files, entries, series, i)
  {
    var i := c.item.value;
    assert ForItem(k, i, c);
    hide Planned, GroupsOf, Readable, Listing, Seen, FailedFolder, Home, Leads, NewFile, ItemBelow;
    if c.remove != [] {
      var p := c.remove[0];
      assert p in c.remove && StaleRow(k, p);
    } else {
      var p := c.add[0];
      assert p in c.add && Owing(k, i, p);
      OwedIsGained(k, entries, series, i, p);
    }
  }

  lemma OwedIsGained(k: Knowledge, entries: seq<Entry>, series: bool, i: nat, p: Path)
    requires Listing(entries) && k.groups == GroupsOf(Readable(entries), series) && Known(k) && Owing(k, i, p)
    ensures GainsFile(k.tables.files, entries, series, i)
  {
    var g :| g in k.groups && Home(g.folders, k.owners) == Some(i) && p in g.files;
    assert OnDisk(k.groups, p);
    ScanPartitions(entries, series);
    SeenInGroups(entries, k.groups, p);
    hide GroupsOf, Readable, Listing, Home, Partition;
    var e :| e in entries && e.scan.Some? && p in e.scan.value;
    ShowGroupIsThere(entries, series, e);
    OneGroup(k, g, ShowGroup(entries, series, e), p);
    ShowHome(entries, series, e, k.owners);
    OwedToKnown(k, i, p);
    hide Known, Owing, ShowGroup;
    assert NewFile(k.tables.files, entries, e, p);
    var l := OwnerLeads(k.tables.files, entries, series, e, k.owners, i);
  }

  lemma OwnerLeads(files: map<Path, nat>, entries: seq<Entry>, series: bool, e: Entry, owners: map<string, nat>, i: nat) returns (l: nat)
    requires Owners(files, owners) && FirstOwner(entries, series, e, owners, Some(i))
    ensures Leads(files, entries, series, e, l) && ItemBelow(files, entries[l].path, i)
  {
    hide SameShow;
    l :| 0 <= l < |entries| && entries[l].scan.Some? && SameShow(series, e, entries[l]) &&
         entries[l].path in owners && owners[entries[l].path] == i &&
         forall m :: 0 <= m < l && entries[m].scan.Some? && SameShow(series, e, entries[m]) ==> entries[m].path !in owners;
    assert forall f :: f in entries && f.scan.Some? && SameShow(series, e, f) ==> (f.path in owners <==> Owning(files, series, e, f));
  }

  ghost predicate Reconciled(k: Knowledge, t: Tables) {
    GroupsReconciled(k, t.files) && ItemsReconciled(k, t.items) &&
    forall p :: p in t.files && p in k.tables.files ==> t.files[p] == k.tables.files[p]
  }

  lemma PlanReconciles(k: Knowledge, known: seq<Candidate>, s: Summary)
    requires Known(k) && Planned(k, known) && ApplyAll(k.tables, known + NewPlan(k.groups, k.owners)) == Ok(s)
    ensures FilesReconciled(k, s.tables.files) && Reconciled(k, s.tables)
    ensures NewItemsApart(k, s.tables.files) && ItemsSettled(k.tables, s.tables)
  {
    var plan := known + NewPlan(k.groups, k.owners);
    PlanIsSound(k, known);
    PlanApplies(k.tables, plan);
    hide NewPlan, PlanFits, ApplyAll, Planned, Owners, Where, Kept;
    FilesFollow(k, known, s.tables.files);
    GroupsFollow(k, known, s.tables.files);
    ItemsFollow(k, known, s.tables.items);
    NewItemsFollow(k, known, s.tables.files);
    ItemsSettle(k, known, s.tables);
    hide *;
  }

  /**
   Afterwards the tracked files are exactly those the scan saw and the old ones below folders that could not be read, and old
   files keep their item. The new files of a show (the folders of one title in a series library, else one folder) share an
   item: one with files below the first owning folder of the show, or a new one of its own. An item is deleted exactly when it
   had files, has none left, and is neither awaited nor monitored. The counts are those of the files that came and went. The
   sync stops early only at the first candidate whose item is being deleted; then exactly the candidates before it have been
   applied, and counted.
   */
  method SyncLibrary(store: Store, entries: seq<Entry>, series: bool)
    returns (added: nat, removed: nat, err: Option<SyncError>, ghost k: Knowledge, ghost plan: seq<Candidate>, ghost done: nat)
    requires Listing(entries) && Consistent(store.Snapshot())
    modifies store
    ensures exists known :: Plans(old(store.Snapshot()), entries, series, plan, k, known)
    ensures StopsAt(old(store.Snapshot()), plan, done, Summary(store.Snapshot(), added, removed))
    ensures err == if done == |plan| then None else Some(ErrDeletionPending)
    ensures Consistent(store.Snapshot()) && |store.files.Keys| + removed == |old(store.files).Keys| + added
    ensures added == |store.files.Keys - old(store.files).Keys| && removed == |old(store.files).Keys - store.files.Keys|
    ensures err.None? ==> Reconciled(k, store.Snapshot())
    ensures err.None? ==> forall p :: p in store.files <==>
              Seen(entries, p) || (p in old(store.files) && p.top.Some? && FailedFolder(entries, p.top.value))
    ensures err.None? ==> forall p :: p in store.files && p in old(store.files) ==> store.files[p] == old(store.files)[p]
    ensures err.None? ==> NewFilesPlaced(old(store.Snapshot()), entries, series, store.files)
    ensures err.None? ==> ShowsShareItems(old(store.Snapshot()), entries, series, store.files)
    ensures err.None? ==> ItemsSettled(old(store.Snapshot()), store.Snapshot())
    ensures err.None? ==> DeletionRespected(old(store.Snapshot()), store.Snapshot())
    ensures err.Some? ==> exists i ::
              i in old(store.items) && old(store.items)[i].deletionPending &&
              (LosesFile(old(store.files), entries, i) || GainsFile(old(store.files), entries, series, i))
  {
    hide *;
    SnapshotIs(store);
    ghost var t := Tables(store.files, store.items, store.nextItem);
    var planned := MakePlan(Tables(store.files, store.items, store.nextItem), entries, series);
    plan := planned;
    ghost var known;
    k, known :| Plans(t, entries, series, plan, k, known);
    PlansMean(t, entries, series, plan, k, known);
    PlanIsSound(k, known);
    added, removed, err, done := ApplyPlan(store, planned);
    SnapshotIs(store);
    StopMeans(t, plan, done, Summary(store.Snapshot(), added, removed));
    SyncOutcome(t, entries, series, plan, k, known, done, Summary(store.Snapshot(), added, removed));
  }

  lemma SyncOutcome(t: Tables, entries: seq<Entry>, series: bool, plan: seq<Candidate>, k: Knowledge, known: seq<Candidate>,
      done: nat, s: Summary)
    requires Consistent(t) && Plans(t, entries, series, plan, k, known) && StopsAt(t, plan, done, s)
    ensures done == |plan| ==>
              Reconciled(k, s.tables) && ItemsSettled(t, s.tables) && DeletionRespected(t, s.tables) &&
              NewFilesPlaced(t, entries, series, s.tables.files) && ShowsShareItems(t, entries, series, s.tables.files) &&
              (forall p :: p in s.tables.files <==>
                 Seen(entries, p) || (p in t.files && p.top.Some? && FailedFolder(entries, p.top.value))) &&
              forall p :: p in s.tables.files && p in t.files ==> s.tables.files[p] == t.files[p]
    ensures done != |plan| ==> exists i ::
              i in t.items && t.items[i].deletionPending && (LosesFile(t.files, entries, i) || GainsFile(t.files, entries, series, i))
  {
    if done == |plan| {
      CompletedSync(t, entries, series, plan, k, known, s);
    } else {
      StopRefuses(t, plan, done, s);
      StoppedSync(t, entries, series, plan, k, known, plan[done]);
    }
    hide *;
  }

  /** A plan applied to its end. */
  lemma CompletedSync(t: Tables, entries: seq<Entry>, series: bool, plan: seq<Candidate>, k: Knowledge, known: seq<Candidate>, s: Summary)
    requires Consistent(t) && Plans(t, entries, series, plan, k, known) && StopsAt(t, plan, |plan|, s)
    ensures Reconciled(k, s.tables) && ItemsSettled(t, s.tables) && DeletionRespected(t, s.tables)
    ensures NewFilesPlaced(t, entries, series, s.tables.files) && ShowsShareItems(t, entries, series, s.tables.files)
    ensures forall p :: p in s.tables.files <==>
              Seen(entries, p) || (p in t.files && p.top.Some? && FailedFolder(entries, p.top.value))
    ensures forall p :: p in s.tables.files && p in t.files ==> s.tables.files[p] == t.files[p]
  {
    PlansMean(t, entries, series, plan, k, known);
    NobodyRefused(t, plan, known, s);
    KnownOwners(k);
    hide *;
    PlanIsSound(k, known);
    StopMeans(t, plan, |plan|, s);
    PlanReconciles(k, known, s);
    ReconciledMeans(k, s.tables);
    TrackedAfterSync(k, entries, series, s.tables.files);
    NewFilesFollow(k, entries, series, s.tables.files);
    ShowsFollow(k, entries, series, s.tables.files);
    DeletionIsRespected(k, known, s.tables);
  }

  lemma KnownOwners(k: Knowledge)
    ensures Known(k) ==> Owners(k.tables.files, k.owners)
  {
  }

  lemma ReconciledMeans(k: Knowledge, t: Tables)
    requires Reconciled(k, t)
    ensures GroupsReconciled(k, t.files) && forall p :: p in t.files && p in k.tables.files ==> t.files[p] == k.tables.files[p]
  {
  }

  lemma NobodyRefused(t: Tables, plan: seq<Candidate>, known: seq<Candidate>, s: Summary)
    requires StopsAt(t, plan, |plan|, s) && known <= plan
    ensures forall c :: c in known ==> !Refused(t, c)
  {
    hide Refused, ApplyAll;
  }

  lemma StopRefuses(t: Tables, plan: seq<Candidate>, j: nat, s: Summary)
    requires StopsAt(t, plan, j, s) && j != |plan|
    ensures j < |plan| && plan[j] in plan && Refused(t, plan[j])
  {
    hide ApplyAll;
  }

  /** A sync that stops early has found something to do for an item that is being deleted. */
  lemma StoppedSync(t: Tables, entries: seq<Entry>, series: bool, plan: seq<Candidate>, k: Knowledge, known: seq<Candidate>, c: Candidate)
    requires Plans(t, entries, series, plan, k, known) && c in plan && Refused(t, c)
    ensures c.item.Some? && c.item.value in t.items && t.items[c.item.value].deletionPending
    ensures LosesFile(t.files, entries, c.item.value) || GainsFile(t.files, entries, series, c.item.value)
  {
    PlansMean(t, entries, series, plan, k, known);
    NewCandidates(k.groups, k.owners);
    hide Plans, NewPlan, LosesFile, GainsFile, StaleRow, Seen, FailedFolder, Known, Planned, GroupsOf, Readable, Listing;
    assert c in known;
    RefusedHasWork(k, entries, series, known, c);
  }

  method ApplyPlan(store: Store, plan: seq<Candidate>)
    returns (added: nat, removed: nat, err: Option<SyncError>, ghost done: nat)
    requires Consistent(store.Snapshot()) && PlanFits(store.Snapshot(), plan)
    modifies store
    ensures StopsAt(old(store.Snapshot()), plan, done, Summary(store.Snapshot(), added, removed))
    ensures err == if done == |plan| then None else Some(ErrDeletionPending)
  {
    ghost var t0 := store.Snapshot();
    added, removed, err, done := 0, 0, None, |plan|;
    NothingApplied(t0, plan);
    hide *;
    ghost var s := Summary(t0, 0, 0);
    for j := 0 to |plan|
      invariant ApplyAll(t0, plan[..j]).Ok? && s == ApplyAll(t0, plan[..j]).value
      invariant s.tables == store.Snapshot() && s.added == added && s.removed == removed
      invariant forall i :: 0 <= i < j ==> !Refused(t0, plan[i])
    {
      PlanStep(t0, plan, j, s);
      var applied := store.ApplyCandidate(plan[j]);
      if applied.Err? {
        Stops(t0, plan, j, s);
        err, done := Some(applied.error), j;
        return;
      }
      added, removed := added + applied.value.added, removed + applied.value.removed;
      s := ApplyAll(t0, plan[..j + 1]).value;
    }
    Stops(t0, plan, |plan|, s);
  }

  lemma NothingApplied(t: Tables, plan: seq<Candidate>)
    ensures ApplyAll(t, plan[..0]) == Ok(Summary(t, 0, 0))
  {
    assert plan[..0] == [];
  }

  lemma Stops(t: Tables, plan: seq<Candidate>, j: nat, s: Summary)
    requires j <= |plan| && (forall i :: 0 <= i < j ==> !Refused(t, plan[i])) && (j < |plan| ==> Refused(t, plan[j]))
    requires ApplyAll(t, plan[..j]).Ok? && s == ApplyAll(t, plan[..j]).value
    ensures StopsAt(t, plan, j, s)
  {
    hide ApplyAll, Refused;
  }

  lemma StopMeans(t: Tables, plan: seq<Candidate>, j: nat, s: Summary)
    requires Consistent(t) && PlanFits(t, plan) && StopsAt(t, plan, j, s)
    ensures Consistent(s.tables) && |s.tables.files.Keys| + s.removed == |t.files.Keys| + s.added
    ensures s.added == |s.tables.files.Keys - t.files.Keys| && s.removed == |t.files.Keys - s.tables.files.Keys|
    ensures j == |plan| ==> ApplyAll(t, plan) == Ok(s)
  {
    hide Consistent, PlanFits, Where, Kept, Refused;
    PlanPrefixFits(t, plan, j);
    PlanApplies(t, plan[..j]);
    PlanCounts(t, plan[..j]);
    assert plan[..|plan|] == plan;
  }

  lemma SnapshotIs(store: Store)
    ensures store.Snapshot() == Tables(store.files, store.items, store.nextItem)
  {
  }

  /** One more candidate of a sound plan is applied, unless it is refused. */
  lemma PlanStep(t0: Tables, plan: seq<Candidate>, j: nat, s: Summary)
    requires Consistent(t0) && PlanFits(t0, plan) && j < |plan| && ApplyAll(t0, plan[..j]).Ok?
    requires s == ApplyAll(t0, plan[..j]).value
    ensures Consistent(s.tables)
    ensures var r := Apply(s.tables, plan[j]);
            if Refused(t0, plan[j]) then r == Err(ErrDeletionPending)
            else
              r.Ok? && ApplyAll(t0, plan[..j + 1]) ==
                Ok(Summary(r.value.tables, s.added + r.value.added, s.removed + r.value.removed))
  {
    hide Apply, Consistent, PlanFits, Where, Kept, Fits;
    PlanPrefixFits(t0, plan, j);
    PlanPrefixFits(t0, plan, j + 1);
    PlanApplies(t0, plan[..j]);
    assert plan[..j + 1][..j] == plan[..j];
    CandidateApplies(t0, plan[..j + 1], s);
  }

  lemma PlanPrefixFits(t0: Tables, plan: seq<Candidate>, j: nat)
    requires PlanFits(t0, plan) && j <= |plan|
    ensures PlanFits(t0, plan[..j])
  {
    hide Fits;
    assert forall c :: c in plan[..j] ==> c in plan;
  }
}
