/**
 Grouping the top-level folders of a library into media items (groupFolders in backend/internal/sync/service.go). The season
 folders of one series share their base title; a movie library has one group per folder.
 */
module LibraryFolders {
  import opened Wrappers

  /** A path with the top-level folder of the library it lies under, if it lies under the library at all. */
  datatype Path = Path(top: Option<string>, name: string)

  datatype Folder = Folder(path: string, title: string, files: seq<Path>)

  datatype Group = Group(folders: seq<string>, files: seq<Path>)

  function PathsOf(folders: seq<Folder>, title: string): seq<string> {
    if folders == [] then []
    else
      var last := folders[|folders| - 1];
      PathsOf(folders[..|folders| - 1], title) + if last.title == title then [last.path] else []
  }

  function FilesOf(folders: seq<Folder>, title: string): seq<Path> {
    if folders == [] then []
    else
      var last := folders[|folders| - 1];
      FilesOf(folders[..|folders| - 1], title) + if last.title == title then last.files else []
  }

  /** The titles in the order in which they first appear. */
  function Titles(folders: seq<Folder>): seq<string> {
    if folders == [] then []
    else
      var last, before := folders[|folders| - 1], Titles(folders[..|folders| - 1]);
      if last.title in before then before else before + [last.title]
  }

  function GroupsOf(folders: seq<Folder>, series: bool): seq<Group> {
    if series then
      var titles := Titles(folders);
      seq(|titles|, k requires 0 <= k < |titles| => Group(PathsOf(folders, titles[k]), FilesOf(folders, titles[k])))
    else
      seq(|folders|, k requires 0 <= k < |folders| => Group([folders[k].path], folders[k].files))
  }

  /** Series share a group when they share a title; otherwise every folder has a group of its own. */
  method GroupFolders(folders: seq<Folder>, series: bool) returns (groups: seq<Group>)
    ensures groups == GroupsOf(folders, series)
    ensures Scanned(folders) ==> Partition(folders, groups)
    ensures Scanned(folders) ==>
              forall f, g :: f in folders && g in folders ==>
                (Together(groups, f.path, g.path) <==> if series then f.title == g.title else f == g)
  {
    GroupingIsRight(folders, series);
    hide Scanned, Partition, Together;
    if series {
      groups := GroupByTitle(folders);
      return;
    }
    groups := [];
    for i := 0 to |folders|
      invariant groups == GroupsOf(folders, false)[..i]
    {
      groups := groups + [Group([folders[i].path], folders[i].files)];
    }
  }

  method GroupByTitle(folders: seq<Folder>) returns (groups: seq<Group>)
    ensures groups == GroupsOf(folders, true)
  {
    var groupMap: map<string, Group>, groupOrder: seq<string> := map[], [];
    assert Titles(folders[..0]) == [];
    hide PathsOf, FilesOf, Titles;
    for i := 0 to |folders|
      invariant groupOrder == Titles(folders[..i])
      invariant forall t :: t in groupMap <==> t in groupOrder
      invariant forall t :: t in groupMap ==> groupMap[t] == Group(PathsOf(folders[..i], t), FilesOf(folders[..i], t))
    {
      var f := folders[i];
      OneMore(folders, i);
      if f.title in groupMap {
        var g := groupMap[f.title];
        groupMap := groupMap[f.title := Group(g.folders + [f.path], g.files + f.files)];
      } else {
        NoneOf(folders[..i], f.title);
        groupMap := groupMap[f.title := Group([f.path], f.files)];
        groupOrder := groupOrder + [f.title];
      }
    }
    assert folders[..|folders|] == folders;
    groups := [];
    for i := 0 to |groupOrder|
      invariant groups == GroupsOf(folders, true)[..i]
    {
      groups := groups + [groupMap[groupOrder[i]]];
    }
  }

  lemma OneMore(folders: seq<Folder>, i: nat)
    requires i < |folders|
    ensures forall t :: PathsOf(folders[..i + 1], t) == PathsOf(folders[..i], t) + if folders[i].title == t then [folders[i].path] else []
    ensures forall t :: FilesOf(folders[..i + 1], t) == FilesOf(folders[..i], t) + if folders[i].title == t then folders[i].files else []
    ensures Titles(folders[..i + 1]) == Titles(folders[..i]) + if folders[i].title in Titles(folders[..i]) then [] else [folders[i].title]
  {
    assert folders[..i + 1][..i] == folders[..i];
  }

  lemma {:induction false} NoneOf(folders: seq<Folder>, title: string)
    requires title !in Titles(folders)
    ensures PathsOf(folders, title) == [] && FilesOf(folders, title) == []
  {
    if folders != [] { NoneOf(folders[..|folders| - 1], title); }
  }

  lemma {:induction false} GroupMembers(folders: seq<Folder>, title: string)
    ensures forall p :: p in FilesOf(folders, title) <==> exists f :: f in folders && f.title == title && p in f.files
    ensures forall x :: x in PathsOf(folders, title) <==> exists f :: f in folders && f.title == title && f.path == x
    ensures title in Titles(folders) <==> exists f :: f in folders && f.title == title
    ensures forall i, j :: 0 <= i < j < |Titles(folders)| ==> Titles(folders)[i] != Titles(folders)[j]
  {
    if folders != [] {
      GroupMembers(folders[..|folders| - 1], title);
      assert folders == folders[..|folders| - 1] + [folders[|folders| - 1]];
    }
  }

  /** What a scan yields: folders with different paths, and files below the folder they were found in. */
  predicate Scanned(folders: seq<Folder>) {
    (forall f, g :: f in folders && g in folders && f.path == g.path ==> f == g) &&
    (forall i, j :: 0 <= i < j < |folders| ==> folders[i].path != folders[j].path) &&
    forall f, p :: f in folders && p in f.files ==> p.top == Some(f.path)
  }

  /** Every file of the scan lands in a group, with its own folder, and no folder is in two groups. */
  predicate Partition(folders: seq<Folder>, groups: seq<Group>) {
    (forall f :: f in folders ==> exists g :: g in groups && f.path in g.folders && forall p :: p in f.files ==> p in g.files) &&
    (forall g, p :: g in groups && p in g.files ==>
       p.top.Some? && p.top.value in g.folders && exists f :: f in folders && p in f.files) &&
    forall i, j, x :: 0 <= i < j < |groups| && x in groups[i].folders ==> x !in groups[j].folders
  }

  /** Some group lists both folders. */
  ghost predicate Together(groups: seq<Group>, x: string, y: string) {
    exists h :: h in groups && x in h.folders && y in h.folders
  }

  /** Two folders of a series share a group exactly when they share a title; in a movie library no two folders do. */
  lemma GroupsByTitle(folders: seq<Folder>, series: bool, f: Folder, g: Folder)
    requires Scanned(folders) && f in folders && g in folders
    ensures Together(GroupsOf(folders, series), f.path, g.path) <==> if series then f.title == g.title else f == g
  {
    var groups := GroupsOf(folders, series);
    if series {
      SeriesByTitle(folders, f, g);
    } else {
      var k :| 0 <= k < |folders| && folders[k] == f;
      assert groups[k] in groups && groups[k].folders == [f.path];
    }
  }

  lemma GroupingIsRight(folders: seq<Folder>, series: bool)
    ensures Scanned(folders) ==> Partition(folders, GroupsOf(folders, series))
    ensures Scanned(folders) ==>
              forall f, g :: f in folders && g in folders ==>
                (Together(GroupsOf(folders, series), f.path, g.path) <==> if series then f.title == g.title else f == g)
  {
    if Scanned(folders) {
      GroupingPartitions(folders, series);
      forall f, g | f in folders && g in folders
        ensures Together(GroupsOf(folders, series), f.path, g.path) <==> if series then f.title == g.title else f == g
      {
        GroupsByTitle(folders, series, f, g);
      }
    }
    hide GroupsOf, Partition, Together;
  }

  lemma SeriesByTitle(folders: seq<Folder>, f: Folder, g: Folder)
    requires Scanned(folders) && f in folders && g in folders
    ensures Together(GroupsOf(folders, true), f.path, g.path) <==> f.title == g.title
  {
    hide PathsOf, FilesOf, Titles;
    var titles, groups := Titles(folders), GroupsOf(folders, true);
    GroupMembers(folders, f.title);
    var k :| 0 <= k < |titles| && titles[k] == f.title;
    assert groups[k] in groups && f.path in groups[k].folders;
    if h :| h in groups && f.path in h.folders && g.path in h.folders {
      var l :| 0 <= l < |groups| && groups[l] == h;
      GroupMembers(folders, titles[l]);
      OneTitle(folders, f.title, titles[l], f.path);
    }
  }

  lemma GroupingPartitions(folders: seq<Folder>, series: bool)
    requires Scanned(folders)
    ensures Partition(folders, GroupsOf(folders, series))
  {
    var groups := GroupsOf(folders, series);
    if series {
      SeriesPartition(folders);
    } else {
      forall f | f in folders
        ensures exists g :: g in groups && f.path in g.folders && forall p :: p in f.files ==> p in g.files
      {
        var k :| 0 <= k < |folders| && folders[k] == f;
        assert groups[k] in groups;
      }
    }
  }

  lemma SeriesPartition(folders: seq<Folder>)
    requires Scanned(folders)
    ensures Partition(folders, GroupsOf(folders, true))
  {
    hide PathsOf, FilesOf, Titles;
    var titles, groups := Titles(folders), GroupsOf(folders, true);
    forall f | f in folders
      ensures exists g :: g in groups && f.path in g.folders && forall p :: p in f.files ==> p in g.files
    {
      GroupMembers(folders, f.title);
      var k :| 0 <= k < |titles| && titles[k] == f.title;
      assert groups[k] in groups;
    }
    forall g, p | g in groups && p in g.files
      ensures p.top.Some? && p.top.value in g.folders && exists f :: f in folders && p in f.files
    {
      var k :| 0 <= k < |titles| && groups[k] == g;
      GroupMembers(folders, titles[k]);
    }
    forall i, j, x | 0 <= i < j < |groups| && x in groups[i].folders ensures x !in groups[j].folders {
      GroupMembers(folders, titles[i]);
      if x in groups[j].folders { OneTitle(folders, titles[i], titles[j], x); }
    }
  }

  /** A folder has one title. */
  lemma OneTitle(folders: seq<Folder>, t: string, u: string, x: string)
    requires Scanned(folders) && x in PathsOf(folders, t) && x in PathsOf(folders, u)
    ensures t == u
  {
    GroupMembers(folders, t);
    GroupMembers(folders, u);
    hide PathsOf, FilesOf, Titles;
    var f :| f in folders && f.title == t && f.path == x;
    var g :| g in folders && g.title == u && g.path == x;
    assert f == g;
  }
}
