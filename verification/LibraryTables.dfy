/** The transactions of a library sync (applyLibrarySyncCandidate in backend/internal/sync/service.go). */
module LibraryTables {
  import opened Wrappers
  import opened LibraryFolders

  // What one candidate and a whole plan of them do to the tables. The table of tracked files maps each path to its
  // item; the store keeps paths unique.

  /** `awaited`: the source is "request", or the status is "requested" or "pending". */
  datatype Item = Item(awaited: bool, monitored: bool, deletionPending: bool)

  /** `item` is None for an item yet to be created. */
  datatype Candidate = Candidate(item: Option<nat>, add: seq<Path>, remove: seq<Path>, deleteIfEmpty: bool)

  datatype SyncError = ErrDeletionPending | ErrNotFound | ErrUnique

  // ----- Applying one candidate

  datatype Tables = Tables(files: map<Path, nat>, items: map<nat, Item>, next: nat)

  datatype Outcome = Outcome(tables: Tables, item: nat, added: nat, removed: nat, deleted: bool)

  function Elements(paths: seq<Path>): set<Path> { set p | p in paths }

  function Missing(paths: seq<Path>, mine: set<Path>): set<Path> { set p | p in paths && p !in mine }

  function PathsOfItem(files: map<Path, nat>, id: nat): set<Path> { set p | p in files && files[p] == id }

  predicate Untracked(files: map<Path, nat>, paths: set<Path>) { forall p :: p in paths ==> p !in files }

  function Added(files: map<Path, nat>, extra: set<Path>, id: nat): map<Path, nat> { files + map p | p in extra :: id }

  /** A new item comes from disk with status "new". */
  function Target(t: Tables, c: Candidate): (nat, map<nat, Item>) {
    if c.item.Some? then (c.item.value, t.items) else (t.next, t.items[t.next := Item(false, false, false)])
  }

  /** The transaction of one candidate; an error rolls it back. */
  function Apply(t: Tables, c: Candidate): Result<Outcome, SyncError> {
    var (id, items) := Target(t, c);
    if id !in items then Err(ErrNotFound)
    else if items[id].deletionPending then Err(ErrDeletionPending)
    else
      var mine := PathsOfItem(t.files, id);
      var extra := Missing(c.add, mine);
      if Untracked(t.files, extra) then
        var gone := Elements(c.remove) * (mine + extra);
        var deleted := extra + gone != {} && c.deleteIfEmpty && mine + extra - gone == {} &&
                       !items[id].awaited && !items[id].monitored;
        Ok(Outcome(
             Tables(Added(t.files, extra, id) - gone, if deleted then items - {id} else items, if c.item.Some? then t.next else t.next + 1),
             id, |extra|, |gone|, deleted))
      else Err(ErrUnique)
  }

  class Store {
    var files: map<Path, nat>
    var items: map<nat, Item>
    var nextItem: nat

    ghost function Snapshot(): Tables
      reads this
    {
      Tables(files, items, nextItem)
    }

    constructor (t: Tables)
      ensures Snapshot() == t
    {
      files, items, nextItem := t.files, t.items, t.next;
    }

    method ListFilesOf(id: nat) returns (paths: set<Path>)
      ensures paths == PathsOfItem(files, id)
    {
      paths := {};
      var rest := files.Keys;
      while rest != {}
        invariant rest <= files.Keys && paths == PathsOfItem(files, id) - rest
        decreases rest
      {
        var p := Pick(rest);
        if files[p] == id { paths := paths + {p}; }
        rest := rest - {p};
      }
    }

    /** Creates the rows the item does not have yet; a path tracked by another item violates uniqueness. */
    static method AddFiles(files: map<Path, nat>, mine: set<Path>, id: nat, add: seq<Path>)
      returns (ok: bool, txFiles: map<Path, nat>, added: nat)
      ensures ok <==> Untracked(files, Missing(add, mine))
      ensures ok ==> txFiles == Added(files, Missing(add, mine), id) && added == |Missing(add, mine)|
    {
      hide Missing, Added, Current, Untracked;
      txFiles, added := files, 0;
      var current := mine;
      AddNone(files, add, mine, id);
      for k := 0 to |add|
        invariant Untracked(files, Missing(add[..k], mine))
        invariant current == Current(add[..k], mine) && added == |Missing(add[..k], mine)|
        invariant txFiles == Added(files, Missing(add[..k], mine), id)
      {
        var path := add[k];
        AddOne(files, add, k, mine, id);
        if path !in current {
          if path in txFiles {
            return false, txFiles, added;
          }
          txFiles, current, added := txFiles[path := id], current + {path}, added + 1;
        }
      }
      assert add[..|add|] == add;
      ok := true;
    }

    /** The paths that are really there; each is counted once. */
    static method ActualRemovals(before: set<Path>, remove: seq<Path>) returns (actual: set<Path>, removed: nat)
      ensures actual == Elements(remove) * before && removed == |actual|
    {
      actual, removed := {}, 0;
      var current := before;
      for k := 0 to |remove|
        invariant actual == Elements(remove[..k]) * before && current == before - actual && removed == |actual|
      {
        assert Elements(remove[..k + 1]) == Elements(remove[..k]) + {remove[k]};
        var path := remove[k];
        if path in current {
          actual, current, removed := actual + {path}, current - {path}, removed + 1;
        }
      }
      assert remove[..|remove|] == remove;
    }

    /** The transaction works on copies of the tables and publishes them when it commits. */
    method ApplyCandidate(c: Candidate) returns (r: Result<Outcome, SyncError>)
      modifies this
      ensures r == Apply(old(Snapshot()), c)
      ensures Snapshot() == if r.Ok? then r.value.tables else old(Snapshot())
    {
      hide Added, PathsOfItem, Missing, Elements;
      var id, txItems, txNext := nextItem, items, nextItem;
      if c.item.None? {
        txItems, txNext := txItems[id := Item(false, false, false)], nextItem + 1;
      } else {
        id := c.item.value;
        if id !in txItems { return Err(ErrNotFound); }
        if txItems[id].deletionPending { return Err(ErrDeletionPending); }
      }
      var mine := ListFilesOf(id);
      var ok, txFiles, added := AddFiles(files, mine, id, c.add);
      if !ok { return Err(ErrUnique); }
      ghost var extra := Missing(c.add, mine);
      var current := mine + (set p | p in c.add);
      assert current == mine + extra by { MissingOf(c.add, mine); }
      var actual, removed := ActualRemovals(current, c.remove);
      txFiles, current := txFiles - actual, current - actual;
      var deleted := (added != 0 || removed != 0) && c.deleteIfEmpty && current == {} &&
                     !txItems[id].awaited && !txItems[id].monitored;
      assert (added != 0 || removed != 0) <==> extra + actual != {};
      if deleted { txItems := txItems - {id}; }
      files, items, nextItem := txFiles, txItems, txNext;
      r := Ok(Outcome(Tables(txFiles, txItems, txNext), id, added, removed, deleted));
    }
  }

  lemma MissingOf(paths: seq<Path>, mine: set<Path>)
    ensures mine + (set p | p in paths) == mine + Missing(paths, mine)
  {
  }

  ghost function Current(paths: seq<Path>, mine: set<Path>): set<Path> { mine + Missing(paths, mine) }

  lemma AddNone(files: map<Path, nat>, add: seq<Path>, mine: set<Path>, id: nat)
    ensures Missing(add[..0], mine) == {} && Current(add[..0], mine) == mine
    ensures Added(files, {}, id) == files && Untracked(files, {})
  {
  }

  lemma MissingStep(add: seq<Path>, k: nat, mine: set<Path>)
    requires k < |add|
    ensures add[k] in mine || add[k] in Missing(add[..k], mine) ==> Missing(add[..k + 1], mine) == Missing(add[..k], mine)
    ensures add[k] !in mine ==>
              add[k] in Missing(add, mine) && Missing(add[..k + 1], mine) == Missing(add[..k], mine) + {add[k]}
  {
    assert add[..k + 1] == add[..k] + [add[k]];
  }

  lemma AddedStep(files: map<Path, nat>, extra: set<Path>, path: Path, id: nat)
    requires Untracked(files, extra)
    ensures Added(files, extra + {path}, id) == Added(files, extra, id)[path := id]
    ensures path !in extra ==> if path in Added(files, extra, id) then path in files else Untracked(files, extra + {path})
  {
  }

  lemma AddOne(files: map<Path, nat>, add: seq<Path>, k: nat, mine: set<Path>, id: nat)
    requires k < |add| && Untracked(files, Missing(add[..k], mine))
    ensures add[k] in Current(add[..k], mine) ==>
              Missing(add[..k + 1], mine) == Missing(add[..k], mine) && Current(add[..k + 1], mine) == Current(add[..k], mine)
    ensures add[k] !in Current(add[..k], mine) ==>
              |Missing(add[..k + 1], mine)| == |Missing(add[..k], mine)| + 1 &&
              Current(add[..k + 1], mine) == Current(add[..k], mine) + {add[k]} &&
              Added(files, Missing(add[..k + 1], mine), id) == Added(files, Missing(add[..k], mine), id)[add[k] := id] &&
              if add[k] in Added(files, Missing(add[..k], mine), id) then !Untracked(files, Missing(add, mine))
              else Untracked(files, Missing(add[..k + 1], mine))
  {
    MissingStep(add, k, mine);
    AddedStep(files, Missing(add[..k], mine), add[k], id);
    hide Missing, Added;
  }

  // ----- Applying a whole plan

  datatype Summary = Summary(tables: Tables, added: nat, removed: nat)

  function ApplyAll(t: Tables, plan: seq<Candidate>): Result<Summary, SyncError> {
    if plan == [] then Ok(Summary(t, 0, 0))
    else
      var before := ApplyAll(t, plan[..|plan| - 1]);
      if before.Err? then before
      else
        var last := Apply(before.value.tables, plan[|plan| - 1]);
        if last.Err? then Err(last.error)
        else Ok(Summary(last.value.tables, before.value.added + last.value.added, before.value.removed + last.value.removed))
  }

  // ----- What a sound plan does

  ghost predicate Consistent(t: Tables) {
    (forall p :: p in t.files ==> t.files[p] in t.items) && forall i :: i in t.items ==> i < t.next
  }

  /** The candidate removes only files of its item and adds only untracked ones. */
  ghost predicate Fits(t: Tables, c: Candidate) {
    (c.item.Some? ==> c.item.value in t.items && Elements(c.remove) <= PathsOfItem(t.files, c.item.value)) &&
    (c.item.None? ==> c.remove == []) &&
    forall p :: p in c.add ==> p !in t.files
  }

  /** One candidate per item, and no file added twice. */
  ghost predicate PlanFits(t: Tables, plan: seq<Candidate>) {
    (forall c :: c in plan ==> Fits(t, c)) &&
    (forall i, j :: 0 <= i < j < |plan| && plan[i].item.Some? ==> plan[i].item != plan[j].item) &&
    forall i, j, p :: 0 <= i < j < |plan| && p in plan[i].add ==> p !in plan[j].add
  }

  ghost predicate Deletes(t: Tables, c: Candidate)
    requires c.item.Some? ==> c.item.value in t.items
  {
    c.item.Some? && c.deleteIfEmpty && c.add == [] && c.remove != [] &&
    PathsOfItem(t.files, c.item.value) <= Elements(c.remove) &&
    !t.items[c.item.value].awaited && !t.items[c.item.value].monitored
  }

  lemma ApplyEffect(t: Tables, c: Candidate)
    requires Consistent(t) && Fits(t, c)
    ensures Apply(t, c).Ok? <==> (c.item.Some? ==> !t.items[c.item.value].deletionPending)
    ensures Apply(t, c).Err? ==> Apply(t, c).error == ErrDeletionPending
    ensures Apply(t, c).Ok? ==>
              var o := Apply(t, c).value;
              o.item == (if c.item.Some? then c.item.value else t.next) &&
              o.tables.files == Added(t.files, Elements(c.add), o.item) - Elements(c.remove) &&
              o.tables.items == Target(t, c).1 - (if Deletes(t, c) then {o.item} else {}) &&
              o.tables.next == (if c.item.Some? then t.next else t.next + 1) &&
              (o.deleted <==> Deletes(t, c)) &&
              o.added == |Elements(c.add)| && o.removed == |Elements(c.remove)| &&
              |o.tables.files.Keys| == |t.files.Keys| + o.added - o.removed
  {
    hide Apply, Added, Elements, Deletes, Consistent, Fits, Target;
    FitTarget(t, c);
    FitApply(t, c);
    FitSizes(t, c, Target(t, c).0);
  }

  /** A fitting candidate's intersections and membership tests come down to its own lists. */
  lemma FitApply(t: Tables, c: Candidate)
    requires Consistent(t) && Fits(t, c)
    ensures var (id, items) := Target(t, c);
            id in items && (c.item.Some? ==> c.item.value in t.items) &&
            Apply(t, c) ==
              if items[id].deletionPending then Err(ErrDeletionPending)
              else
                Ok(Outcome(
                     Tables(Added(t.files, Elements(c.add), id) - Elements(c.remove),
                            if Deletes(t, c) then items - {id} else items, if c.item.Some? then t.next else t.next + 1),
                     id, |Elements(c.add)|, |Elements(c.remove)|, Deletes(t, c)))
  {
    hide Added, Elements, PathsOfItem, Missing, Untracked, Deletes, Consistent, Fits, Target;
    var id := Target(t, c).0;
    FitTarget(t, c);
    FitFacts(t, c, id);
    FitDeletes(t, c, id);
  }

  lemma FitTarget(t: Tables, c: Candidate)
    requires Consistent(t) && Fits(t, c)
    ensures Target(t, c).0 == (if c.item.Some? then c.item.value else t.next) && Target(t, c).0 in Target(t, c).1
    ensures c.item.Some? ==> c.item.value in t.items
    ensures Target(t, c).1[Target(t, c).0].deletionPending <==> c.item.Some? && t.items[c.item.value].deletionPending
  {
    hide PathsOfItem, Elements;
  }

  lemma FitDeletes(t: Tables, c: Candidate, id: nat)
    requires Consistent(t) && Fits(t, c) && id == Target(t, c).0 && id in Target(t, c).1
    ensures var mine, extra, gone, item := PathsOfItem(t.files, id), Elements(c.add), Elements(c.remove), Target(t, c).1[id];
            (extra + gone != {} && c.deleteIfEmpty && mine + extra - gone == {} && !item.awaited && !item.monitored) <==> Deletes(t, c)
  {
    FitFacts(t, c, id);
    hide PathsOfItem, Elements, Consistent;
  }

  lemma FitFacts(t: Tables, c: Candidate, id: nat)
    requires Consistent(t) && Fits(t, c) && id == Target(t, c).0
    ensures var mine, extra, gone := PathsOfItem(t.files, id), Elements(c.add), Elements(c.remove);
            Missing(c.add, mine) == extra && Untracked(t.files, extra) && gone * (mine + extra) == gone &&
            (extra + gone != {} <==> c.add != [] || c.remove != []) &&
            (mine + extra - gone == {} <==> c.add == [] && mine <= gone)
  {
    hide Consistent;
    assert c.add == [] || c.add[0] in Elements(c.add);
    assert c.remove == [] || c.remove[0] in Elements(c.remove);
    assert forall p :: p in Elements(c.add) ==> p !in PathsOfItem(t.files, id);
    assert forall p :: p in Elements(c.remove) ==> p in PathsOfItem(t.files, id);
    assert c.add != [] ==> c.add[0] in PathsOfItem(t.files, id) + Elements(c.add) - Elements(c.remove);
    assert forall p :: p in PathsOfItem(t.files, id) && p !in Elements(c.remove) ==>
        p in PathsOfItem(t.files, id) + Elements(c.add) - Elements(c.remove);
  }

  lemma FitSizes(t: Tables, c: Candidate, id: nat)
    requires Consistent(t) && Fits(t, c) && id == Target(t, c).0
    ensures |(Added(t.files, Elements(c.add), id) - Elements(c.remove)).Keys| ==
              |t.files.Keys| + |Elements(c.add)| - |Elements(c.remove)|
  {
    hide Consistent;
    assert Elements(c.remove) <= t.files.Keys;
    assert t.files.Keys !! Elements(c.add);
    hide *;
    AddedKeys(t.files, Elements(c.add), id, Elements(c.remove));
  }

  lemma AddedKeys(files: map<Path, nat>, extra: set<Path>, id: nat, gone: set<Path>)
    ensures (Added(files, extra, id) - gone).Keys == files.Keys + extra - gone
  {
  }

  function News(done: seq<Candidate>): nat {
    if done == [] then 0 else News(done[..|done| - 1]) + if done[|done| - 1].item.None? then 1 else 0
  }

  /** The item of a candidate; new items are numbered in the order of the plan. */
  function IdOf(t0: Tables, before: seq<Candidate>, c: Candidate): nat {
    if c.item.Some? then c.item.value else t0.next + News(before)
  }

  /** The item that tracks a path once the candidates are applied. */
  function Where(t0: Tables, done: seq<Candidate>, p: Path): Option<nat> {
    if done == [] then Lookup(t0.files, p)
    else
      var before, last := done[..|done| - 1], done[|done| - 1];
      if p in last.remove then None
      else if p in last.add then Some(IdOf(t0, before, last))
      else Where(t0, before, p)
  }

  /** What remains of an item. */
  ghost function Kept(t0: Tables, done: seq<Candidate>, i: nat): Option<Item> {
    if done == [] then Lookup(t0.items, i)
    else
      var before, last := done[..|done| - 1], done[|done| - 1];
      if last.item.Some? then
        if last.item.value == i && i in t0.items && Deletes(t0, last) then None else Kept(t0, before, i)
      else if i == IdOf(t0, before, last) then Some(Item(false, false, false))
      else Kept(t0, before, i)
  }

  ghost predicate Progress(t0: Tables, done: seq<Candidate>, s: Summary) {
    Consistent(s.tables) && s.tables.next == t0.next + News(done) &&
    (forall p :: Lookup(s.tables.files, p) == Where(t0, done, p)) &&
    (forall i :: Lookup(s.tables.items, i) == Kept(t0, done, i)) &&
    |s.tables.files.Keys| + s.removed == |t0.files.Keys| + s.added
  }

  ghost predicate Waits(done: seq<Candidate>, i: nat) { forall c :: c in done ==> c.item != Some(i) }

  lemma PrefixFits(t: Tables, plan: seq<Candidate>)
    requires PlanFits(t, plan) && plan != []
    ensures PlanFits(t, plan[..|plan| - 1]) && Fits(t, plan[|plan| - 1])
    ensures plan[|plan| - 1].item.Some? ==> Waits(plan[..|plan| - 1], plan[|plan| - 1].item.value)
    ensures forall c, p :: c in plan[..|plan| - 1] && p in c.add ==> p !in plan[|plan| - 1].add
  {
    hide Fits;
    var before := plan[..|plan| - 1];
    assert forall i :: 0 <= i < |before| ==> before[i] == plan[i];
    assert forall c :: c in before ==> c in plan;
  }

  /** An item whose turn has not come keeps its files and its record. */
  lemma {:induction false} WaitingItem(t0: Tables, done: seq<Candidate>, i: nat, p: Path)
    requires Consistent(t0) && PlanFits(t0, done) && i in t0.items && Waits(done, i)
    ensures Where(t0, done, p) == Some(i) <==> p in t0.files && t0.files[p] == i
    ensures Kept(t0, done, i) == Some(t0.items[i])
  {
    if done != [] {
      var before, last := done[..|done| - 1], done[|done| - 1];
      PrefixFits(t0, done);
      WaitingItem(t0, before, i, p);
      assert last in done;
      assert p in last.remove ==> p in Elements(last.remove);
      hide PlanFits;
    }
  }

  /** A path no candidate has added yet is where it was, or nowhere. */
  lemma {:induction false} UntrackedStays(t0: Tables, done: seq<Candidate>, p: Path)
    requires p !in t0.files && forall c :: c in done ==> p !in c.add
    ensures Where(t0, done, p) == None
  {
    if done != [] {
      assert done[|done| - 1] in done;
      UntrackedStays(t0, done[..|done| - 1], p);
    }
  }

  /** When its turn comes, a candidate finds its item as the plan saw it. */
  lemma LastFits(t0: Tables, plan: seq<Candidate>, t: Tables)
    requires Consistent(t0) && PlanFits(t0, plan) && plan != [] && Consistent(t)
    requires t.next == t0.next + News(plan[..|plan| - 1])
    requires forall p :: Lookup(t.files, p) == Where(t0, plan[..|plan| - 1], p)
    requires forall i :: Lookup(t.items, i) == Kept(t0, plan[..|plan| - 1], i)
    ensures var last := plan[|plan| - 1];
            Fits(t0, last) && Fits(t, last) &&
            (last.item.Some? ==> t.items[last.item.value] == t0.items[last.item.value]) &&
            (Deletes(t, last) <==> Deletes(t0, last))
  {
    var before, last := plan[..|plan| - 1], plan[|plan| - 1];
    PrefixFits(t0, plan);
    hide PlanFits, Where, Kept;
    forall p | p in last.add ensures p !in t.files {
      UntrackedStays(t0, before, p);
      assert Lookup(t.files, p) == None;
    }
    if last.item.Some? {
      var i := last.item.value;
      forall p ensures p in PathsOfItem(t.files, i) <==> p in PathsOfItem(t0.files, i) {
        PlanPrefix(t0, plan);
        WaitingItem(t0, before, i, p);
        assert Lookup(t.files, p) == Where(t0, before, p);
      }
      WaitingItem(t0, before, i, Path(None, ""));
      assert Lookup(t.items, i) == Some(t0.items[i]);
      assert PathsOfItem(t.files, i) == PathsOfItem(t0.files, i);
    }
  }

  lemma PlanPrefix(t0: Tables, plan: seq<Candidate>)
    requires PlanFits(t0, plan) && plan != []
    ensures PlanFits(t0, plan[..|plan| - 1])
  {
    PrefixFits(t0, plan);
  }

  lemma CandidateApplies(t0: Tables, plan: seq<Candidate>, s: Summary)
    requires Consistent(t0) && PlanFits(t0, plan) && plan != [] && Progress(t0, plan[..|plan| - 1], s)
    ensures var last := plan[|plan| - 1];
            (last.item.Some? ==> last.item.value in t0.items) &&
            var r := Apply(s.tables, last);
            (r.Ok? <==> (last.item.Some? ==> !t0.items[last.item.value].deletionPending)) &&
            (r.Err? ==> r.error == ErrDeletionPending) &&
            (r.Ok? ==> Progress(t0, plan, Summary(r.value.tables, s.added + r.value.added, s.removed + r.value.removed)))
  {
    hide Added, Elements, PathsOfItem, Where, Kept, Consistent, News, PlanFits, Apply, Lookup, Deletes;
    var last := plan[|plan| - 1];
    LastFits(t0, plan, s.tables);
    ApplyEffect(s.tables, last);
    if Apply(s.tables, last).Ok? {
      var t' := Apply(s.tables, last).value.tables;
      FilesMove(t0, plan, s.tables, t');
      ItemsMove(t0, plan, s.tables, t');
    }
  }

  lemma FilesMove(t0: Tables, plan: seq<Candidate>, t: Tables, t': Tables)
    requires plan != [] && Fits(t, plan[|plan| - 1]) && t.next == t0.next + News(plan[..|plan| - 1])
    requires forall p :: Lookup(t.files, p) == Where(t0, plan[..|plan| - 1], p)
    requires var last := plan[|plan| - 1];
             t'.files == Added(t.files, Elements(last.add), IdOf(t0, plan[..|plan| - 1], last)) - Elements(last.remove)
    ensures forall p :: Lookup(t'.files, p) == Where(t0, plan, p)
  {
    hide Fits, News;
    forall p ensures Lookup(t'.files, p) == Where(t0, plan, p) {
      assert Lookup(t.files, p) == Where(t0, plan[..|plan| - 1], p);
    }
  }

  lemma ItemsMove(t0: Tables, plan: seq<Candidate>, t: Tables, t': Tables)
    requires plan != [] && Fits(t0, plan[|plan| - 1]) && Fits(t, plan[|plan| - 1]) && Consistent(t)
    requires t.next == t0.next + News(plan[..|plan| - 1])
    requires forall i :: Lookup(t.items, i) == Kept(t0, plan[..|plan| - 1], i)
    requires var last, id := plan[|plan| - 1], IdOf(t0, plan[..|plan| - 1], plan[|plan| - 1]);
             (Deletes(t, last) <==> Deletes(t0, last)) &&
             t'.items == Target(t, last).1 - (if Deletes(t, last) then {id} else {}) &&
             t'.files == Added(t.files, Elements(last.add), id) - Elements(last.remove) &&
             t'.next == (if last.item.Some? then t.next else t.next + 1)
    ensures t'.next == t0.next + News(plan)
    ensures forall i :: Lookup(t'.items, i) == Kept(t0, plan, i)
    ensures Consistent(t')
  {
    var last, id := plan[|plan| - 1], IdOf(t0, plan[..|plan| - 1], plan[|plan| - 1]);
    forall p | p in t'.files ensures t'.files[p] in t'.items {
      if p in t.files && t.files[p] == id { assert p in PathsOfItem(t.files, id); }
    }
    hide PathsOfItem, Elements;
    forall i ensures Lookup(t'.items, i) == Kept(t0, plan, i) {
      assert Lookup(t.items, i) == Kept(t0, plan[..|plan| - 1], i);
    }
  }

  /** Sound plans succeed unless an item is being deleted, and leave exactly what Where and Kept say. */
  lemma {:induction false} PlanApplies(t0: Tables, plan: seq<Candidate>)
    requires Consistent(t0) && PlanFits(t0, plan)
    ensures (forall c :: c in plan && c.item.Some? ==> c.item.value in t0.items)
    ensures ApplyAll(t0, plan).Ok? <==> forall c :: c in plan && c.item.Some? ==> !t0.items[c.item.value].deletionPending
    ensures ApplyAll(t0, plan).Ok? ==> Progress(t0, plan, ApplyAll(t0, plan).value)
  {
    hide Progress, Apply, PlanFits, Consistent;
    if plan == [] {
      NoProgress(t0);
    } else {
      var before, last := plan[..|plan| - 1], plan[|plan| - 1];
      PlanPrefix(t0, plan);
      PlanApplies(t0, before);
      assert plan == before + [last];
      if ApplyAll(t0, before).Ok? {
        CandidateApplies(t0, plan, ApplyAll(t0, before).value);
      } else {
        PrefixFits(t0, plan);
      }
    }
  }

  lemma NoProgress(t0: Tables)
    requires Consistent(t0)
    ensures Progress(t0, [], Summary(t0, 0, 0))
  {
  }

  /** The counts are those of the files that came and of those that went. */
  predicate Counted(t0: Tables, s: Summary) {
    s.added == |s.tables.files.Keys - t0.files.Keys| && s.removed == |t0.files.Keys - s.tables.files.Keys|
  }

  lemma CountSets(before: set<Path>, now: set<Path>, more: set<Path>, gone: set<Path>)
    requires gone <= before && gone <= now && more !! before && more !! now
    ensures |now + more - gone - before| == |now - before| + |more|
    ensures |before - (now + more - gone)| == |before - now| + |gone|
  {
    assert now + more - gone - before == (now - before) + more;
    assert before - (now + more - gone) == (before - now) + gone;
  }

  lemma FitKeys(t: Tables, c: Candidate)
    requires Fits(t, c)
    ensures Elements(c.remove) <= t.files.Keys && Elements(c.add) !! t.files.Keys
  {
  }

  lemma CountsMove(t0: Tables, c: Candidate, s: Summary, t': Tables, id: nat)
    requires Fits(t0, c) && Fits(s.tables, c) && Counted(t0, s)
    requires t'.files == Added(s.tables.files, Elements(c.add), id) - Elements(c.remove)
    ensures Counted(t0, Summary(t', s.added + |Elements(c.add)|, s.removed + |Elements(c.remove)|))
  {
    hide Fits, Added, Elements;
    FitKeys(t0, c);
    FitKeys(s.tables, c);
    AddedKeys(s.tables.files, Elements(c.add), id, Elements(c.remove));
    CountSets(t0.files.Keys, s.tables.files.Keys, Elements(c.add), Elements(c.remove));
  }

  lemma {:induction false} PlanCounts(t0: Tables, plan: seq<Candidate>)
    requires Consistent(t0) && PlanFits(t0, plan) && ApplyAll(t0, plan).Ok?
    ensures Counted(t0, ApplyAll(t0, plan).value)
  {
    if plan == [] {
      assert t0.files.Keys - t0.files.Keys == {};
    } else {
      var before, last := plan[..|plan| - 1], plan[|plan| - 1];
      PlanPrefix(t0, plan);
      PlanCounts(t0, before);
      PlanApplies(t0, before);
      CountsStep(t0, plan, ApplyAll(t0, before).value);
    }
  }

  lemma CountsStep(t0: Tables, plan: seq<Candidate>, s: Summary)
    requires Consistent(t0) && PlanFits(t0, plan) && plan != [] && Progress(t0, plan[..|plan| - 1], s) && Counted(t0, s)
    ensures var r := Apply(s.tables, plan[|plan| - 1]);
            r.Ok? ==> Counted(t0, Summary(r.value.tables, s.added + r.value.added, s.removed + r.value.removed))
  {
    hide Consistent, PlanFits, Counted, Where, Kept, Apply, Added, Elements, Deletes, Fits, Target, News, Lookup;
    var last := plan[|plan| - 1];
    LastFits(t0, plan, s.tables);
    ApplyEffect(s.tables, last);
    if Apply(s.tables, last).Ok? {
      CountsMove(t0, last, s, Apply(s.tables, last).value.tables, Apply(s.tables, last).value.item);
    }
  }

  /** A tracked path stays unless its item's candidate removes it. */
  lemma {:induction false} TrackedPath(t0: Tables, plan: seq<Candidate>, p: Path)
    requires PlanFits(t0, plan) && p in t0.files
    ensures Where(t0, plan, p) == if exists c :: c in plan && p in c.remove then None else Some(t0.files[p])
  {
    if plan != [] {
      var before, last := plan[..|plan| - 1], plan[|plan| - 1];
      PrefixFits(t0, plan);
      TrackedPath(t0, before, p);
      assert plan == before + [last];
      hide PlanFits;
    }
  }

  /** An added path ends up with the item of its candidate. */
  lemma {:induction false} AddedPath(t0: Tables, plan: seq<Candidate>, k: nat, p: Path)
    requires PlanFits(t0, plan) && k < |plan| && p in plan[k].add
    ensures Where(t0, plan, p) == Some(IdOf(t0, plan[..k], plan[k]))
  {
    var before, last := plan[..|plan| - 1], plan[|plan| - 1];
    PrefixFits(t0, plan);
    assert plan[k] in plan;
    assert Fits(t0, plan[k]);
    assert p in last.remove ==> p in Elements(last.remove);
    if k < |plan| - 1 {
      assert before[k] == plan[k] && before[..k] == plan[..k];
      assert plan[k] in before;
      AddedPath(t0, before, k, p);
    }
    hide PlanFits;
  }

  /** An item stays unless its own candidate deletes it. */
  lemma {:induction false} KeptItem(t0: Tables, plan: seq<Candidate>, i: nat)
    requires Consistent(t0) && PlanFits(t0, plan) && i in t0.items
    ensures forall c :: c in plan && c.item == Some(i) ==> Fits(t0, c)
    ensures Kept(t0, plan, i) == if exists c :: c in plan && c.item == Some(i) && Deletes(t0, c) then None else Some(t0.items[i])
  {
    if plan != [] {
      var before, last := plan[..|plan| - 1], plan[|plan| - 1];
      PlanPrefix(t0, plan);
      KeptItem(t0, before, i);
      assert plan == before + [last];
      hide PlanFits, Deletes;
    }
  }

  /** An item the plan creates has the number of its candidate and a record of its own. */
  lemma {:induction false} KeptNewItem(t0: Tables, plan: seq<Candidate>, i: nat)
    requires i !in t0.items && Kept(t0, plan, i).Some?
    ensures Kept(t0, plan, i).value == Item(false, false, false)
    ensures exists j :: 0 <= j < |plan| && plan[j].item.None? && i == t0.next + News(plan[..j])
  {
    var before, last := plan[..|plan| - 1], plan[|plan| - 1];
    if last.item.None? && i == IdOf(t0, before, last) {
    } else {
      KeptNewItem(t0, before, i);
      var j :| 0 <= j < |before| && before[j].item.None? && i == t0.next + News(before[..j]);
      assert plan[j] == before[j] && plan[..j] == before[..j];
    }
  }
}
