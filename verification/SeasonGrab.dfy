/** Grabbing the wanted episodes of one season (backend/internal/monitor/service.go). */
module SeasonGrab {
  import opened Wrappers
  import opened DownloadRows
  import opened AutoGrab

  // The loop of processSeries over the wanted episodes of a season looks at the rows before each grab and queues in a
  // transaction of its own, while users and the other workers add and change rows. `Season` is the loop as a function of
  // the rows, of what the others do to them, and of the releases found.

  // ----- What the others do to the rows

  /** A row keeps its title and address; a pack without an episode gets none and keeps its season. Everything else may change:
      a replaced catalog takes episodes away from rows, a refreshed one gives them back. */
  predicate SameRow(old': Download, now: Download) {
    now.parsed == old'.parsed && now.url == old'.url &&
    (IsSeasonPack(old'.parsed) ==> (old'.episodeID.None? ==> now.episodeID.None?) && now.season == old'.season)
  }

  ghost predicate Evolves(old': seq<Download>, now: seq<Download>) {
    |old'| <= |now| && (forall i :: 0 <= i < |old'| ==> SameRow(old'[i], now[i])) && (ProperIDs(old') ==> ProperIDs(now))
  }

  lemma EvolvesOn(x: seq<Download>, y: seq<Download>, z: seq<Download>)
    requires Evolves(x, y) && Evolves(y, z)
    ensures Evolves(x, z)
  {
    hide ProperIDs;
  }

  /** What the others do to the rows at each of the moments this worker leaves them room. */
  type World = (nat, seq<Download>) -> seq<Download>

  ghost predicate Lawful(world: World) { forall n, dls :: Evolves(dls, world(n, dls)) }

  // ----- One turn of the loop

  /** One season of one check. At turn i the item is `open` if it is still there with its episode, monitored and unchanged since
      the search, and the episode `present` if a file has appeared. */
  datatype Check = Check(wanted: seq<Episode>, results: seq<Release>, pref: PackPreference, mostMissing: bool, world: World,
    open: nat -> bool, present: nat -> bool, blocked: set<string>)

  ghost predicate Proper(x: Check) { Lawful(x.world) && forall e :: e in x.wanted ==> e.id > 0 }

  function Choice(x: Check, i: nat): Option<Release>
    requires i < |x.wanted|
  {
    Best(x.results, x.wanted[i], x.pref, x.mostMissing)
  }

  /** The rows at the check of turn i, and those that its transaction finds. */
  function Seen(x: Check, rows: seq<Download>, i: nat): seq<Download> { x.world(2 * i, rows) }
  function At(x: Check, rows: seq<Download>, i: nat): seq<Download> { x.world(2 * i + 1, Seen(x, rows, i)) }

  /** The index answers yes. */
  ghost predicate Hit(dls: seq<Download>, e: Episode) {
    OnItsWay(dls, e) || exists dl :: dl in dls && NamesEpisodeZero(dl, e.season)
  }

  /** There is a release, and the check finds no download of the episode. */
  ghost predicate Tries(x: Check, rows: seq<Download>, i: nat)
    requires i < |x.wanted|
  {
    Choice(x, i).Some? && !Hit(Seen(x, rows, i), x.wanted[i])
  }

  predicate HasAddress(dls: seq<Download>, url: string) { exists dl :: dl in dls && Active(dl.status) && dl.url == url }

  /** What the transaction asks about the item, its files and the blocklist. */
  predicate Clear(x: Check, i: nat)
    requires i < |x.wanted| && Choice(x, i).Some?
  {
    x.open(i) && !x.present(i) && Choice(x, i).value.url !in x.blocked
  }

  ghost predicate Queues(x: Check, rows: seq<Download>, i: nat)
    requires i < |x.wanted|
  {
    Tries(x, rows, i) && Clear(x, i) && !HasAddress(At(x, rows, i), Choice(x, i).value.url)
  }

  ghost function AfterTurn(x: Check, rows: seq<Download>, i: nat): seq<Download>
    requires i < |x.wanted|
  {
    if Choice(x, i).None? then rows
    else if !Tries(x, rows, i) then Seen(x, rows, i)
    else if Queues(x, rows, i) then At(x, rows, i) + [QueuedRow(Choice(x, i).value, x.wanted[i])]
    else At(x, rows, i)
  }

  /** A pack that was tried ends the season, whether it was queued or refused. */
  ghost predicate Ends(x: Check, rows: seq<Download>, i: nat)
    requires i < |x.wanted|
  {
    Tries(x, rows, i) && IsSeasonPack(Choice(x, i).value.parsed)
  }

  /** One turn in full. Without a release nothing happens; otherwise the others act, and if a row then blocks the episode that is
      all; otherwise the others act again, and the release is queued exactly if the item is open, no file has appeared, and its
      address is neither blocklisted nor that of a row under way or done. */
  lemma TurnExactly(x: Check, rows: seq<Download>, i: nat)
    requires i < |x.wanted|
    ensures var e, best := x.wanted[i], Best(x.results, x.wanted[i], x.pref, x.mostMissing);
            var seen := x.world(2 * i, rows);
            var at := x.world(2 * i + 1, seen);
            var tried := best.Some? && forall dl :: dl in seen ==> !Blocks(dl, e);
            var queued := tried && x.open(i) && !x.present(i) && best.value.url !in x.blocked &&
                          forall dl :: dl in at && dl.url == best.value.url ==> dl.status in {Failed, ImportFailed, Cancelled};
            (Tries(x, rows, i) <==> tried) && (Queues(x, rows, i) <==> queued) &&
            (Ends(x, rows, i) <==> tried && PackFor(best.value.parsed, e)) &&
            AfterTurn(x, rows, i) ==
              if best.None? then rows else if !tried then seen else if queued then at + [QueuedRow(best.value, e)] else at
  {
    var e, best, seen := x.wanted[i], Choice(x, i), Seen(x, rows, i);
    forall dl | dl in seen ensures Blocks(dl, e) <==> Covers(dl, e) || NamesEpisodeZero(dl, e.season) { BlocksMeans(dl, e); }
    assert Hit(seen, e) <==> exists dl :: dl in seen && Blocks(dl, e);
    assert best.Some? ==> (PackFor(best.value.parsed, e) <==> IsSeasonPack(best.value.parsed));
    hide Hit, Blocks, Best, PackFor, IsSeasonPack, QueuedRow;
    assert forall dl: Download :: !Active(dl.status) <==> dl.status in {Failed, ImportFailed, Cancelled};
  }

  // ----- The loop as a function

  /** A queued release: its turn, the rows at its check, those its row was added to, and the episode it was for. */
  datatype Grab = Grab(turn: nat, seen: seq<Download>, at: seq<Download>, target: Episode, pick: Release)

  datatype Run = Run(rows: seq<Download>, grabs: seq<Grab>)

  ghost function GrabOf(x: Check, rows: seq<Download>, i: nat): Grab
    requires i < |x.wanted| && Queues(x, rows, i)
  {
    Grab(i, Seen(x, rows, i), At(x, rows, i), x.wanted[i], Choice(x, i).value)
  }

  ghost function GrabsOf(x: Check, rows: seq<Download>, i: nat): seq<Grab>
    requires i < |x.wanted|
  {
    if Queues(x, rows, i) then [GrabOf(x, rows, i)] else []
  }

  /** From turn i on. */
  ghost function Season(x: Check, rows: seq<Download>, i: nat): Run
    requires i <= |x.wanted|
    decreases |x.wanted| - i
  {
    if i == |x.wanted| then Run(rows, [])
    else
      var after := AfterTurn(x, rows, i);
      var rest := if Ends(x, rows, i) then Run(after, []) else Season(x, after, i + 1);
      Run(rest.rows, GrabsOf(x, rows, i) + rest.grabs)
  }

  // ----- The loop in place

  class Downloads {
    var rows: seq<Download>

    constructor (dls: seq<Download>)
      ensures rows == dls
    {
      rows := dls;
    }

    method HasActiveByURL(url: string) returns (b: bool)
      ensures b <==> HasAddress(rows, url)
    {
      for i := 0 to |rows|
        invariant forall dl :: dl in rows[..i] ==> !(Active(dl.status) && dl.url == url)
      {
        assert rows[..i + 1] == rows[..i] + [rows[i]];
        if Active(rows[i].status) && rows[i].url == url { return true; }
      }
      assert rows[..|rows|] == rows;
      return false;
    }

    method CreateAutoDownload(r: Release, e: Episode, open: bool, present: bool, blocked: bool) returns (grabbed: bool)
      modifies this
      ensures grabbed <==> open && !present && !blocked && !HasAddress(old(rows), r.url)
      ensures rows == if grabbed then old(rows) + [QueuedRow(r, e)] else old(rows)
    {
      if !open { return false; }
      if present { return false; }
      var exists' := HasActiveByURL(r.url);
      if exists' { return false; }
      if blocked { return false; }
      rows := rows + [QueuedRow(r, e)];
      return true;
    }

    /** One wanted episode: pick, check against the rows as they are by then, and queue into the rows as they are after that. */
    method GrabFor(x: Check, i: nat) returns (best: Option<Release>, tried: bool, grabbed: bool)
      requires i < |x.wanted| && Proper(x) && ProperIDs(rows)
      modifies this
      ensures best == Choice(x, i)
      ensures tried <==> Tries(x, old(rows), i)
      ensures grabbed <==> Queues(x, old(rows), i)
      ensures rows == AfterTurn(x, old(rows), i)
    {
      hide QueuedRow, OnItsWay, HasAddress, Evolves;
      tried, grabbed := false, false;
      var e := x.wanted[i];
      best := FindBestForEpisode(x.results, e, x.pref, x.mostMissing);
      if best.None? { return; }
      SeenProper(x, rows, i);
      rows := x.world(2 * i, rows);
      var freshMap := BuildDownloadMap(rows);
      IndexIsScan(rows, freshMap, e);
      if HasActiveDownloadForEpisode(freshMap, e) { return; }
      tried := true;
      rows := x.world(2 * i + 1, rows);
      grabbed := CreateAutoDownload(best.value, e, x.open(i), x.present(i), best.value.url in x.blocked);
    }

    method ProcessSeason(x: Check) returns (foundAny: bool, ghost grabs: seq<Grab>)
      requires Proper(x) && ProperIDs(rows)
      modifies this
      ensures Run(rows, grabs) == Season(x, old(rows), 0)
      ensures foundAny <==> grabs != []
    {
      foundAny, grabs := false, [];
      ghost var whole := Season(x, rows, 0);
      assert grabs + whole.grabs == whole.grabs;
      hide *;
      for i := 0 to |x.wanted|
        invariant ProperIDs(rows) && (foundAny <==> grabs != [])
        invariant whole == Run(Season(x, rows, i).rows, grabs + Season(x, rows, i).grabs)
      {
        TurnProper(x, rows, i);
        SeasonTurn(x, rows, i, grabs, whole);
        ghost var turn := GrabsOf(x, rows, i);
        var best, tried, grabbed := GrabFor(x, i);
        grabs, foundAny := grabs + turn, foundAny || grabbed;
        if tried && IsSeasonPack(best.value.parsed) { return; }
      }
      SeasonOver(x, rows, grabs);
    }
  }

  /** One turn moves its grab from the rest of the season to those already made. */
  lemma SeasonTurn(x: Check, rows: seq<Download>, i: nat, grabs: seq<Grab>, whole: Run)
    requires i < |x.wanted| && whole == Run(Season(x, rows, i).rows, grabs + Season(x, rows, i).grabs)
    ensures var after, more := AfterTurn(x, rows, i), grabs + GrabsOf(x, rows, i);
            whole == if Ends(x, rows, i) then Run(after, more)
                     else Run(Season(x, after, i + 1).rows, more + Season(x, after, i + 1).grabs)
    ensures GrabsOf(x, rows, i) != [] <==> Queues(x, rows, i)
    ensures Ends(x, rows, i) <==> Tries(x, rows, i) && Choice(x, i).Some? && IsSeasonPack(Choice(x, i).value.parsed)
  {
    var after, turn := AfterTurn(x, rows, i), GrabsOf(x, rows, i);
    var rest := if Ends(x, rows, i) then Run(after, []) else Season(x, after, i + 1);
    assert grabs + (turn + rest.grabs) == grabs + turn + rest.grabs;
    hide Queues, AfterTurn;
  }

  lemma SeasonOver(x: Check, rows: seq<Download>, grabs: seq<Grab>)
    ensures Run(Season(x, rows, |x.wanted|).rows, grabs + Season(x, rows, |x.wanted|).grabs) == Run(rows, grabs)
  {
  }

  lemma SeenProper(x: Check, rows: seq<Download>, i: nat)
    requires Proper(x) && ProperIDs(rows)
    ensures ProperIDs(Seen(x, rows, i)) && Evolves(rows, Seen(x, rows, i))
    ensures ProperIDs(At(x, rows, i)) && Evolves(Seen(x, rows, i), At(x, rows, i))
  {
  }

  lemma TurnProper(x: Check, rows: seq<Download>, i: nat)
    requires Proper(x) && ProperIDs(rows) && i < |x.wanted|
    ensures ProperIDs(AfterTurn(x, rows, i)) && Evolves(rows, AfterTurn(x, rows, i))
  {
    SeenProper(x, rows, i);
    EvolvesOn(rows, Seen(x, rows, i), At(x, rows, i));
    assert x.wanted[i] in x.wanted;
    hide Tries, Queues, Choice;
  }

  // ----- Which episodes are grabbed

  /** The rows at the start of turn k, if the loop that is at turn i gets there. */
  ghost function Reach(x: Check, rows: seq<Download>, i: nat, k: nat): Option<seq<Download>>
    requires i <= k < |x.wanted|
    decreases k - i
  {
    if i == k then Some(rows) else if Ends(x, rows, i) then None else Reach(x, AfterTurn(x, rows, i), i + 1, k)
  }

  lemma {:induction false} TurnsLieAhead(x: Check, rows: seq<Download>, i: nat)
    requires i <= |x.wanted|
    ensures forall g :: g in Season(x, rows, i).grabs ==> i <= g.turn < |x.wanted|
    decreases |x.wanted| - i
  {
    if i < |x.wanted| && !Ends(x, rows, i) {
      TurnsLieAhead(x, AfterTurn(x, rows, i), i + 1);
    }
    hide Ends, Queues, AfterTurn;
  }

  /** A wanted episode is grabbed exactly when the loop gets to it, it has a release, the check finds no download of it, and the
      transaction finds nothing against it and no active row with the address; and then with these rows and that release. */
  lemma {:induction false} GrabbedExactly(x: Check, rows: seq<Download>, i: nat, k: nat, g: Grab)
    requires i <= k < |x.wanted|
    ensures g in Season(x, rows, i).grabs && g.turn == k <==>
              var r := Reach(x, rows, i, k);
              r.Some? && Queues(x, r.value, k) && g == GrabOf(x, r.value, k)
    decreases k - i
  {
    var after := AfterTurn(x, rows, i);
    if i == k {
      if !Ends(x, rows, i) { TurnsLieAhead(x, after, i + 1); }
    } else if !Ends(x, rows, i) {
      GrabbedExactly(x, after, i + 1, k, g);
    }
    hide Ends, Queues, AfterTurn;
  }

  /** A pack that was tried ends the season there and then, even if the transaction refused it. */
  lemma {:induction false} TriedPackEndsTheSeason(x: Check, rows: seq<Download>, i: nat, k: nat)
    requires i <= k < |x.wanted| && Reach(x, rows, i, k).Some? && Ends(x, Reach(x, rows, i, k).value, k)
    ensures Season(x, rows, i).rows == AfterTurn(x, Reach(x, rows, i, k).value, k)
    ensures forall g :: g in Season(x, rows, i).grabs ==> g.turn <= k
    ensures forall j :: k < j < |x.wanted| ==> Reach(x, rows, i, j).None?
    decreases k - i
  {
    if i < k {
      TriedPackEndsTheSeason(x, AfterTurn(x, rows, i), i + 1, k);
    }
    hide Ends, Queues, AfterTurn, Tries;
  }

  /** Nothing else does: if the loop does not get to a turn, an earlier one tried a pack. */
  lemma {:induction false} OnlyTriedPacksEndIt(x: Check, rows: seq<Download>, i: nat, k: nat) returns (j: nat)
    requires i <= k < |x.wanted| && Reach(x, rows, i, k).None?
    ensures i <= j < k && Reach(x, rows, i, j).Some? && Ends(x, Reach(x, rows, i, j).value, j)
    decreases k - i
  {
    j := i;
    if !Ends(x, rows, i) {
      j := OnlyTriedPacksEndIt(x, AfterTurn(x, rows, i), i + 1, k);
    }
    hide AfterTurn, Tries;
  }

  // ----- What every grab is worth

  /** The release names or packs its episode, which no row covered at the check; no active row had its address when it was
      added; and its row is still there. */
  ghost predicate GoodGrab(rows: seq<Download>, x: Check, g: Grab) {
    g.target in x.wanted && g.pick in x.results && (NamesEpisode(g.pick, g.target) || PacksSeason(g.pick, g.target)) &&
    !OnItsWay(g.seen, g.target) && !HasAddress(g.at, g.pick.url) && Evolves(g.seen, g.at) && Evolves(g.at, rows) &&
    |g.at| < |rows| && SameRow(QueuedRow(g.pick, g.target), rows[|g.at|])
  }

  /** The later grab was checked against the row of the earlier one, whatever had become of it. */
  ghost predicate InTurn(earlier: Grab, later: Grab) {
    |earlier.at| < |later.seen| && Evolves(earlier.at, later.seen) &&
    SameRow(QueuedRow(earlier.pick, earlier.target), later.seen[|earlier.at|])
  }

  ghost predicate Sound(rows: seq<Download>, x: Check, grabs: seq<Grab>) {
    (forall g :: g in grabs ==> GoodGrab(rows, x, g)) && forall j, k :: 0 <= j < k < |grabs| ==> InTurn(grabs[j], grabs[k])
  }

  /** Whatever the others do, every grab of the season is good and every later one was checked against the earlier ones. */
  lemma SeasonIsSound(x: Check, rows: seq<Download>)
    requires Proper(x) && ProperIDs(rows)
    ensures Sound(Season(x, rows, 0).rows, x, Season(x, rows, 0).grabs) && Evolves(rows, Season(x, rows, 0).rows)
  {
    SoundFrom(x, rows, 0, []);
    assert [] + Season(x, rows, 0).grabs == Season(x, rows, 0).grabs;
  }

  lemma {:induction false} SoundFrom(x: Check, rows: seq<Download>, i: nat, grabs: seq<Grab>)
    requires Proper(x) && ProperIDs(rows) && i <= |x.wanted| && Sound(rows, x, grabs)
    ensures Sound(Season(x, rows, i).rows, x, grabs + Season(x, rows, i).grabs) && Evolves(rows, Season(x, rows, i).rows)
    decreases |x.wanted| - i
  {
    hide Proper, ProperIDs, Sound, Evolves, Ends, Queues, AfterTurn, GrabsOf;
    if i == |x.wanted| {
      Unchanged(rows);
      assert grabs + [] == grabs;
    } else {
      var after, turn := AfterTurn(x, rows, i), GrabsOf(x, rows, i);
      TurnProper(x, rows, i);
      TurnIsSound(x, rows, i, grabs);
      if Ends(x, rows, i) {
        assert grabs + (turn + []) == grabs + turn;
      } else {
        SoundFrom(x, after, i + 1, grabs + turn);
        EvolvesOn(rows, after, Season(x, after, i + 1).rows);
        assert grabs + (turn + Season(x, after, i + 1).grabs) == grabs + turn + Season(x, after, i + 1).grabs;
      }
    }
  }

  lemma Unchanged(rows: seq<Download>)
    ensures Evolves(rows, rows)
  {
  }

  lemma TurnIsSound(x: Check, rows: seq<Download>, i: nat, grabs: seq<Grab>)
    requires Proper(x) && ProperIDs(rows) && i < |x.wanted| && Sound(rows, x, grabs)
    ensures Sound(AfterTurn(x, rows, i), x, grabs + GrabsOf(x, rows, i))
  {
    hide Proper, ProperIDs, Evolves, GoodGrab, InTurn, Queues, AfterTurn;
    var after := AfterTurn(x, rows, i);
    TurnProper(x, rows, i);
    forall g | g in grabs ensures GoodGrab(after, x, g) { GrabOn(rows, after, x, g); }
    if Queues(x, rows, i) {
      NewGrabIsGood(x, rows, i);
      SeenProper(x, rows, i);
      forall g | g in grabs ensures InTurn(g, GrabOf(x, rows, i)) { GrabBefore(rows, x, g, GrabOf(x, rows, i)); }
    }
  }

  lemma NewGrabIsGood(x: Check, rows: seq<Download>, i: nat)
    requires Proper(x) && ProperIDs(rows) && i < |x.wanted| && Queues(x, rows, i)
    ensures GoodGrab(AfterTurn(x, rows, i), x, GrabOf(x, rows, i))
  {
    SeenProper(x, rows, i);
    var at, e := At(x, rows, i), x.wanted[i];
    assert e in x.wanted && Evolves(at, at + [QueuedRow(Choice(x, i).value, e)]);
    hide Best, ProperIDs, OnItsWay, NamesEpisode, PacksSeason;
  }

  lemma GrabOn(rows: seq<Download>, now: seq<Download>, x: Check, g: Grab)
    requires GoodGrab(rows, x, g) && Evolves(rows, now)
    ensures GoodGrab(now, x, g)
  {
    EvolvesOn(g.at, rows, now);
    hide OnItsWay, ProperIDs, NamesEpisode, PacksSeason, HasAddress;
  }

  lemma GrabBefore(rows: seq<Download>, x: Check, a: Grab, g: Grab)
    requires GoodGrab(rows, x, a) && Evolves(rows, g.seen)
    ensures InTurn(a, g)
  {
    EvolvesOn(a.at, rows, g.seen);
    hide OnItsWay, ProperIDs, NamesEpisode, PacksSeason, HasAddress;
  }

  /** As long as the row of a grab counts, no later grab of the season is for an episode that its release stands for. A row that
      lost its episode still stands for it by its title; only one that was given another episode may not. */
  lemma NoSecondGrab(rows: seq<Download>, x: Check, earlier: Grab, later: Grab)
    requires GoodGrab(rows, x, earlier) && GoodGrab(rows, x, later) && InTurn(earlier, later)
    requires Counts(later.seen[|earlier.at|])
    ensures later.seen[|earlier.at|].episodeID in {None, Some(earlier.target.id)} ==> later.target != earlier.target
    ensures IsSeasonPack(earlier.pick.parsed) ==> later.target.season != earlier.target.season
    ensures IsRange(earlier.pick.parsed) && earlier.pick.parsed.episode.value <= later.target.number <= LastEpisode(earlier.pick.parsed) ==>
              later.target.season != earlier.target.season
  {
    var now := later.seen[|earlier.at|];
    assert now in later.seen && !Covers(now, later.target);
    hide OnItsWay, Evolves;
  }

  // ----- The gap between check and insertion

  /** A turn queues a release for an episode that is covered by then exactly when it tries one, the transaction finds nothing
      against the item, and some row that covers the episode has arrived or changed since the check, all active rows having
      other addresses. */
  lemma CoveredWhenAdded(x: Check, rows: seq<Download>, i: nat)
    requires i < |x.wanted|
    ensures Queues(x, rows, i) && OnItsWay(At(x, rows, i), x.wanted[i]) <==>
              Tries(x, rows, i) && Clear(x, i) &&
              (forall dl :: dl in At(x, rows, i) && Active(dl.status) ==> dl.url != Choice(x, i).value.url) &&
              exists k :: Intrudes(x, rows, i, k)
  {
    var seen, at, e := Seen(x, rows, i), At(x, rows, i), x.wanted[i];
    if Tries(x, rows, i) && OnItsWay(at, e) {
      var dl :| dl in at && Covers(dl, e);
      var k :| 0 <= k < |at| && at[k] == dl;
      assert k < |seen| ==> seen[k] in seen;
      assert Intrudes(x, rows, i, k);
    }
    hide Covers, Hit;
  }

  /** Row k covers the episode at the insertion, and is new or different since the check. */
  predicate Intrudes(x: Check, rows: seq<Download>, i: nat, k: int)
    requires i < |x.wanted|
  {
    0 <= k < |At(x, rows, i)| && Covers(At(x, rows, i)[k], x.wanted[i]) &&
    (k < |Seen(x, rows, i)| ==> At(x, rows, i)[k] != Seen(x, rows, i)[k])
  }

  /** The others do at turn i, between check and insertion, also this: a user queues the episode from another address. */
  ghost function WithManual(x: Check, i: nat, manual: Download): Check {
    x.(world := (n: nat, dls: seq<Download>) => x.world(n, dls) + if n == 2 * i + 1 then [manual] else [])
  }

  function ManualRow(e: Episode, r: Release): Download {
    Download(Pending, false, Some(e.id), Some(e.season), r.parsed, r.url + "#")
  }

  /** No grab is safe from that: whenever a turn queues a release, it also does if a user queues the episode just before. */
  lemma EveryGrabHasTheGap(x: Check, rows: seq<Download>, i: nat)
    requires Proper(x) && i < |x.wanted| && Queues(x, rows, i)
    ensures var y := WithManual(x, i, ManualRow(x.wanted[i], Choice(x, i).value));
            Proper(y) && Queues(y, rows, i) && OnItsWay(At(y, rows, i), y.wanted[i]) && Seen(y, rows, i) == Seen(x, rows, i)
  {
    var e, r := x.wanted[i], Choice(x, i).value;
    var manual := ManualRow(e, r);
    var y := WithManual(x, i, manual);
    assert e in x.wanted && |manual.url| == |r.url| + 1;
    forall n, dls ensures Evolves(dls, y.world(n, dls)) {
      assert Evolves(dls, x.world(n, dls));
    }
    assert Seen(x, rows, i) + [] == Seen(x, rows, i);
    assert At(y, rows, i) == At(x, rows, i) + [manual];
    assert manual in At(y, rows, i) && Covers(manual, e);
    hide Hit, Best, Evolves;
  }

  const EPISODE := Episode(7, 1, 5)
  const FOUND := Release(Parsed(Some(1), Some(5), None, false), "found")

  /** One wanted episode and one release, and nobody else at work. */
  const QUIET := Check([EPISODE], [FOUND], PreferEpisodes, false, (n: nat, dls: seq<Download>) => dls,
                       (n: nat) => true, (n: nat) => false, {})

  /** Such a season: the episode ends up queued twice. */
  lemma RecheckLeavesAGap()
    ensures var x, manual := WithManual(QUIET, 0, ManualRow(EPISODE, FOUND)), ManualRow(EPISODE, FOUND);
            Proper(x) && Covers(manual, EPISODE) && Covers(QueuedRow(FOUND, EPISODE), EPISODE) &&
            Season(x, [], 0) == Run([manual, QueuedRow(FOUND, EPISODE)], [Grab(0, [], [manual], EPISODE, FOUND)])
  {
    var x := WithManual(QUIET, 0, ManualRow(EPISODE, FOUND));
    QuietQueues();
    EveryGrabHasTheGap(QUIET, [], 0);
    assert At(x, [], 0) == [ManualRow(EPISODE, FOUND)];
    assert AfterTurn(x, [], 0) == [ManualRow(EPISODE, FOUND), QueuedRow(FOUND, EPISODE)];
    assert !IsSeasonPack(FOUND.parsed);
    assert Season(x, AfterTurn(x, [], 0), 1) == Run(AfterTurn(x, [], 0), []);
    assert GrabsOf(x, [], 0) + [] == GrabsOf(x, [], 0);
  }

  lemma QuietQueues()
    ensures Proper(QUIET) && Choice(QUIET, 0) == Some(FOUND) && Queues(QUIET, [], 0)
  {
    forall dls ensures Evolves(dls, dls) { Unchanged(dls); }
    assert [FOUND][..0] == [] && First([], EPISODE, false) == None;
    assert First([FOUND], EPISODE, false) == Some(FOUND);
  }
}
