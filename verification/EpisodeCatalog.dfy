/**
 Replacing the episode catalog of an item when it is matched (replaceMatchEpisodes in
 backend/internal/matching/episodes.go). Downloads point at episode rows, and deleting a row clears the pointers to it.

 The item's rows are kept by season and episode number, which the store keeps unique.
 */
module EpisodeCatalog {
  import opened Wrappers

  datatype Key = Key(season: int, number: int)

  datatype Content = Content(title: string, overview: string, airDate: string, runtime: Option<int>)

  datatype Row = Row(id: nat, content: Content, createdAt: nat)

  /** An episode as the provider tells it. */
  datatype EpisodeData = EpisodeData(key: Key, title: string, overview: string, airDate: string, runtime: int)

  function NewEpisode(d: EpisodeData): Content {
    Content(d.title, d.overview, d.airDate, if d.runtime > 0 then Some(d.runtime) else None)
  }

  predicate HasKey(candidate: seq<EpisodeData>, key: Key) { exists d :: d in candidate && d.key == key }

  predicate DistinctKeys(candidate: seq<EpisodeData>) {
    forall i, j :: 0 <= i < j < |candidate| ==> candidate[i].key != candidate[j].key
  }

  predicate OwnIds(rows: map<Key, Row>, next: nat) {
    (forall k :: k in rows ==> rows[k].id < next) && forall k, l :: k in rows && l in rows && k != l ==> rows[k].id != rows[l].id
  }

  /** The rows hold exactly the candidate's keys, each with the candidate's data. */
  ghost predicate HoldsCatalog(rows: map<Key, Row>, candidate: seq<EpisodeData>) {
    (forall d :: d in candidate ==>
       d.key in rows &&
       rows[d.key].content == Content(d.title, d.overview, d.airDate, if d.runtime > 0 then Some(d.runtime) else None)) &&
    forall k :: k in rows ==> HasKey(candidate, k)
  }

  /** With the same provider a surviving episode keeps its identifier and creation time; every other row is a new one. */
  ghost predicate KeepsIdentity(before: map<Key, Row>, after: map<Key, Row>, sameProvider: bool, first: nat, clock: nat) {
    forall k :: k in after ==>
      if sameProvider && k in before then after[k].id == before[k].id && after[k].createdAt == before[k].createdAt
      else first <= after[k].id && after[k].createdAt == clock
  }

  /** The row an identifier belonged to has gone. */
  ghost predicate Lost(before: map<Key, Row>, candidate: seq<EpisodeData>, sameProvider: bool, id: nat) {
    exists k :: k in before && before[k].id == id && !(sameProvider && HasKey(candidate, k))
  }

  /** A download loses its episode exactly when the provider changed or no longer knows it. */
  ghost predicate KeepsLinks(before: map<Key, Row>, candidate: seq<EpisodeData>, sameProvider: bool,
      links: map<nat, Option<nat>>, now: map<nat, Option<nat>>)
  {
    now.Keys == links.Keys &&
    forall d :: d in links ==>
      now[d] == if links[d].Some? && Lost(before, candidate, sameProvider, links[d].value) then None else links[d]
  }

  /** ON DELETE SET NULL. */
  function Cleared(links: map<nat, Option<nat>>, gone: set<nat>): map<nat, Option<nat>> {
    map d | d in links :: if links[d].Some? && links[d].value in gone then None else links[d]
  }

  function Ids(rows: map<Key, Row>): set<nat> { set k | k in rows :: rows[k].id }

  class Catalog {
    var rows: map<Key, Row>
    var links: map<nat, Option<nat>>
    var nextId: nat
    var clock: nat

    constructor ()
      ensures rows == map[] && links == map[] && OwnIds(rows, nextId)
    {
      rows, links, nextId, clock := map[], map[], 1, 0;
    }

    /**
     Succeeds exactly when the candidate names no episode twice; a repeated key violates the unique index and rolls the
     whole transaction back.
     */
    method ReplaceMatchEpisodes(candidate: seq<EpisodeData>, sameProvider: bool) returns (ok: bool)
      requires OwnIds(rows, nextId)
      modifies this
      ensures OwnIds(rows, nextId) && old(nextId) <= nextId
      ensures ok <==> DistinctKeys(candidate)
      ensures !ok ==> rows == old(rows) && links == old(links)
      ensures ok ==> HoldsCatalog(rows, candidate)
      ensures ok ==> KeepsIdentity(old(rows), rows, sameProvider, old(nextId), old(clock))
      ensures ok ==> KeepsLinks(old(rows), candidate, sameProvider, old(links), links)
    {
      var existing, tx, txLinks, next := rows, rows, links, nextId;
      if !sameProvider {
        existing, tx, txLinks := map[], map[], Cleared(links, Ids(rows));
      }
      hide *;
      StartWorking(rows, sameProvider, existing, tx, nextId, clock);
      ok, existing, tx, next := Apply(candidate, rows, sameProvider, existing, tx, nextId, clock);
      if !ok {
        return;
      }
      Finish(rows, candidate, sameProvider, existing, tx, nextId, next, clock);
      FinishLinks(rows, links, candidate, sameProvider, existing, tx, nextId, next, clock);
      tx, txLinks := tx - existing.Keys, Cleared(txLinks, Ids(existing));
      rows, links, nextId, clock := tx, txLinks, next, clock + 1;
    }
  }

  /** Works through the candidate; the rows still waiting afterwards are those to delete. */
  method Apply(candidate: seq<EpisodeData>, ghost before: map<Key, Row>, ghost sameProvider: bool,
      waiting: map<Key, Row>, rows: map<Key, Row>, first: nat, clock: nat)
    returns (ok: bool, existing: map<Key, Row>, tx: map<Key, Row>, next: nat)
    requires Working(before, [], sameProvider, waiting, rows, first, first, clock)
    ensures ok <==> DistinctKeys(candidate)
    ensures ok ==> Working(before, candidate, sameProvider, existing, tx, first, next, clock)
  {
    hide *;
    existing, tx, next := waiting, rows, first;
    assert candidate[..0] == [];
    for k := 0 to |candidate|
      invariant Working(before, candidate[..k], sameProvider, existing, tx, first, next, clock)
    {
      assert candidate[..k + 1] == candidate[..k] + [candidate[k]];
      ghost var done := candidate[..k];
      ok, existing, tx, next := ApplyOne(candidate[k], before, done, sameProvider, existing, tx, first, next, clock);
      if !ok {
        Repeated(candidate, k);
        return;
      }
    }
    assert candidate[..|candidate|] == candidate;
    WorkedThrough(before, candidate, sameProvider, existing, tx, first, next, clock);
    ok := true;
  }

  method ApplyOne(d: EpisodeData, ghost before: map<Key, Row>, ghost done: seq<EpisodeData>, ghost sameProvider: bool,
      waiting: map<Key, Row>, rows: map<Key, Row>, first: nat, next: nat, clock: nat)
    returns (ok: bool, existing: map<Key, Row>, tx: map<Key, Row>, following: nat)
    requires Working(before, done, sameProvider, waiting, rows, first, next, clock)
    ensures ok ==> Working(before, done + [d], sameProvider, existing, tx, first, following, clock)
    ensures !ok ==> HasKey(done, d.key)
  {
    hide HasKey, DistinctKeys, OwnIds;
    existing, tx, following := waiting, rows, next;
    if d.key in existing {
      UpdateStep(before, done, sameProvider, existing, tx, first, next, clock, d);
      tx := tx[d.key := Row(existing[d.key].id, NewEpisode(d), existing[d.key].createdAt)];
      existing := existing - {d.key};
    } else {
      if d.key in tx {
        return false, existing, tx, following;
      }
      CreateStep(before, done, sameProvider, existing, tx, first, next, clock, d);
      tx, following := tx[d.key := Row(following, NewEpisode(d), clock)], following + 1;
    }
    hide *;
    ok := true;
  }

  lemma Repeated(candidate: seq<EpisodeData>, k: nat)
    requires k < |candidate| && HasKey(candidate[..k], candidate[k].key)
    ensures !DistinctKeys(candidate)
  {
    var d :| d in candidate[..k] && d.key == candidate[k].key;
    var j :| 0 <= j < k && candidate[j] == d;
  }

  lemma WorkedThrough(before: map<Key, Row>, done: seq<EpisodeData>, sameProvider: bool,
      existing: map<Key, Row>, tx: map<Key, Row>, first: nat, next: nat, clock: nat)
    requires Working(before, done, sameProvider, existing, tx, first, next, clock)
    ensures DistinctKeys(done)
  {
  }

  /** What a row must be once its episode has come up. */
  predicate Placed(before: map<Key, Row>, sameProvider: bool, first: nat, clock: nat, d: EpisodeData, row: Row) {
    row.content == NewEpisode(d) &&
    if sameProvider && d.key in before then row.id == before[d.key].id && row.createdAt == before[d.key].createdAt
    else first <= row.id && row.createdAt == clock
  }

  /** Halfway through the candidate: its first episodes are in place, and `existing` are the old rows not met yet. */
  ghost predicate Working(before: map<Key, Row>, done: seq<EpisodeData>, sameProvider: bool,
      existing: map<Key, Row>, tx: map<Key, Row>, first: nat, next: nat, clock: nat)
  {
    DistinctKeys(done) && OwnIds(before, first) && OwnIds(tx, next) && first <= next &&
    (forall d :: d in done ==> d.key in tx && Placed(before, sameProvider, first, clock, d, tx[d.key])) &&
    (forall k :: k in tx ==> HasKey(done, k) || k in existing) &&
    forall k :: (k in existing <==> sameProvider && k in before && !HasKey(done, k)) &&
                (k in existing ==> existing[k] == before[k] && k in tx && tx[k] == before[k])
  }

  lemma StartWorking(before: map<Key, Row>, sameProvider: bool, existing: map<Key, Row>, tx: map<Key, Row>, first: nat, clock: nat)
    requires OwnIds(before, first) && existing == tx == if sameProvider then before else map[]
    ensures Working(before, [], sameProvider, existing, tx, first, first, clock)
  {
  }

  lemma OneMore(done: seq<EpisodeData>, d: EpisodeData)
    ensures forall key :: HasKey(done + [d], key) <==> HasKey(done, key) || d.key == key
    ensures DistinctKeys(done) && !HasKey(done, d.key) ==> DistinctKeys(done + [d])
    ensures forall e :: e in done ==> HasKey(done, e.key)
  {
    forall key ensures HasKey(done + [d], key) <==> HasKey(done, key) || d.key == key {
      if HasKey(done, key) {
        var e :| e in done && e.key == key;
        assert e in done + [d];
      }
      if d.key == key { assert d in done + [d]; }
    }
    assert forall i :: 0 <= i < |done| ==> done[i] in done;
  }

  lemma UpdateStep(before: map<Key, Row>, done: seq<EpisodeData>, sameProvider: bool,
      existing: map<Key, Row>, tx: map<Key, Row>, first: nat, next: nat, clock: nat, d: EpisodeData)
    requires Working(before, done, sameProvider, existing, tx, first, next, clock) && d.key in existing
    ensures Working(before, done + [d], sameProvider, existing - {d.key},
                    tx[d.key := Row(existing[d.key].id, NewEpisode(d), existing[d.key].createdAt)], first, next, clock)
  {
    OneMore(done, d);
    hide HasKey, DistinctKeys;
  }

  lemma CreateStep(before: map<Key, Row>, done: seq<EpisodeData>, sameProvider: bool,
      existing: map<Key, Row>, tx: map<Key, Row>, first: nat, next: nat, clock: nat, d: EpisodeData)
    requires Working(before, done, sameProvider, existing, tx, first, next, clock) && d.key !in existing && d.key !in tx
    ensures Working(before, done + [d], sameProvider, existing, tx[d.key := Row(next, NewEpisode(d), clock)], first, next + 1, clock)
  {
    hide HasKey, DistinctKeys, OwnIds, Placed;
    OneMore(done, d);
    var row := Row(next, NewEpisode(d), clock);
    NewId(tx, next, d.key, row);
    NotMet(before, done, sameProvider, existing, tx, first, next, clock, d);
    assert !(sameProvider && d.key in before);
    NewlyPlaced(before, sameProvider, first, clock, d, row);
  }

  lemma NotMet(before: map<Key, Row>, done: seq<EpisodeData>, sameProvider: bool,
      existing: map<Key, Row>, tx: map<Key, Row>, first: nat, next: nat, clock: nat, d: EpisodeData)
    requires Working(before, done, sameProvider, existing, tx, first, next, clock) && d.key !in tx
    ensures !HasKey(done, d.key)
  {
  }

  lemma NewlyPlaced(before: map<Key, Row>, sameProvider: bool, first: nat, clock: nat, d: EpisodeData, row: Row)
    requires row.content == NewEpisode(d) && row.createdAt == clock && first <= row.id && !(sameProvider && d.key in before)
    ensures Placed(before, sameProvider, first, clock, d, row)
  {
  }

  lemma NewId(tx: map<Key, Row>, next: nat, k: Key, row: Row)
    requires OwnIds(tx, next) && row.id == next
    ensures OwnIds(tx[k := row], next + 1)
  {
  }

  lemma Finish(before: map<Key, Row>, candidate: seq<EpisodeData>, sameProvider: bool,
      existing: map<Key, Row>, tx: map<Key, Row>, first: nat, next: nat, clock: nat)
    requires Working(before, candidate, sameProvider, existing, tx, first, next, clock)
    ensures var after := tx - existing.Keys;
            DistinctKeys(candidate) && OwnIds(after, next) && first <= next &&
            HoldsCatalog(after, candidate) && KeepsIdentity(before, after, sameProvider, first, clock)
  {
    hide DistinctKeys, OwnIds;
    FewerIds(tx, existing.Keys, next);
    var after := tx - existing.Keys;
    forall k | k in after
      ensures HasKey(candidate, k) && k !in existing &&
              exists d :: d in candidate && d.key == k && Placed(before, sameProvider, first, clock, d, after[k])
    {
      var d :| d in candidate && d.key == k;
    }
    forall d | d in candidate ensures d.key in after && after[d.key].content == NewEpisode(d) {
      assert HasKey(candidate, d.key);
    }
    hide HasKey;
  }

  lemma FewerIds(tx: map<Key, Row>, gone: set<Key>, next: nat)
    requires OwnIds(tx, next)
    ensures OwnIds(tx - gone, next)
  {
  }

  lemma FinishLinks(before: map<Key, Row>, links: map<nat, Option<nat>>, candidate: seq<EpisodeData>, sameProvider: bool,
      existing: map<Key, Row>, tx: map<Key, Row>, first: nat, next: nat, clock: nat)
    requires Working(before, candidate, sameProvider, existing, tx, first, next, clock)
    ensures KeepsLinks(before, candidate, sameProvider, links,
                       Cleared(if sameProvider then links else Cleared(links, Ids(before)), Ids(existing)))
  {
    hide HasKey, DistinctKeys, OwnIds, Placed;
    forall id: nat ensures Lost(before, candidate, sameProvider, id) <==> id in Ids(if sameProvider then existing else before) {
      if Lost(before, candidate, sameProvider, id) {
        var k :| k in before && before[k].id == id && !(sameProvider && HasKey(candidate, k));
        if sameProvider { assert k in existing; }
      }
    }
    assert !sameProvider ==> existing.Keys == {};
    hide Lost, Working;
    assert !sameProvider ==> Ids(existing) == {};
  }
}
