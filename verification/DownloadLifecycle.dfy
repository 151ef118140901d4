/** The life of one download row (download/service.go and importer/service.go under backend/internal). */
module DownloadLifecycle {
  import opened Wrappers
  import opened DownloadRows

  // Three goroutines hold copies of the row: the download worker, the importer and the metadata refresher. A write
  // carries the version its copy was read at and takes effect only when the stored row still has it
  // (backend/internal/store/sqlite/download.go). Users retry or cancel the download inside a transaction at any
  // moment, the store may refuse any write, and the process may restart. Rows do not influence each other, so one row
  // is enough.

  /** `delay` is the backoff in seconds behind NextRetryAt, `resolved` whether the episode is known. */
  datatype Row = Row(
    status: Status, linked: bool, retry: nat, delay: Option<nat>, hash: bool, resolved: bool, version: nat)

  const MAX_RETRIES: nat := 5

  /** The same table serves sending and importing. */
  const RETRY_BACKOFF: seq<nat> := [30, 120, 600, 1800, 3600]

  /** The row, the copies held by the workers, every version ever stored, and the versions on which the importer deleted the torrent. */
  datatype System = System(
    row: Row,
    downloader: Option<Row>,
    importer: Option<Row>,
    refresher: Option<Row>,
    history: seq<Row>,
    deletions: seq<nat>)

  datatype SendOutcome = Canceled | Refused | Accepted(hash: bool)
  datatype Torrent = Missing | Running | Finished | Errored | Unclear

  /** `up` says whether the store is able to take the write. */
  datatype Action =
    | DownloaderReads
    | Send(outcome: SendOutcome, up: bool)
    | Poll(torrent: Torrent, up: bool)
    | ImporterReads
    | Claim(up: bool)
    | Abandon
    | FailImport(up: bool)
    | RetryImport(up: bool)
    | Commit(needsSeeding: bool, up: bool)
    | Cleanup(torrent: Torrent, seeded: bool, up: bool)
    | RefresherReads
    | Resolve(up: bool)
    | ManualRetry(oldError: bool)
    | Cancel
    | Restart(up: bool)

  // ----- What each step writes

  function AfterSendFailure(dl: Row): Row {
    if dl.retry < MAX_RETRIES then dl.(retry := dl.retry + 1, delay := Some(RETRY_BACKOFF[dl.retry]))
    else dl.(status := Failed, delay := None)
  }

  function AfterMissing(dl: Row): Row {
    if dl.linked then dl.(status := Completed) else dl.(status := Failed, hash := false, delay := None)
  }

  function AfterPoll(dl: Row, torrent: Torrent): Option<Row> {
    if torrent.Missing? then Some(AfterMissing(dl))
    else if dl.status.Downloading? && torrent.Finished? then Some(dl.(status := Downloaded))
    else if dl.status.Downloading? && torrent.Errored? then Some(dl.(status := Failed, delay := None))
    else None
  }

  function AfterImportFailure(dl: Row): Row { dl.(status := ImportFailed, delay := None) }

  function AfterImportRetry(dl: Row): Row {
    if dl.retry >= MAX_RETRIES then AfterImportFailure(dl)
    else dl.(status := Downloaded, retry := dl.retry + 1, delay := Some(RETRY_BACKOFF[dl.retry]))
  }

  function AfterImport(dl: Row, needsSeeding: bool): Row {
    dl.(linked := true, status := if needsSeeding then Seeding else Completed)
  }

  /** Seeding ends when the hash is empty, the torrent is gone or the obligations are met. */
  predicate SeedingEnds(dl: Row, torrent: Torrent, seeded: bool) {
    dl.linked && (!dl.hash || torrent.Missing? || seeded)
  }

  function AfterManualRetry(row: Row, oldError: bool): Option<Row> {
    if row.status.Pending? && row.retry == 0 && row.delay.None? && !oldError then None
    else Some(row.(status := Pending, retry := 0, delay := None))
  }

  predicate Resolvable(dl: Row) {
    !dl.resolved && !dl.status.Importing? && !dl.status.Completed? && !dl.status.Failed?
  }

  // ----- Steps

  predicate Takes(s: System, next: Row, up: bool) { up && next.version == s.row.version }

  function Write(s: System, next: Row, up: bool): System {
    if Takes(s, next, up) then
      var stored := next.(version := |s.history|);
      s.(row := stored, history := s.history + [stored])
    else s
  }

  /** The importer deletes the torrent of a row whose completion it has just stored. */
  function Complete(s: System, next: Row, up: bool, deletes: bool): System {
    var s1 := Write(s, next, up);
    if Takes(s, next, up) && next.status.Completed? && next.hash && deletes
    then s1.(deletions := s1.deletions + [s1.row.version])
    else s1
  }

  predicate Holds(held: Option<Row>, status: Status) { held.Some? && held.value.status == status }

  predicate Enabled(s: System, a: Action) {
    match a
    case DownloaderReads => s.row.status in {Pending, Downloading, Seeding}
    case Send(_, _) => Holds(s.downloader, Pending)
    case Poll(_, _) => (Holds(s.downloader, Downloading) || Holds(s.downloader, Seeding)) && s.downloader.value.hash
    case ImporterReads => s.row.status in {Downloaded, Seeding}
    case Claim(_) => Holds(s.importer, Downloaded)
    case Abandon => Holds(s.importer, Importing)
    case FailImport(_) => Holds(s.importer, Importing)
    case RetryImport(_) => Holds(s.importer, Importing)
    case Commit(_, _) => Holds(s.importer, Importing) && s.importer.value.hash
    case Cleanup(_, _, _) => Holds(s.importer, Seeding)
    case Resolve(_) => s.refresher.Some?
    case _ => true
  }

  function Do(s: System, a: Action): System
    requires Enabled(s, a)
  {
    match a
    case DownloaderReads => s.(downloader := Some(s.row))
    case Send(outcome, up) =>
      var dl, s0 := s.downloader.value, s.(downloader := None);
      (match outcome
       case Canceled => s0
       case Refused => Write(s0, AfterSendFailure(dl), up)
       case Accepted(hash) => Write(s0, dl.(status := Downloading, hash := hash, retry := 0, delay := None), up))
    case Poll(torrent, up) =>
      var dl, s0 := s.downloader.value, s.(downloader := None);
      var next := AfterPoll(dl, torrent);
      if next.Some? then Write(s0, next.value, up) else s0
    case ImporterReads => s.(importer := Some(s.row))
    case Claim(up) =>
      var claimed := s.importer.value.(status := Importing);
      var s1 := Write(s, claimed, up);
      s1.(importer := if Takes(s, claimed, up) then Some(s1.row) else None)
    case Abandon => s.(importer := None)
    case FailImport(up) => Write(s.(importer := None), AfterImportFailure(s.importer.value), up)
    case RetryImport(up) => Write(s.(importer := None), AfterImportRetry(s.importer.value), up)
    case Commit(needsSeeding, up) => Complete(s.(importer := None), AfterImport(s.importer.value, needsSeeding), up, true)
    case Cleanup(torrent, seeded, up) =>
      var dl, s0 := s.importer.value, s.(importer := None);
      if SeedingEnds(dl, torrent, seeded) then Complete(s0, dl.(status := Completed), up, !torrent.Missing?) else s0
    case RefresherReads => s.(refresher := Some(s.row))
    case Resolve(up) =>
      var dl, s0 := s.refresher.value, s.(refresher := None);
      if Resolvable(dl) then Write(s0, dl.(resolved := true), up) else s0
    case ManualRetry(oldError) =>
      var next := AfterManualRetry(s.row, oldError);
      if next.Some? then Write(s, next.value, true) else s
    case Cancel => if s.row.status.Cancelled? then s else Write(s, s.row.(status := Cancelled), true)
    case Restart(up) =>
      var s0 := s.(downloader := None, importer := None, refresher := None);
      if s.row.status.Importing? then Write(s0, s.row.(status := Downloaded), up) else s0
  }

  predicate Init(s: System) {
    s.row.status.Pending? && !s.row.linked && s.row.retry == 0 && s.row.delay.None? && !s.row.hash &&
    s.row.version == 0 && s.history == [s.row] && s.deletions == [] &&
    s.downloader.None? && s.importer.None? && s.refresher.None?
  }

  // ----- What each report should lead to

  // The tables below name statuses, counts and delays outright. `r` is the row as the worker read it, `t` as it is stored
  // afterwards; `v` stands for the version a write gives it.

  predicate SendRight(r: Row, outcome: SendOutcome, t: Row) {
    var v := t.version;
    match outcome
    case Canceled => t == r
    case Accepted(hash) => t == r.(status := Downloading, hash := hash, retry := 0, delay := None, version := v)
    case Refused =>
      match r.retry
      case 0 => t == r.(retry := 1, delay := Some(30), version := v)
      case 1 => t == r.(retry := 2, delay := Some(120), version := v)
      case 2 => t == r.(retry := 3, delay := Some(600), version := v)
      case 3 => t == r.(retry := 4, delay := Some(1800), version := v)
      case 4 => t == r.(retry := 5, delay := Some(3600), version := v)
      case _ => t == r.(status := Failed, delay := None, version := v)
  }

  predicate PollRight(r: Row, torrent: Torrent, t: Row) {
    var v := t.version;
    match torrent
    case Missing =>
      if r.linked then t == r.(status := Completed, version := v)
      else t == r.(status := Failed, hash := false, delay := None, version := v)
    case Finished => if r.status.Downloading? then t == r.(status := Downloaded, version := v) else t == r
    case Errored => if r.status.Downloading? then t == r.(status := Failed, delay := None, version := v) else t == r
    case Running => t == r
    case Unclear => t == r
  }

  predicate DownloaderAction(a: Action) { a.Send? || a.Poll? }

  predicate ImporterAction(a: Action) {
    a.Claim? || a.Abandon? || a.FailImport? || a.RetryImport? || a.Commit? || a.Cleanup?
  }

  predicate DownloaderRight(r: Row, a: Action, t: Row)
    requires DownloaderAction(a)
  {
    match a
    case Send(outcome, _) => SendRight(r, outcome, t)
    case Poll(torrent, _) => PollRight(r, torrent, t)
  }

  predicate ImportRetryRight(r: Row, t: Row) {
    var v := t.version;
    match r.retry
    case 0 => t == r.(status := Downloaded, retry := 1, delay := Some(30), version := v)
    case 1 => t == r.(status := Downloaded, retry := 2, delay := Some(120), version := v)
    case 2 => t == r.(status := Downloaded, retry := 3, delay := Some(600), version := v)
    case 3 => t == r.(status := Downloaded, retry := 4, delay := Some(1800), version := v)
    case 4 => t == r.(status := Downloaded, retry := 5, delay := Some(3600), version := v)
    case _ => t == r.(status := ImportFailed, delay := None, version := v)
  }

  predicate ImporterRight(r: Row, a: Action, t: Row)
    requires ImporterAction(a)
  {
    var v := t.version;
    match a
    case Claim(_) => t == r.(status := Importing, version := v)
    case Abandon => t == r
    case FailImport(_) => t == r.(status := ImportFailed, delay := None, version := v)
    case RetryImport(_) => ImportRetryRight(r, t)
    case Commit(needsSeeding, _) => t == r.(linked := true, status := if needsSeeding then Seeding else Completed, version := v)
    case Cleanup(torrent, seeded, _) =>
      if !r.hash || torrent.Missing? || seeded then t == r.(status := Completed, version := v) else t == r
  }

  /** The importer lets the client delete the torrent: a stored completion, and a torrent that is still there. */
  predicate Deletes(r: Row, a: Action)
    requires ImporterAction(a)
  {
    match a
    case Commit(needsSeeding, up) => up && !needsSeeding
    case Cleanup(torrent, seeded, up) => up && r.hash && !torrent.Missing? && seeded
    case _ => false
  }

  predicate StoreUp(a: Action) {
    match a
    case Send(_, up) => up
    case Poll(_, up) => up
    case Claim(up) => up
    case FailImport(up) => up
    case RetryImport(up) => up
    case Commit(_, up) => up
    case Cleanup(_, _, up) => up
    case Resolve(up) => up
    case Restart(up) => up
    case _ => true
  }

  // ----- The steps in place

  class Service {
    var row: Row
    var downloader: Option<Row>
    var importer: Option<Row>
    var refresher: Option<Row>
    ghost var history: seq<Row>
    var nextVersion: nat
    var deletions: seq<nat>

    ghost function Snapshot(): System
      reads this
    {
      System(row, downloader, importer, refresher, history, deletions)
    }

    ghost predicate Valid()
      reads this
    {
      nextVersion == |history|
    }

    /** createAutoDownload's row. */
    constructor (resolved: bool)
      ensures Valid() && Init(Snapshot()) && row.resolved == resolved
    {
      row := Row(Pending, false, 0, None, false, resolved, 0);
      downloader, importer, refresher, deletions := None, None, None, [];
      history, nextVersion := [Row(Pending, false, 0, None, false, resolved, 0)], 1;
    }

    method UpdateDownload(next: Row, up: bool) returns (stored: Option<Row>)
      requires Valid()
      modifies this`row, this`history, this`nextVersion
      ensures Valid() && Snapshot() == Write(old(Snapshot()), next, up)
      ensures stored == if Takes(old(Snapshot()), next, up) then Some(row) else None
    {
      if !up || next.version != row.version {
        return None;
      }
      row := next.(version := nextVersion);
      history, nextVersion := history + [row], nextVersion + 1;
      return Some(row);
    }

    method HandleRetry(dl: Row, canceled: bool, up: bool)
      requires Valid() && dl.status.Pending?
      modifies this`row, this`history, this`nextVersion
      ensures Valid()
      ensures Snapshot() == if canceled then old(Snapshot()) else Write(old(Snapshot()), AfterSendFailure(dl), up)
    {
      if canceled {
        return;
      }
      var nextDL := dl;
      if dl.retry < MAX_RETRIES {
        nextDL := nextDL.(retry := nextDL.retry + 1);
        nextDL := nextDL.(delay := Some(RETRY_BACKOFF[nextDL.retry - 1]));
      } else {
        nextDL := nextDL.(status := Failed, delay := None);
      }
      var _ := UpdateDownload(nextDL, up);
    }

    method SendPending(outcome: SendOutcome, up: bool)
      requires Valid() && Enabled(Snapshot(), Send(outcome, up))
      modifies this
      ensures Valid() && Snapshot() == Do(old(Snapshot()), Send(outcome, up))
      ensures up && old(downloader) == Some(old(row)) ==> SendRight(old(row), outcome, row)
    {
      var dl := downloader.value;
      downloader := None;
      if !outcome.Accepted? {
        HandleRetry(dl, outcome.Canceled?, up);
        return;
      }
      dl := dl.(status := Downloading, hash := outcome.hash, retry := 0, delay := None);
      var _ := UpdateDownload(dl, up);
    }

    method HandleMissingTorrent(dl: Row, up: bool)
      requires Valid() && (dl.status.Downloading? || dl.status.Seeding?)
      modifies this`row, this`history, this`nextVersion
      ensures Valid() && Snapshot() == Write(old(Snapshot()), AfterMissing(dl), up)
    {
      var nextDL := dl;
      if dl.linked {
        nextDL := nextDL.(status := Completed);
      } else {
        nextDL := nextDL.(status := Failed, hash := false, delay := None);
      }
      var _ := UpdateDownload(nextDL, up);
    }

    method PollActive(torrent: Torrent, up: bool)
      requires Valid() && Enabled(Snapshot(), Poll(torrent, up))
      modifies this
      ensures Valid() && Snapshot() == Do(old(Snapshot()), Poll(torrent, up))
      ensures up && old(downloader) == Some(old(row)) ==> PollRight(old(row), torrent, row)
    {
      var dl := downloader.value;
      downloader := None;
      if torrent.Missing? {
        HandleMissingTorrent(dl, up);
        return;
      }
      if !dl.status.Downloading? {
        return;
      }
      var newStatus := dl.status;
      match torrent {
        case Finished => newStatus := Downloaded;
        case Errored => newStatus := Failed;
        case _ => return;
      }
      var nextDL := dl.(status := newStatus);
      if newStatus.Failed? {
        nextDL := nextDL.(delay := None);
      }
      var _ := UpdateDownload(nextDL, up);
    }

    method ClaimImport(up: bool)
      requires Valid() && Enabled(Snapshot(), Claim(up))
      modifies this
      ensures Valid() && Snapshot() == Do(old(Snapshot()), Claim(up))
    {
      var claimed := importer.value.(status := Importing);
      importer := UpdateDownload(claimed, up);
    }

    method MarkImportFailed(dl: Row, up: bool)
      requires Valid() && (dl.status.Importing? || dl.status.Downloaded?)
      modifies this`row, this`history, this`nextVersion
      ensures Valid() && Snapshot() == Write(old(Snapshot()), AfterImportFailure(dl), up)
    {
      var nextDL := dl.(status := ImportFailed, delay := None);
      var _ := UpdateDownload(nextDL, up);
    }

    method RescheduleImport(up: bool)
      requires Valid() && Enabled(Snapshot(), RetryImport(up))
      modifies this
      ensures Valid() && Snapshot() == Do(old(Snapshot()), RetryImport(up))
      ensures up && old(importer) == Some(old(row)) ==> ImportRetryRight(old(row), row)
    {
      var dl := importer.value;
      importer := None;
      if dl.retry >= MAX_RETRIES {
        MarkImportFailed(dl, up);
        return;
      }
      var nextDL := dl.(retry := dl.retry + 1);
      nextDL := nextDL.(delay := Some(RETRY_BACKOFF[nextDL.retry - 1]), status := Downloaded);
      var _ := UpdateDownload(nextDL, up);
    }

    method RemoveCompletedTorrent(dl: Row, client: bool)
      modifies this`deletions
      ensures deletions == if client && dl.hash then old(deletions) + [dl.version] else old(deletions)
    {
      if !client || !dl.hash {
        return;
      }
      deletions := deletions + [dl.version];
    }

    method CommitImport(needsSeeding: bool, up: bool)
      requires Valid() && Enabled(Snapshot(), Commit(needsSeeding, up))
      modifies this
      ensures Valid() && Snapshot() == Do(old(Snapshot()), Commit(needsSeeding, up))
      ensures up && old(importer) == Some(old(row)) ==> ImporterRight(old(row), Commit(needsSeeding, up), row)
    {
      var nextDL := importer.value.(linked := true);
      importer := None;
      nextDL := nextDL.(status := if needsSeeding then Seeding else Completed);
      var stored := UpdateDownload(nextDL, up);
      if stored.Some? && stored.value.status.Completed? {
        RemoveCompletedTorrent(stored.value, true);
      }
    }

    method CompleteDownload(dl: Row, client: bool, up: bool)
      requires Valid() && dl.status.Seeding?
      modifies this`row, this`history, this`nextVersion, this`deletions
      ensures Valid() && Snapshot() == Complete(old(Snapshot()), dl.(status := Completed), up, client)
    {
      var stored := UpdateDownload(dl.(status := Completed), up);
      if stored.Some? {
        RemoveCompletedTorrent(stored.value, client);
      }
    }

    method CleanupSeeding(torrent: Torrent, seeded: bool, up: bool)
      requires Valid() && Enabled(Snapshot(), Cleanup(torrent, seeded, up))
      modifies this
      ensures Valid() && Snapshot() == Do(old(Snapshot()), Cleanup(torrent, seeded, up))
      ensures up && old(importer) == Some(old(row)) && row.linked ==> ImporterRight(old(row), Cleanup(torrent, seeded, up), row)
    {
      var dl := importer.value;
      importer := None;
      if !dl.linked {
        return;
      }
      if !dl.hash {
        CompleteDownload(dl, true, up);
        return;
      }
      if torrent.Missing? {
        CompleteDownload(dl, false, up);
        return;
      }
      if seeded {
        CompleteDownload(dl, true, up);
      }
    }

    /** `oldError`: the row still carries the text of an error. */
    method RetryManually(oldError: bool)
      requires Valid()
      modifies this
      ensures Valid() && Snapshot() == Do(old(Snapshot()), ManualRetry(oldError))
    {
      var changed := !row.status.Pending?;
      if row.retry != 0 || row.delay.Some? || oldError {
        changed := true;
      }
      if !changed {
        return;
      }
      var _ := UpdateDownload(row.(status := Pending, retry := 0, delay := None), true);
    }

    method RecoverStuckImporting(up: bool)
      requires Valid()
      modifies this
      ensures Valid() && Snapshot() == Do(old(Snapshot()), Restart(up))
    {
      downloader, importer, refresher := None, None, None;
      if row.status.Importing? {
        var _ := UpdateDownload(row.(status := Downloaded), up);
      }
    }
  }

  // ----- The invariant

  predicate RowInv(row: Row) {
    row.retry <= MAX_RETRIES &&
    (row.delay.Some? ==> row.retry > 0 && row.delay.value == RETRY_BACKOFF[row.retry - 1]) &&
    (row.status.Seeding? || row.status.Completed? ==> row.linked) &&
    (row.status.Downloading? ==> row.retry == 0)
  }

  /** A held copy is a version the store once had. */
  predicate Genuine(held: Option<Row>, history: seq<Row>) {
    held.Some? ==> held.value.version < |history| && history[held.value.version] == held.value
  }

  predicate Inv(s: System) {
    |s.history| > 0 && s.row == s.history[|s.history| - 1] &&
    (forall v :: 0 <= v < |s.history| ==> s.history[v].version == v && RowInv(s.history[v])) &&
    Genuine(s.downloader, s.history) && Genuine(s.importer, s.history) && Genuine(s.refresher, s.history) &&
    (s.downloader.Some? ==> s.downloader.value.status in {Pending, Downloading, Seeding}) &&
    (s.importer.Some? ==> s.importer.value.status in {Downloaded, Importing, Seeding}) &&
    forall d :: d in s.deletions ==> d < |s.history| && s.history[d].status.Completed? && s.history[d].linked && s.history[d].hash
  }

  lemma WriteInv(s: System, next: Row, up: bool)
    requires Inv(s) && (Takes(s, next, up) ==> RowInv(next))
    ensures Inv(Write(s, next, up))
  {
  }

  lemma CompleteInv(s: System, next: Row, up: bool, deletes: bool)
    requires Inv(s) && (Takes(s, next, up) ==> RowInv(next))
    ensures Inv(Complete(s, next, up, deletes))
  {
    WriteInv(s, next, up);
    hide RowInv, Genuine;
  }

  /** The state with one copy dropped, as most steps leave it before they write. */
  lemma DropInv(s: System)
    requires Inv(s)
    ensures Inv(s.(downloader := None)) && Inv(s.(importer := None)) && Inv(s.(refresher := None))
    ensures Inv(s.(downloader := None, importer := None, refresher := None))
    ensures RowInv(s.row)
    ensures Genuine(s.downloader, s.history) && Genuine(s.importer, s.history) && Genuine(s.refresher, s.history)
    ensures s.downloader.Some? ==> RowInv(s.downloader.value)
    ensures s.importer.Some? ==> RowInv(s.importer.value)
    ensures s.refresher.Some? ==> RowInv(s.refresher.value)
  {
    hide RowInv;
  }

  lemma ReadInv(s: System, a: Action)
    requires Inv(s) && Enabled(s, a) && (a.DownloaderReads? || a.ImporterReads? || a.RefresherReads?)
    ensures Inv(Do(s, a))
  {
    hide RowInv;
  }

  lemma ClaimInv(s: System, up: bool)
    requires Inv(s) && Enabled(s, Claim(up))
    ensures Inv(Do(s, Claim(up)))
  {
    DropInv(s);
    WriteInv(s, s.importer.value.(status := Importing), up);
  }

  predicate UserAction(a: Action) { a.ManualRetry? || a.Cancel? }

  lemma DownloaderInv(s: System, a: Action)
    requires Inv(s) && Enabled(s, a) && DownloaderAction(a)
    ensures Inv(Do(s, a))
  {
    hide Inv, Write;
    DropInv(s);
    var dl, s0 := s.downloader.value, s.(downloader := None);
    match a {
      case Send(Accepted(hash), up) =>
        WriteInv(s0, dl.(status := Downloading, hash := hash, retry := 0, delay := None), up);
      case Send(_, up) => WriteInv(s0, AfterSendFailure(dl), up);
      case Poll(torrent, up) => if AfterPoll(dl, torrent).Some? { WriteInv(s0, AfterPoll(dl, torrent).value, up); }
    }
  }

  lemma ImporterInv(s: System, a: Action)
    requires Inv(s) && Enabled(s, a) && ImporterAction(a)
    ensures Inv(Do(s, a))
  {
    hide Inv, Write, Complete;
    DropInv(s);
    var dl, s0 := s.importer.value, s.(importer := None);
    match a {
      case Claim(up) => ClaimInv(s, up);
      case FailImport(up) => WriteInv(s0, AfterImportFailure(dl), up);
      case RetryImport(up) => WriteInv(s0, AfterImportRetry(dl), up);
      case Commit(needsSeeding, up) => CompleteInv(s0, AfterImport(dl, needsSeeding), up, true);
      case Cleanup(torrent, seeded, up) => CompleteInv(s0, dl.(status := Completed), up, !torrent.Missing?);
      case _ =>
    }
  }

  lemma OtherInv(s: System, a: Action)
    requires Inv(s) && Enabled(s, a) && (a.Resolve? || UserAction(a) || a.Restart?)
    ensures Inv(Do(s, a))
  {
    hide Inv, Write;
    DropInv(s);
    match a {
      case Resolve(up) => WriteInv(s.(refresher := None), s.refresher.value.(resolved := true), up);
      case ManualRetry(oldError) =>
        if AfterManualRetry(s.row, oldError).Some? { WriteInv(s, AfterManualRetry(s.row, oldError).value, true); }
      case Cancel => if !s.row.status.Cancelled? { WriteInv(s, s.row.(status := Cancelled), true); }
      case Restart(up) =>
        if s.row.status.Importing? {
          WriteInv(s.(downloader := None, importer := None, refresher := None), s.row.(status := Downloaded), up);
        }
    }
  }

  lemma StepInv(s: System, a: Action)
    requires Inv(s) && Enabled(s, a)
    ensures Inv(Do(s, a))
  {
    hide Inv, Do, Enabled;
    if DownloaderAction(a) {
      DownloaderInv(s, a);
    } else if ImporterAction(a) {
      ImporterInv(s, a);
    } else if a.DownloaderReads? || a.ImporterReads? || a.RefresherReads? {
      ReadInv(s, a);
    } else {
      OtherInv(s, a);
    }
  }

  ghost predicate Run(states: seq<System>, actions: seq<Action>) {
    |states| == |actions| + 1 && Init(states[0]) &&
    forall k :: 0 <= k < |actions| ==> Enabled(states[k], actions[k]) && states[k + 1] == Do(states[k], actions[k])
  }

  lemma {:induction false} RunInv(states: seq<System>, actions: seq<Action>, k: nat)
    requires Run(states, actions) && k < |states|
    ensures Inv(states[k])
  {
    if k > 0 {
      RunInv(states, actions, k - 1);
      hide Inv, Do;
      StepInv(states[k - 1], actions[k - 1]);
    }
  }

  /** The safety of every reachable row: retries stay in range, finished rows are linked, the backoff is the table's. */
  lemma ReachableRows(states: seq<System>, actions: seq<Action>, k: nat)
    requires Run(states, actions) && k < |states|
    ensures var row := states[k].row;
            row.retry <= 5 && (row.status.Seeding? || row.status.Completed? ==> row.linked) &&
            (row.delay.Some? ==> row.retry > 0 && row.delay.value == RETRY_BACKOFF[row.retry - 1])
  {
    RunInv(states, actions, k);
  }

  /** The importer deletes a torrent only on a version that was already stored as completed, linked and with its hash. */
  lemma DeletedOnlyOnceCompleted(states: seq<System>, actions: seq<Action>, k: nat, d: nat)
    requires Run(states, actions) && k < |states| && d in states[k].deletions
    ensures d < |states[k].history|
    ensures var row := states[k].history[d]; row.status.Completed? && row.linked && row.hash
  {
    RunInv(states, actions, k);
  }

  // ----- Every write by a worker follows the lifecycle

  predicate WorkerEdge(r: Row, t: Row) {
    t.version == r.version + 1 && (r.linked ==> t.linked) &&
    if t.status == r.status && t.resolved != r.resolved then t == r.(resolved := true, version := t.version)
    else
      t.resolved == r.resolved &&
      match r.status
      case Pending =>
        t.linked == r.linked &&
        (match t.status
         case Pending => t.retry == r.retry + 1 && t.retry <= 5 && t.hash == r.hash
         case Failed => r.retry == 5 && t.retry == 5 && t.hash == r.hash
         case Downloading => t.retry == 0 && t.delay.None?
         case _ => false)
      case Downloading =>
        t.linked == r.linked && t.retry == 0 &&
        (match t.status
         case Downloaded => t.hash == r.hash
         case Failed => t.hash ==> r.hash
         case Completed => r.linked && t.hash == r.hash
         case _ => false)
      case Downloaded => t == r.(status := Importing, version := t.version)
      case Importing =>
        t.hash == r.hash &&
        (match t.status
         case Downloaded => t.retry == r.retry + 1 && t.retry <= 5 && t.linked == r.linked
         case ImportFailed => t.retry == r.retry && t.delay.None? && t.linked == r.linked
         case Seeding => t.retry == r.retry && t.linked
         case Completed => t.retry == r.retry && t.linked
         case _ => false)
      case Seeding => t == r.(status := Completed, version := t.version)
      case _ => false
  }

  predicate WorkerStep(a: Action) { !UserAction(a) && !a.Restart? }

  /** A step leaves the row and its history alone, or stores exactly one new version. */
  predicate Wrote(s: System, t: System) {
    t.history == s.history + [t.row] && t.row.version == |s.history|
  }

  /** A step that either writes along an edge of the lifecycle or leaves the row and its history alone. */
  predicate Follows(s: System, t: System) {
    (t.row == s.row && t.history == s.history) || (Wrote(s, t) && WorkerEdge(s.row, t.row))
  }

  lemma WriteFollows(s: System, s0: System, held: Row, next: Row, up: bool, deletes: bool)
    requires Inv(s) && s0.row == s.row && s0.history == s.history
    requires Genuine(Some(held), s.history) && next.version == held.version
    requires RowInv(held) ==> WorkerEdge(held, Next(next))
    ensures Follows(s, Write(s0, next, up)) && Follows(s, Complete(s0, next, up, deletes))
  {
    assert s.row.version + 1 == |s.history|;
    hide Inv, WorkerEdge, RowInv;
  }

  function Next(r: Row): Row { r.(version := r.version + 1) }

  lemma DownloaderEdges(dl: Row, hash: bool, torrent: Torrent)
    requires RowInv(dl)
    ensures dl.status.Pending? ==>
              WorkerEdge(dl, Next(dl.(status := Downloading, hash := hash, retry := 0, delay := None))) &&
              WorkerEdge(dl, Next(AfterSendFailure(dl)))
    ensures (dl.status.Downloading? || dl.status.Seeding?) && AfterPoll(dl, torrent).Some? ==>
              WorkerEdge(dl, Next(AfterPoll(dl, torrent).value))
  {
  }

  lemma ImporterEdges(dl: Row, needsSeeding: bool)
    requires RowInv(dl)
    ensures dl.status.Downloaded? ==> WorkerEdge(dl, Next(dl.(status := Importing)))
    ensures dl.status.Importing? ==>
              WorkerEdge(dl, Next(AfterImportFailure(dl))) && WorkerEdge(dl, Next(AfterImportRetry(dl))) &&
              WorkerEdge(dl, Next(AfterImport(dl, needsSeeding)))
    ensures dl.status.Seeding? ==> WorkerEdge(dl, Next(dl.(status := Completed)))
  {
  }

  lemma DownloaderEdge(s: System, a: Action)
    requires Inv(s) && Enabled(s, a) && DownloaderAction(a)
    ensures Follows(s, Do(s, a))
  {
    hide Inv, Write, Genuine, WorkerEdge, RowInv, AfterPoll, AfterSendFailure;
    DropInv(s);
    var dl, s0 := s.downloader.value, s.(downloader := None);
    match a {
      case Send(Accepted(hash), up) =>
        DownloaderEdges(dl, hash, Missing);
        WriteFollows(s, s0, dl, dl.(status := Downloading, hash := hash, retry := 0, delay := None), up, false);
      case Send(_, up) =>
        DownloaderEdges(dl, false, Missing);
        WriteFollows(s, s0, dl, AfterSendFailure(dl), up, false);
      case Poll(torrent, up) =>
        DownloaderEdges(dl, false, torrent);
        if AfterPoll(dl, torrent).Some? { WriteFollows(s, s0, dl, AfterPoll(dl, torrent).value, up, false); }
    }
  }

  lemma SameFollows(s: System, t: System)
    requires t.row == s.row && t.history == s.history
    ensures Follows(s, t)
  {
  }

  lemma ClaimEdge(s: System, up: bool)
    requires Inv(s) && Enabled(s, Claim(up))
    ensures Follows(s, Do(s, Claim(up)))
  {
    hide Inv, Write, Genuine, WorkerEdge, RowInv;
    DropInv(s);
    var dl := s.importer.value;
    ImporterEdges(dl, false);
    WriteFollows(s, s, dl, dl.(status := Importing), up, false);
  }

  lemma ImporterEdge(s: System, a: Action)
    requires Inv(s) && Enabled(s, a) && ImporterAction(a)
    ensures Follows(s, Do(s, a))
  {
    hide Inv, Write, Complete, Genuine, WorkerEdge, RowInv, AfterImportRetry, Follows;
    SameFollows(s, s.(importer := None));
    DropInv(s);
    var dl, s0 := s.importer.value, s.(importer := None);
    ImporterEdges(dl, if a.Commit? then a.needsSeeding else false);
    match a {
      case Claim(up) => ClaimEdge(s, up);
      case FailImport(up) => WriteFollows(s, s0, dl, AfterImportFailure(dl), up, false);
      case RetryImport(up) => WriteFollows(s, s0, dl, AfterImportRetry(dl), up, false);
      case Commit(needsSeeding, up) => WriteFollows(s, s0, dl, AfterImport(dl, needsSeeding), up, true);
      case Cleanup(torrent, _, up) => WriteFollows(s, s0, dl, dl.(status := Completed), up, !torrent.Missing?);
      case _ =>
    }
  }

  lemma ResolveEdge(s: System, up: bool)
    requires Inv(s) && Enabled(s, Resolve(up))
    ensures Follows(s, Do(s, Resolve(up)))
  {
    DropInv(s);
    var dl := s.refresher.value;
    if Resolvable(dl) { WriteFollows(s, s.(refresher := None), dl, dl.(resolved := true), up, false); }
    hide Inv, Write, Genuine, WorkerEdge;
  }

  /** Whatever the interleaving, no worker write skips a stage, reopens a finished row or undoes another worker's write. */
  lemma WorkersFollowTheLifecycle(s: System, a: Action)
    requires Inv(s) && Enabled(s, a) && WorkerStep(a)
    ensures Follows(s, Do(s, a))
  {
    if DownloaderAction(a) {
      DownloaderEdge(s, a);
    } else if ImporterAction(a) {
      ImporterEdge(s, a);
    } else if a.Resolve? {
      ResolveEdge(s, a.up);
    }
    hide Inv, WorkerEdge;
  }

  // ----- The work left

  function Stage(status: Status): nat {
    match status
    case Pending => 4
    case Downloading => 3
    case Downloaded => 2
    case Importing => 2
    case Seeding => 1
    case _ => 0
  }

  /** Writes the workers can still make: stages, then retries within a stage, then the claim; and resolving the episode once. */
  function Work(row: Row): nat {
    (if Stage(row.status) == 0 || row.retry > 5 then 0
     else 12 * Stage(row.status) + 2 * (5 - row.retry) + (if row.status.Downloaded? then 1 else 0)) +
    if row.resolved then 0 else 1
  }

  lemma EdgeDoesWork(r: Row, t: Row)
    requires RowInv(r) && RowInv(t) && WorkerEdge(r, t)
    ensures Work(t) < Work(r) <= 59
  {
  }

  predicate Unattended(actions: seq<Action>, j: nat, k: nat)
    requires j <= k <= |actions|
  {
    forall i :: j <= i < k ==> WorkerStep(actions[i])
  }

  lemma StepDoesWork(s: System, a: Action)
    requires Inv(s) && Enabled(s, a) && WorkerStep(a)
    ensures |Do(s, a).history| + Work(Do(s, a).row) <= |s.history| + Work(s.row)
  {
    StepInv(s, a);
    DropInv(s);
    DropInv(Do(s, a));
    WorkersFollowTheLifecycle(s, a);
    hide Inv, Do, Enabled, WorkerEdge, RowInv, Work;
    if WorkerEdge(s.row, Do(s, a).row) { EdgeDoesWork(s.row, Do(s, a).row); }
  }

  /** Between restarts and user actions every write lowers the work left, so there are at most 59 of them. */
  lemma {:induction false} WritesAreBounded(states: seq<System>, actions: seq<Action>, j: nat, k: nat)
    requires Run(states, actions) && j <= k < |states| && Unattended(actions, j, k)
    ensures |states[k].history| + Work(states[k].row) <= |states[j].history| + Work(states[j].row)
    ensures |states[k].history| <= |states[j].history| + 59
    decreases k - j
  {
    hide Inv, Do, Enabled, Work, Init;
    WorkBound(states[j].row);
    if j < k {
      WritesAreBounded(states, actions, j, k - 1);
      RunInv(states, actions, k - 1);
      StepDoesWork(states[k - 1], actions[k - 1]);
    }
  }

  lemma WorkBound(row: Row)
    ensures Work(row) <= 59
  {
  }

  // ----- Users have the last word

  predicate Terminal(status: Status) {
    status.Completed? || status.Failed? || status.ImportFailed? || status.Cancelled?
  }

  lemma FinishedStep(s: System, a: Action)
    requires Inv(s) && Enabled(s, a) && Terminal(s.row.status) && !UserAction(a)
    ensures Do(s, a).row.status == s.row.status && Do(s, a).row.linked == s.row.linked
  {
    if !a.Restart? {
      WorkersFollowTheLifecycle(s, a);
      hide Do;
    }
    hide Inv;
  }

  /** A finished or cancelled row keeps its status, whatever copies the workers still hold and however often the process restarts. */
  lemma {:induction false} FinishedStaysFinished(states: seq<System>, actions: seq<Action>, j: nat, k: nat)
    requires Run(states, actions) && j <= k < |states| && Terminal(states[j].row.status)
    requires forall i :: j <= i < k ==> !UserAction(actions[i])
    ensures states[k].row.status == states[j].row.status && states[k].row.linked == states[j].row.linked
    decreases k - j
  {
    hide Inv, Do, Enabled, Init;
    if j < k {
      FinishedStaysFinished(states, actions, j, k - 1);
      RunInv(states, actions, k - 1);
      FinishedStep(states[k - 1], actions[k - 1]);
    }
  }

  // ----- The importer owns the row it has claimed

  predicate Owned(s: System) {
    Holds(s.importer, Importing) && s.importer.value == s.row
  }

  lemma OwnedStep(s: System, a: Action)
    requires Inv(s) && Owned(s) && Enabled(s, a) && WorkerStep(a) && !ImporterAction(a) && !a.ImporterReads?
    ensures Do(s, a).row == s.row && Do(s, a).importer == s.importer
  {
  }

  lemma OwnedOutcome(s: System, a: Action)
    requires Inv(s) && Owned(s) && Enabled(s, a)
    ensures a.Commit? && a.up ==> Do(s, a).row.linked && Do(s, a).row.status == if a.needsSeeding then Seeding else Completed
    ensures a.FailImport? && a.up ==> Do(s, a).row.status.ImportFailed?
    ensures a.RetryImport? && a.up ==> Do(s, a).row.status == if s.row.retry < 5 then Downloaded else ImportFailed
  {
    hide Inv;
  }

  /**
   From its claim until it reports, no other worker can touch the row the importer is importing; so unless a user or a
   restart intervenes, the outcome it reports is stored whenever the store takes it.
   */
  lemma {:induction false} ImportOutcomeIsNotLost(states: seq<System>, actions: seq<Action>, j: nat, k: nat)
    requires Run(states, actions) && j <= k < |actions| && Owned(states[j]) && Unattended(actions, j, k)
    requires forall i :: j <= i < k ==> !ImporterAction(actions[i]) && !actions[i].ImporterReads?
    ensures Owned(states[k]) && states[k].row == states[j].row
    ensures actions[k].Commit? && actions[k].up ==>
              states[k + 1].row.linked && states[k + 1].row.status == if actions[k].needsSeeding then Seeding else Completed
    ensures actions[k].FailImport? && actions[k].up ==> states[k + 1].row.status.ImportFailed?
    ensures actions[k].RetryImport? && actions[k].up ==>
              states[k + 1].row.status == if states[j].row.retry < 5 then Downloaded else ImportFailed
    decreases k - j
  {
    hide Inv, Do, Enabled, Init;
    if j < k {
      ImportOutcomeIsNotLost(states, actions, j, k - 1);
      RunInv(states, actions, k - 1);
      OwnedStep(states[k - 1], actions[k - 1]);
    }
    RunInv(states, actions, k);
    OwnedOutcome(states[k], actions[k]);
  }

  // ----- What comes of each report

  /** A held copy of the stored version is the stored row. */
  lemma CopyIsRow(s: System, held: Option<Row>)
    requires Inv(s) && Genuine(held, s.history) && held.Some?
    ensures held.value.version == s.row.version <==> held == Some(s.row)
    ensures RowInv(held.value)
  {
    hide RowInv;
  }

  lemma SendOutcomeIs(s: System, outcome: SendOutcome, up: bool)
    requires Enabled(s, Send(outcome, up)) && s.downloader.value.retry <= 5
    requires s.downloader.value.version == s.row.version <==> s.downloader == Some(s.row)
    ensures var t := Do(s, Send(outcome, up));
            if up && s.downloader == Some(s.row) then SendRight(s.row, outcome, t.row) else t.row == s.row && t.history == s.history
  {
  }

  lemma PollOutcomeIs(s: System, torrent: Torrent, up: bool)
    requires Enabled(s, Poll(torrent, up))
    requires s.downloader.value.version == s.row.version <==> s.downloader == Some(s.row)
    ensures var t := Do(s, Poll(torrent, up));
            if up && s.downloader == Some(s.row) then PollRight(s.row, torrent, t.row) else t.row == s.row && t.history == s.history
  {
  }

  /** The downloader never deletes a completed torrent and gives its copy up. */
  lemma DownloaderLetsGo(s: System, a: Action)
    requires Enabled(s, a) && DownloaderAction(a)
    ensures Do(s, a).deletions == s.deletions && Do(s, a).downloader.None?
  {
  }

  /** On the row as the worker read it, its report has the effect the table names; on any other row, or when the store refuses
      the write, it has none. */
  lemma DownloaderOutcome(s: System, a: Action)
    requires Inv(s) && Enabled(s, a) && DownloaderAction(a)
    ensures s.downloader == Some(s.row) && StoreUp(a) ==> DownloaderRight(s.row, a, Do(s, a).row)
    ensures s.downloader != Some(s.row) || !StoreUp(a) ==> Do(s, a).row == s.row && Do(s, a).history == s.history
    ensures Do(s, a).deletions == s.deletions && Do(s, a).downloader.None?
  {
    hide Do, SendRight, PollRight, Genuine;
    DropInv(s);
    CopyIsRow(s, s.downloader);
    DownloaderLetsGo(s, a);
    hide Inv;
    match a {
      case Send(outcome, up) => SendOutcomeIs(s, outcome, up);
      case Poll(torrent, up) => PollOutcomeIs(s, torrent, up);
    }
  }

  lemma ImporterRowIs(s: System, a: Action)
    requires Enabled(s, a) && ImporterAction(a)
    requires s.importer.value.retry <= 5 && (s.importer.value.status.Seeding? ==> s.importer.value.linked)
    requires s.importer.value.version == s.row.version <==> s.importer == Some(s.row)
    ensures var t := Do(s, a);
            if StoreUp(a) && s.importer == Some(s.row) then ImporterRight(s.row, a, t.row) else t.row == s.row && t.history == s.history
  {
  }

  lemma ImporterDeletionsAre(s: System, a: Action)
    requires Enabled(s, a) && ImporterAction(a) && (s.importer.value.status.Seeding? ==> s.importer.value.linked)
    requires s.importer.value.version == s.row.version <==> s.importer == Some(s.row)
    ensures Do(s, a).deletions ==
              s.deletions + if s.importer == Some(s.row) && Deletes(s.row, a) then [Do(s, a).row.version] else []
    ensures Do(s, a).importer == if a.Claim? && a.up && s.importer == Some(s.row) then Some(Do(s, a).row) else None
  {
    hide AfterImportRetry, AfterImportFailure;
    assert s.deletions + [] == s.deletions;
  }

  /** The same for the importer, with the deletions it asks for and the claimed row it keeps. */
  lemma ImporterOutcome(s: System, a: Action)
    requires Inv(s) && Enabled(s, a) && ImporterAction(a)
    ensures s.importer == Some(s.row) && StoreUp(a) ==> ImporterRight(s.row, a, Do(s, a).row)
    ensures s.importer != Some(s.row) || !StoreUp(a) ==> Do(s, a).row == s.row && Do(s, a).history == s.history
    ensures Do(s, a).deletions ==
              s.deletions + if s.importer == Some(s.row) && Deletes(s.row, a) then [Do(s, a).row.version] else []
    ensures Do(s, a).importer == if a.Claim? && a.up && s.importer == Some(s.row) then Some(Do(s, a).row) else None
  {
    hide Do, ImporterRight, Genuine, Deletes;
    DropInv(s);
    CopyIsRow(s, s.importer);
    hide Inv;
    ImporterRowIs(s, a);
    ImporterDeletionsAre(s, a);
  }

  /** Users act on the row as it is; a restart drops the copies and frees a row that was being imported; the refresher only
      resolves the episode. */
  lemma OtherOutcome(s: System, a: Action)
    requires Inv(s) && Enabled(s, a)
    ensures var r, t := s.row, Do(s, a).row;
            match a
            case ManualRetry(oldError) =>
              if r.status.Pending? && r.retry == 0 && r.delay.None? && !oldError then t == r
              else t == r.(status := Pending, retry := 0, delay := None, version := t.version)
            case Cancel => t == r.(status := Cancelled, version := t.version)
            case Restart(up) =>
              Do(s, a).downloader.None? && Do(s, a).importer.None? && Do(s, a).refresher.None? &&
              (up && r.status.Importing? ==> t == r.(status := Downloaded, version := t.version)) &&
              (!up || !r.status.Importing? ==> t == r)
            case Resolve(up) =>
              var skip := r.resolved || r.status.Importing? || r.status.Completed? || r.status.Failed?;
              if up && s.refresher == Some(r) && !skip then t == r.(resolved := true, version := t.version) else t == r
            case DownloaderReads => t == r && Do(s, a).downloader == Some(r)
            case ImporterReads => t == r && Do(s, a).importer == Some(r)
            case RefresherReads => t == r && Do(s, a).refresher == Some(r)
            case _ => true
  {
    assert s.refresher.Some? && s.refresher.value.version == s.row.version ==> s.refresher.value == s.row;
    hide RowInv, WorkerEdge;
  }

  /** A copy the download worker has read is still the row as long as nothing was written and the worker did nothing else. */
  lemma {:induction false} DownloaderUndisturbed(states: seq<System>, actions: seq<Action>, j: nat, k: nat)
    requires Run(states, actions) && j < k < |states| && actions[j].DownloaderReads?
    requires forall i :: j < i < k ==> !DownloaderAction(actions[i]) && !actions[i].DownloaderReads? && !actions[i].Restart?
    ensures states[k].downloader == Some(states[j].row)
    ensures states[k].history == states[j].history ==> states[k].row == states[j].row
    decreases k - j
  {
    RunInv(states, actions, j);
    RunInv(states, actions, k);
    hide Inv;
    if j + 1 < k {
      DownloaderUndisturbed(states, actions, j, k - 1);
      DownloaderKept(states[k - 1], actions[k - 1]);
    }
    hide Do, Enabled, Init;
    assert Inv(states[j]) && Inv(states[k]);
    LastVersion(states[j]);
    LastVersion(states[k]);
  }

  lemma DownloaderKept(s: System, a: Action)
    requires Enabled(s, a) && !DownloaderAction(a) && !a.DownloaderReads? && !a.Restart?
    ensures Do(s, a).downloader == s.downloader
  {
  }

  lemma LastVersion(s: System)
    requires Inv(s)
    ensures |s.history| > 0 && s.row == s.history[|s.history| - 1]
  {
  }

  /** What the client answered is what becomes of the row, unless somebody wrote in between. */
  lemma ReportIsStored(states: seq<System>, actions: seq<Action>, j: nat, k: nat)
    requires Run(states, actions) && j < k < |actions| && actions[j].DownloaderReads? && DownloaderAction(actions[k])
    requires forall i :: j < i < k ==> !DownloaderAction(actions[i]) && !actions[i].DownloaderReads? && !actions[i].Restart?
    requires StoreUp(actions[k]) && states[k].history == states[j].history
    ensures DownloaderRight(states[j].row, actions[k], states[k + 1].row)
  {
    hide Inv, Do, Enabled, Init, DownloaderRight;
    DownloaderUndisturbed(states, actions, j, k);
    RunInv(states, actions, k);
    DownloaderOutcome(states[k], actions[k]);
  }

  /** In every run: the torrent decides what the row becomes, and a report on a row that was changed meanwhile has no effect. */
  lemma ReportsFollowTheTable(states: seq<System>, actions: seq<Action>, k: nat)
    requires Run(states, actions) && k < |actions|
    ensures DownloaderAction(actions[k]) ==>
              if states[k].downloader == Some(states[k].row) && StoreUp(actions[k])
              then DownloaderRight(states[k].row, actions[k], states[k + 1].row)
              else states[k + 1].row == states[k].row
    ensures ImporterAction(actions[k]) ==>
              if states[k].importer == Some(states[k].row) && StoreUp(actions[k])
              then ImporterRight(states[k].row, actions[k], states[k + 1].row)
              else states[k + 1].row == states[k].row
  {
    RunInv(states, actions, k);
    hide Inv, Do, Enabled, Init, DownloaderRight, ImporterRight;
    if DownloaderAction(actions[k]) { DownloaderOutcome(states[k], actions[k]); }
    if ImporterAction(actions[k]) { ImporterOutcome(states[k], actions[k]); }
  }

  // ----- Who can be moved on

  /** Downloading without a hash the client could be asked for, or importing although the importer does not hold the row. */
  predicate Stranded(s: System) {
    (s.row.status.Downloading? && !s.row.hash) || (s.row.status.Importing? && !Owned(s))
  }

  /** Any other unfinished row leaves its status within two worker steps, if the answers are right. */
  lemma MovesOn(s: System) returns (a: Action, b: Action)
    requires Inv(s) && !Terminal(s.row.status) && !Stranded(s)
    ensures WorkerStep(a) && Enabled(s, a) && WorkerStep(b) && Enabled(Do(s, a), b)
    ensures Do(Do(s, a), b).row.status != s.row.status
  {
    hide Inv, Do;
    match s.row.status {
      case Pending => a, b := DownloaderReads, Send(Accepted(true), true);
      case Downloading => a, b := DownloaderReads, Poll(Finished, true);
      case Downloaded => a, b := ImporterReads, Claim(true);
      case Importing => a, b := RefresherReads, FailImport(true);
      case Seeding => a, b := ImporterReads, Cleanup(Missing, true, true);
    }
    StepInv(s, a);
    OtherOutcome(s, a);
    ReadingKeeps(s, a);
    if DownloaderAction(b) { DownloaderOutcome(Do(s, a), b); } else { ImporterOutcome(Do(s, a), b); }
  }

  lemma ReadingKeeps(s: System, a: Action)
    requires a.DownloaderReads? || a.ImporterReads? || a.RefresherReads?
    ensures Enabled(s, a) && !a.ImporterReads? ==> Do(s, a).importer == s.importer
  {
  }

  lemma StrandedStep(s: System, a: Action)
    requires Inv(s) && Stranded(s) && Enabled(s, a) && WorkerStep(a)
    ensures Do(s, a).row.status == s.row.status && Stranded(Do(s, a))
  {
    if DownloaderAction(a) {
      DownloaderOutcome(s, a);
    } else if ImporterAction(a) {
      ImporterOutcome(s, a);
    } else {
      OtherOutcome(s, a);
    }
    hide Inv, Do;
  }

  /** A stranded row stays where it is until a user or a restart intervenes. */
  lemma {:induction false} StrandedStays(states: seq<System>, actions: seq<Action>, j: nat, k: nat)
    requires Run(states, actions) && j <= k < |states| && Stranded(states[j]) && Unattended(actions, j, k)
    ensures states[k].row.status == states[j].row.status && Stranded(states[k])
    decreases k - j
  {
    hide Inv, Do, Enabled, Init, Stranded;
    if j < k {
      StrandedStays(states, actions, j, k - 1);
      RunInv(states, actions, k - 1);
      StrandedStep(states[k - 1], actions[k - 1]);
    }
  }
}
