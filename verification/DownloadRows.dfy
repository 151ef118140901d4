/** The status of a download row (backend/internal/store/store.go). */
module DownloadRows {
  datatype Status =
    | Pending | Downloading | Downloaded | Importing | Seeding | Completed | Failed | ImportFailed | Cancelled

  /** Work that is in progress or done. */
  predicate Active(s: Status) {
    s.Pending? || s.Downloading? || s.Downloaded? || s.Importing? || s.Seeding? || s.Completed?
  }
}
