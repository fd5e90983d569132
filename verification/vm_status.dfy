/** The lifecycle statuses of a VM row: internal/vm/instance.go. */
module VmStatus {
  datatype Status = Creating | Restoring | Installing | Stopped | Booting | Running | Stopping | Deleting | Errored {
    /** A VM that has, or is getting or losing, a live process: what RunningCount counts. */
    predicate Live() { Booting? || Running? || Stopping? }
    predicate Provisioning() { Creating? || Restoring? || Installing? }
  }
}
