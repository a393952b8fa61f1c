/** What publish jobs and metric jobs share. */
module Jobs {
  datatype Status =
    Queued | Running | NeedsLogin | ManualVerification | Success | Failed | Cancelled | UnknownResult | Other(name: string)

  /** ACTIVE_JOB_STATUSES. */
  predicate Active(s: Status) {
    s.Queued? || s.Running? || s.NeedsLogin? || s.ManualVerification?
  }

  /** `a or b` on texts. */
  function Or(text: string, otherwise: string): string {
    if text == "" then otherwise else text
  }
}
