/** The states an attempt's ATR entry moves through (AttemptStates). */
module States {

  datatype AttemptState =
    | NOTHING_WRITTEN
    | PENDING
    | ABORTED
    | COMMITTED
    | COMPLETED
    | ROLLED_BACK

  /** The enum member's name, as the runtime prints it. */
  function StateName(s: AttemptState): (name: string)
    ensures |name| > 0
  {
    match s
    case NOTHING_WRITTEN => "NOTHING_WRITTEN"
    case PENDING => "PENDING"
    case ABORTED => "ABORTED"
    case COMMITTED => "COMMITTED"
    case COMPLETED => "COMPLETED"
    case ROLLED_BACK => "ROLLED_BACK"
  }

  /** Distinct states print differently. */
  lemma StateNameInjective(s: AttemptState, t: AttemptState)
    ensures StateName(s) == StateName(t) ==> s == t
  {
  }
}
