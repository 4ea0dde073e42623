/** The lifecycle states of Desktop and Backend and their transition table (state_machine.go). */
module ServiceState {

  datatype ServiceState =
    | Unknown | Starting | Ready | Degraded | Unresponsive
    | Stopping | Stopped | Backoff | Failed

  function AllowedNext(from: ServiceState): set<ServiceState> {
    match from
    case Unknown => {Starting, Stopped}
    case Stopped => {Starting}
    case Starting => {Ready, Degraded, Unresponsive, Stopping, Failed, Backoff}
    case Ready => {Degraded, Unresponsive, Stopping, Stopped}
    case Degraded => {Ready, Unresponsive, Stopping}
    case Unresponsive => {Stopping, Backoff, Failed, Starting}
    case Stopping => {Stopped, Backoff}
    case Backoff => {Starting, Failed}
    case Failed => {Starting}
  }

  predicate CanTransition(from: ServiceState, to: ServiceState) {
    from == to || to in AllowedNext(from)
  }

  /** The same table, read backwards: where each state can be entered from. */
  function EnteredFrom(to: ServiceState): set<ServiceState> {
    match to
    case Unknown => {}
    case Starting => {Unknown, Stopped, Unresponsive, Backoff, Failed}
    case Ready => {Starting, Degraded}
    case Degraded => {Starting, Ready}
    case Unresponsive => {Starting, Ready, Degraded}
    case Stopping => {Starting, Ready, Degraded, Unresponsive}
    case Stopped => {Unknown, Ready, Stopping}
    case Backoff => {Starting, Unresponsive, Stopping}
    case Failed => {Starting, Unresponsive, Backoff}
  }

  /** A state is entered only from itself or along the table; in particular Ready only from Starting and
      Degraded, and Unknown never again. */
  lemma TransitionsReadBackwards(from: ServiceState, to: ServiceState)
    ensures CanTransition(from, to) <==> from == to || from in EnteredFrom(to)
  {
  }
}
