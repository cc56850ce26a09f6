/** The transaction state machine (app/transactions/state_machine.py). */
module TransactionStates {

  /** A status text: one of the five allowed ones, or any other text. */
  datatype Status = Pending | Completed | Failed | TimedOut | Cancelled | Unlisted(text: string)

  const ALLOWED_STATUSES: set<Status> := {Pending, Completed, Failed, TimedOut, Cancelled}

  const TERMINAL_STATUSES: set<Status> := {Completed, Failed, TimedOut, Cancelled}

  const ALLOWED_TRANSITIONS: set<(Status, Status)> :=
    {(Pending, Completed), (Pending, Failed), (Pending, TimedOut), (Pending, Cancelled)}

  predicate CanTransition(from: Status, to: Status) {
    if from !in ALLOWED_STATUSES || to !in ALLOWED_STATUSES then false
    else (from, to) in ALLOWED_TRANSITIONS
  }

  /** Only pending moves, to any terminal status, so no status moves twice. */
  lemma OnlyPendingMoves(from: Status, to: Status, next: Status)
    ensures CanTransition(from, to) <==> from == Pending && to in TERMINAL_STATUSES
    ensures CanTransition(from, to) ==> !CanTransition(to, next)
  {}
}
