/** The payment safety policy (app/safety/policy.py). */
module Policy {
  import opened Common

  datatype Action =
    | CheckTransactionStatus | GetTodayTransactions | GetFailedTransactions | GenerateReceipt
    | InitiateStkPush
    | Unknown(name: string)

  datatype Decision =
    | Allowed
    | Blocked
    | ApprovalRequired

  function Evaluate(maxStkAmount: int, action: Action, amount: Option<int>, phone: Option<string>): Decision {
    match action
    case CheckTransactionStatus => Allowed
    case GetTodayTransactions => Allowed
    case GetFailedTransactions => Allowed
    case GenerateReceipt => Allowed
    case InitiateStkPush => EvaluateStkPush(maxStkAmount, amount, phone)
    case Unknown(_) => Blocked
  }

  function EvaluateStkPush(maxStkAmount: int, amount: Option<int>, phone: Option<string>): Decision {
    if amount.None? then Blocked
    else if phone.None? then Blocked
    else if amount.value <= 0 then Blocked
    else if amount.value > maxStkAmount then ApprovalRequired
    else Allowed
  }
}
