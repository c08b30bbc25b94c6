/** The order status panel: the per-status configuration (title and action
    set), the progress bar, the payment badge, the action buttons and the
    final-terms total. The panel takes the status as a plain string, so it
    also knows an "in_progress" status the enum does not have. */
module StatusFlow {
  import opened Wrappers
  import opened Enums
  import opened Records
  import Payment

  datatype Action = ChatAction | PaymentAction | CompleteAction | ReviewAction

  datatype Config = Config(title: string, actions: seq<Action>)

  /** `payment_status === 'completed'`. */
  predicate Paid(payment: Option<string>) {
    payment == Some("completed")
  }

  /** `getStatusConfig(status)`, reduced to the title and the action list. */
  function StatusConfig(status: string, payment: Option<string>): (c: Config)
    ensures status in {"pending", "negotiating"} ==> c.actions == [ChatAction]
    ensures status == "accepted" && Paid(payment) ==> c.actions == [ChatAction, CompleteAction]
    ensures status == "accepted" && !Paid(payment) ==> c.actions == [ChatAction, PaymentAction]
    ensures status == "in_progress" ==> c.actions == [ChatAction, CompleteAction]
    ensures status == "completed" ==> c.actions == [ReviewAction]
    ensures status !in {"pending", "negotiating", "accepted", "in_progress", "completed"} ==> c.actions == []
    ensures status !in {"pending", "negotiating", "accepted", "in_progress", "completed", "cancelled", "rejected"}
      ==> c.title == "Unknown Status"
  {
    match status
    case "pending" => Config("Awaiting Response", [ChatAction])
    case "negotiating" => Config("In Negotiation", [ChatAction])
    case "accepted" =>
      Config("Order Accepted", if Paid(payment) then [ChatAction, CompleteAction] else [ChatAction, PaymentAction])
    case "in_progress" => Config("In Progress", [ChatAction, CompleteAction])
    case "completed" => Config("Completed", [ReviewAction])
    case "cancelled" => Config("Cancelled", [])
    case "rejected" => Config("Rejected", [])
    case _ => Config("Unknown Status", [])
  }

  /** Two enum statuses, active and overdue, fall to the default branch:
      unknown title and no actions. */
  lemma EnumStatusesUnknownToPanel(s: RequestStatus, payment: Option<string>)
    ensures StatusConfig(StatusName(s), payment).title == "Unknown Status" <==> s in {Active, Overdue}
    ensures s in {Active, Overdue} ==> StatusConfig(StatusName(s), payment).actions == []
  {
  }

  /** Payment is asked for only on an accepted, unpaid request, and then
      completion is not offered. */
  lemma PaymentXorComplete(status: string, payment: Option<string>)
    ensures PaymentAction in StatusConfig(status, payment).actions <==> status == "accepted" && !Paid(payment)
    ensures !(PaymentAction in StatusConfig(status, payment).actions
              && CompleteAction in StatusConfig(status, payment).actions)
  {
  }

  /** The width of the progress bar, in percent. */
  function Progress(status: string): (pct: nat)
    ensures pct <= 100
    ensures pct == 0 <==> status !in {"pending", "negotiating", "accepted", "in_progress", "completed"}
    ensures pct == 100 <==> status == "completed"
    ensures status == "pending" ==> pct == 25
    ensures status == "negotiating" ==> pct == 50
    ensures status in {"accepted", "in_progress"} ==> pct == 75
  {
    if status == "pending" then 25
    else if status == "negotiating" then 50
    else if status == "accepted" || status == "in_progress" then 75
    else if status == "completed" then 100
    else 0
  }

  /** The steps of the happy path, in order. */
  const HappyPath: seq<string> := ["pending", "negotiating", "accepted", "completed"]

  /** Progress grows strictly along the happy path. */
  lemma ProgressMonotone(i: int, j: int)
    requires 0 <= i < j < |HappyPath|
    ensures Progress(HappyPath[i]) < Progress(HappyPath[j])
  {
  }

  /** The payment badge: none when `payment_status` is missing or empty, or
      not one of pending, completed and failed. */
  function PaymentBadge(payment: Option<string>): (badge: Option<string>)
    ensures badge.Some? <==> payment in {Some("pending"), Some("completed"), Some("failed")}
    ensures Paid(payment) ==> badge == Some("Paid")
    ensures payment == Some("pending") ==> badge == Some("Payment Pending")
    ensures payment == Some("failed") ==> badge == Some("Payment Failed")
  {
    if payment.None? || payment.value == "" then None
    else match payment.value
      case "pending" => Some("Payment Pending")
      case "completed" => Some("Paid")
      case "failed" => Some("Payment Failed")
      case _ => None
  }

  /** On an accepted request the badge and the action set agree: the panel
      asks for payment exactly when the badge does not read "Paid". */
  lemma PaidBadgeOrPaymentAction(payment: Option<string>)
    ensures PaymentAction in StatusConfig("accepted", payment).actions <==> PaymentBadge(payment) != Some("Paid")
  {
  }

  /** Every row the payment page updates reads "Paid" on its badge
      afterwards, and the panel no longer offers payment for it. */
  lemma PaymentPageShowsPaid(table: seq<BorrowRequest>, query: Option<string>, prop: Option<string>, i: int)
    requires 0 <= i < |table| && Some(table[i].id) == Payment.SelectRequestId(query, prop)
    ensures var r := Payment.OnPaymentSuccess(table, query, prop)[i];
      && PaymentBadge(r.paymentStatus) == Some("Paid")
      && PaymentAction !in StatusConfig(StatusName(r.status.value), r.paymentStatus).actions
  {
  }

  datatype Button = OpenChat | CompletePayment | MarkComplete | LeaveReview

  /** The buttons the panel renders for a configuration, given whether the
      completion and review callbacks were supplied. */
  function Buttons(c: Config, onComplete: bool, onReview: bool): (bs: set<Button>)
    ensures OpenChat in bs <==> ChatAction in c.actions
    ensures CompletePayment in bs <==> PaymentAction in c.actions
    ensures MarkComplete in bs <==> CompleteAction in c.actions && onComplete
    ensures LeaveReview in bs <==> ReviewAction in c.actions && onReview
  {
    (if ChatAction in c.actions then {OpenChat} else {})
    + (if PaymentAction in c.actions then {CompletePayment} else {})
    + (if CompleteAction in c.actions && onComplete then {MarkComplete} else {})
    + (if ReviewAction in c.actions && onReview then {LeaveReview} else {})
  }

  /** The final-terms total, shown only when the negotiated rate is truthy:
      `negotiated_rate * negotiated_duration_days` (a missing duration
      counts as 0). */
  function FinalTermsTotal(r: BorrowRequest): (total: Option<Money>)
    ensures total.Some? <==> Truthy(r.negotiatedRate)
    ensures total.Some? && r.negotiatedDays.Some? ==> total.value == r.negotiatedRate.value * r.negotiatedDays.value
    ensures total.Some? && r.negotiatedDays.None? ==> total.value == 0
  {
    if Truthy(r.negotiatedRate) then Some(r.negotiatedRate.value * AsNumber(r.negotiatedDays)) else None
  }
}
