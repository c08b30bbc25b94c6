/** The borrower's request list: cancelling, the chat and cancel controls,
    the status icon and the total each card shows. */
module MyRequests {
  import opened Wrappers
  import opened Enums
  import opened Records

  /** `cancelRequest(id)`: sets the status to cancelled and stamps
      `updated_at`, whatever the status was; nothing changes when the update
      fails. */
  function CancelRequest(r: BorrowRequest, now: Millis, updated: bool): (r': BorrowRequest)
    ensures updated ==> r'.status == Some(Cancelled) && r'.updatedAt == now
    ensures !updated ==> r' == r
    ensures r' == r.(status := r'.status, updatedAt := r'.updatedAt)
  {
    if updated then Apply(Patch(Write(Cancelled), Keep, Keep, Keep, Write(now), Keep), r) else r
  }

  /** The Cancel Request control: pending or negotiating only. */
  predicate ShowCancel(status: Option<RequestStatus>) {
    status in {Some(Pending), Some(Negotiating)}
  }

  /** The chat control and its label: offered for pending, negotiating and
      accepted requests, labelled "Contact Owner" once accepted. */
  function ChatControl(status: Option<RequestStatus>): (caption: Option<string>)
    ensures caption.Some? <==> status in {Some(Pending), Some(Negotiating), Some(Accepted)}
    ensures caption == Some("Contact Owner") <==> status == Some(Accepted)
  {
    if status in {Some(Pending), Some(Negotiating), Some(Accepted)} then
      Some(if status == Some(Accepted) then "Contact Owner" else "Chat & Negotiate")
    else None
  }

  /** Wherever Cancel is offered, the chat control is offered too. */
  lemma CancelImpliesChat(status: Option<RequestStatus>)
    requires ShowCancel(status)
    ensures ChatControl(status) == Some("Chat & Negotiate")
  {
  }

  /** The figure labelled "Total cost": `negotiated_rate *
      (negotiated_duration_days || 1)` when the negotiated rate is truthy,
      else `total_cost || 0`. */
  function DisplayedTotal(r: BorrowRequest): (total: Money)
    ensures Truthy(r.negotiatedRate) && Truthy(r.negotiatedDays) ==>
      total == r.negotiatedRate.value * r.negotiatedDays.value
    ensures Truthy(r.negotiatedRate) && !Truthy(r.negotiatedDays) ==> total == r.negotiatedRate.value
    ensures !Truthy(r.negotiatedRate) ==> total == r.totalCost.GetOr(0)
  {
    if Truthy(r.negotiatedRate) then r.negotiatedRate.value * OrElse(r.negotiatedDays, 1)
    else OrElse(r.totalCost, 0)
  }

  datatype Icon = ClockIcon | CheckIcon | CrossIcon | AlertIcon

  /** `getStatusIcon(status)`. */
  function StatusIcon(status: string): (icon: Icon)
    ensures icon == ClockIcon <==> status in {"pending", "negotiating"}
    ensures icon == CheckIcon <==> status in {"accepted", "active", "completed"}
    ensures icon == CrossIcon <==> status in {"rejected", "cancelled"}
  {
    match status
    case "pending" => ClockIcon
    case "negotiating" => ClockIcon
    case "accepted" => CheckIcon
    case "active" => CheckIcon
    case "rejected" => CrossIcon
    case "cancelled" => CrossIcon
    case "completed" => CheckIcon
    case _ => AlertIcon
  }

  /** Among the eight statuses only overdue gets the alert icon. */
  lemma StatusIconAlert(s: RequestStatus)
    ensures StatusIcon(StatusName(s)) == AlertIcon <==> s == Overdue
  {
  }
}
