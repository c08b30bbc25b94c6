/** The owner's order list: accepting or declining a request, the three tabs,
    the status badge colour, and the rate and total each card shows. */
module Orders {
  import opened Wrappers
  import opened Seqs
  import opened Enums
  import opened Records
  import Chat

  datatype Decision = Accept | Decline

  /** The status an owner decision writes. */
  function DecisionStatus(d: Decision): RequestStatus {
    match d
    case Accept => Accepted
    case Decline => Rejected
  }

  /** `action` in the source ("accept" / "reject"). */
  function DecisionWord(d: Decision): string {
    match d
    case Accept => "accept"
    case Decline => "reject"
  }

  /** The system message `createSystemMessage` posts after a decision. */
  function DecisionNote(d: Decision): string {
    "Request " + DecisionWord(d) + "ed by owner"
  }

  /** `handleAction(id, action)`: sets the status to accepted or rejected and
      stamps `updated_at`, with no check of the current status. If the
      update succeeded, a system message with no sender goes to the request's
      conversation: the existing one, or else the one just created
      (`created`, missing when that insert failed). */
  function HandleAction(t: Chat.Thread, d: Decision, now: Millis, updated: bool,
                        existing: Option<Id>, created: Option<Id>, stamp: Chat.Stamp): (t': Chat.Thread)
    ensures !updated ==> t' == t
    ensures updated ==> t'.request.status == Some(DecisionStatus(d)) && t'.request.updatedAt == now
    ensures t'.request == t.request.(status := t'.request.status, updatedAt := t'.request.updatedAt)
    ensures updated && (existing.Some? || created.Some?) ==>
      && |t'.log| == |t.log| + 1
      && t'.log[|t.log|].senderId.None?
      && t'.log[|t.log|].messageType == "system"
      && t'.log[|t.log|].content == DecisionNote(d)
      && t'.log[|t.log|].conversationId == (if existing.Some? then existing else created)
    ensures existing.None? && created.None? ==> t'.log == t.log
    ensures Chat.AppendsAtMostOne(t, t')
  {
    if !updated then t
    else
      var r := Apply(Patch(Write(DecisionStatus(d)), Keep, Keep, Keep, Write(now), Keep), t.request);
      var conv := if existing.Some? then existing else created;
      if conv.Some? then
        Chat.Thread(r, t.log + [Records.Message(stamp.id, conv, None, "system", DecisionNote(d), None, None, stamp.at)])
      else
        Chat.Thread(r, t.log)
  }

  /** Accept and Decline are offered on pending requests only. */
  predicate ShowDecision(status: Option<RequestStatus>) {
    status == Some(Pending)
  }

  // ---- Tabs ---------------------------------------------------------------

  /** `getFilteredRequests(tab)` membership: the three named tabs group
      statuses; any other tab name matches the status name exactly. */
  predicate InTab(tab: string, status: Option<RequestStatus>) {
    if tab == "pending" then status in {Some(Pending), Some(Negotiating)}
    else if tab == "active" then status in {Some(Accepted), Some(Active)}
    else if tab == "completed" then status in {Some(Completed), Some(Rejected), Some(Cancelled)}
    else status.Some? && StatusName(status.value) == tab
  }

  /** The tab names the page renders. */
  const Tabs: seq<string> := ["pending", "active", "completed"]

  /** The rows of one tab, in list order. */
  function FilterTab(rows: seq<JoinedRequest>, tab: string): (r: seq<JoinedRequest>)
    ensures forall i :: 0 <= i < |r| ==> InTab(tab, r[i].request.status)
    ensures SubseqOf(r, rows)
    ensures |r| == Count(rows, (j: JoinedRequest) => InTab(tab, j.request.status))
  {
    var p := (j: JoinedRequest) => InTab(tab, j.request.status);
    FilterSubseq(rows, p);
    FilterCount(rows, p);
    Filter(rows, p)
  }

  /** Which displayed tab a status falls in, if any. */
  function TabOf(status: Option<RequestStatus>): (tab: Option<string>)
    ensures tab.Some? ==> tab.value in Tabs && InTab(tab.value, status)
    ensures forall k :: k in Tabs && InTab(k, status) ==> tab == Some(k)
  {
    if InTab("pending", status) then Some("pending")
    else if InTab("active", status) then Some("active")
    else if InTab("completed", status) then Some("completed")
    else None
  }

  /** The displayed tabs are pairwise disjoint; overdue and null statuses are
      in none of them; every other status is in exactly one. */
  lemma TabsPartition(status: Option<RequestStatus>)
    ensures forall a, b :: a in Tabs && b in Tabs && a != b ==> !(InTab(a, status) && InTab(b, status))
    ensures TabOf(status).None? <==> status in {None, Some(Overdue)}
  {
    if status.Some? {
      match status.value
      case Pending =>
      case Negotiating =>
      case Accepted =>
      case Rejected =>
      case Cancelled =>
      case Active =>
      case Completed =>
      case Overdue =>
    }
  }

  /** The three tab counts plus the overdue and null rows add up to the
      whole list. */
  lemma {:induction false} TabCounts(rows: seq<JoinedRequest>)
    ensures Count(rows, (j: JoinedRequest) => InTab("pending", j.request.status))
          + Count(rows, (j: JoinedRequest) => InTab("active", j.request.status))
          + Count(rows, (j: JoinedRequest) => InTab("completed", j.request.status))
          + Count(rows, (j: JoinedRequest) => TabOf(j.request.status).None?)
         == |rows|
  {
    if |rows| > 0 {
      TabCounts(rows[1..]);
    }
  }

  // ---- Card contents ------------------------------------------------------

  /** `getStatusColor(status)`: the badge class for each status name, grey
      for any other string. */
  function StatusColor(status: string): (c: string)
    ensures status !in RequestStatusValues ==> c == "bg-gray-100 text-gray-800"
  {
    if status == "pending" then "bg-yellow-100 text-yellow-800"
    else if status == "negotiating" then "bg-blue-100 text-blue-800"
    else if status == "accepted" then "bg-green-100 text-green-800"
    else if status == "rejected" then "bg-red-100 text-red-800"
    else if status == "active" then "bg-purple-100 text-purple-800"
    else if status == "completed" then "bg-gray-100 text-gray-800"
    else if status == "cancelled" then "bg-red-100 text-red-800"
    else if status == "overdue" then "bg-red-100 text-red-800"
    else "bg-gray-100 text-gray-800"
  }

  /** Red marks exactly the three statuses that end a request badly. */
  lemma StatusColorRed(s: RequestStatus)
    ensures StatusColor(StatusName(s)) == "bg-red-100 text-red-800" <==> s in {Rejected, Cancelled, Overdue}
  {
  }

  /** The class each enum status gets: yellow for pending, blue for
      negotiating, green for accepted, purple for active, and the grey
      default for completed alone. */
  lemma StatusColorClasses(s: RequestStatus)
    ensures StatusColor(StatusName(s)) == "bg-yellow-100 text-yellow-800" <==> s == Pending
    ensures StatusColor(StatusName(s)) == "bg-blue-100 text-blue-800" <==> s == Negotiating
    ensures StatusColor(StatusName(s)) == "bg-green-100 text-green-800" <==> s == Accepted
    ensures StatusColor(StatusName(s)) == "bg-purple-100 text-purple-800" <==> s == Active
    ensures StatusColor(StatusName(s)) == "bg-gray-100 text-gray-800" <==> s == Completed
  {
  }

  /** The item's own rate: hourly for a service, daily otherwise. */
  function ListedRate(item: ItemSummary): Option<Money> {
    if item.isService == Some(true) then item.hourlyRate else item.dailyRate
  }

  /** The rate on a card: `negotiated_rate` when truthy, else the item's own
      rate (which may itself be missing). */
  function DisplayedRate(r: BorrowRequest, item: ItemSummary): (rate: Option<Money>)
    ensures Truthy(r.negotiatedRate) ==> rate == r.negotiatedRate
    ensures !Truthy(r.negotiatedRate) ==> rate == ListedRate(item)
  {
    if Truthy(r.negotiatedRate) then r.negotiatedRate else ListedRate(item)
  }

  /** The figure labelled "Total cost": `negotiated_rate || total_cost || 0`,
      so a negotiated per-day rate is shown as the total. */
  function DisplayedTotal(r: BorrowRequest): (total: Money)
    ensures Truthy(r.negotiatedRate) ==> total == r.negotiatedRate.value
    ensures !Truthy(r.negotiatedRate) ==> total == r.totalCost.GetOr(0)
  {
    OrElse(r.negotiatedRate, OrElse(r.totalCost, 0))
  }
}
