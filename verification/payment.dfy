/** The payment-success page: which request it marks as paid, and the update
    it issues. */
module Payment {
  import opened Wrappers
  import opened Enums
  import opened Records

  /** A string is truthy when present and non-empty. */
  predicate Given(o: Option<string>) {
    o.Some? && o.value != ""
  }

  /** `request || requestId`: the `request` query parameter wins over the
      `requestId` property; neither (or only empty ones) selects nothing. */
  function SelectRequestId(query: Option<string>, prop: Option<string>): (id: Option<Id>)
    ensures Given(query) ==> id == query
    ensures !Given(query) && Given(prop) ==> id == prop
    ensures id.None? <==> !Given(query) && !Given(prop)
    ensures id.Some? ==> id.value != ""
  {
    if Given(query) then query else if Given(prop) then prop else None
  }

  /** The update `updatePaymentStatus` sends: payment completed, status active. */
  const PaidPatch: Patch := Patch(Write(Active), Keep, Keep, Keep, Keep, Write(Some("completed")))

  /** The effect of the page on the request table: with a selected id, every
      row with that id becomes active with a completed payment, whatever its
      status, and nothing else changes; without one, no update is sent. */
  function OnPaymentSuccess(table: seq<BorrowRequest>, query: Option<string>, prop: Option<string>): (t: seq<BorrowRequest>)
    ensures |t| == |table|
    ensures SelectRequestId(query, prop).None? ==> t == table
    ensures forall i :: 0 <= i < |t| && Some(table[i].id) != SelectRequestId(query, prop) ==> t[i] == table[i]
    ensures forall i :: 0 <= i < |t| && Some(table[i].id) == SelectRequestId(query, prop) ==>
      && t[i].status == Some(Active)
      && t[i].paymentStatus == Some("completed")
      && t[i] == table[i].(status := Some(Active), paymentStatus := Some("completed"))
  {
    var id := SelectRequestId(query, prop);
    if id.Some? then UpdateById(table, id.value, PaidPatch) else table
  }
}
