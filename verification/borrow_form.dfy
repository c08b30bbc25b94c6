/** The borrow-request form: the cost estimate, the date pickers, the submit
    button and the request row the form inserts. */
module BorrowForm {
  import opened Wrappers
  import opened Enums
  import opened Records

  /** `1000 * 60 * 60 * 24`. */
  const DayMillis: int := 1000 * 60 * 60 * 24

  /** `Math.ceil(diff / DayMillis)`: the least whole number of days that
      covers `diff` milliseconds. */
  function CeilDays(diff: int): (days: int)
    ensures (days - 1) * DayMillis < diff <= days * DayMillis
  {
    // Dafny's division by a positive divisor rounds down.
    -((-diff) / DayMillis)
  }

  /** Only one whole number of days covers a given span. */
  lemma CeilDaysUnique(diff: int, d: int)
    requires (d - 1) * DayMillis < diff <= d * DayMillis
    ensures d == CeilDays(diff)
  {
    var c := CeilDays(diff);
    LessTimesDay(d - 1, c);
    LessTimesDay(c - 1, d);
  }

  /** Scaling by the day length preserves strict order. */
  lemma LessTimesDay(a: int, b: int)
    requires a * DayMillis < b * DayMillis
    ensures a < b
  {
    assert (b - a) * DayMillis > 0;
  }

  /** `calculateTotalCost()`: 0 unless both dates are set and the daily rate
      is truthy; otherwise the covering day count times the daily rate. */
  function TotalCost(start: Option<Millis>, end: Option<Millis>, dailyRate: Option<Money>): (cost: Money)
    ensures start.None? || end.None? || !Truthy(dailyRate) ==> cost == 0
    ensures start.Some? && end.Some? && Truthy(dailyRate) ==>
      cost == CeilDays(end.value - start.value) * dailyRate.value
  {
    if start.None? || end.None? || !Truthy(dailyRate) then 0
    else CeilDays(end.value - start.value) * dailyRate.value
  }

  /** Equal start and end dates cost nothing, and each further started day
      costs one more daily rate. */
  lemma TotalCostPerDay(start: Millis, days: int, extra: int, rate: Money)
    requires rate != 0 && 0 < extra <= DayMillis
    ensures TotalCost(Some(start), Some(start), Some(rate)) == 0
    ensures TotalCost(Some(start), Some(start + days * DayMillis + extra), Some(rate)) == (days + 1) * rate
  {
    CeilDaysUnique(0, 0);
    CeilDaysUnique(days * DayMillis + extra, days + 1);
  }

  /** The start picker greys out dates before now. */
  predicate StartDisabled(date: Millis, now: Millis) {
    date < now
  }

  /** The end picker greys out dates before the chosen start, or before now
      when no start is chosen yet. */
  predicate EndDisabled(date: Millis, start: Option<Millis>, now: Millis) {
    date < start.GetOr(now)
  }

  /** An end date picked after the start date is never before it. */
  lemma EndAfterChosenStart(start: Millis, end: Millis, now: Millis)
    requires !EndDisabled(end, Some(start), now)
    ensures 0 <= CeilDays(end - start)
  {
  }

  /** Picking the end date first and then a later start date passes both
      pickers and gives a negative estimate. */
  lemma EndPickedFirstCanPrecedeStart(now: Millis, rate: Money)
    requires rate > 0
    ensures var end := now + DayMillis;
            var start := now + 3 * DayMillis;
            && !EndDisabled(end, None, now)
            && !StartDisabled(start, now)
            && TotalCost(Some(start), Some(end), Some(rate)) == -2 * rate
  {
    CeilDaysUnique(-2 * DayMillis, -2);
  }

  /** The submit button is enabled only with both dates and no submission in
      flight. */
  predicate SubmitEnabled(start: Option<Millis>, end: Option<Millis>, loading: bool) {
    start.Some? && end.Some? && !loading
  }

  /** With a signed-in user, the handler acts exactly when the button is
      enabled with no submission in flight: both dates chosen. */
  lemma EnabledSubmitActs(start: Option<Millis>, end: Option<Millis>, itemId: Id,
                          dailyRate: Option<Money>, message: string,
                          profile: Option<Id>, itemOwner: Option<Id>, inserted: bool,
                          ownerJoined: bool, d: RowDefaults)
    ensures Submit(true, start, end, itemId, dailyRate, message, profile, itemOwner, inserted, ownerJoined, d).Some?
            <==> SubmitEnabled(start, end, false)
    ensures Submit(false, start, end, itemId, dailyRate, message, profile, itemOwner, inserted, ownerJoined, d).None?
  {
  }

  datatype SubmitError = ProfileNotFound | ItemNotFound | InsertFailed | OwnerMissing | EndBeforeStart

  /** What one submission leaves behind: the row it inserted, if any, and
      the error its toast reports (`None`: the success toast, after which
      the dialog closes and the form is cleared; otherwise the dialog stays
      open with its fields as they were). */
  datatype Submission = Submission(row: Option<BorrowRequest>, error: Option<SubmitError>)

  /** The values the backend fills in for a new row: its id and the time. */
  datatype RowDefaults = RowDefaults(id: Id, now: Millis)

  /** The row `handleSubmit` inserts: status pending, the estimate as
      `total_cost`, every negotiation column empty. */
  function NewRequest(itemId: Id, borrower: Id, owner: Id, start: Millis, end: Millis,
                      message: string, dailyRate: Option<Money>, d: RowDefaults): (r: BorrowRequest)
    ensures r.status == Some(Pending)
    ensures r.totalCost == Some(TotalCost(Some(start), Some(end), dailyRate))
    ensures r.negotiatedRate.None? && r.negotiatedDays.None? && r.paymentStatus.None?
    ensures r.itemId == itemId && r.borrowerId == borrower && r.ownerId == owner
    ensures r.startDate == start && r.endDate == end
  {
    BorrowRequest(d.id, itemId, borrower, owner, start, end, Some(message), Some(Pending),
                  None, None, Some(TotalCost(Some(start), Some(end), dailyRate)),
                  None, None, None, d.now, d.now, None)
  }

  /** `handleSubmit`: does nothing (`None`) without a signed-in user or
      without both dates; reports an error, inserting nothing, when the
      profile or the item's owner cannot be found or the insert fails.
      After a successful insert the success toast reads
      `item.owner.full_name`; `ownerJoined` says whether the item handed to
      the form has that `owner` object. Without it the read throws, and the
      row stays inserted while the form reports the generic failure. */
  function Submit(signedIn: bool, start: Option<Millis>, end: Option<Millis>, itemId: Id,
                  dailyRate: Option<Money>, message: string,
                  profile: Option<Id>, itemOwner: Option<Id>, inserted: bool,
                  ownerJoined: bool, d: RowDefaults): (out: Option<Submission>)
    ensures out.None? <==> !signedIn || start.None? || end.None?
    ensures out.Some? ==> (out.value.row.Some? <==> profile.Some? && itemOwner.Some? && inserted)
    ensures out.Some? && profile.None? ==> out.value.error == Some(ProfileNotFound)
    ensures out.Some? && out.value.row.Some? ==>
      && out.value.row.value.status == Some(Pending)
      && out.value.row.value.borrowerId == profile.value
      && out.value.row.value.ownerId == itemOwner.value
      && out.value.row.value.startDate == start.value
      && out.value.row.value.endDate == end.value
      && out.value.row.value.totalCost == Some(TotalCost(start, end, dailyRate))
    ensures out.Some? ==> (out.value.error.None? <==> out.value.row.Some? && ownerJoined)
  {
    if !signedIn || start.None? || end.None? then None
    else if profile.None? then Some(Submission(None, Some(ProfileNotFound)))
    else if itemOwner.None? then Some(Submission(None, Some(ItemNotFound)))
    else if !inserted then Some(Submission(None, Some(InsertFailed)))
    else
      var row := NewRequest(itemId, profile.value, itemOwner.value, start.value, end.value, message, dailyRate, d);
      Some(Submission(Some(row), if ownerJoined then None else Some(OwnerMissing)))
  }

  /** Both pages hand the form the fetched item row, whose owner is joined as
      `profiles`, not `owner`: a successful insert is reported as a failure,
      and since the form keeps its fields, submitting again inserts a second
      request that differs from the first only in its id and times. */
  lemma SubmitReportsFailureAfterInsert(start: Millis, end: Millis, itemId: Id, dailyRate: Option<Money>,
                                        message: string, profile: Id, owner: Id, d: RowDefaults, d': RowDefaults)
    ensures var out := Submit(true, Some(start), Some(end), itemId, dailyRate, message, Some(profile), Some(owner), true, false, d);
      var out' := Submit(true, Some(start), Some(end), itemId, dailyRate, message, Some(profile), Some(owner), true, false, d');
      && out.Some? && out.value.row.Some? && out.value.error == Some(OwnerMissing)
      && out'.Some? && out'.value.row.Some?
      && out'.value.row.value == out.value.row.value.(id := d'.id, createdAt := d'.now, updatedAt := d'.now)
  {
  }

  /** `handleSubmit` with the owner's name read as the dialog's description
      reads it (`owner`, else the joined `profiles`, else "the owner"), which
      cannot throw: exactly the submissions that insert a row report
      success, and they insert the same rows as `Submit`. */
  function SubmitReported(signedIn: bool, start: Option<Millis>, end: Option<Millis>, itemId: Id,
                          dailyRate: Option<Money>, message: string,
                          profile: Option<Id>, itemOwner: Option<Id>, inserted: bool,
                          d: RowDefaults): (out: Option<Submission>)
    ensures out.None? <==> !signedIn || start.None? || end.None?
    ensures out.Some? ==> (out.value.error.None? <==> out.value.row.Some?)
    ensures forall joined: bool :: out.Some? ==>
      out.value.row == Submit(signedIn, start, end, itemId, dailyRate, message, profile, itemOwner, inserted, joined, d).value.row
  {
    Submit(signedIn, start, end, itemId, dailyRate, message, profile, itemOwner, inserted, true, d)
  }

  /** Nothing in `handleSubmit` compares the two dates: a reversed pair is
      inserted, with a negative `total_cost`. */
  lemma SubmitAcceptsReversedDates(now: Millis, rate: Money, itemId: Id, profile: Id, owner: Id,
                                   ownerJoined: bool, d: RowDefaults)
    requires rate > 0
    ensures var out := Submit(true, Some(now + 3 * DayMillis), Some(now + DayMillis), itemId,
                              Some(rate), "", Some(profile), Some(owner), true, ownerJoined, d);
            && out.Some? && out.value.row.Some?
            && out.value.row.value.endDate < out.value.row.value.startDate
            && out.value.row.value.totalCost == Some(-2 * rate)
  {
    CeilDaysUnique(-2 * DayMillis, -2);
  }

  /** `SubmitReported` with the date order checked as well: a reversed pair
      is refused before anything is looked up or inserted. */
  function SubmitOrdered(signedIn: bool, start: Option<Millis>, end: Option<Millis>, itemId: Id,
                         dailyRate: Option<Money>, message: string,
                         profile: Option<Id>, itemOwner: Option<Id>, inserted: bool,
                         d: RowDefaults): (out: Option<Submission>)
    ensures out.None? <==> !signedIn || start.None? || end.None?
    ensures out.Some? && end.value < start.value ==> out.value == Submission(None, Some(EndBeforeStart))
    ensures out.Some? && out.value.row.Some? ==>
      && out.value.row.value.startDate <= out.value.row.value.endDate
      && (dailyRate.GetOr(0) >= 0 ==> out.value.row.value.totalCost.GetOr(0) >= 0)
      && out.value.row.value.totalCost.Some?
    ensures out.Some? ==> (out.value.error.None? <==> out.value.row.Some?)
    ensures out.Some? && start.value <= end.value ==>
      out == SubmitReported(signedIn, start, end, itemId, dailyRate, message, profile, itemOwner, inserted, d)
  {
    if !signedIn || start.None? || end.None? then None
    else if end.value < start.value then Some(Submission(None, Some(EndBeforeStart)))
    else SubmitReported(signedIn, start, end, itemId, dailyRate, message, profile, itemOwner, inserted, d)
  }
}
