/** The rows the components read and write: `borrow_requests` and `messages`,
    the joined request rows of the two request lists, JavaScript's treatment
    of nullable numbers, and the backend's `update(...).eq('id', id)`. */
module Records {
  import opened Wrappers
  import opened Enums
  import opened Seqs

  type Id = string
  /** An amount of money in the smallest unit the model distinguishes. */
  type Money = int
  /** A point in time, in milliseconds. */
  type Millis = int

  /** A `borrow_requests` row. Every nullable column is an `Option`.
      `paymentStatus` is the `payment_status` column the payment page writes
      and the status panel reads; it is absent from the generated row type. */
  datatype BorrowRequest = BorrowRequest(
    id: Id,
    itemId: Id,
    borrowerId: Id,
    ownerId: Id,
    startDate: Millis,
    endDate: Millis,
    message: Option<string>,
    status: Option<RequestStatus>,
    negotiatedRate: Option<Money>,
    negotiatedDays: Option<int>,
    totalCost: Option<Money>,
    ownerResponse: Option<string>,
    lastMessageAt: Option<Millis>,
    actualReturnDate: Option<Millis>,
    createdAt: Millis,
    updatedAt: Millis,
    paymentStatus: Option<string>)

  /** A `messages` row. `messageType` is free text ("text", "offer",
      "system", ...); the offer columns are nullable. */
  datatype Message = Message(
    id: Id,
    conversationId: Option<Id>,
    senderId: Option<Id>,
    messageType: string,
    content: string,
    offerAmount: Option<Money>,
    offerDays: Option<int>,
    createdAt: Millis)

  /** The parts of a joined profile the request lists show. */
  datatype ProfileSummary = ProfileSummary(id: Id, fullName: string, trustScore: Option<int>, totalRatings: Option<int>)

  /** The parts of a joined item the request lists show. */
  datatype ItemSummary = ItemSummary(id: Id, title: string, dailyRate: Option<Money>, hourlyRate: Option<Money>, isService: Option<bool>)

  /** A request row with its joins: the other party (the borrower for the
      owner's list, the owner for the borrower's list) and the item. A join
      that found nothing is `None`. */
  datatype JoinedRequest = JoinedRequest(request: BorrowRequest, party: Option<ProfileSummary>, item: Option<ItemSummary>)

  // ---- JavaScript truthiness of nullable numbers --------------------------

  /** A nullable number is truthy when present and non-zero. */
  predicate Truthy(o: Option<int>) {
    o.Some? && o.value != 0
  }

  /** `o || d` for a nullable number and a numeric fallback. */
  function OrElse(o: Option<int>, d: int): (r: int)
    ensures Truthy(o) ==> r == o.value
    ensures !Truthy(o) ==> r == d
  {
    if Truthy(o) then o.value else d
  }

  /** The number JavaScript arithmetic reads for a nullable number
      (`null * x` is `0`). */
  function AsNumber(o: Option<int>): int {
    o.GetOr(0)
  }

  // ---- Column updates -----------------------------------------------------

  /** One column of an update: left as it is, or overwritten. */
  datatype Field<T> = Keep | Write(value: T) {
    function Over(current: T): T {
      match this
      case Keep => current
      case Write(v) => v
    }
  }

  /** The columns the client ever writes to a request row. A status write
      always stores a non-null status. */
  datatype Patch = Patch(
    status: Field<RequestStatus>,
    negotiatedRate: Field<Option<Money>>,
    negotiatedDays: Field<Option<int>>,
    totalCost: Field<Option<Money>>,
    updatedAt: Field<Millis>,
    paymentStatus: Field<Option<string>>)

  /** An update that only sets the status. */
  function StatusPatch(s: RequestStatus): Patch {
    Patch(Write(s), Keep, Keep, Keep, Keep, Keep)
  }

  /** The columns no handler writes are equal in both rows. */
  predicate SameFixedColumns(a: BorrowRequest, b: BorrowRequest) {
    && a.id == b.id && a.itemId == b.itemId
    && a.borrowerId == b.borrowerId && a.ownerId == b.ownerId
    && a.startDate == b.startDate && a.endDate == b.endDate
    && a.message == b.message && a.ownerResponse == b.ownerResponse
    && a.lastMessageAt == b.lastMessageAt && a.actualReturnDate == b.actualReturnDate
    && a.createdAt == b.createdAt
  }

  /** The row after an update: written columns take the new values. */
  function Apply(p: Patch, r: BorrowRequest): (r': BorrowRequest)
    ensures SameFixedColumns(r, r')
  {
    r.(status := if p.status.Write? then Some(p.status.value) else r.status,
       negotiatedRate := p.negotiatedRate.Over(r.negotiatedRate),
       negotiatedDays := p.negotiatedDays.Over(r.negotiatedDays),
       totalCost := p.totalCost.Over(r.totalCost),
       updatedAt := p.updatedAt.Over(r.updatedAt),
       paymentStatus := p.paymentStatus.Over(r.paymentStatus))
  }

  /** Every column a patch keeps is unchanged, and every column it writes
      holds the written value. */
  lemma ApplyFrame(p: Patch, r: BorrowRequest)
    ensures var r' := Apply(p, r);
      && (p.status.Keep? ==> r'.status == r.status)
      && (p.status.Write? ==> r'.status == Some(p.status.value))
      && (p.negotiatedRate.Keep? ==> r'.negotiatedRate == r.negotiatedRate)
      && (p.negotiatedRate.Write? ==> r'.negotiatedRate == p.negotiatedRate.value)
      && (p.negotiatedDays.Keep? ==> r'.negotiatedDays == r.negotiatedDays)
      && (p.negotiatedDays.Write? ==> r'.negotiatedDays == p.negotiatedDays.value)
      && (p.totalCost.Keep? ==> r'.totalCost == r.totalCost)
      && (p.totalCost.Write? ==> r'.totalCost == p.totalCost.value)
      && (p.updatedAt.Keep? ==> r'.updatedAt == r.updatedAt)
      && (p.updatedAt.Write? ==> r'.updatedAt == p.updatedAt.value)
      && (p.paymentStatus.Keep? ==> r'.paymentStatus == r.paymentStatus)
      && (p.paymentStatus.Write? ==> r'.paymentStatus == p.paymentStatus.value)
  {
  }

  /** `update(patch).eq('id', id)` on a table: every row with that id is
      patched, every other row is left exactly as it was, order is kept. */
  function UpdateById(table: seq<BorrowRequest>, id: Id, p: Patch): (t: seq<BorrowRequest>)
    ensures |t| == |table|
    ensures forall i :: 0 <= i < |t| && table[i].id != id ==> t[i] == table[i]
    ensures forall i :: 0 <= i < |t| && table[i].id == id ==> t[i] == Apply(p, table[i])
  {
    seq(|table|, i requires 0 <= i < |table| => if table[i].id == id then Apply(p, table[i]) else table[i])
  }

  // ---- Joined rows --------------------------------------------------------

  /** Both joins found their row. */
  predicate Complete(j: JoinedRequest) {
    j.party.Some? && j.item.Some?
  }

  /** `data.filter(r => r.<party> && r.item)`: drops rows whose joined profile
      or item is missing and keeps the rest in order. */
  function KeepComplete(rows: seq<JoinedRequest>): (r: seq<JoinedRequest>)
    ensures forall i :: 0 <= i < |r| ==> Complete(r[i])
    ensures forall j :: j in r <==> j in rows && Complete(j)
    ensures SubseqOf(r, rows)
  {
    FilterKeepsEvery(rows, Complete);
    FilterSubseq(rows, Complete);
    Filter(rows, Complete)
  }
}
