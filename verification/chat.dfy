/** The chat-and-negotiate dialog of a borrow request: sending a text
    message, sending a counter-offer, accepting an offer, the realtime
    message list, and which controls the dialog shows. */
module Chat {
  import opened Wrappers
  import opened Text
  import opened Enums
  import opened Records

  /** A request row together with the messages of its conversation, oldest
      first. */
  datatype Thread = Thread(request: BorrowRequest, log: seq<Message>)

  /** What the open dialog knows besides the live request row: the
      conversation id and the signed-in profile id (each missing until
      loaded), whether the item is a service, which picks the rate unit in
      message text, and `shown`, the status of the request as the list handed
      it to the dialog when it opened. The dialog never refreshes that copy,
      so every status test inside the dialog reads `shown`, while every
      update is applied to the live row by its id. */
  datatype Session = Session(conversation: Option<Id>, profile: Option<Id>, isService: bool,
                             shown: Option<RequestStatus>)

  /** The id and creation time the backend gives an inserted message. */
  datatype Stamp = Stamp(id: Id, at: Millis)

  /** The log only grows, by at most one message, at its end. */
  predicate AppendsAtMostOne(t: Thread, t': Thread) {
    (t'.log == t.log) || (|t'.log| == |t.log| + 1 && t'.log[..|t.log|] == t.log)
  }

  function RateUnit(isService: bool): string {
    if isService then "hour" else "day"
  }

  /** `${x}` for a nullable number: a missing value prints as "null". */
  function NullableText(o: Option<int>): string {
    if o.Some? then NumberText(o.value) else "null"
  }

  // ---- sendMessage --------------------------------------------------------

  /** The text box holds something besides whitespace and the dialog has
      loaded its conversation and profile. */
  predicate CanSendText(s: Session, text: string) {
    Trim(text) != [] && s.conversation.Some? && s.profile.Some?
  }

  /** `sendMessage`: inserts a text message (the untrimmed text); once the
      insert succeeds, a request the dialog shows as pending is set to
      negotiating, whatever its status is by then. */
  function SendMessage(t: Thread, s: Session, text: string, stamp: Stamp, inserted: bool): (t': Thread)
    ensures !CanSendText(s, text) || !inserted ==> t' == t
    ensures CanSendText(s, text) && inserted ==>
      t'.log == t.log + [Message(stamp.id, s.conversation, s.profile, "text", text, None, None, stamp.at)]
    ensures CanSendText(s, text) && inserted && s.shown == Some(Pending)
      ==> t'.request.status == Some(Negotiating)
    ensures s.shown != Some(Pending) ==> t'.request == t.request
    ensures t'.request == t.request.(status := t'.request.status)
    ensures AppendsAtMostOne(t, t')
  {
    if !CanSendText(s, text) || !inserted then t
    else
      var m := Message(stamp.id, s.conversation, s.profile, "text", text, None, None, stamp.at);
      var r := if s.shown == Some(Pending) then Apply(StatusPatch(Negotiating), t.request) else t.request;
      Thread(r, t.log + [m])
  }

  // ---- sendOffer ----------------------------------------------------------

  /** Both offer fields are filled in (a missing field is `None`) and the
      dialog has loaded its conversation and profile. */
  predicate CanSendOffer(s: Session, amount: Option<Money>, days: Option<int>) {
    amount.Some? && days.Some? && s.conversation.Some? && s.profile.Some?
  }

  function OfferText(amount: Money, days: int, isService: bool): string {
    "Offer: $" + NumberText(amount) + "/" + RateUnit(isService) + " for " + NumberText(days) + " days"
  }

  /** `sendOffer`: inserts an offer message; once the insert succeeds the
      request is set to negotiating with the offered rate and duration,
      whatever its status was. */
  function SendOffer(t: Thread, s: Session, amount: Option<Money>, days: Option<int>, stamp: Stamp, inserted: bool): (t': Thread)
    ensures !CanSendOffer(s, amount, days) || !inserted ==> t' == t
    ensures CanSendOffer(s, amount, days) && inserted ==>
      && t'.request.status == Some(Negotiating)
      && t'.request.negotiatedRate == amount
      && t'.request.negotiatedDays == days
      && |t'.log| == |t.log| + 1
      && t'.log[|t.log|].messageType == "offer"
      && t'.log[|t.log|].offerAmount == amount
      && t'.log[|t.log|].offerDays == days
      && t'.log[|t.log|].senderId == s.profile
    ensures t'.request == t.request.(status := t'.request.status,
                                     negotiatedRate := t'.request.negotiatedRate,
                                     negotiatedDays := t'.request.negotiatedDays)
    ensures AppendsAtMostOne(t, t')
  {
    if !CanSendOffer(s, amount, days) || !inserted then t
    else
      var m := Message(stamp.id, s.conversation, s.profile, "offer",
                       OfferText(amount.value, days.value, s.isService), amount, days, stamp.at);
      var p := Patch(Write(Negotiating), Write(amount), Write(days), Keep, Keep, Keep);
      Thread(Apply(p, t.request), t.log + [m])
  }

  // ---- acceptOffer --------------------------------------------------------

  function AcceptedText(amount: Option<Money>, days: Option<int>, isService: bool): string {
    "Offer accepted! Final terms: $" + NullableText(amount) + "/" + RateUnit(isService)
      + " for " + NullableText(days) + " days"
  }

  /** `acceptOffer(m)`: the request is accepted on the offer's terms with
      `total_cost = amount * days` (a missing number counts as 0), then a
      system message is inserted if the conversation and profile are known. */
  function AcceptOffer(t: Thread, s: Session, m: Message, stamp: Stamp): (t': Thread)
    ensures t'.request.status == Some(Accepted)
    ensures t'.request.negotiatedRate == m.offerAmount
    ensures t'.request.negotiatedDays == m.offerDays
    ensures m.offerAmount.Some? && m.offerDays.Some? ==>
      t'.request.totalCost == Some(m.offerAmount.value * m.offerDays.value)
    ensures m.offerAmount.None? || m.offerDays.None? ==> t'.request.totalCost == Some(0)
    ensures t'.request == t.request.(status := t'.request.status,
                                     negotiatedRate := t'.request.negotiatedRate,
                                     negotiatedDays := t'.request.negotiatedDays,
                                     totalCost := t'.request.totalCost)
    ensures (s.conversation.Some? && s.profile.Some?) <==> |t'.log| == |t.log| + 1
    ensures |t'.log| == |t.log| + 1 ==> t'.log[|t.log|].messageType == "system"
    ensures AppendsAtMostOne(t, t')
  {
    var total := AsNumber(m.offerAmount) * AsNumber(m.offerDays);
    var p := Patch(Write(Accepted), Write(m.offerAmount), Write(m.offerDays), Write(Some(total)), Keep, Keep);
    var r := Apply(p, t.request);
    if s.conversation.Some? && s.profile.Some? then
      var note := Message(stamp.id, s.conversation, s.profile, "system",
                          AcceptedText(m.offerAmount, m.offerDays, s.isService), None, None, stamp.at);
      Thread(r, t.log + [note])
    else
      Thread(r, t.log)
  }

  // ---- Realtime list ------------------------------------------------------

  /** The realtime insert handler: `[...prev, payload.new]`. */
  function Receive(view: seq<Message>, m: Message): (v: seq<Message>)
    ensures |v| == |view| + 1 && v[..|view|] == view && v[|view|] == m
  {
    view + [m]
  }

  /** A dialog whose list matched the log before a handler ran matches it
      again once the inserted message, if any, arrives through the realtime
      channel. */
  lemma ReceiveKeepsInSync(t: Thread, t': Thread)
    requires AppendsAtMostOne(t, t') && t'.log != t.log
    ensures Receive(t.log, t'.log[|t.log|]) == t'.log
  {
  }

  // ---- Controls -----------------------------------------------------------

  /** `message.sender_id !== currentProfile?.id` is false only when both ids
      are present and equal. */
  predicate SentBy(sender: Option<Id>, profile: Option<Id>) {
    sender.Some? && profile.Some? && sender.value == profile.value
  }

  /** The Accept control on a message: only on offers the viewer did not
      send, and only while the request is negotiating. */
  predicate ShowAccept(m: Message, profile: Option<Id>, status: Option<RequestStatus>) {
    m.messageType == "offer" && !SentBy(m.senderId, profile) && status == Some(Negotiating)
  }

  /** The message and offer input area. */
  predicate ShowInput(status: Option<RequestStatus>) {
    status != Some(Accepted) && status != Some(Rejected)
  }

  /** The "conversation has ended" banner. */
  predicate ShowEnded(status: Option<RequestStatus>) {
    status == Some(Accepted) || status == Some(Rejected)
  }

  /** Between two signed-in parties, an offer while negotiating carries the
      Accept control for the party who did not send it and not for its
      sender. An offer with no sender, or a dialog whose profile has not
      loaded yet, shows it to anyone. */
  lemma AcceptByRecipientOnly(m: Message, sender: Id, other: Id)
    requires m.messageType == "offer" && m.senderId == Some(sender) && sender != other
    ensures ShowAccept(m, Some(other), Some(Negotiating))
    ensures !ShowAccept(m, Some(sender), Some(Negotiating))
    ensures ShowAccept(m.(senderId := None), Some(sender), Some(Negotiating))
    ensures ShowAccept(m, None, Some(Negotiating))
    ensures forall st :: st != Some(Negotiating) ==> !ShowAccept(m, Some(other), st)
  {
  }

  /** Exactly one of the input area and the banner is shown, and the banner
      is shown for accepted and rejected requests only. */
  lemma InputOrEnded(status: Option<RequestStatus>)
    ensures ShowInput(status) != ShowEnded(status)
    ensures ShowEnded(status) <==> status in {Some(Accepted), Some(Rejected)}
  {
  }

  /** The total shown on an offer:
      `(offer_amount || 0) * (offer_duration_days || 1)`. */
  function OfferTotal(m: Message): (total: Money)
    ensures Truthy(m.offerAmount) && Truthy(m.offerDays) ==> total == m.offerAmount.value * m.offerDays.value
    ensures !Truthy(m.offerAmount) ==> total == 0
    ensures Truthy(m.offerAmount) && !Truthy(m.offerDays) ==> total == m.offerAmount.value
  {
    OrElse(m.offerAmount, 0) * OrElse(m.offerDays, 1)
  }

  /** Accepting a shown offer stores the same total the offer displayed,
      whenever both offer numbers are present and non-zero. */
  lemma AcceptedTotalMatchesDisplay(t: Thread, s: Session, m: Message, stamp: Stamp)
    requires Truthy(m.offerAmount) && Truthy(m.offerDays)
    ensures AcceptOffer(t, s, m, stamp).request.totalCost == Some(OfferTotal(m))
  {
  }

  /** The input guard of `sendOffer` tests the raw field text, so a duration
      of "0" passes it. The card then shows the amount as the total, while
      accepting the offer stores a total of 0. */
  lemma ZeroDayOfferMisstated(t: Thread, s: Session, stamp: Stamp, stamp': Stamp)
    requires s.conversation.Some? && s.profile.Some?
    ensures var t1 := SendOffer(t, s, Some(10), Some(0), stamp, true);
      var m := t1.log[|t.log|];
      && OfferTotal(m) == 10
      && AcceptOffer(t1, s, m, stamp').request.totalCost == Some(0)
  {
  }

  /** The card's total with only a missing duration read as one day. */
  function ShownOfferTotal(m: Message): (total: Money)
    ensures m.offerAmount.Some? && m.offerDays.Some? ==> total == m.offerAmount.value * m.offerDays.value
    ensures m.offerDays.None? ==> total == OrElse(m.offerAmount, 0)
  {
    OrElse(m.offerAmount, 0) * m.offerDays.GetOr(1)
  }

  /** With that reading, accepting any offer that carries both numbers
      stores exactly the total its card showed, zero days included. */
  lemma AcceptedTotalMatchesShown(t: Thread, s: Session, m: Message, stamp: Stamp)
    requires m.offerAmount.Some? && m.offerDays.Some?
    ensures AcceptOffer(t, s, m, stamp).request.totalCost == Some(ShownOfferTotal(m))
  {
  }

  /** The two readings differ exactly on offers whose duration is zero and
      whose amount is not. */
  lemma ShownTotalDiffers(m: Message)
    requires m.offerAmount.Some? && m.offerDays.Some?
    ensures OfferTotal(m) != ShownOfferTotal(m) <==> m.offerDays.value == 0 && m.offerAmount.value != 0
  {
  }
}
