/** The life of one borrow request as the two parties drive it through the
    client: opening and closing the chat dialog, chat messages and offers in
    it, the owner's decision, the borrower's cancellation and the payment
    page. Each event runs the handler of the page that offers it, and only
    when that page shows the control; the backend calls are taken to
    succeed. The lists show the live status; an open dialog shows the status
    the request had when the dialog was opened. */
module Lifecycle {
  import opened Wrappers
  import opened Enums
  import opened Records
  import Chat
  import Orders
  import MyRequests
  import Payment
  import StatusFlow

  datatype Actor = Borrower | Owner

  /** A request, its conversation log, the conversation's id, whether the
      item is a service, and each party's open chat dialog with the status
      it was opened on. */
  datatype World = World(thread: Chat.Thread, conversation: Id, isService: bool,
                         dialogs: map<Actor, Option<RequestStatus>>)

  datatype Event =
    | OpenChat(who: Actor)
    | CloseChat(who: Actor)
    | Text(who: Actor, text: string, stamp: Chat.Stamp)
    | Offer(who: Actor, amount: Option<Money>, days: Option<int>, stamp: Chat.Stamp)
    | AcceptOfferAt(who: Actor, index: nat, stamp: Chat.Stamp)
    | Decide(decision: Orders.Decision, now: Millis, stamp: Chat.Stamp)
    | Cancel(now: Millis)
    | Pay

  /** The dialog as the actor opened it: the conversation loaded, the
      actor's own profile signed in, and the status it was opened on. */
  function SessionOf(w: World, who: Actor, shown: Option<RequestStatus>): (s: Chat.Session)
    ensures s.conversation == Some(w.conversation)
    ensures who == Owner ==> s.profile == Some(w.thread.request.ownerId)
    ensures who == Borrower ==> s.profile == Some(w.thread.request.borrowerId)
    ensures s.shown == shown && s.isService == w.isService
  {
    var r := w.thread.request;
    Chat.Session(Some(w.conversation), Some(if who == Owner then r.ownerId else r.borrowerId), w.isService, shown)
  }

  /** The owner reaches the dialog from any card of the order list, which
      shows every status except overdue and null; the borrower only where the
      request list offers the chat control. */
  predicate CanOpenChat(who: Actor, status: Option<RequestStatus>) {
    if who == Owner then Orders.TabOf(status).Some? else MyRequests.ChatControl(status).Some?
  }

  /** One event. An event whose control is not shown changes nothing. The
      dialog's controls and `sendMessage`'s pending test read the status the
      dialog was opened on, not the live one. */
  function Step(w: World, e: Event): (w': World)
    ensures w'.conversation == w.conversation && w'.isService == w.isService
    ensures Chat.AppendsAtMostOne(w.thread, w'.thread)
    ensures !e.OpenChat? && !e.CloseChat? ==> w'.dialogs == w.dialogs
    ensures e.OpenChat? ==> w'.thread == w.thread
    ensures e.OpenChat? && CanOpenChat(e.who, w.thread.request.status) ==>
      w'.dialogs == w.dialogs[e.who := w.thread.request.status]
    ensures e.CloseChat? ==> w'.thread == w.thread && w'.dialogs == w.dialogs - {e.who}
  {
    var t := w.thread;
    var status := t.request.status;
    match e
    case OpenChat(who) =>
      if CanOpenChat(who, status) then w.(dialogs := w.dialogs[who := status]) else w
    case CloseChat(who) =>
      w.(dialogs := w.dialogs - {who})
    case Text(who, text, stamp) =>
      if who in w.dialogs && Chat.ShowInput(w.dialogs[who]) then
        w.(thread := Chat.SendMessage(t, SessionOf(w, who, w.dialogs[who]), text, stamp, true))
      else w
    case Offer(who, amount, days, stamp) =>
      if who in w.dialogs && Chat.ShowInput(w.dialogs[who]) then
        w.(thread := Chat.SendOffer(t, SessionOf(w, who, w.dialogs[who]), amount, days, stamp, true))
      else w
    case AcceptOfferAt(who, i, stamp) =>
      if who in w.dialogs && i < |t.log|
         && Chat.ShowAccept(t.log[i], SessionOf(w, who, w.dialogs[who]).profile, w.dialogs[who]) then
        w.(thread := Chat.AcceptOffer(t, SessionOf(w, who, w.dialogs[who]), t.log[i], stamp))
      else w
    case Decide(d, now, stamp) =>
      if Orders.ShowDecision(status) then
        w.(thread := Orders.HandleAction(t, d, now, true, Some(w.conversation), None, stamp))
      else w
    case Cancel(now) =>
      if MyRequests.ShowCancel(status) then
        w.(thread := t.(request := MyRequests.CancelRequest(t.request, now, true)))
      else w
    case Pay =>
      var table := Payment.OnPaymentSuccess([t.request], Some(t.request.id), None);
      w.(thread := t.(request := table[0]))
  }

  function Run(w: World, events: seq<Event>): World
    decreases |events|
  {
    if |events| == 0 then w else Run(Step(w, events[0]), events[1..])
  }

  // ---- The invariant -------------------------------------------------------

  /** Every offer in the log carries both an amount and a duration. */
  predicate OffersComplete(log: seq<Message>) {
    forall i :: 0 <= i < |log| && log[i].messageType == "offer" ==>
      log[i].offerAmount.Some? && log[i].offerDays.Some?
  }

  /** What holds of every request the client has driven from a fresh one. */
  predicate Inv(w: World) {
    var r := w.thread.request;
    && r.status.Some? && r.status.value !in {Completed, Overdue}
    && (r.negotiatedRate.Some? <==> r.negotiatedDays.Some?)
    && (r.negotiatedRate.Some? ==> r.status.value !in {Pending, Rejected})
    && OffersComplete(w.thread.log)
    && (r.status == Some(Accepted) && r.negotiatedRate.Some? ==>
          r.totalCost == Some(r.negotiatedRate.value * r.negotiatedDays.value))
  }

  /** A request as the borrow form inserts it, before any conversation and
      with no dialog open. */
  predicate Fresh(w: World) {
    && w.dialogs == map[]
    && w.thread.request.status == Some(Pending)
    && w.thread.request.negotiatedRate.None?
    && w.thread.request.negotiatedDays.None?
    && w.thread.log == []
  }

  lemma FreshInv(w: World)
    requires Fresh(w)
    ensures Inv(w)
  {
  }

  lemma OffersCompleteExtend(log: seq<Message>, log': seq<Message>)
    requires OffersComplete(log)
    requires |log'| == |log| + 1 && log'[..|log|] == log
    requires log'[|log|].messageType == "offer" ==> log'[|log|].offerAmount.Some? && log'[|log|].offerDays.Some?
    ensures OffersComplete(log')
  {
    forall i | 0 <= i < |log'| && log'[i].messageType == "offer"
      ensures log'[i].offerAmount.Some? && log'[i].offerDays.Some?
    {
      if i < |log| {
        assert log'[i] == log'[..|log|][i];
      }
    }
  }

  /** Every event keeps the invariant. */
  lemma StepInv(w: World, e: Event)
    requires Inv(w)
    ensures Inv(Step(w, e))
  {
    var t := w.thread;
    var w' := Step(w, e);
    if w'.thread.log != t.log {
      OffersCompleteExtend(t.log, w'.thread.log);
    }
    match e
    case AcceptOfferAt(who, i, stamp) =>
      if w' != w {
        assert t.log[i].messageType == "offer";
      }
    case _ =>
  }

  lemma {:induction false} RunInv(w: World, events: seq<Event>)
    requires Inv(w)
    ensures Inv(Run(w, events))
    decreases |events|
  {
    if |events| > 0 {
      StepInv(w, events[0]);
      RunInv(Step(w, events[0]), events[1..]);
    }
  }

  // ---- Consequences --------------------------------------------------------

  /** No sequence of client events makes a fresh request completed or
      overdue: no handler writes either status. */
  lemma CompletedUnreachable(w: World, events: seq<Event>)
    requires Fresh(w)
    ensures Run(w, events).thread.request.status !in {Some(Completed), Some(Overdue)}
  {
    FreshInv(w);
    RunInv(w, events);
  }

  /** An accepted request with negotiated terms stores the cost of those
      terms. */
  lemma AcceptedTermsCost(w: World, events: seq<Event>)
    requires Fresh(w)
    ensures var r := Run(w, events).thread.request;
      r.status == Some(Accepted) && r.negotiatedRate.Some? ==>
        r.negotiatedDays.Some? && r.totalCost == Some(r.negotiatedRate.value * r.negotiatedDays.value)
  {
    FreshInv(w);
    RunInv(w, events);
  }

  /** A single event keeps the fixed columns. */
  lemma StepFrame(w: World, e: Event)
    ensures SameFixedColumns(w.thread.request, Step(w, e).thread.request)
  {
  }

  /** The ids, parties, dates and creation time of a request never change. */
  lemma {:induction false} RunFixedColumns(w: World, events: seq<Event>)
    ensures SameFixedColumns(w.thread.request, Run(w, events).thread.request)
    decreases |events|
  {
    if |events| > 0 {
      StepFrame(w, events[0]);
      RunFixedColumns(Step(w, events[0]), events[1..]);
    }
  }

  /** The conversation log only grows, at its end. */
  lemma {:induction false} RunLogGrows(w: World, events: seq<Event>)
    ensures |Run(w, events).thread.log| >= |w.thread.log|
    ensures Run(w, events).thread.log[..|w.thread.log|] == w.thread.log
    decreases |events|
  {
    if |events| > 0 {
      var w1 := Step(w, events[0]);
      RunLogGrows(w1, events[1..]);
      var log := Run(w1, events[1..]).thread.log;
      assert log[..|w1.thread.log|] == w1.thread.log;
      assert w1.thread.log[..|w.thread.log|] == w.thread.log;
      assert log[..|w.thread.log|] == log[..|w1.thread.log|][..|w.thread.log|];
    }
  }

  /** An accepted offer stores the total its card shows once a missing
      duration alone reads as one day. */
  lemma AcceptStoresShownTotal(w: World, who: Actor, i: nat, stamp: Chat.Stamp)
    requires Inv(w)
    requires i < |w.thread.log|
    requires Step(w, AcceptOfferAt(who, i, stamp)) != w
    ensures Step(w, AcceptOfferAt(who, i, stamp)).thread.request.totalCost
            == Some(Chat.ShownOfferTotal(w.thread.log[i]))
  {
    assert w.thread.log[i].messageType == "offer";
  }

  /** The owner can reopen a cancelled or a paid request by sending a
      counter-offer: the order list still offers the dialog for those
      statuses, the dialog shows its input area for them, and `sendOffer`
      writes negotiating unconditionally. */
  lemma OwnerReopens(w: World, amount: Money, days: int, stamp: Chat.Stamp)
    requires w.thread.request.status in {Some(Cancelled), Some(Active)}
    ensures var w1 := Step(w, OpenChat(Owner));
      var r := Step(w1, Offer(Owner, Some(amount), Some(days), stamp)).thread.request;
      r.status == Some(Negotiating) && r.negotiatedRate == Some(amount) && r.negotiatedDays == Some(days)
  {
  }

  /** The borrower cannot reopen one from the request list: it offers no chat
      on a cancelled or paid request, so with no dialog already open no
      dialog event of the borrower changes anything. */
  lemma BorrowerCannotReopen(w: World, e: Event)
    requires w.thread.request.status in {Some(Cancelled), Some(Active)}
    requires Borrower !in w.dialogs
    requires e.OpenChat? || e.Text? || e.Offer? || e.AcceptOfferAt?
    requires e.who == Borrower
    ensures Step(w, e) == w
  {
  }

  /** The dialog keeps the status it was opened on: once the owner accepts
      the borrower's offer in a dialog opened on a negotiating request, that
      dialog still shows its input area, and a counter-offer from it sets
      the accepted request back to negotiating. */
  lemma AcceptThenCounterOffer(w: World, i: nat, amount: Money, days: int, stamp: Chat.Stamp, stamp': Chat.Stamp)
    requires w.thread.request.status == Some(Negotiating)
    requires i < |w.thread.log| && w.thread.log[i].messageType == "offer"
    requires w.thread.log[i].senderId == Some(w.thread.request.borrowerId)
    requires w.thread.request.ownerId != w.thread.request.borrowerId
    ensures var w1 := Step(w, OpenChat(Owner));
      var w2 := Step(w1, AcceptOfferAt(Owner, i, stamp));
      var w3 := Step(w2, Offer(Owner, Some(amount), Some(days), stamp'));
      && w2.thread.request.status == Some(Accepted)
      && w2.dialogs[Owner] == Some(Negotiating)
      && w3.thread.request.status == Some(Negotiating)
      && w3.thread.request.negotiatedRate == Some(amount)
      && w3.thread.request.negotiatedDays == Some(days)
  {
  }

  /** The payment page marks a request paid and active whatever its status,
      including one the owner has not yet accepted. */
  lemma PayFromPending(w: World)
    requires Fresh(w) && w.thread.request.id != ""
    ensures var r := Step(w, Pay).thread.request;
      r.status == Some(Active) && r.paymentStatus == Some("completed")
  {
  }

  /** On an accepted request with non-zero negotiated terms, the borrower's
      card total and the status panel's final terms both show the stored
      `total_cost`, while the owner's card shows the per-day rate under the
      same "Total cost" label; the two cards agree only for one-day terms. */
  lemma AcceptedTotalsOnCards(w: World)
    requires Inv(w)
    requires var r := w.thread.request;
      r.status == Some(Accepted) && Truthy(r.negotiatedRate) && Truthy(r.negotiatedDays)
    ensures var r := w.thread.request;
      && Some(MyRequests.DisplayedTotal(r)) == r.totalCost
      && StatusFlow.FinalTermsTotal(r) == r.totalCost
      && Orders.DisplayedTotal(r) == r.negotiatedRate.value
      && (Orders.DisplayedTotal(r) == MyRequests.DisplayedTotal(r) <==> r.negotiatedDays.value == 1)
  {
    var r := w.thread.request;
    var rate, days := r.negotiatedRate.value, r.negotiatedDays.value;
    if rate * days == rate {
      assert rate * (days - 1) == 0;
    }
  }

  /** The status changes one event can make. Rejected and cancelled are
      written only from the statuses whose cards offer Decline and Cancel;
      negotiating and accepted can be written over any status by a dialog
      whose copy of the status is out of date, and active by the payment
      page; completed and overdue are never written. */
  predicate Transition(from: Option<RequestStatus>, to: Option<RequestStatus>) {
    || from == to
    || to in {Some(Negotiating), Some(Accepted), Some(Active)}
    || (from == Some(Pending) && to in {Some(Rejected), Some(Cancelled)})
    || (from == Some(Negotiating) && to == Some(Cancelled))
  }

  lemma StepTransition(w: World, e: Event)
    requires Inv(w)
    ensures Transition(w.thread.request.status, Step(w, e).thread.request.status)
  {
  }
}
