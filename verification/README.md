# Owl Lend & Borrow: a Dafny model of the client's request logic

Owl Lend & Borrow is a peer-to-peer rental marketplace. Students list items and
services, other students ask to borrow them, the two parties haggle over rate
and duration in a chat dialog, the owner accepts or declines, and the
borrower pays. The client is a React application over a hosted database. This
project models the logic inside its event handlers and render helpers as pure
Dafny functions over immutable records:

- the generated schema types: the three enums, the `borrow_requests` and
  `messages` rows with their nullable columns (`enums.dfy`, `records.dfy`);
- the chat-and-negotiate dialog: sending a text, sending a counter-offer,
  accepting an offer, the realtime list, and which controls are shown
  (`chat.dfy`);
- the owner's order list, the borrower's request list, the payment page and
  the order status panel (`orders.dfy`, `my_requests.dfy`, `payment.dfy`,
  `status_flow.dfy`);
- the borrow-request form and the add-item form (`borrow_form.dfy`,
  `item_form.dfy`);
- the catalogue pages and the item card (`catalogue.dfy`, `services.dfy`,
  `item_card.dfy`);
- the request's life as both parties drive it through those pages
  (`lifecycle.dfy`);
- the string, sequence and option helpers these need (`text.dfy`, `seqs.dfy`,
  `wrappers.dfy`).

Modelling conventions:

- Money is a whole number in an abstract unit. Durations are whole days.
  Timestamps are whole milliseconds, and "now" is a parameter.
- A nullable column is an `Option`. JavaScript truthiness of a nullable number
  (`x || d`) is `Records.OrElse`: null and zero both fall back. Arithmetic on
  null reads it as 0 (`Records.AsNumber`).
- Backend updates are `Records.Patch` values: each column is either kept or
  written. `update(...).eq('id', id)` is `Records.UpdateById`. A handler's
  backend calls appear as boolean parameters saying whether the call
  succeeded, or as the id the backend returned.
- Status-driven views take the status as the string the page compares. This
  keeps values the enum does not have, such as `in_progress`, expressible.
- `Array.prototype.sort` with a numeric comparator is a stable insertion sort
  on the comparator's key (`Seqs.SortBy`).
- A JavaScript object used as a counter is an association list in insertion
  order.

The model keeps these behaviours of the code as written:

- The order status panel knows an `in_progress` status that the enum lacks,
  and it gives the enum's `active` and `overdue` the "Unknown Status" default.
- The payment page writes a `payment_status` column that the row type lacks.
  The model adds it to `Records.BorrowRequest` as a nullable string.
- The owner's card labels `negotiated_rate` as "Total cost".
- Nothing in the code stops the owner from reopening a cancelled or paid
  request with a counter-offer. Nothing stops the payment page from marking an
  unaccepted request active.
- The chat dialog keeps the copy of the request it was opened with. Its
  controls and `sendMessage`'s pending test read that copy, so after accepting
  an offer the same dialog can still send a counter-offer or accept another
  offer.

## Model

| member | source | states |
|---|---|---|
| Enums.ParseStatus | src/integrations/supabase/types.ts:570-579 | the model's reading of a status name (the source compares status strings but parses none): a string reads back as a status exactly when it is one of the eight listed names, and then it names that status |
| Enums.StatusNameRoundTrip | src/integrations/supabase/types.ts:421-429 | the model's own rendering of statuses as names is injective: reading back the name of any status gives that status |
| Enums.RequestStatusEnumeration | src/integrations/supabase/types.ts:570-579 | the status type has exactly eight distinct values, and the constant list names them in declaration order |
| Enums.RequestStatusValuesDistinct | src/integrations/supabase/types.ts:570-579 | the eight listed status names are pairwise different |
| Enums.ItemConditionEnumeration | src/integrations/supabase/types.ts:569 | exactly four conditions, listed once each in the constant's order: excellent, good, fair, poor |
| Enums.ItemCategoryEnumeration | src/integrations/supabase/types.ts:557-568 | exactly ten categories, services among them, listed in the constant's order |
| Enums.ItemCategoryValuesDistinct | src/integrations/supabase/types.ts:557-568 | the ten listed category names are pairwise different |
| Records.OrElse | src/components/OrderManagement.tsx:362 | `x or-else d` (JavaScript's logical or on a nullable number) yields the number when it is present and non-zero, otherwise the fallback |
| Records.Apply | src/components/ChatInterface.tsx:227-234 | an update never changes the ids, parties, dates, message or creation time of a request |
| Records.ApplyFrame | src/components/ChatInterface.tsx:227-234 | for each of the six writable columns (status, negotiated rate, negotiated days, total cost, `updated_at`, payment status), a column the update leaves out is unchanged and a column it names holds the written value |
| Records.UpdateById | src/components/PaymentSuccess.tsx:35-41 | rows with the given id are patched; every other row is unchanged; order and length are kept |
| Records.KeepComplete | src/components/OrderManagement.tsx:110 | a row is kept exactly when its joined profile and item are both present, and the kept rows keep their order |
| Text.TrimEmptyIff | src/components/ChatInterface.tsx:170 | the trimmed text is empty exactly when every character is whitespace |
| Text.ContainsIff | src/pages/Dashboard.tsx:98-99 | `includes` holds exactly when the needle occurs at some position |
| Text.SplitJoin | src/components/ItemCard.tsx:29-33 | joining the pieces of a split with the separator gives back the input |
| Text.DigitsRoundTrip | src/components/ChatInterface.tsx:219 | the model's decimal rendering of `${amount}` is injective: its text reads back as the number (the source reads nothing back) |
| Seqs.SortBy | src/pages/Dashboard.tsx:107-122 | the sorted list is a permutation of the input, ordered by the comparator's key |
| Seqs.SortByStable | src/pages/Dashboard.tsx:107-122 | elements that tie on the key keep their relative order |
| Chat.SendMessage | src/components/ChatInterface.tsx:169-204 | nothing happens for blank text, a missing conversation or profile, or a failed insert; otherwise the untrimmed text is appended as a text message; a request the dialog shows as pending (its copy from when it opened) becomes negotiating whatever its live status is, and the request is unchanged otherwise |
| Chat.SendOffer | src/components/ChatInterface.tsx:206-252 | with both fields filled in and the insert done, an offer message carrying the amount and days is appended, and the request becomes negotiating with those terms, whatever its status was |
| Chat.AcceptOffer | src/components/ChatInterface.tsx:254-292 | the request becomes accepted on the offer's terms with total `amount * days` (a missing number reads as 0); a system message is appended exactly when the conversation and profile are known |
| Chat.Receive | src/components/ChatInterface.tsx:159 | a realtime insert lands at the end of the list, and every earlier message keeps its place |
| Chat.ReceiveKeepsInSync | src/components/ChatInterface.tsx:159 | after any handler, appending the inserted message to the old list gives the new log |
| Chat.InputOrEnded | src/components/ChatInterface.tsx:390-465 | exactly one of the input area and the ended banner is shown, and the banner is shown for accepted and rejected requests only |
| Chat.ShowAccept | src/components/ChatInterface.tsx:362-363 | the Accept control: an offer the viewer did not send, while the dialog shows the request as negotiating |
| Chat.AcceptByRecipientOnly | src/components/ChatInterface.tsx:362-363 | between two signed-in parties, a negotiating offer can be accepted by the party who did not send it and not by its sender; a sender-less offer, or a dialog whose profile has not loaded, shows Accept to anyone; no other status shows it |
| Chat.OfferTotal | src/components/ChatInterface.tsx:358 | the card's total is amount times days when both are non-zero, 0 without an amount, and the amount alone when days are missing or zero |
| Chat.AcceptedTotalMatchesDisplay | src/components/ChatInterface.tsx:254-265 | accepting an offer with non-zero amount and days stores the total its card showed |
| Chat.ZeroDayOfferMisstated | src/components/ChatInterface.tsx:207 | an offer of 10 for "0" days passes the guard; its card shows a total of 10, and accepting it stores 0 |
| Chat.ShownOfferTotal | src/components/ChatInterface.tsx:358 | with only a missing duration read as one day, the card's total is amount times days whenever both are present |
| Chat.AcceptedTotalMatchesShown | src/components/ChatInterface.tsx:254-265 | under that reading, accepting any offer that carries both numbers stores exactly the shown total |
| Chat.ShownTotalDiffers | src/components/ChatInterface.tsx:358 | the card as written and the corrected card differ exactly on zero-day offers with a non-zero amount |
| Orders.HandleAction | src/components/OrderManagement.tsx:155-217 | after a successful update the status is accepted or rejected as decided, with `updated_at` stamped and nothing else changed; a sender-less system message "Request accepted/rejected by owner" is appended with the conversation id of the existing conversation, or else of the newly created one, and nothing is appended when there is neither; nothing changes when the update fails |
| Orders.ShowDecision | src/components/OrderManagement.tsx:387 | Accept and Decline are offered on pending cards only |
| Orders.InTab | src/components/OrderManagement.tsx:238-249 | tab membership: pending holds pending and negotiating, active holds accepted and active, completed holds completed, rejected and cancelled; any other tab name matches the status name |
| Orders.FilterTab | src/components/OrderManagement.tsx:238-249 | a tab lists, in order, exactly the rows whose status it groups, and its count is their number |
| Orders.TabOf | src/components/OrderManagement.tsx:238-249 | the displayed tab a status falls in is one of the three tabs and groups that status, and no other tab does |
| Orders.TabsPartition | src/components/OrderManagement.tsx:238-249 | the three tabs are pairwise disjoint, and a status is in none of them exactly when it is null or overdue |
| Orders.TabCounts | src/components/OrderManagement.tsx:288-299 | the three tab counts plus the hidden overdue and null rows add up to the whole list |
| Orders.StatusColor | src/components/OrderManagement.tsx:224-236 | any string that is not a status name gets the grey class |
| Orders.StatusColorRed | src/components/OrderManagement.tsx:224-236 | among the statuses, exactly rejected, cancelled and overdue are red |
| Orders.StatusColorClasses | src/components/OrderManagement.tsx:224-236 | among the statuses, exactly pending is yellow, negotiating blue, accepted green, active purple, and completed alone gets the grey default |
| Orders.DisplayedRate | src/components/OrderManagement.tsx:331 | the card shows the negotiated rate when it is truthy, otherwise the item's hourly rate for a service or daily rate for an item |
| Orders.DisplayedTotal | src/components/OrderManagement.tsx:362 | the "Total cost" figure is the negotiated rate when truthy, else the stored total, else 0 |
| MyRequests.CancelRequest | src/components/MyRequests.tsx:152-178 | a successful cancel sets cancelled and stamps `updated_at` whatever the status was; a failed one changes nothing |
| MyRequests.ShowCancel | src/components/MyRequests.tsx:374 | Cancel Request is offered on pending and negotiating cards only |
| MyRequests.ChatControl | src/components/MyRequests.tsx:362-372 | the chat control is offered for pending, negotiating and accepted requests only, and it reads "Contact Owner" exactly when accepted |
| MyRequests.CancelImpliesChat | src/components/MyRequests.tsx:362-384 | wherever Cancel is offered, the chat control is offered as "Chat & Negotiate" |
| MyRequests.DisplayedTotal | src/components/MyRequests.tsx:320-322 | with a truthy negotiated rate, the total is rate times days (days missing or zero count as one); otherwise it is the stored total or 0 |
| MyRequests.StatusIcon | src/components/MyRequests.tsx:199-215 | clock for pending and negotiating, check for accepted, active and completed, cross for rejected and cancelled, alert for anything else |
| MyRequests.StatusIconAlert | src/components/MyRequests.tsx:199-215 | among the statuses, only overdue gets the alert icon |
| Payment.SelectRequestId | src/components/PaymentSuccess.tsx:18-23 | a non-empty query parameter wins over the prop; with neither, no id is selected |
| Payment.OnPaymentSuccess | src/components/PaymentSuccess.tsx:33-49 | with an id, the rows with that id become active with a completed payment, whatever their status; all other rows and columns are unchanged; without an id nothing changes |
| StatusFlow.StatusConfig | src/components/OrderStatusFlow.tsx:29-112 | the action set per status: chat for pending and negotiating; chat plus complete or payment for accepted, depending on payment; chat plus complete for in_progress; review for completed; none otherwise, with the "Unknown Status" title for unlisted strings |
| StatusFlow.EnumStatusesUnknownToPanel | src/components/OrderStatusFlow.tsx:101-110 | of the enum statuses, exactly active and overdue get the unknown title, and they get no actions |
| StatusFlow.PaymentXorComplete | src/components/OrderStatusFlow.tsx:51-60 | payment is offered exactly on an accepted, unpaid request, and never together with completion |
| StatusFlow.Progress | src/components/OrderStatusFlow.tsx:170-174 | the bar is 25% for pending, 50% for negotiating, 75% for accepted and in_progress alike, 100% exactly for completed, and empty exactly for every other string |
| StatusFlow.ProgressMonotone | src/components/OrderStatusFlow.tsx:170-174 | the bar grows strictly along pending, negotiating, accepted, completed |
| StatusFlow.PaymentBadge | src/components/OrderStatusFlow.tsx:117-134 | a badge is shown exactly for payment status pending, completed or failed, reading "Payment Pending", "Paid" and "Payment Failed" respectively |
| StatusFlow.PaidBadgeOrPaymentAction | src/components/OrderStatusFlow.tsx:51-60 | on an accepted request the panel asks for payment exactly when the badge does not read "Paid" |
| StatusFlow.PaymentPageShowsPaid | src/components/PaymentSuccess.tsx:33-41 | every row the payment page updates shows the "Paid" badge and is no longer asked for payment |
| StatusFlow.Buttons | src/components/OrderStatusFlow.tsx:183-227 | chat and payment buttons follow the action set; complete and review also need their callbacks |
| StatusFlow.FinalTermsTotal | src/components/OrderStatusFlow.tsx:231-237 | the final terms are shown exactly when the negotiated rate is truthy, with total rate times days (missing days read as 0) |
| BorrowForm.CeilDays | src/components/BorrowRequestModal.tsx:42 | the day count is the least whole number of days covering the span |
| BorrowForm.CeilDaysUnique | src/components/BorrowRequestModal.tsx:42 | only one whole number of days covers a given span |
| BorrowForm.TotalCost | src/components/BorrowRequestModal.tsx:40-44 | the estimate is 0 without both dates or a truthy daily rate, otherwise covering days times the rate |
| BorrowForm.TotalCostPerDay | src/components/BorrowRequestModal.tsx:40-44 | equal dates cost nothing, and each started day costs one more daily rate |
| BorrowForm.StartDisabled | src/components/BorrowRequestModal.tsx:137 | the start picker greys out dates before now |
| BorrowForm.EndDisabled | src/components/BorrowRequestModal.tsx:164 | the end picker greys out dates before the chosen start, or before now while no start is chosen |
| BorrowForm.EndAfterChosenStart | src/components/BorrowRequestModal.tsx:164 | an end date the end picker allows after a start is chosen never gives a negative day count |
| BorrowForm.EndPickedFirstCanPrecedeStart | src/components/BorrowRequestModal.tsx:137-164 | picking the end first and a later start passes both pickers and gives a negative estimate |
| BorrowForm.NewRequest | src/components/BorrowRequestModal.tsx:71-80 | the inserted row is pending, carries the estimate as `total_cost` and the chosen dates and parties, and has no negotiated terms or payment |
| BorrowForm.SubmitEnabled | src/components/BorrowRequestModal.tsx:205 | the submit button is enabled with both dates chosen and no submission in flight |
| BorrowForm.EnabledSubmitActs | src/components/BorrowRequestModal.tsx:46-48 | for a signed-in user the handler acts exactly when the button is enabled; without a user it does nothing |
| BorrowForm.Submit | src/components/BorrowRequestModal.tsx:46-103 | nothing happens without a user and both dates; a missing profile or item owner, or a failed insert, reports an error and inserts nothing; otherwise a pending row for the borrower's profile, the item's owner and the chosen dates is inserted, and success is reported exactly when the item handed to the form has an `owner` object |
| BorrowForm.SubmitReportsFailureAfterInsert | src/components/BorrowRequestModal.tsx:82-100 | without an `owner` object the row is inserted but the failure toast is shown, and submitting the unchanged form again inserts a second request that differs only in id and times |
| BorrowForm.SubmitReported | src/components/BorrowRequestModal.tsx:111 | with the owner's name read through the description's fallback, success is reported exactly when a row was inserted, and the same rows are inserted as by the handler as written |
| BorrowForm.SubmitAcceptsReversedDates | src/components/BorrowRequestModal.tsx:46-80 | a start three days out and an end one day out are inserted as a request with a total of minus two daily rates |
| BorrowForm.SubmitOrdered | src/components/BorrowRequestModal.tsx:46-80 | with the date order checked as well, a reversed pair is refused and nothing inserted; every inserted row has start not after end and, for a non-negative rate, a non-negative total; success is reported exactly when a row is inserted; ordered input behaves as the corrected handler |
| ItemForm.AddTag | src/components/AddItemModal.tsx:59-67 | the trimmed entry is appended and the box cleared exactly when it is non-empty and new; otherwise nothing changes; a duplicate-free list of non-empty tags stays so |
| ItemForm.RemoveTag | src/components/AddItemModal.tsx:69-74 | exactly the matching tag goes, the others keep their order; a duplicate-free list shrinks by one and stays duplicate-free |
| ItemForm.AddThenRemove | src/components/AddItemModal.tsx:59-74 | adding a new tag and removing it again gives back the original list |
| ItemForm.NewItem | src/components/AddItemModal.tsx:92-103 | the inserted item is available and owned by the profile, with the form's title, category, condition and daily rate (blank as null); the deposit is the entered one, or 0 when blank; the description and location are null exactly when blank and the entered text otherwise; the tags are null exactly when the list is empty and the list otherwise |
| ItemForm.SubmitEnabled | src/components/AddItemModal.tsx:285 | the List Item button is enabled with title, category and condition filled in and no submission in flight |
| ItemForm.EnabledSubmitFilled | src/components/AddItemModal.tsx:76-103 | an enabled button for a signed-in user always reaches the handler's lookup; a listing it inserts has a non-empty title, category and condition; with a profile and a successful insert it succeeds |
| ItemForm.SubmitItem | src/components/AddItemModal.tsx:76-103 | nothing happens without a user; a missing profile is an error; success inserts for the profile |
| ItemForm.CategoryChoicesExcludeServices | src/components/AddItemModal.tsx:36-46 | the form offers every category except services, each once |
| ItemCard.FormatCategory | src/components/ItemCard.tsx:29-33 | the label is the category with each `_` turned into a space and each piece's first letter upper-cased; it has the same length and no `_` |
| ItemCard.FormatScan | src/components/ItemCard.tsx:29-33 | split, capitalise and join agree with the character-by-character reading |
| ItemCard.FormatCondition | src/components/ItemCard.tsx:35-39 | the condition label is computed exactly as the category label |
| ItemCard.ConditionColor | src/components/ItemCard.tsx:41-50 | new, like_new, good, fair and poor get a colour; every other string gets the neutral class |
| ItemCard.ExcellentIsNeutral | src/components/ItemCard.tsx:41-50 | of the four enum conditions, exactly excellent gets the neutral class |
| ItemCard.Initials | src/components/ItemCard.tsx:52-58 | the initials are the upper-cased first characters of the non-empty words, one per word |
| ItemCard.InitialsScan | src/components/ItemCard.tsx:52-58 | split, take heads and join agree with the scan for word starts |
| ItemCard.HeadsLength | src/components/ItemCard.tsx:52-58 | the joined heads have one character per non-empty word |
| ItemCard.Availability | src/components/ItemCard.tsx:152-159 | the button is disabled exactly when the item is unavailable, and then reads "Unavailable" with the badge "Borrowed"; otherwise "Request to Borrow" and "Available" |
| Catalogue.FilterItems | src/pages/Dashboard.tsx:97-105 | a listing is shown exactly when the search, category and kind filters all hold; the shown listings keep their order |
| Catalogue.EmptyQueryShowsAll | src/pages/Dashboard.tsx:97-105 | an empty query with "all" category and kind shows every listing |
| Catalogue.KindsPartition | src/pages/Dashboard.tsx:101-103 | every listing is in exactly one of the kinds "items" and "services", and always in "all" |
| Catalogue.Price | src/pages/Dashboard.tsx:110-111 | a service sorts by hourly rate and an item by daily rate, missing rates as 0 |
| Catalogue.SortItems | src/pages/Dashboard.tsx:107-122 | the sorted listings are a permutation of the filtered ones, ascending or descending by price, descending by trust, or newest first |
| Catalogue.SortItemsStable | src/pages/Dashboard.tsx:107-122 | listings that tie on the sort key stay in fetched order |
| Services.FilterServices | src/pages/Services.tsx:81-86 | a service is shown exactly when the search matches and the type is "all" or equals its type; order is kept, and the count is the number of matching services |
| Services.SortServices | src/pages/Services.tsx:88-99 | the sorted services are a permutation ordered by hourly rate either way, by trust, or newest first |
| Services.ServicePriceIsHourly | src/pages/Services.tsx:90-93 | for a service, the dashboard's price and the services page's price agree |
| Services.TypeKey | src/pages/Services.tsx:125 | a missing or empty type counts as "Other", any other type as itself |
| Services.BumpLookup | src/pages/Services.tsx:126 | counting a service adds one under its type and changes no other count |
| Services.BumpKeys | src/pages/Services.tsx:126 | an existing key keeps its place, and a new key goes at the end |
| Services.TallyCounts | src/pages/Services.tsx:124-128 | the count under each key is the number of services of that type |
| Services.TallyKeys | src/pages/Services.tsx:124-128 | the keys are distinct, and a key is present exactly when some service has that type |
| Services.TallyTotal | src/pages/Services.tsx:124-128 | the counts add up to the number of services |
| Lifecycle.SessionOf | src/components/OrderManagement.tsx:219-222 | the dialog works with the conversation loaded, the actor's own profile and the status the request had when the dialog was opened |
| Lifecycle.Step | src/components/ChatInterface.tsx:362-390 | every event appends at most one message and keeps the log's earlier messages; opening a dialog records the live status the list shows, closing it forgets it, and no other event touches the open dialogs |
| Lifecycle.StepInv | src/components/ChatInterface.tsx:257-265 | every event keeps the invariant: a non-null status that is neither completed nor overdue, rate and days present together, no terms on a pending or rejected request, every offer complete, and an accepted request with terms costing rate times days |
| Lifecycle.RunInv | src/components/ChatInterface.tsx:257-265 | any sequence of events keeps the invariant |
| Lifecycle.FreshInv | src/components/BorrowRequestModal.tsx:71-80 | a freshly inserted request satisfies the invariant |
| Lifecycle.CompletedUnreachable | src/integrations/supabase/types.ts:421-429 | no sequence of client events makes a fresh request completed or overdue |
| Lifecycle.AcceptedTermsCost | src/components/ChatInterface.tsx:257-265 | after any events, an accepted request with a negotiated rate has a duration and stores rate times days |
| Lifecycle.StepFrame | src/components/ChatInterface.tsx:227-234 | no event changes a request's ids, parties, dates or creation time |
| Lifecycle.RunFixedColumns | src/components/PaymentSuccess.tsx:36-41 | no sequence of events changes them |
| Lifecycle.RunLogGrows | src/components/ChatInterface.tsx:159 | the conversation log only grows, at its end |
| Lifecycle.AcceptStoresShownTotal | src/components/ChatInterface.tsx:358 | an accepted offer stores the total of the corrected card |
| Lifecycle.OwnerReopens | src/components/ChatInterface.tsx:226-234 | opening the dialog from the order list and sending a counter-offer turns a cancelled or paid request back into negotiating, with the offered terms |
| Lifecycle.BorrowerCannotReopen | src/components/MyRequests.tsx:362 | with no dialog already open, no dialog event of the borrower (opening one included) changes a cancelled or paid request |
| Lifecycle.AcceptThenCounterOffer | src/components/ChatInterface.tsx:362-390 | in a dialog opened on a negotiating request, the owner accepts the borrower's offer, the dialog still shows the negotiating status and its input area, and a counter-offer from it sets the accepted request back to negotiating |
| Lifecycle.PayFromPending | src/components/PaymentSuccess.tsx:36-41 | the payment page makes even a pending request active and paid |
| Lifecycle.AcceptedTotalsOnCards | src/components/OrderManagement.tsx:362 | on an accepted request with non-zero terms, the borrower's card and the status panel show the stored total; the owner's card shows the rate and agrees only for one-day terms |
| Lifecycle.StepTransition | src/components/OrderManagement.tsx:155-163 | rejected is written only over pending and cancelled only over pending or negotiating; negotiating and accepted can be written over any status (by a dialog whose copy of the status is out of date), and active by the payment page; completed and overdue are never written |

## Left out

- Backend calls, realtime channels and subscription cleanup. Each handler is a pure function of the record and of the outcomes of the calls whose errors it reads. Calls whose errors the source ignores are taken to succeed, as listed below. In the lifecycle model every call succeeds.
- Chat.SendMessage: the follow-up status update is taken to succeed. Only the message insert has a success flag, because the source never reads the update's error.
- Chat.SendOffer: the follow-up update of status and terms is taken to succeed. Only the message insert has a success flag, because the source never reads the update's error.
- Chat.AcceptOffer: its update and its message insert are both taken to succeed. The source reads neither error, and toasts success even when one fails.
- Payment.OnPaymentSuccess: the update is taken to succeed. The source only logs its error and shows the same page either way.
- Races between realtime refetches and concurrent updates. The application leaves consistency to the backend.
- Floating point and number parsing (`parseFloat`, `parseInt`, `toFixed(2)`). Money, rates and trust scores are whole numbers, so NaN and rounding are not modelled.
- Dates: `new Date()`, the date formatting helpers and the ISO date-only strings written to `start_date`/`end_date`. Timestamps are milliseconds and "now" is a parameter.
- Daylight-saving shifts in the day count of the borrow form. Days are exact multiples of 86 400 000 ms here.
- Unicode case mapping. `toUpperCase`/`toLowerCase` are modelled on ASCII letters only, and `trim` on ASCII whitespace.
- JavaScript object-key quirks in the lookup tables and the service-type tally: inherited keys such as `constructor`, and integer-like keys that objects order first. Keys are plain strings in insertion order.
- The database function `calculate_total_cost`. Its body is not part of this model.
- The generic type helpers of the schema file (`Tables`, `TablesInsert` and the rest), and the tables other than `borrow_requests`, `messages` and `items`.
- `src/pages/Index.tsx`, `src/pages/Orders.tsx`, `src/components/Header.tsx` and `src/hooks/useNotifications.ts`: layout, navigation, sign-out and notification glue.
- Marking messages read, and the fetch that reloads the log. The log is the list of inserted messages.
- The capitalised status text on badges, icons' colours, and other presentation.
- Who supplies the Mark Complete callback of the status panel. No file here writes the completed status, so `Lifecycle.CompletedUnreachable` is about these handlers only.
- Lifecycle.Step: the owner opens the dialog from any card the order list shows, and the borrower only where the request list offers chat. The lists are taken to show the live status. Each party has at most one dialog open, and the page controls are not locked while it is, which also covers a second browser tab. The payment page is reached with the request's own id.

## Findings

| source | as written | input that shows it | evidently intended | confidence | as-written member | corrected member |
|---|---|---|---|---|---|---|
| src/components/BorrowRequestModal.tsx:46-80 | the form never compares the dates; the end picker only bounds the end by the start once a start is chosen | pick the end one day out, then the start three days out: the request is inserted with end before start and `total_cost` of minus two daily rates | refuse an end date before the start date | medium, not executed | BorrowForm.SubmitAcceptsReversedDates | BorrowForm.SubmitOrdered |
| src/components/ChatInterface.tsx:358 | the offer card multiplies by the duration with a falsy duration read as 1, so a zero-day offer shows its amount as the total, while accepting it stores `amount * 0` | an offer of 10 for "0" days passes the guard at line 207 (the raw text "0" is non-empty); the card shows 10, and accepting it stores a total of 0 | the card shows the total that accepting will store, with only a missing duration read as one day | medium, not executed | Chat.ZeroDayOfferMisstated | Chat.ShownOfferTotal |
| src/components/BorrowRequestModal.tsx:86 | after a successful insert the success toast reads `item.owner.full_name`, but both pages hand the form the fetched item row, which has its owner joined as `profiles` and no `owner` | any submission that inserts its row: the read throws, the catch shows "Failed to send borrow request", the dialog stays open with its fields, and submitting again inserts a duplicate | read the name as the description at line 111 does (`owner`, else `profiles`, else "the owner") | high, not executed | BorrowForm.SubmitReportsFailureAfterInsert | BorrowForm.SubmitReported |
