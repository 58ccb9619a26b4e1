# Orders, payments, stock and refunds: a verified model

The backend of the shop lets many actors change one order at the same time: the customer (checkout, retry of a
payment, cancellation, return requests), the gateway's notifications, two reconcilers, the expiry of reservations,
the dispatch of refunds and the administrator. This project models those operations in Dafny and proves what holds
after any run of them, in any interleaving.

How the model is laid out:

- One module per source file or component (`OrdersService`, `PaymentsService`, `PaymentLedger`, `OrderCancellation`,
  `RefundsService`, `Checkout`, `Cart`, `Returns`, `Reception`, `StockReservation`, `FakeGateway`, `SyncVariants`,
  `Notifications`, `Csv`, `Money`, `OrderStatus`). Code that updates rows is a method on the tables of a transaction
  (`Entities.Tables`), or on a class of its own, and is proved equal to a function on values.
- `Machine` collects those functions into one step relation: every `dataSource.transaction` and every conditional
  `UPDATE` is one atomic step on the rows of an order and the stock, because each of them locks the order row first.
  `SystemStep` adds checkouts, stock adjustments and new variants; `Run` is any sequence of them.
- `History`, `StockInvariant`, `ReturnsInvariant` and `MoneyInvariant` are the four parts of the invariant of one order;
  `Runs` lifts them to the whole database and states the results. `LateReports` compares two runs.
- `RefundProtocol` (with `RefundOnce` and `RefundBalance`) and `PreferenceProtocol` (with `CompensatedOrders`) add the
  gateway and the calls in progress: between reading a row and writing the answer, anything else may happen. A payment is
  reported there only as the gateway held it when it was asked.
- The modules named `...Outcomes` and `...Answers` say what each operation leaves and answers in terms of its inputs alone, without
  the functions that specify the methods; `StepOutcomes` gathers them over every transaction of a reachable database,
  `PaymentAnswers`, `RefundAnswers` and `PreferenceAnswers` follow a payment, a refund and a preference through the gateway and back.
- `ManualClosing` is one run of `Runs` with its proof, step by step.
- Money is counted in whole cents, except in `Money`; ids are numbers. Events of `Run` may carry any time, which only adds
  runs; the protocols with a clock (`PreferenceProtocol`, `Notifications`) only move it forward.

Where the code and its comments differ, the model follows the code:

- A refund closed by hand from "rejected" does not look at the balance: `MoneyInvariant.ManualClosingFits` says exactly
  when the payment is still covered, and `ManualClosing.ManualClosingCanExceed` is a run from the empty database, with a
  payment that does not match and two returns against it, in which it is not.
- "A payment link is never left open that the system does not know": true with a gateway that answers every call, but the
  cancellation of an order whose checkout could not create its preference does not look at the preference column. It
  leaves one open exactly when a retry had attached it and no other retry was replacing it
  (`CompensatedOrders.CompensatedOrderStaysOpen`); `PreferenceProtocol.CompensationCanLeaveOneOpen` is such a run.
- The temporary SKU "does not clash with anything" only if no other row has it or is given it (`SkuWrites.AnyOrderIsSafe`);
  an edition that gives it to another variant is accepted (`SkuWrites.EditionCanTakeATemporary`).
- "Two runs never deliver the same email" needs each delivery to end within its lease: a claim starts a second delivery
  exactly when the one in progress outlived it (`Notifications.SecondDeliveryIffLate`), and then a message already sent can
  be left retrying, with nothing to send (`Notifications.LateRunLosesMessage`).

## Model

| member | source | states |
|---|---|---|
| `Runs.EveryPaymentIsSettled` | backend/src/modules/payments/payments.service.ts:263-314 | After any run, every approved payment for the order's exact positive total in the store currency is the one that credited the order, or has a refund row of its whole amount that is not a return's |
| `Runs.PaidOnce` | backend/src/modules/orders/orders.service.ts:164-214 | A paid order was credited by one approved payment for exactly its total, its history says "paid" once, and only returns refunded that payment |
| `Runs.RefundsStayWithin` | backend/src/modules/payments/ledger/payment-ledger.service.ts:18-116 | Committed refunds not closed by hand never exceed their payment; what returns gave back never exceeds the products' subtotal |
| `Runs.RefundsAreNeverMissed` | backend/src/modules/orders/order-cancellation.service.ts:130-148 | With a positive subtotal, the note "could not register the refund" is never written, by a cancellation or by a reception |
| `Runs.HistoryIsOnePath` | backend/src/modules/orders/orders.service.ts:59-103 | The history is a path of the transition graph ending in the current status, with at most one "paid" and two "cancelled", the first of two an expiry; awaiting and expired orders were never paid |
| `Runs.ReservationsAreExact` | backend/src/modules/orders/orders.service.ts:141-146 | Reserved stock is what the orders with the flag hold, never above the total; the flag is on for every order pending payment and only possible while pending or pending accreditation |
| `Runs.DeductedAtMostOnce` | backend/src/modules/orders/orders.service.ts:186-200 | Units marked as deducted are those sold minus those given back, and no unit of an order is sold or given back twice |
| `Runs.RunConserves` | backend/src/modules/orders/orders.service.ts:127-138 | Over any run of checkouts, payments, cancellations, expiries and retries, stock plus deducted units stays constant for each variant |
| `Runs.ReturnsAreExact` | backend/src/modules/orders/returns/return-eligibility.ts:22-33 | Blocked plus eligible units are exactly the units bought (the clamp never bites); a delivered order is marked as returned exactly when every unit came back |
| `Runs.ReturnedOrdersAreClosed` | backend/src/modules/orders/admin/admin-returns.service.ts:457-475 | On a returned order no request is open, nothing was ever exchanged and no request can be created |
| `Runs.CustomerCancelsExactly` | backend/src/modules/orders/order-policies.ts:40-65 | In any reachable database the owner cancels exactly while the payment is awaited, or before the dispatch within 24 hours of it, on the status they saw |
| `Runs.RetryReservesOnce` | backend/src/modules/orders/checkout.service.ts:341-361 | A retry leaves the order pending with its reservation active and its term unchanged, and reserves stock exactly when a rejection had released it |
| `Runs.RunKeepsSystem` | backend/src/modules/orders/orders.service.ts:105-116 | The whole invariant (history, money, stock, returns, per order and over all orders) holds after any run |
| `Runs.StepKeepsSystem` | backend/src/modules/products/products.service.ts:360-382 | Each step keeps it: any event on any order, a checkout, a stock adjustment that respects the reserved units, a new variant |
| `StepOutcomes.StepAnswers` | backend/src/modules/orders/orders.service.ts:155-305 | Any transaction on any order of a reachable database leaves exactly what the request and the order call for, written out per request and status without the functions of the services: payments, cancellations, manual moves, expiry, retries, change and return requests, refunds |
| `StepOutcomes.CheckoutAnswers` | backend/src/modules/orders/checkout.service.ts:184-281 | Any checkout adds the order it confirms, with its units reserved, or leaves the database as it was |
| `PaymentOutcomes.ExactPaymentCredits` | backend/src/modules/orders/orders.service.ts:164-214 | A payment not final yet, approved for the exact total, is processed and pays the order if and only if it awaits a payment or was cancelled for the lack of one: each item with stock leaves it, all of them if they were reserved, and nothing is given back. In every other status, with a positive total, order and stock stay and one refund of the whole payment is registered, its origin told by the status and the cause |
| `PaymentOutcomes.OtherReports` | backend/src/modules/orders/orders.service.ts:215-263 | A rejection moves an order that awaited the payment to rejected and gives back what it held; a pending payment keeps the reservation, or takes it again after a rejection if every unit is there, else leaves a note; neither touches any other order |
| `PaymentOutcomes.InexactApproval` | backend/src/modules/payments/payments.service.ts:277-288 | An approval for another amount or currency is only recorded and noted |
| `PaymentOutcomes.FinalPaymentsStay` | backend/src/modules/payments/payments.service.ts:239-262 | A payment recorded as final never writes more than a note, and that only when it is reported final otherwise |
| `PaymentAnswers.PaymentGoesThrough` | backend/src/modules/payments/payments.service.ts:166-324 | A customer pays through an open preference for the total, the gateway is asked and the report processed: the order is paid, left rejected or left pending accreditation as the outcome says |
| `PaymentAnswers.SettlementGoesThrough` | backend/src/modules/payments/gateway/fake-payment.gateway.ts:174-183 | A payment in process, not recorded as final and settled later, pays its order if approved and frees its stock if rejected; one already settled does not change |
| `OrderOutcomes.CustomerCancels` | backend/src/modules/orders/order-cancellation.service.ts:57-96 | Whatever the customer may cancel is cancelled, its reserved and deducted units back in their variants, with one refund of the whole payment that credited it, if any |
| `OrderOutcomes.AdminCancels` | backend/src/modules/orders/admin/admin-orders.service.ts:333-349 | The administrator cancels exactly what is not delivered, cancelled or returned; a dispatched order keeps its stock out and its shipping cost |
| `OrderOutcomes.CancellationSettles` | backend/src/modules/orders/order-cancellation.service.ts:130-148 | The new refund plus the shipping cost of a dispatched order, and nothing before dispatch, is the amount of the payment that credited it |
| `OrderOutcomes.CustomerRefusals` | backend/src/modules/orders/order-cancellation.service.ts:65-85 | The reason why a customer is refused: another owner, another status seen, too far along, or more than 24 hours after the payment |
| `OrderOutcomes.AdminMovesExactly` | backend/src/modules/orders/admin/admin-orders.service.ts:274-297 | Paid to in preparation to dispatched to delivered, one at a time, the delivery dated; anything else is refused |
| `OrderOutcomes.DropsExactly` | backend/src/modules/orders/orders.service.ts:288-303 | An expiry cancels exactly the orders that await a payment past their term, pending accreditation and rejected ones included; a compensation, exactly those pending payment; both give back what they held |
| `OrderOutcomes.SweepDropsAll` | backend/src/modules/orders/orders.service.ts:278-305 | One sweep leaves every order of the database as its own expiry would |
| `StockOutcomes.SoldByLine` | backend/src/modules/products/stock/stock-reservation.service.ts:81-128 | Each line of a sale is deducted exactly when the stock of before has its units, reserved or free, and is short otherwise |
| `LateReports.LateReportsOnlyNote` | backend/src/modules/payments/payments.service.ts:239-260 | Dropping every report after the first final one of its payment gives the same orders, stock, payments and refunds, interleaved with anything else; only notes differ |
| `LateReports.ReportWritesOneRow` | backend/src/modules/payments/payments.service.ts:239-262 | A report writes its own payment row, unless that row is final or already says so: then at most a note |
| `LateReports.StepKeepsFinal` | backend/src/modules/payments/entities/payment.entity.ts:22-26 | A payment recorded as final stays final through every step |
| `LateReports.QuietStep` | backend/src/modules/orders/orders.service.ts:266-276 | No step of an order reads its internal notes |
| `RefundProtocol.RowsMatchTheGateway` | backend/src/modules/payments/refunds/refunds.service.ts:68-113 | Under any interleaving, the stored refund id is the gateway's under the row's current key, and a refunded row not closed by hand was approved there for that payment and amount |
| `RefundProtocol.StaleAnswerChangesNothing` | backend/src/modules/payments/refunds/refunds.service.ts:245-270 | A call that read an older attempt, or a row no longer in progress, writes nothing |
| `RefundProtocol.GatewayStaysWithin` | backend/src/modules/payments/gateway/fake-payment.gateway.ts:82-125 | Under any interleaving, the gateway's refunds that are not rejected never exceed the payment |
| `RefundProtocol.OneRefundPerKey` | backend/src/modules/payments/refunds/refunds.service.ts:272-286 | Different rows or attempts never share a refund of the gateway |
| `RefundBalance.RefundsAreNeverRefused` | backend/src/modules/payments/gateway/fake-payment.gateway.ts:82-98 | Under any interleaving, a refund that is asked for is never refused: its payment is approved at the gateway and has the balance, manual closings and retries included |
| `RefundBalance.OneLiveRefundPerRow` | backend/src/modules/payments/refunds/refunds.service.ts:34-38 | Under any interleaving, at most one attempt of a row, its current one, holds a refund at the gateway that is not rejected |
| `RefundBalance.RejectionsAreTheGateways` | backend/src/modules/payments/refunds/refunds.service.ts:245-270 | A refund row is rejected only if the gateway rejected its current attempt |
| `RefundBalance.ApprovalsAreTheGateways` | backend/src/modules/payments/payments.service.ts:161-192 | An approved payment row is approved at the gateway, for that order and that amount |
| `RefundBalance.ActionKeepsTied` | backend/src/modules/payments/refunds/refunds.service.ts:245-286 | Every action keeps rows, calls and gateway in agreement: what the rows of a payment can still take fits in it, and what the gateway took was taken by their current attempts |
| `RefundBalance.EventStep` | backend/src/modules/payments/ledger/payment-ledger.service.ts:40-116 | Each transaction but an answer leaves approved payments as they are, and adds at most one refund row, or retries one, only within the balance of its payment |
| `RefundAnswers.AnswersAreWritten` | backend/src/modules/payments/refunds/refunds.service.ts:245-270 | On a row still in progress at its attempt, an approved refund leaves it refunded, a rejected one rejected, one in process as it was; a refusal leaves it rejected and a call that gave up leaves it for the administrator; no other row changes |
| `RefundAnswers.StartsExactly` | backend/src/modules/payments/refunds/refunds.service.ts:68-70 | A dispatch starts exactly for a row in progress with no id, with its payment, amount and key; a reconciliation, exactly for one with its id |
| `RefundAnswers.IdsAreStored` | backend/src/modules/payments/refunds/refunds.service.ts:106-109 | The id that the gateway answered is stored on a row that has none |
| `RefundAnswers.DispatchEnds` | backend/src/modules/payments/refunds/refunds.service.ts:68-113 | A row not asked for yet, dispatched with nothing in between, holds the id of the refund under its key and ends as that refund stands at the gateway |
| `RefundAnswers.ReconciliationEnds` | backend/src/modules/payments/refunds/refunds.service.ts:234-243 | A row asked for already ends as its refund stands at the gateway |
| `RefundAnswers.SettledRefundIsRecorded` | backend/src/modules/payments/refunds/refunds.service.ts:136-164 | A refund never asked for, dispatched, settled and reconciled, ends refunded with the gateway's id if it was approved, and rejected if it was not |
| `RefundAnswers.ThreeLossesGiveUp` | backend/src/modules/payments/refunds/refunds.service.ts:272-286 | Three calls without an answer, whichever of them arrived, leave the row for the administrator with its attempt unchanged |
| `RefundAnswers.RetryAnswers` | backend/src/modules/payments/refunds/refunds.service.ts:175-202 | A retry is a new attempt with no id exactly after a rejection that still fits in the payment, and the same attempt after no answer |
| `RefundAnswers.ClosingAnswers` | backend/src/modules/payments/refunds/refunds.service.ts:210-227 | A refund is closed by hand exactly when it was rejected or left for the administrator |
| `RefundOnce.ActionKeepsOnce` | backend/src/modules/payments/refunds/refunds.service.ts:175-202 | While no refund is refused, every action leaves each attempt that a row left behind rejected at the gateway, or never created there and with no dispatch left |
| `RefundProtocol.ActionKeepsNet` | backend/src/modules/payments/refunds/refunds.service.ts:136-164 | Every action of database, gateway and calls in progress keeps rows, keys and calls consistent, lost answers included; what each answer writes is `RefundAnswers.AnswersAreWritten` |
| `RefundProtocol.StepEvolves` | backend/src/modules/payments/refunds/refunds.service.ts:175-227 | Transactions other than a call's answer only add refund rows, retry them or close them by hand |
| `PreferenceProtocol.OpenPreferencesAreKnown` | backend/src/modules/orders/checkout.service.ts:314-447 | A preference that still takes payments is its order's current one, or a request in progress will attach it or close it |
| `PreferenceProtocol.CalledOffOrdersAreClosed` | backend/src/modules/orders/order-cancellation.service.ts:159-168 | An order cancelled by customer or administrator while awaiting its payment has no open preference once no request is in progress |
| `PreferenceProtocol.ExpiredOrdersAreClosed` | backend/src/modules/orders/checkout.service.ts:395-414 | An order whose reservation ran out takes no payment, whatever is in progress |
| `PreferenceProtocol.PaymentsAreForTheTotal` | backend/src/modules/payments/gateway/fake-payment.gateway.ts:148-171 | Whatever is paid through a preference is its order's exact total |
| `PreferenceAnswers.CheckoutOpensPayment` | backend/src/modules/orders/checkout.service.ts:178-297 | A checkout whose calls are answered leaves a pending order with one more preference attached, for its total and until its reservation runs out |
| `PreferenceAnswers.FailedCheckoutIsUndone` | backend/src/modules/orders/checkout.service.ts:286-293 | A checkout that gets no preference leaves its order cancelled and stock, gateway and other orders as they were |
| `PreferenceAnswers.RetryReplacesPreference` | backend/src/modules/orders/checkout.service.ts:310-388 | A retry whose calls are answered closes the preference the order had and attaches a new one, open for its total; no other preference changes |
| `PreferenceAnswers.FailedRetryStaysPending` | backend/src/modules/orders/checkout.service.ts:372-386 | A retry that gets no preference leaves its order pending payment, and can be made again |
| `PreferenceAnswers.AttachAnswers` | backend/src/modules/orders/checkout.service.ts:425-447 | A new preference becomes the order's exactly when it is still pending payment with the preference that the request read; otherwise it is closed |
| `PreferenceAnswers.CancellationClosesPreference` | backend/src/modules/orders/order-cancellation.service.ts:159-168 | Cancelling an order that awaited its payment closes its preference; cancelling any other calls nobody |
| `CompensatedOrders.CompensatedOrderStaysOpen` | backend/src/modules/orders/checkout.service.ts:453-467 | Whatever runs before and after, once no request is in progress an order cancelled for a failed preference takes payments if and only if its column named a preference that no retry was replacing and that has not run out since |
| `PreferenceProtocol.CompensationCanLeaveOneOpen` | backend/src/modules/orders/checkout.service.ts:453-467 | A run in which an order cancelled for a failed preference keeps the one a retry attached meanwhile |
| `CompensatedOrders.StepKeepsHolders` | backend/src/modules/orders/checkout.service.ts:425-447 | Every action leaves a preference waiting to be attached known to its own request alone, and closes an attached one only for an order that awaits no payment |
| `PreferenceProtocol.AttachKeepsDesk` | backend/src/modules/orders/checkout.service.ts:425-447 | The compare-and-set attaches only over a preference already closed, or hands the new one over to be closed |
| `PreferenceProtocol.CommitKeepsDesk` | backend/src/modules/orders/order-cancellation.service.ts:57-96 | Every transaction, with the calls that follow it, keeps open preferences accounted for |
| `History.StepLivesLegally` | backend/src/modules/orders/order-status.ts:56-80 | No step makes a status change other than a guarded edge of the graph, with its history entry |
| `History.LegalMoveKeepsLife` | backend/src/modules/orders/orders.service.ts:172-185 | Such a change keeps the history a path, paid at most once, cancelled at most twice, with causes and dates to match |
| `History.StepKeepsLife` | backend/src/modules/orders/orders.service.ts:59-103 | Every step keeps the history right |
| `History.GraphHasCycle` | backend/src/modules/orders/order-status.ts:56-76 | The graph alone allows to be paid twice: only the guard on the cause of the cancellation forbids it |
| `StockInvariant.StepTogether` | backend/src/modules/orders/orders.service.ts:155-263 | Every step moves the order's reservation and the variant's together, keeps the flag right, and (receptions apart) conserves units |
| `StockInvariant.CreditTogether` | backend/src/modules/orders/orders.service.ts:186-214 | Crediting deducts each item once, from its reservation if active, else from what is available; the short ones stay undeducted |
| `StockInvariant.ReturnTogether` | backend/src/modules/orders/orders.service.ts:127-138 | Cancelling gives back what was held or deducted, once, and marks it as given back |
| `StockInvariant.NoneShortWhenReserved` | backend/src/modules/products/stock/stock-reservation.service.ts:81-128 | With the reservation active nothing falls short |
| `StockInvariant.CancellationTogether` | backend/src/modules/orders/order-cancellation.service.ts:107-125 | A cancellation conserves units; a dispatched order keeps its stock out |
| `StockInvariant.ReceptionTogether` | backend/src/modules/orders/admin/admin-returns.service.ts:299-392 | A reception never touches what is reserved or deducted, nor leaves a variant with less than its reservations |
| `ReturnsInvariant.StepKeepsReturns` | backend/src/modules/orders/admin/admin-returns.service.ts:220-392 | Every step keeps the units blocked by an item's requests within the units bought, and a returned order complete |
| `ReturnsInvariant.StepStillOut` | backend/src/modules/orders/admin/admin-returns.service.ts:457-475 | While the order is only delivered, some unit has not come back |
| `ReturnsInvariant.EligibleIsExact` | backend/src/modules/orders/returns/return-eligibility.ts:22-33 | Eligible plus blocked units are the units bought |
| `ReturnsInvariant.CreateKeepsReturns` | backend/src/modules/orders/returns/returns.service.ts:58-199 | A request that passes the validation blocks no unit twice |
| `ReturnsInvariant.ApproveKeepsReturns` | backend/src/modules/orders/admin/admin-returns.service.ts:220-259 | An approval blocks no more than was requested |
| `ReturnsInvariant.RejectKeepsReturns` | backend/src/modules/orders/admin/admin-returns.service.ts:275-288 | A rejection frees what the request blocked |
| `ReturnsInvariant.ReceiveKeepsReturns` | backend/src/modules/orders/admin/admin-returns.service.ts:299-392 | A reception blocks no more than was approved, and marks the order only when all came back |
| `ReturnsInvariant.ReturnedIsClosed` | backend/src/modules/orders/order-policies.ts:95-117 | With every unit returned, nothing is open or exchanged, and nothing more can be requested |
| `ReturnOutcomes.RequestsAreAnswered` | backend/src/modules/orders/returns/returns.service.ts:58-199 | A request is created exactly for the owner of an order delivered within ten days, each line for at most the units that no earlier request keeps; every refusal has its reason |
| `ReturnOutcomes.ApprovalAnswers` | backend/src/modules/orders/admin/admin-returns.service.ts:220-259 | Each line is approved for what was decided of its item; refused if some line is not decided, exceeds what was asked, all are zero, or less is approved without a reason |
| `ReturnOutcomes.RejectionAnswers` | backend/src/modules/orders/admin/admin-returns.service.ts:275-288 | A requested one is rejected with every line approved for nothing; any other is refused |
| `ReceptionOutcomes.ReceptionAnswers` | backend/src/modules/orders/admin/admin-returns.service.ts:299-392 | A reception writes of each line what came, its condition and whether it is given back; a return registers one refund of price times units over the lines in good condition or marked to refund; good units enter the stock, damaged ones enter and leave, replacements leave; every refusal has its reason |
| `ReceptionOutcomes.GoodIsOwedWhole` | backend/src/modules/orders/admin/admin-returns.service.ts:338-351 | With every unit in good condition what is owed is the value of everything received |
| `ReceptionOutcomes.DamagedOwesNothing` | backend/src/modules/orders/admin/admin-returns.service.ts:338-351 | A damaged line not marked to refund adds nothing to what is owed |
| `ReceptionOutcomes.ReplacementsLeave` | backend/src/modules/orders/admin/admin-returns.service.ts:478-520 | The replacements leave the stock, all of them or none: the first line without a valid choice or without units refuses the reception |
| `MoneyInvariant.StepKeepsMoney` | backend/src/modules/payments/ledger/payment-ledger.service.ts:55-98 | Every step of an order keeps its money accounted for: credited or given back, within the payments, no refund missed |
| `MoneyInvariant.ApprovalKeepsMoney` | backend/src/modules/payments/payments.service.ts:263-314 | An approval for the exact amount either credits the order or registers its whole refund in the same transaction |
| `MoneyInvariant.CancellationIsRefunded` | backend/src/modules/orders/order-cancellation.service.ts:130-148 | Cancelling a paid order registers one refund, against a payment that covers it, or a note exactly when the amount is zero; the amount is `OrderOutcomes.CancellationSettles` |
| `MoneyInvariant.ReceptionIsRefunded` | backend/src/modules/orders/admin/admin-returns.service.ts:349-367 | Receiving a return registers one refund of the value of its lines, and none exactly when that is zero; the value, from the inputs, is `ReceptionOutcomes.ReceptionAnswers` |
| `MoneyInvariant.ReturnsWithinSubtotal` | backend/src/modules/orders/admin/admin-returns.service.ts:303-351 | What the returns of an order are worth never exceeds its subtotal |
| `MoneyInvariant.ManualClosingFits` | backend/src/modules/payments/refunds/refunds.service.ts:210-227 | Closing by hand keeps the payment covered exactly when the row was still committed or its balance has room |
| `ManualClosing.ManualClosingCanExceed` | backend/src/modules/payments/refunds/refunds.service.ts:210-221 | A run from the empty database after which closing a rejected refund by hand leaves a payment with more given back than it brought |
| `MoneyInvariant.RefundStepKeepsMoney` | backend/src/modules/payments/refunds/refunds.service.ts:175-227 | Answers, retries and manual closings keep refunds not closed by hand within their payment |
| `OrdersService.ChangeStatus` | backend/src/modules/orders/orders.service.ts:59-85 | Moves the order exactly along an edge of the graph, with cause, dates and history; otherwise changes nothing |
| `OrdersService.ApplyPaymentOutcome` | backend/src/modules/orders/orders.service.ts:155-263 | The method on the tables writes what its specification says and its status change is never refused; when it credits, gives back or only moves the order is `PaymentOutcomes.ExactPaymentCredits` and `PaymentOutcomes.OtherReports` |
| `OrdersService.CreditPayment` | backend/src/modules/orders/orders.service.ts:186-214 | Stock deducted, items marked, shortages noted, order paid |
| `OrdersService.RetakeReservation` | backend/src/modules/orders/orders.service.ts:236-250 | The reservation taken again if all of it fits, else a note |
| `OrdersService.ReturnStockOnCancel` | backend/src/modules/orders/orders.service.ts:127-138 | Reservation released, deducted items put back and unmarked |
| `OrdersService.ReleaseReservation` | backend/src/modules/orders/orders.service.ts:141-146 | Releases only an active reservation, and turns the flag off |
| `OrdersService.ExpireReservations` | backend/src/modules/orders/orders.service.ts:278-305 | Expires every order whose reservation ran out, and counts them |
| `OrdersService.DueOnce` | backend/src/modules/orders/orders.service.ts:278-287 | The list of orders to expire has each overdue order once and no other |
| `OrdersService.SweptKeeps` | backend/src/modules/orders/orders.service.ts:288-303 | Expiring some orders leaves the rows of the others alone |
| `PaymentsService.ProcessPayment` | backend/src/modules/payments/payments.service.ts:231-324 | The rows and the kind of result of a report: ignored, duplicate, discrepancy or processed |
| `PaymentLedger.FirstWithBalance` | backend/src/modules/payments/ledger/payment-ledger.service.ts:65-76 | Of the approved payments with balance, the earliest processed; none only if none has it |
| `PaymentLedger.RequestRefund` | backend/src/modules/payments/ledger/payment-ledger.service.ts:55-98 | Adds one refund row in progress against the chosen payment, or nothing |
| `OrderCancellation.ApplyCancellation` | backend/src/modules/orders/order-cancellation.service.ts:107-150 | Order cancelled, stock returned unless dispatched, at most one refund row added; the units and the amount are `OrderOutcomes.CustomerCancels` and `OrderOutcomes.AdminCancels` |
| `OrderCancellation.CancelByCustomer` | backend/src/modules/orders/order-cancellation.service.ts:57-96 | The cancellation, or the reason it is refused with nothing changed |
| `OrderCancellation.CancelByAdmin` | backend/src/modules/orders/admin/admin-orders.service.ts:333-349 | The same for the administrator, up to the dispatch included |
| `OrderCancellation.ChangeStatusByAdmin` | backend/src/modules/orders/admin/admin-orders.service.ts:274-297 | The next manual status, on the status the administrator saw |
| `OrderStatus.AdminTransitionsAreTransitions` | backend/src/modules/orders/order-policies.ts:142-146 | Manual moves are edges between paid statuses and never cancel, return or credit an order |
| `RefundsService.Retry` | backend/src/modules/payments/refunds/refunds.service.ts:175-202 | A new attempt after a rejection if it fits, the same attempt if there was no answer; else refused with nothing changed |
| `RefundsService.ResolveManually` | backend/src/modules/payments/refunds/refunds.service.ts:210-227 | Closes by hand only rows that need attention |
| `RefundsService.Transition` | backend/src/modules/payments/refunds/refunds.service.ts:263-270 | Moves only a row in progress of the same attempt, and says whether it did |
| `Checkout.Confirm` | backend/src/modules/orders/checkout.service.ts:178-281 | The order with its snapshot and its whole reservation, or the problems with nothing written |
| `Checkout.RetryPayment` | backend/src/modules/orders/checkout.service.ts:310-370 | The order ready to be paid again, or the reason why not with nothing written |
| `Checkout.CompensateFailedPreference` | backend/src/modules/orders/checkout.service.ts:453-467 | Reservation released and order cancelled, only while it is pending payment |
| `Checkout.PreferenceChargesTotal` | backend/src/modules/orders/checkout.service.ts:395-414 | The items sent to the gateway add up to the order's total, free shipping included |
| `Checkout.RevalidationIsIdempotent` | backend/src/modules/cart/cart.service.ts:256-298 | Revalidating a second time changes nothing and reports nothing |
| `Checkout.QuotedTotalIsAccepted` | backend/src/modules/orders/checkout.service.ts:154-281 | With nothing else changed, the total quoted for a revalidated cart is accepted, with the stock reserved; an empty cart is refused |
| `Checkout.RevisedIsFresh` | backend/src/modules/cart/cart.service.ts:264-295 | Revalidation leaves only items that can be bought, at current prices and within stock |
| `CheckoutOutcomes.RevisionAnswers` | backend/src/modules/cart/cart.service.ts:256-298 | A cart revalidated keeps exactly the items that can be bought and have units, at the price of today and at most the free units; the customer is told exactly what changed |
| `CheckoutOutcomes.RetryOpensExactly` | backend/src/modules/orders/checkout.service.ts:314-361 | A retry is opened exactly for the owner of an order pending or rejected, in term, with unchanged prices and, if rejected, every unit free; otherwise the reason is the first of these that fails |
| `CheckoutOutcomes.ConfirmAnswers` | backend/src/modules/orders/checkout.service.ts:184-281 | A checkout is confirmed exactly when the cart is not empty, nothing differs from the catalogue, the total is the one expected and every unit is free; the order is the cart at its prices |
| `Cart.CartRows.RevalidateForCheckout` | backend/src/modules/cart/cart.service.ts:256-298 | The items kept, in order, and the adjustments told to the customer |
| `Cart.CartRows.RevalidateItem` | backend/src/modules/cart/cart.service.ts:264-295 | One item removed, reduced or repriced |
| `Returns.EligibleUnits` | backend/src/modules/orders/returns/return-eligibility.ts:22-33 | Units bought minus those blocked by every request, never below zero |
| `Returns.Validate` | backend/src/modules/orders/returns/returns.service.ts:144-199 | The first reason a request is refused, or none |
| `Returns.CreateRequest` | backend/src/modules/orders/returns/returns.service.ts:58-137 | The request added, or nothing |
| `Returns.Approve` | backend/src/modules/orders/admin/admin-returns.service.ts:220-259 | Quantities approved for every line, or the reason it is refused |
| `Returns.Reject` | backend/src/modules/orders/admin/admin-returns.service.ts:275-288 | A request rejected only while it is requested |
| `Reception.Receive` | backend/src/modules/orders/admin/admin-returns.service.ts:299-392 | The method on the tables writes the rows of its specification, or answers its reason; what those rows are, from the inputs, is `ReceptionOutcomes.ReceptionAnswers` |
| `Reception.ReceiveReturn` | backend/src/modules/orders/admin/admin-returns.service.ts:299-392 | The reception in its own transaction: committed whole, or refused with the database as it was |
| `Reception.MarkReturnedIfComplete` | backend/src/modules/orders/admin/admin-returns.service.ts:457-475 | The accumulated map marks the order exactly when each item's returned units reach the units bought |
| `Reception.CreateReplacements` | backend/src/modules/orders/admin/admin-returns.service.ts:478-520 | One replacement per line received, or the first error |
| `Reception.ReceptionWritesOrder` | backend/src/modules/orders/admin/admin-returns.service.ts:457-475 | A reception writes the order only to mark a delivered one as returned |
| `StockReservation.Reserve` | backend/src/modules/products/stock/stock-reservation.service.ts:31-51 | All or nothing: reserves exactly when every variant has all the units asked for |
| `StockReservation.ReleasedUndoesReserved` | backend/src/modules/products/stock/stock-reservation.service.ts:31-67 | Releasing what was just reserved restores the stock; the clamp at zero never bites |
| `StockReservation.Release` | backend/src/modules/products/stock/stock-reservation.service.ts:58-67 | Reserved units given back, never below zero |
| `StockReservation.ConfirmSale` | backend/src/modules/products/stock/stock-reservation.service.ts:81-128 | Line by line, deducted or reported short, with its movement |
| `Stock.SoldEffect` | backend/src/modules/products/stock/stock-reservation.service.ts:81-128 | Served plus short units are those asked for, and exactly the served ones leave the stock |
| `StockReservation.RestockCancelledSale` | backend/src/modules/products/stock/stock-reservation.service.ts:137-164 | Units put back in the total, with one movement each |
| `StockReservation.RestockReturn` | backend/src/modules/products/stock/stock-reservation.service.ts:174-188 | Returned units enter the total; damaged ones leave at once |
| `StockReservation.TakeForReplacement` | backend/src/modules/products/stock/stock-reservation.service.ts:197-211 | Takes the units only if they are not reserved |
| `FakeGateway.FakePaymentGateway.CreatePreference` | backend/src/modules/payments/gateway/fake-payment.gateway.ts:55-60 | A new preference for the sum of its items |
| `FakeGateway.FakePaymentGateway.ExpirePreference` | backend/src/modules/payments/gateway/fake-payment.gateway.ts:72-75 | The preference takes no payment from now on |
| `FakeGateway.FakePaymentGateway.CreateRefund` | backend/src/modules/payments/gateway/fake-payment.gateway.ts:82-108 | One refund per key; refused if the payment is not approved or its balance does not cover it |
| `FakeGateway.FakePaymentGateway.SettleRefund` | backend/src/modules/payments/gateway/fake-payment.gateway.ts:117-125 | Settles only a refund in process |
| `FakeGateway.FakePaymentGateway.SimulatePayment` | backend/src/modules/payments/gateway/fake-payment.gateway.ts:148-171 | A payment for the preference's amount, unless it expired |
| `FakeGateway.FakePaymentGateway.SettlePayment` | backend/src/modules/payments/gateway/fake-payment.gateway.ts:174-183 | Settles only a pending payment |
| `FakeGateway.CreateRefundKeepsGateway` | backend/src/modules/payments/gateway/fake-payment.gateway.ts:82-108 | A refund created keeps every payment's refunds within its amount |
| `SyncVariants.Variants.Sync` | backend/src/modules/products/products.service.ts:287-397 | The method on the table writes the rows of its specification, or changes nothing; what they are, from the form, is `EditionOutcomes.FormIsMade` and `EditionOutcomes.EditionAnswers` |
| `SyncVariants.FormIsShown` | backend/src/modules/products/products.service.ts:311-387 | The active variants in position order are exactly the rows of the form, with the total of the form where a row with an id changed it or there was no variant, and that of the database elsewhere |
| `EditionOutcomes.FormIsMade` | backend/src/modules/products/products.service.ts:347-387 | Each row of the form makes its variant: the total of the form if the row has an id and changed it, that of the database for any other existing variant, and a new variant with the total of the form if there is none |
| `EditionOutcomes.OthersAreDropped` | backend/src/modules/products/products.service.ts:338-345 | A variant of the product that no row is for is deactivated and nothing else of it changes; other products stay as they are |
| `EditionOutcomes.EditionAnswers` | backend/src/modules/products/products.service.ts:287-397 | The adjustments are the new totals of the rows with an id that changed them, in form order; an edition is refused for its list, or for the first of those rows whose stock moved meanwhile or is reserved above the new total, and for nothing else |
| `SyncVariants.SyncLosesNothing` | backend/src/modules/products/products.service.ts:338-345 | No variant is lost, other products are untouched, none with reserved stock is deactivated, no total falls below the reserved |
| `SyncVariants.SyncKeepsTable` | backend/src/modules/products/products.service.ts:692-705 | Ids and SKUs stay unique over all products |
| `SyncVariants.ShownInOrder` | backend/src/modules/products/purchasable.ts:18-20 | The active variants with different positions are listed all, once, by position |
| `SyncVariants.TargetsDiffer` | backend/src/modules/products/products.service.ts:311-319 | No two rows of the form are for the same variant |
| `SkuWrites.AnyOrderIsSafe` | backend/src/modules/products/products.service.ts:388-395 | Every order of the row writes keeps SKUs unique after each of them, exactly when no other row has or is given the temporary SKU of a renamed one |
| `SkuWrites.AcceptedEditionIsSafe` | backend/src/modules/products/products.service.ts:287-397 | The same for every accepted edition, swaps and cycles included |
| `SkuWrites.EditionCanTakeATemporary` | backend/src/modules/products/products.service.ts:388-395 | An accepted edition that gives one variant the temporary SKU of another it renames, with an order of the writes that repeats a SKU |
| `SkuWrites.SwapNeedsTemporaries` | backend/src/modules/products/products.service.ts:388-393 | Without the temporary SKUs, the first write of a swap repeats one |
| `Notifications.QueuedWhileHeld` | backend/src/modules/notifications/notifications.service.ts:180-245 | In every run whose deliveries end within their lease, a row is pending or retrying exactly while it holds its message, and is out of the queue after six transient failures |
| `Notifications.OneDeliveryPerRow` | backend/src/modules/notifications/notifications.service.ts:146-172 | In every run whose deliveries end within their lease, two of the same row never overlap |
| `Notifications.SecondDeliveryIffLate` | backend/src/modules/notifications/notifications.service.ts:146-172 | A claim starts a second delivery of a row if and only if the one in progress has outlived its lease when the cron run starts |
| `Notifications.LateFailureLosesMessage` | backend/src/modules/notifications/notifications.service.ts:208-245 | The failure of a delivery that outlived its lease, after the second one sent the message, puts the row back in the queue with no message exactly while it had retries left |
| `Notifications.LateRunLosesMessage` | backend/src/modules/notifications/notifications.service.ts:180-245 | A run from the empty queue after which a message already sent is left retrying, with nothing to send |
| `Notifications.AnswersAreWritten` | backend/src/modules/notifications/notifications.service.ts:180-245 | Within the lease, a delivery leaves its row sent, bounced, to be retried after five minutes doubled at each failure, or failed at the sixth, and no other row changed |
| `Notifications.ClaimsExactly` | backend/src/modules/notifications/notifications.service.ts:146-172 | A claim leases a row for ten minutes exactly when it is pending or retrying and was due when the cron run started |
| `Notifications.EndedStays` | backend/src/modules/notifications/notifications.service.ts:180-206 | Within the leases, an email that left the queue never changes again |
| `Notifications.EmailLog.Claim` | backend/src/modules/notifications/notifications.service.ts:158-167 | The row is leased to one delivery, only if it is due |
| `Notifications.EmailLog.Deliver` | backend/src/modules/notifications/notifications.service.ts:180-206 | What a delivery writes, by the answer of the mail service |
| `Notifications.EmailLog.HandleTransientError` | backend/src/modules/notifications/notifications.service.ts:225-245 | The next retry with its wait, or the end after the last one |
| `Notifications.EmailLog.Accept` | backend/src/modules/notifications/notifications.service.ts:119-135 | The row of an accepted message, leased from the start |
| `Csv.ExportReadsBack` | backend/src/modules/orders/admin/admin-orders.service.ts:154-158 | The export reads back to the header and exactly its rows, for any field contents, under section 2 of RFC 4180 with `;` and the byte order mark dropped |
| `Csv.FieldReadsBack` | backend/src/modules/orders/admin/admin-orders.service.ts:154-157 | An escaped field reads back to itself, whatever follows it |
| `Csv.ExportIsInjective` | backend/src/modules/orders/admin/admin-orders.service.ts:119-159 | Different rows never give the same file |
| `Money.ConversionsUndoEachOther` | backend/src/common/money.ts:7-13 | `toCents` and `fromCents` undo each other on every amount of a `numeric(10,2)` column, rounding errors included |
| `Money.ToCentsIsExact` | backend/src/common/money.ts:7-9 | Reading an amount of the column gives exactly its cents |
| `Money.FromCentsIsExact` | backend/src/common/money.ts:11-13 | Printing cents gives exactly the text of the amount |
| `Money.NearestIsNearest` | backend/src/common/money.ts:8-12 | The rounding used by both picks the nearest integer, the larger of two equally near |

## Left out

- The MercadoPago gateway, webhook signatures, SMTP, storage and authentication: foreign calls and cryptography; the simulated gateway stands for the gateway, with lost answers as steps of `RefundProtocol`. A gateway that refuses refunds for reasons of its own, as MercadoPago may, is not modelled.
- The cart rows, the catalogue and the addresses at checkout are parameters; the association of the cart to the order and its return after a failed checkout are not modelled.
- The order in which stock lines are locked (sorted by variant, against deadlocks) does not change what is computed and is not modelled.
- The retry of a refund locks only the refund row in the code; its transaction is taken as one atomic step.
- Each payment belongs to one order for good, as the gateway reports it; looking a payment up by id across orders is not modelled.
- Payments processed at the same instant are taken in the order of their rows.
- The adjustment of stock from its own screen is not modelled: it is not atomic with the movements and adds no other guarantee. The one made while editing a product is, as a step of `Machine`.
- Random ids (preferences, payments and refunds of the gateway, new variants) are ids not used before.
- The object that the simulated gateway returns is shared with its own map; a call holds the status as it was when answered.
- Photos, reasons, tracking data, audit rows, logs and customer emails other than the queue's own state.
- Replacement parcels after a change is resolved, and the listing, filtering and pagination of the admin screens.
- Validation of the shape of the requests (positive quantities, non-empty lists) is part of the creation of a return, and a condition of carts.
- Numbers written other than with two decimals, which a `numeric(10,2)` column never gives, are not part of `Money`.
