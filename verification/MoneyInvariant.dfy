/** Money: every approved payment is credited or given back, refunds stay inside payments, and no refund owed is missed. */
module MoneyInvariant {
  import opened Wrappers
  import opened OrderStatus
  import opened Stock
  import opened Entities
  import opened OrdersService
  import opened PaymentLedger
  import opened PaymentsService
  import opened OrderCancellation
  import opened RefundsService
  import opened Cart
  import opened Checkout
  import opened Returns
  import opened Reception
  import opened Machine
  import opened History
  import opened ReturnsInvariant

  /** The payment that credited the order, as its history says. */
  function CreditedRef(h: seq<Entry>): Option<PaymentRef> {
    if h == [] then None
    else
      var last := h[|h| - 1];
      if last.to == Pagado && last.reason.PaymentReported? then Some(last.reason.payment) else CreditedRef(h[..|h| - 1])
  }

  /** Cents that one request gave back: nothing unless it is a resolved return. */
  function ReturnValue(bought: seq<Item>, q: Request): Cents {
    if q.kind == DevolucionProducto && q.status == Resuelta then RefundAmount(bought, q.items, |q.items|) else 0
  }

  /** Cents that the first `n` requests gave back. */
  function ReturnsAmount(bought: seq<Item>, requests: seq<Request>, n: nat): Cents
    requires n <= |requests|
  {
    if n == 0 then 0 else ReturnsAmount(bought, requests, n - 1) + ReturnValue(bought, requests[n - 1])
  }

  /** The money side of an order. `returned`: what its resolved returns are worth; `missed`: a refund could not be registered. */
  datatype Ledger = Ledger(
    status: Status,
    credited: Option<PaymentRef>,
    subtotal: Cents,
    total: Cents,
    payments: seq<Payment>,
    refunds: seq<Refund>,
    returned: Cents,
    missed: bool)

  function LedgerOf(f: File): Ledger {
    Ledger(f.order.status, CreditedRef(f.history), f.order.subtotal, f.order.total, f.payments, f.refunds,
           ReturnsAmount(Uncommitted(f.order.items), f.requests, |f.requests|), RefundNotRegistered in f.notes)
  }

  // ----- Sums of refunds -----

  /** Refunds that count: committed ones of a payment, those not closed by hand, all of a payment, all of the returns. */
  datatype Which = CommittedTo(p: nat) | Live(p: nat) | Against(p: nat) | OfReturns

  function Weight(which: Which, r: Refund): nat {
    match which
    case CommittedTo(p) => if r.payment == p && Commits(r.status) then r.amount else 0
    case Live(p) => if r.payment == p && Commits(r.status) && !r.manual then r.amount else 0
    case Against(p) => if r.payment == p then r.amount else 0
    case OfReturns => if r.origin == CU22 then r.amount else 0
  }

  function Sum(refunds: seq<Refund>, which: Which): nat {
    if refunds == [] then 0 else Sum(refunds[..|refunds| - 1], which) + Weight(which, refunds[|refunds| - 1])
  }

  lemma SumAppend(refunds: seq<Refund>, r: Refund, which: Which)
    ensures Sum(refunds + [r], which) == Sum(refunds, which) + Weight(which, r)
  {
    assert (refunds + [r])[..|refunds|] == refunds;
  }

  lemma {:induction false} SumUpdate(refunds: seq<Refund>, k: nat, r: Refund, which: Which)
    requires k < |refunds|
    ensures Sum(refunds[k := r], which) + Weight(which, refunds[k]) == Sum(refunds, which) + Weight(which, r)
  {
    var n := |refunds| - 1;
    if k < n {
      SumUpdate(refunds[..n], k, r, which);
      assert refunds[k := r][..n] == refunds[..n][k := r];
    } else {
      assert refunds[k := r][..n] == refunds[..n];
    }
  }

  lemma {:induction false} SumWithout(refunds: seq<Refund>, k: nat, which: Which)
    requires k < |refunds|
    ensures Sum(refunds[..k] + refunds[k + 1..], which) + Weight(which, refunds[k]) == Sum(refunds, which)
  {
    var n := |refunds| - 1;
    if k < n {
      SumWithout(refunds[..n], k, which);
      var rest := refunds[..k] + refunds[k + 1..];
      assert rest[..n - 1] == refunds[..n][..k] + refunds[..n][k + 1..];
    } else {
      assert refunds[..k] + refunds[k + 1..] == refunds[..n];
    }
  }

  lemma {:induction false} SumAtMost(refunds: seq<Refund>, a: Which, b: Which)
    requires forall j :: 0 <= j < |refunds| ==> Weight(a, refunds[j]) <= Weight(b, refunds[j])
    ensures Sum(refunds, a) <= Sum(refunds, b)
  {
    if refunds != [] {
      SumAtMost(refunds[..|refunds| - 1], a, b);
    }
  }

  lemma {:induction false} RefundedIsSum(refunds: seq<Refund>, p: nat)
    ensures RefundedCents(refunds, p) == Sum(refunds, CommittedTo(p))
  {
    if refunds != [] {
      RefundedIsSum(refunds[..|refunds| - 1], p);
    }
  }

  // ----- The invariant -----

  /** Payment ids are unique; a refund row is of an approved payment; what is not closed by hand fits in its payment. */
  ghost predicate BooksOk(payments: seq<Payment>, refunds: seq<Refund>) {
    && (forall i, j :: 0 <= i < j < |payments| ==> payments[i].externalId != payments[j].externalId)
    && (forall j :: 0 <= j < |refunds| ==>
          && refunds[j].payment < |payments| && payments[refunds[j].payment].status == Aprobado
          && refunds[j].amount > 0 && (refunds[j].manual ==> refunds[j].status == Reembolsado))
    && (forall p :: 0 <= p < |payments| ==> Sum(refunds, Live(p)) <= payments[p].amount)
  }

  /** The payment is for exactly the order's total, and credits it. */
  predicate Credits(l: Ledger, p: nat) {
    && p < |l.payments| && l.credited == Some(l.payments[p].externalId)
    && l.payments[p].status == Aprobado && l.payments[p].amount == l.total && l.payments[p].storeCurrency
  }

  /** A credited order has its payment; while paid, the only refunds against it are those of returns. */
  ghost predicate CreditOk(l: Ledger) {
    && (l.credited.Some? ==> exists p :: Credits(l, p))
    && (Paid(l.status) ==>
          && l.credited.Some?
          && forall j :: 0 <= j < |l.refunds| && Credits(l, l.refunds[j].payment) ==> l.refunds[j].origin == CU22)
  }

  /** A refund row gives the whole payment back, other than through a return. */
  ghost predicate GivenBack(l: Ledger, p: nat)
    requires p < |l.payments|
  {
    exists j :: 0 <= j < |l.refunds| && l.refunds[j].payment == p && l.refunds[j].amount == l.payments[p].amount && l.refunds[j].origin != CU22
  }

  /** An approved payment for the exact, positive total. */
  predicate Collected(l: Ledger, p: nat) {
    && p < |l.payments| && l.payments[p].status == Aprobado
    && l.payments[p].amount == l.total > 0 && l.payments[p].storeCurrency
  }

  /** Every such payment, `except` one, either credited the order or is given back. */
  ghost predicate SettledBut(l: Ledger, except: int) {
    forall p :: 0 <= p < |l.payments| && p != except && Collected(l, p) ==> l.credited == Some(l.payments[p].externalId) || GivenBack(l, p)
  }

  ghost predicate MoneyOkBut(l: Ledger, except: int) {
    && BooksOk(l.payments, l.refunds)
    && CreditOk(l)
    && SettledBut(l, except)
    && Sum(l.refunds, OfReturns) == l.returned
    && (l.missed ==> l.subtotal == 0)
  }

  ghost predicate MoneyOk(l: Ledger) {
    MoneyOkBut(l, -1)
  }

  // ----- What returns are worth -----

  /** Price of so many units of each item. */
  function Worth(bought: seq<Item>, units: seq<nat>): Cents
    requires |units| == |bought|
  {
    if bought == [] then 0 else bought[0].unitPrice * units[0] + Worth(bought[1..], units[1..])
  }

  lemma {:induction false} WorthTake(bought: seq<Item>, units: seq<nat>, i: nat, q: nat)
    requires |units| == |bought| && i < |bought| && q <= units[i]
    ensures Worth(bought, units) == Worth(bought, units[i := units[i] - q]) + bought[i].unitPrice * q
  {
    var left := units[i := units[i] - q];
    if i == 0 {
      assert left[1..] == units[1..];
    } else {
      WorthTake(bought[1..], units[1..], i - 1, q);
      assert left[1..] == units[1..][i - 1 := units[i] - q];
    }
  }

  lemma {:induction false} WorthAdds(bought: seq<Item>, units: seq<nat>, a: seq<nat>, b: seq<nat>)
    requires |units| == |a| == |b| == |bought|
    requires forall i :: 0 <= i < |bought| ==> units[i] == a[i] + b[i]
    ensures Worth(bought, units) == Worth(bought, a) + Worth(bought, b)
  {
    if bought != [] {
      WorthAdds(bought[1..], units[1..], a[1..], b[1..]);
      assert bought[0].unitPrice * units[0] == bought[0].unitPrice * a[0] + bought[0].unitPrice * b[0];
    }
  }

  lemma TimesAtMost(price: nat, a: nat, b: nat)
    requires a <= b
    ensures price * a <= price * b
  {}

  lemma {:induction false} WorthOfPart(bought: seq<Item>, units: seq<nat>)
    requires |units| == |bought| && forall i :: 0 <= i < |bought| ==> units[i] <= bought[i].quantity
    ensures Worth(bought, units) <= Subtotal(bought)
  {
    if bought != [] {
      WorthOfPart(bought[1..], units[1..]);
      TimesAtMost(bought[0].unitPrice, units[0], bought[0].quantity);
    }
  }

  /** The refund of some lines is worth no more than the units those lines block. */
  lemma {:induction false} RefundWithinUnits(bought: seq<Item>, lines: seq<RequestItem>, n: nat, units: seq<nat>)
    requires n <= |lines| && |units| == |bought|
    requires forall i :: 0 <= i < |bought| ==> BlockedByLines(Resuelta, lines, n, i) <= units[i]
    ensures RefundAmount(bought, lines, n) <= Worth(bought, units)
  {
    if n > 0 {
      var line := lines[n - 1];
      if line.item < |bought| {
        var q := line.received.GetOr(0);
        assert BlockedByLines(Resuelta, lines, n, line.item) == BlockedByLines(Resuelta, lines, n - 1, line.item) + q;
        WorthTake(bought, units, line.item, q);
        RefundWithinUnits(bought, lines, n - 1, units[line.item := units[line.item] - q]);
      } else {
        RefundWithinUnits(bought, lines, n - 1, units);
      }
    }
  }

  lemma {:induction false} ReturnsWithinUnits(bought: seq<Item>, requests: seq<Request>, n: nat, units: seq<nat>)
    requires n <= |requests| && |units| == |bought|
    requires forall i :: 0 <= i < |bought| ==> Blocked(requests, n, i) <= units[i]
    ensures ReturnsAmount(bought, requests, n) <= Worth(bought, units)
  {
    if n > 0 {
      var q := requests[n - 1];
      var last: seq<nat> := seq(|bought|, i requires 0 <= i < |bought| => BlockedBy(q, i));
      forall i | 0 <= i < |bought| ensures Blocked(requests, n, i) == Blocked(requests, n - 1, i) + last[i] {}
      var rest: seq<nat> := seq(|bought|, i requires 0 <= i < |bought| => units[i] - last[i]);
      WorthAdds(bought, units, rest, last);
      ReturnsWithinUnits(bought, requests, n - 1, rest);
      if q.status == Resuelta {
        RefundWithinUnits(bought, q.items, |q.items|, last);
      }
    }
  }

  /** The returns of an order are worth no more than its products. */
  lemma ReturnsWithinSubtotal(a: AfterSale)
    requires ReturnsOk(a)
    ensures ReturnsAmount(a.bought, a.requests, |a.requests|) <= Subtotal(a.bought)
  {
    var units: seq<nat> := seq(|a.bought|, i requires 0 <= i < |a.bought| => a.bought[i].quantity);
    forall i | 0 <= i < |a.bought| ensures Blocked(a.requests, |a.requests|, i) <= units[i] {
      assert BlockedUnits(a, i) <= a.bought[i].quantity;
    }
    ReturnsWithinUnits(a.bought, a.requests, |a.requests|, units);
    WorthOfPart(a.bought, units);
  }

  // ----- Writes -----

  /** A payment row recorded or updated in place; only a payment that was not final is updated. */
  lemma SaveKeepsMoney(l: Ledger, k: nat, payment: Payment)
    requires MoneyOk(l) && k <= |l.payments|
    requires k < |l.payments| ==> l.payments[k].externalId == payment.externalId && !FinalPayment(l.payments[k].status)
    requires k == |l.payments| ==> forall p :: 0 <= p < |l.payments| ==> l.payments[p].externalId != payment.externalId
    ensures var l' := l.(payments := if k < |l.payments| then l.payments[k := payment] else l.payments + [payment]);
            && MoneyOkBut(l', k)
            && l.credited != Some(payment.externalId)
            && forall j :: 0 <= j < |l.refunds| ==> l.refunds[j].payment != k
  {
    var l' := l.(payments := if k < |l.payments| then l.payments[k := payment] else l.payments + [payment]);
    forall p | 0 <= p < |l'.payments| ensures Sum(l'.refunds, Live(p)) <= l'.payments[p].amount {
      if p == k {
        NothingAgainst(l.refunds, k);
      }
    }
    if l.credited.Some? {
      var p :| Credits(l, p);
      assert p != k && Credits(l', p);
    }
    forall p | 0 <= p < |l'.payments| && p != k && Collected(l', p)
      ensures l'.credited == Some(l'.payments[p].externalId) || GivenBack(l', p)
    {
      assert Collected(l, p);
      if GivenBack(l, p) {
        var j :| 0 <= j < |l.refunds| && l.refunds[j].payment == p && l.refunds[j].amount == l.payments[p].amount && l.refunds[j].origin != CU22;
        assert l'.refunds[j].payment == p;
      }
    }
    forall j | 0 <= j < |l.refunds| && Credits(l', l.refunds[j].payment) ensures Credits(l, l.refunds[j].payment) {}
  }

  lemma {:induction false} NothingAgainst(refunds: seq<Refund>, p: nat)
    requires forall j :: 0 <= j < |refunds| ==> refunds[j].payment != p
    ensures Sum(refunds, Live(p)) == 0 && Sum(refunds, CommittedTo(p)) == 0
  {
    if refunds != [] {
      NothingAgainst(refunds[..|refunds| - 1], p);
    }
  }

  lemma RequestFits(refunds: seq<Refund>, p: nat, amount: Cents, origin: RefundOrigin, q: nat, balance: nat)
    requires if q == p then amount + RefundedCents(refunds, p) <= balance else Sum(refunds, Live(q)) <= balance
    ensures Sum(refunds + [NewRefund(p, amount, origin)], Live(q)) <= balance
  {
    SumAppend(refunds, NewRefund(p, amount, origin), Live(q));
    if q == p {
      RefundedIsSum(refunds, p);
      SumAtMost(refunds, Live(p), CommittedTo(p));
    }
  }

  lemma RequestKeepsBooks(payments: seq<Payment>, refunds: seq<Refund>, p: nat, amount: Cents, origin: RefundOrigin)
    requires BooksOk(payments, refunds) && p < |payments| && payments[p].status == Aprobado
    requires 0 < amount && amount + RefundedCents(refunds, p) <= payments[p].amount
    ensures BooksOk(payments, refunds + [NewRefund(p, amount, origin)])
  {
    forall q | 0 <= q < |payments| ensures Sum(refunds + [NewRefund(p, amount, origin)], Live(q)) <= payments[q].amount {
      RequestFits(refunds, p, amount, origin, q, payments[q].amount);
    }
  }

  /** Refund rows added at the end; existing ones keep payment, amount and origin. */
  ghost predicate RowsKept(refunds: seq<Refund>, refunds': seq<Refund>) {
    && |refunds| <= |refunds'|
    && forall j :: 0 <= j < |refunds| ==>
         refunds'[j].payment == refunds[j].payment && refunds'[j].amount == refunds[j].amount && refunds'[j].origin == refunds[j].origin
  }

  lemma GivenBackStays(l: Ledger, l': Ledger, p: nat)
    requires p < |l.payments| && l'.payments == l.payments && RowsKept(l.refunds, l'.refunds)
    ensures GivenBack(l, p) ==> GivenBack(l', p)
  {
    if GivenBack(l, p) {
      var j :| 0 <= j < |l.refunds| && l.refunds[j].payment == p && l.refunds[j].amount == l.payments[p].amount && l.refunds[j].origin != CU22;
      assert l'.refunds[j].payment == p;
    }
  }

  /** New or rewritten refund rows do not unsettle a payment. */
  lemma RowsKeepSettlement(l: Ledger, l': Ledger, except: int)
    requires SettledBut(l, except) && l'.payments == l.payments && l'.total == l.total && RowsKept(l.refunds, l'.refunds)
    requires l.credited.Some? ==> l'.credited == l.credited
    ensures SettledBut(l', except)
  {
    forall p | 0 <= p < |l'.payments| && p != except && Collected(l', p) ensures l'.credited == Some(l'.payments[p].externalId) || GivenBack(l', p) {
      assert Collected(l, p);
      GivenBackStays(l, l', p);
    }
  }

  lemma RowsKeepCredit(l: Ledger, l': Ledger)
    requires CreditOk(l) && l'.payments == l.payments && l'.total == l.total && l'.credited == l.credited
    requires RowsKept(l.refunds, l'.refunds) && (Paid(l'.status) ==> Paid(l.status))
    requires forall j :: |l.refunds| <= j < |l'.refunds| && Paid(l.status) && Credits(l, l'.refunds[j].payment) ==> l'.refunds[j].origin == CU22
    ensures CreditOk(l')
  {
    forall p ensures Credits(l', p) == Credits(l, p) {}
  }

  /** A refund row registered against payment `p`, which has the balance. */
  lemma RequestKeepsMoney(l: Ledger, except: int, p: nat, amount: Cents, origin: RefundOrigin)
    requires MoneyOkBut(l, except) && p < |l.payments| && l.payments[p].status == Aprobado
    requires 0 < amount && amount + RefundedCents(l.refunds, p) <= l.payments[p].amount
    requires Paid(l.status) && Credits(l, p) ==> origin == CU22
    ensures var l' := l.(refunds := l.refunds + [NewRefund(p, amount, origin)], returned := l.returned + if origin == CU22 then amount else 0);
            && MoneyOkBut(l', except)
            && (except == p && amount == l.payments[p].amount && origin != CU22 ==> MoneyOk(l'))
  {
    var row := NewRefund(p, amount, origin);
    var l' := l.(refunds := l.refunds + [row], returned := l.returned + if origin == CU22 then amount else 0);
    SumAppend(l.refunds, row, OfReturns);
    RequestKeepsBooks(l.payments, l.refunds, p, amount, origin);
    RowsKeepCredit(l, l');
    RowsKeepSettlement(l, l', except);
    if except == p && amount == l.payments[p].amount && origin != CU22 {
      assert l'.refunds[|l.refunds|] == row;
      assert GivenBack(l', p);
    }
  }

  /** A change of status that credits nothing; a missed refund is noted only when there was nothing to refund. */
  lemma StatusKeepsMoney(l: Ledger, except: int, status: Status, missed: bool)
    requires MoneyOkBut(l, except) && (Paid(status) ==> Paid(l.status)) && (missed ==> l.subtotal == 0)
    ensures MoneyOkBut(l.(status := status, missed := missed), except)
  {
    var l' := l.(status := status, missed := missed);
    RowsKeepCredit(l, l');
    RowsKeepSettlement(l, l', except);
  }

  /** Payment `k`, with no refund against it, credits the order. */
  lemma CreditKeepsMoney(l: Ledger, k: nat)
    requires MoneyOkBut(l, k) && l.credited == None && k < |l.payments| && l.payments[k].status == Aprobado
    requires l.payments[k].amount == l.total && l.payments[k].storeCurrency
    requires forall j :: 0 <= j < |l.refunds| ==> l.refunds[j].payment != k
    ensures MoneyOk(l.(status := Pagado, credited := Some(l.payments[k].externalId)))
  {
    var l' := l.(status := Pagado, credited := Some(l.payments[k].externalId));
    assert Credits(l', k);
    RowsKeepSettlement(l, l', k);
    forall j | 0 <= j < |l'.refunds| ensures !Credits(l', l'.refunds[j].payment) {
      assert l.refunds[j].payment != k;
    }
  }

  /** The balance of the payment that credited a paid order: all but what its returns gave back. */
  lemma CreditedBalance(l: Ledger) returns (p: nat)
    requires MoneyOk(l) && Paid(l.status)
    ensures p < |l.payments| && Credits(l, p) && RefundedCents(l.refunds, p) <= l.returned
  {
    p :| Credits(l, p);
    RefundedIsSum(l.refunds, p);
    SumAtMost(l.refunds, CommittedTo(p), Against(p));
    forall j | 0 <= j < |l.refunds| ensures Weight(Against(p), l.refunds[j]) <= Weight(OfReturns, l.refunds[j]) {}
    SumAtMost(l.refunds, Against(p), OfReturns);
  }

  lemma RowKeepsBooks(payments: seq<Payment>, refunds: seq<Refund>, k: nat, row: Refund)
    requires BooksOk(payments, refunds) && k < |refunds|
    requires row.payment == refunds[k].payment && row.amount == refunds[k].amount
    requires row.manual ==> row.status == Reembolsado
    requires Weight(Live(row.payment), row) <= Weight(Live(row.payment), refunds[k])
             || Sum(refunds[..k] + refunds[k + 1..], Live(row.payment)) + row.amount <= payments[row.payment].amount
    ensures BooksOk(payments, refunds[k := row])
  {
    forall p | 0 <= p < |payments| ensures Sum(refunds[k := row], Live(p)) <= payments[p].amount {
      SumUpdate(refunds, k, row, Live(p));
      SumWithout(refunds, k, Live(p));
    }
  }

  /** A refund row replaced by one with the same payment, amount and origin. */
  lemma RowKeepsMoney(l: Ledger, k: nat, row: Refund)
    requires MoneyOk(l) && k < |l.refunds|
    requires row.payment == l.refunds[k].payment && row.amount == l.refunds[k].amount && row.origin == l.refunds[k].origin
    requires row.manual ==> row.status == Reembolsado
    requires Weight(Live(row.payment), row) <= Weight(Live(row.payment), l.refunds[k])
             || Sum(l.refunds[..k] + l.refunds[k + 1..], Live(row.payment)) + row.amount <= l.payments[row.payment].amount
    ensures MoneyOk(l.(refunds := l.refunds[k := row]))
  {
    var l' := l.(refunds := l.refunds[k := row]);
    SumUpdate(l.refunds, k, row, OfReturns);
    RowKeepsBooks(l.payments, l.refunds, k, row);
    RowsKeepCredit(l, l');
    RowsKeepSettlement(l, l', -1);
  }

  // ----- Steps -----

  lemma {:induction false} NeverPaidNotCredited(h: seq<Entry>)
    requires Count(h, Pagado) == 0
    ensures CreditedRef(h) == None
  {
    if h != [] {
      NeverPaidNotCredited(h[..|h| - 1]);
    }
  }

  lemma CreditedAfter(h: seq<Entry>, e: Entry)
    ensures CreditedRef(h + [e]) == if e.to == Pagado && e.reason.PaymentReported? then Some(e.reason.payment) else CreditedRef(h)
  {
    assert (h + [e])[..|h|] == h;
  }

  ghost predicate FileOk(f: File) {
    LifeOk(LifeOf(f)) && OrderShape(f.order) && ReturnsOk(AfterSaleOf(f)) && StillOut(AfterSaleOf(f)) && MoneyOk(LedgerOf(f))
  }

  /** What the outcome of a payment writes on the money side: at most the status and the credited payment. */
  lemma OutcomeLedger(r: Rows, outcome: PaymentOutcome, payment: PaymentRef, now: Time)
    ensures var l, applied := LedgerOf(r.file), PaymentApplied(r, outcome, payment, now);
            var l' := LedgerOf(applied.rows.file);
            && applied.rows.file.payments == r.file.payments && applied.rows.file.refunds == r.file.refunds
            && if outcome == Approved then
                 if !applied.discrepancy
                 then l' == l.(status := Pagado, credited := Some(payment)) && CanTransition(l.status, Pagado) && LegalMove(LifeOf(r.file), Pagado, PaymentReported(payment))
                 else l' == l && applied.refundOrigin.Some? && applied.refundOrigin.value != CU22 && applied.rows == r
               else l' == l.(status := l'.status) && (Paid(l'.status) ==> l'.status == l.status)
                    && (applied.discrepancy ==> applied.refundOrigin == None)
  {
    OutcomeKeepsAfterSale(r, outcome, payment, now);
    forall to: Status ensures CreditedRef(r.file.history + [Entry(Some(r.file.order.status), to, PaymentReported(payment))])
                              == if to == Pagado then Some(payment) else CreditedRef(r.file.history) {
      CreditedAfter(r.file.history, Entry(Some(r.file.order.status), to, PaymentReported(payment)));
    }
  }

  /** A report whose row is written, and that credits nothing and owes nothing. */
  lemma SavedKeepsMoney(r: Rows, k: nat, payment: Payment, outcome: PaymentOutcome, now: Time)
    requires FileOk(r.file) && k == Find(r.file.payments, payment.externalId)
    requires k < |r.file.payments| ==> !FinalPayment(r.file.payments[k].status)
    requires payment.status != Aprobado && outcome != Approved
    ensures MoneyOk(LedgerOf(PaymentApplied(r.(file := Saved(r.file, k, payment)), outcome, payment.externalId, now).rows.file))
  {
    var saved := r.(file := Saved(r.file, k, payment));
    SaveKeepsMoney(LedgerOf(r.file), k, payment);
    assert !Collected(LedgerOf(saved.file), k);
    OutcomeLedger(saved, outcome, payment.externalId, now);
    var l' := LedgerOf(PaymentApplied(saved, outcome, payment.externalId, now).rows.file);
    StatusKeepsMoney(LedgerOf(saved.file), -1, l'.status, l'.missed);
  }

  /** An approval for another amount is only noted. */
  lemma InexactKeepsMoney(r: Rows, k: nat, payment: Payment)
    requires FileOk(r.file) && k == Find(r.file.payments, payment.externalId)
    requires k < |r.file.payments| ==> !FinalPayment(r.file.payments[k].status)
    requires !ExactAmount(payment, r.file.order)
    ensures MoneyOk(LedgerOf(Noted(Saved(r.file, k, payment), AmountMismatch(payment.externalId))))
  {
    SaveKeepsMoney(LedgerOf(r.file), k, payment);
    assert !Collected(LedgerOf(Saved(r.file, k, payment)), k);
    assert LedgerOf(Noted(Saved(r.file, k, payment), AmountMismatch(payment.externalId))) == LedgerOf(Saved(r.file, k, payment));
  }

  lemma UnapprovedReport(r: Rows, report: Report, now: Time)
    requires StatusMap(report.status).Some? && StatusMap(report.status).value.outcome != Approved
    requires var k := Find(r.file.payments, report.externalId); k < |r.file.payments| ==> !FinalPayment(r.file.payments[k].status)
    ensures var mapped := StatusMap(report.status).value;
            var saved := r.(file := Saved(r.file, Find(r.file.payments, report.externalId), NewPayment(report, mapped.status, now)));
            var applied := PaymentApplied(saved, mapped.outcome, report.externalId, now).rows;
            var r' := PaymentProcessed(r, report, now).0;
            r' == r || LedgerOf(r'.file) == LedgerOf(applied.file)
  {}

  /** A report that is not an approval for the exact amount settles with the row alone. */
  lemma OtherReportKeepsMoney(r: Rows, report: Report, now: Time)
    requires FileOk(r.file) && StatusMap(report.status).Some?
    requires report.status == RawApproved ==> !ExactAmount(NewPayment(report, Aprobado, now), r.file.order)
    ensures MoneyOk(LedgerOf(PaymentProcessed(r, report, now).0.file))
  {
    var k, mapped := Find(r.file.payments, report.externalId), StatusMap(report.status).value;
    var payment := NewPayment(report, mapped.status, now);
    if k < |r.file.payments| && FinalPayment(r.file.payments[k].status) {
      assert LedgerOf(PaymentProcessed(r, report, now).0.file) == LedgerOf(r.file);
    } else if mapped.outcome == Approved {
      InexactKeepsMoney(r, k, payment);
    } else {
      SavedKeepsMoney(r, k, payment, mapped.outcome, now);
      UnapprovedReport(r, report, now);
    }
  }

  /** An approval for the exact amount either credits the order or registers its whole refund. */
  lemma ApprovalKeepsMoney(r: Rows, report: Report, now: Time)
    requires FileOk(r.file) && report.status == RawApproved
    requires ExactAmount(NewPayment(report, Aprobado, now), r.file.order)
    ensures MoneyOk(LedgerOf(PaymentProcessed(r, report, now).0.file))
  {
    var k := Find(r.file.payments, report.externalId);
    var payment := NewPayment(report, Aprobado, now);
    var l := LedgerOf(r.file);
    var r' := PaymentProcessed(r, report, now).0;
    if k < |r.file.payments| && FinalPayment(r.file.payments[k].status) {
      assert LedgerOf(r'.file) == l;
    } else {
      var saved := r.(file := Saved(r.file, k, payment));
      SaveKeepsMoney(l, k, payment);
      OutcomeLedger(saved, Approved, report.externalId, now);
      var applied := PaymentApplied(saved, Approved, report.externalId, now);
      if !applied.discrepancy {
        NeverPaidNotCredited(r.file.history);
        CreditKeepsMoney(LedgerOf(saved.file), k);
      } else {
        RefusedApprovalKeepsMoney(saved.file, k, payment.externalId, applied.refundOrigin.value);
      }
    }
  }

  /** The refund of a payment that does not belong to the order, registered with its row. */
  lemma RefusedApprovalKeepsMoney(f: File, k: nat, payment: PaymentRef, origin: RefundOrigin)
    requires MoneyOkBut(LedgerOf(f), k) && k < |f.payments| && f.payments[k].status == Aprobado && origin != CU22
    requires f.payments[k].externalId == payment && CreditedRef(f.history) != Some(payment)
    requires forall j :: 0 <= j < |f.refunds| ==> f.refunds[j].payment != k
    ensures MoneyOk(LedgerOf(Requested(Noted(f, PaymentDiscrepancy(payment)), f.payments[k].amount, origin, Some(k))))
  {
    var noted := Noted(f, PaymentDiscrepancy(payment));
    var amount := f.payments[k].amount;
    NothingAgainst(f.refunds, k);
    RefundedIsSum(f.refunds, k);
    assert LedgerOf(noted) == LedgerOf(f);
    if amount > 0 {
      assert CanRefund(noted, amount, Some(k), k);
      assert ChosenPayment(noted, amount, Some(k)) == Some(k);
      RequestKeepsMoney(LedgerOf(f), k, k, amount, origin);
    }
  }

  lemma PaymentKeepsMoney(r: Rows, report: Report, now: Time)
    requires FileOk(r.file)
    ensures MoneyOk(LedgerOf(PaymentProcessed(r, report, now).0.file))
  {
    if StatusMap(report.status).Some? {
      if report.status == RawApproved && ExactAmount(NewPayment(report, Aprobado, now), r.file.order) {
        ApprovalKeepsMoney(r, report, now);
      } else {
        OtherReportKeepsMoney(r, report, now);
      }
    }
  }

  /** Before delivery there are no requests. */
  lemma NothingReturnedYet(f: File)
    requires ReturnsOk(AfterSaleOf(f)) && f.order.status !in {Entregado, Devuelto}
    ensures LedgerOf(f).returned == 0
  {}

  lemma {:induction false} SubtotalOfBasket(items: seq<Item>)
    ensures Subtotal(Uncommitted(items)) == Subtotal(items)
  {
    if items != [] {
      SubtotalOfBasket(items[1..]);
    }
  }

  /** A refund of the order can always be registered while paid, up to what its returns left. */
  lemma RefundIsPossible(f: File, amount: Cents)
    requires MoneyOk(LedgerOf(f)) && Paid(f.order.status) && 0 < amount && LedgerOf(f).returned + amount <= f.order.total
    ensures ChosenPayment(f, amount, None).Some?
  {
    var p := CreditedBalance(LedgerOf(f));
    assert CanRefund(f, amount, None, p);
  }

  lemma UndoneLedger(r: Rows, cause: Cause, now: Time)
    ensures LedgerOf(Undone(r, cause, now).file) == LedgerOf(r.file).(status := Cancelado)
    ensures Undone(r, cause, now).file.notes == r.file.notes
  {
    var moved := r.(file := Moved(r.file, Cancelado, CancelledBy(cause), now));
    CreditedAfter(r.file.history, Entry(Some(r.file.order.status), Cancelado, CancelledBy(cause)));
    ReturnedStockKeepsAfterSale(moved);
  }

  /** The choice of a payment depends on the payments and the refunds only. */
  lemma {:induction false} SameChoice(f: File, f': File, amount: Cents, only: Option<nat>, n: nat)
    requires f'.payments == f.payments && f'.refunds == f.refunds && n <= |f.payments|
    ensures FirstWithBalance(f', amount, only, n) == FirstWithBalance(f, amount, only, n)
  {
    if n > 0 {
      SameChoice(f, f', amount, only, n - 1);
    }
  }

  /** A paid order that is being cancelled always has a payment with the balance for what it owes. */
  lemma CancellationHasBalance(r: Rows, cause: Cause, now: Time)
    requires FileOk(r.file) && CanTransition(r.file.order.status, Cancelado) && r.file.order.paidAt.Some?
    requires CancellationAmount(r.file.order) > 0
    ensures var amount, undone := CancellationAmount(r.file.order), Undone(r, cause, now).file;
            ChosenPayment(undone, amount, None).Some? && ChosenPayment(undone, amount, None) == ChosenPayment(r.file, amount, None)
  {
    var undone, amount := Undone(r, cause, now).file, CancellationAmount(r.file.order);
    UndoneLedger(r, cause, now);
    assert undone.payments == LedgerOf(undone).payments && undone.refunds == LedgerOf(undone).refunds;
    NothingReturnedYet(r.file);
    RefundIsPossible(r.file, amount);
    SameChoice(r.file, undone, amount, None, |r.file.payments|);
  }

  /**
   * Cancelling a paid order registers the refund of what it owes, against one payment that covers it.
   * The refund cannot be registered only when the order owes nothing at all.
   */
  lemma CancellationIsRefunded(r: Rows, cause: Cause, origin: RefundOrigin, now: Time)
    requires FileOk(r.file) && CanTransition(r.file.order.status, Cancelado)
    ensures var f', amount := Cancelled(r, cause, origin, now).file, CancellationAmount(r.file.order);
            if r.file.order.paidAt.Some? && amount > 0 then
              && f'.notes == r.file.notes
              && exists p: nat :: CanRefund(r.file, amount, None, p) && f'.refunds == r.file.refunds + [NewRefund(p, amount, origin)]
            else
              && f'.refunds == r.file.refunds
              && f'.notes == r.file.notes + if r.file.order.paidAt.Some? then [RefundNotRegistered] else []
  {
    var undone := Undone(r, cause, now).file;
    UndoneLedger(r, cause, now);
    assert undone.refunds == LedgerOf(undone).refunds;
    if r.file.order.paidAt.Some? && CancellationAmount(r.file.order) > 0 {
      CancellationHasBalance(r, cause, now);
    }
  }

  lemma RefundedKeepsMoney(f: File, amount: Cents, origin: RefundOrigin)
    requires MoneyOk(LedgerOf(f)) && !Paid(f.order.status) && origin != CU22
    requires if amount > 0 then ChosenPayment(f, amount, None).Some? else f.order.subtotal == 0
    ensures MoneyOk(LedgerOf(Refunded(f, amount, origin)))
  {
    if amount > 0 {
      RequestKeepsMoney(LedgerOf(f), -1, ChosenPayment(f, amount, None).value, amount, origin);
    } else {
      StatusKeepsMoney(LedgerOf(f), -1, f.order.status, true);
    }
  }

  lemma CancellationKeepsMoney(r: Rows, cause: Cause, origin: RefundOrigin, now: Time)
    requires FileOk(r.file) && CanTransition(r.file.order.status, Cancelado) && origin != CU22
    ensures MoneyOk(LedgerOf(Cancelled(r, cause, origin, now).file))
  {
    var undone := Undone(r, cause, now).file;
    var amount := CancellationAmount(r.file.order);
    UndoneLedger(r, cause, now);
    StatusKeepsMoney(LedgerOf(r.file), -1, Cancelado, LedgerOf(r.file).missed);
    if r.file.order.paidAt.Some? {
      if amount > 0 {
        CancellationHasBalance(r, cause, now);
      }
      assert undone.order.subtotal == LedgerOf(undone).subtotal && undone.order.status == LedgerOf(undone).status;
      RefundedKeepsMoney(undone, amount, origin);
    }
  }

  // ----- Requests -----

  lemma {:induction false} ReturnsUpdate(bought: seq<Item>, requests: seq<Request>, n: nat, k: nat, q: Request)
    requires k < |requests| && n <= |requests|
    ensures ReturnsAmount(bought, requests[k := q], n) + (if k < n then ReturnValue(bought, requests[k]) else 0)
            == ReturnsAmount(bought, requests, n) + if k < n then ReturnValue(bought, q) else 0
  {
    if n > 0 {
      ReturnsUpdate(bought, requests, n - 1, k, q);
    }
  }

  lemma {:induction false} ReturnsPrefix(bought: seq<Item>, requests: seq<Request>, more: seq<Request>, n: nat)
    requires n <= |requests|
    ensures ReturnsAmount(bought, requests + more, n) == ReturnsAmount(bought, requests, n)
  {
    if n > 0 {
      ReturnsPrefix(bought, requests, more, n - 1);
    }
  }

  lemma {:induction false} SamePrices(items: seq<Item>, lines: seq<RequestItem>, n: nat)
    requires n <= |lines|
    ensures RefundAmount(Uncommitted(items), lines, n) == RefundAmount(items, lines, n)
  {
    if n > 0 {
      SamePrices(items, lines, n - 1);
      UncommittedLength(items);
      if lines[n - 1].item < |items| {
        UncommittedAt(items, lines[n - 1].item);
      }
    }
  }

  /** A request changed by something other than a reception gives nothing back. */
  lemma RequestStepKeepsMoney(r: Rows, e: Event, now: Time)
    requires e.CreateReturn? || e.ApproveReturn? || e.RejectReturn?
    ensures LedgerOf(Step(r, e, now).file) == LedgerOf(r.file)
  {
    var bought, requests, requests' := Uncommitted(r.file.order.items), r.file.requests, Step(r, e, now).file.requests;
    if e.CreateReturn? {
      ReturnsPrefix(bought, requests, requests'[|requests|..], |requests|);
    } else if requests' != requests {
      var k := e.request;
      ReturnsUpdate(bought, requests, |requests|, k, requests'[k]);
    }
  }

  /** What a reception does to the money: what was received is worth `amount`, given back by a refund row if positive. */
  ghost predicate ReturnPaid(f: File, f': File, amount: Cents) {
    && f'.payments == f.payments
    && (RefundNotRegistered in f'.notes <==> RefundNotRegistered in f.notes)
    && if amount == 0 then f'.refunds == f.refunds
       else exists p: nat :: CanRefund(f, amount, None, p) && f'.refunds == f.refunds + [NewRefund(p, amount, CU22)]
  }

  /** Value of the products received: units received, at the price paid, of the lines with refund approved. */
  function ReceivedValue(f: File, k: nat, inputs: seq<Input>): Cents
    requires k < |f.requests|
  {
    var q := f.requests[k];
    if q.kind == DevolucionProducto then RefundAmount(f.order.items, ReceivedLines(q, inputs, |q.items|), |q.items|) else 0
  }

  /** The request just received counts for its value. */
  lemma ReceptionAddsValue(r: Rows, k: nat, inputs: seq<Input>, options: map<nat, set<VariantId>>, now: Time)
    requires RequestReceived(r, k, inputs, options, now).Done?
    ensures k < |r.file.requests|
    ensures LedgerOf(RequestReceived(r, k, inputs, options, now).value.file).returned
            == LedgerOf(r.file).returned + ReceivedValue(r.file, k, inputs)
  {
    var f, f' := r.file, RequestReceived(r, k, inputs, options, now).value.file;
    var refund := ReceptionResolves(r, k, inputs, options, now);
    var q := f.requests[k];
    var lines := ReceivedLines(q, inputs, |q.items|);
    var q' := q.(status := Resuelta, items := lines, refund := refund);
    ReturnsUpdate(Uncommitted(f.order.items), f.requests, |f.requests|, k, q');
    SamePrices(f.order.items, lines, |lines|);
  }

  /** A reception writes the refund of what was received, or nothing on the money side. */
  lemma ReceptionBooks(r: Rows, k: nat, inputs: seq<Input>, options: map<nat, set<VariantId>>, now: Time)
    requires RequestReceived(r, k, inputs, options, now).Done?
    ensures k < |r.file.requests|
    ensures var f, f' := r.file, RequestReceived(r, k, inputs, options, now).value.file;
            var paid := ReturnRefunded(f.(movements := f'.movements), ReceivedValue(f, k, inputs));
            && f'.payments == f.payments && f'.refunds == paid.refunds
            && f'.notes == if f.requests[k].kind == DevolucionProducto then paid.notes else f.notes + [ReplacementPending(k)]
  {}

  /** Receiving a return registers the refund of everything it is worth; the refund is never missed. */
  lemma ReceptionIsRefunded(r: Rows, k: nat, inputs: seq<Input>, options: map<nat, set<VariantId>>, now: Time)
    requires FileOk(r.file) && RequestReceived(r, k, inputs, options, now).Done?
    ensures k < |r.file.requests|
    ensures ReturnPaid(r.file, RequestReceived(r, k, inputs, options, now).value.file, ReceivedValue(r.file, k, inputs))
  {
    var f, f' := r.file, RequestReceived(r, k, inputs, options, now).value.file;
    ReceptionBooks(r, k, inputs, options, now);
    if ReceivedValue(f, k, inputs) > 0 {
      ReceptionFits(r, k, inputs, options, now);
      RefundIsPossible(f, ReceivedValue(f, k, inputs));
      SameChoice(f, f.(movements := f'.movements), ReceivedValue(f, k, inputs), None, |f.payments|);
    }
  }

  /** What is received and what came back before are worth no more than the order. */
  lemma ReceptionFits(r: Rows, k: nat, inputs: seq<Input>, options: map<nat, set<VariantId>>, now: Time)
    requires FileOk(r.file) && RequestReceived(r, k, inputs, options, now).Done?
    ensures r.file.order.status == Entregado && k < |r.file.requests|
    ensures LedgerOf(r.file).returned + ReceivedValue(r.file, k, inputs) <= r.file.order.subtotal <= r.file.order.total
  {
    var f' := RequestReceived(r, k, inputs, options, now).value.file;
    ReceptionAddsValue(r, k, inputs, options, now);
    OpenMeansDelivered(r.file, k);
    ReceiveKeepsReturns(r, k, inputs, options, now);
    ReturnsWithinSubtotal(AfterSaleOf(f'));
    SubtotalOfBasket(r.file.order.items);
    var _ := ReceptionResolves(r, k, inputs, options, now);
  }

  lemma ReceptionLedger(r: Rows, k: nat, inputs: seq<Input>, options: map<nat, set<VariantId>>, now: Time)
    requires RequestReceived(r, k, inputs, options, now).Done? && r.file.order.status == Entregado
    ensures var l, l' := LedgerOf(r.file), LedgerOf(RequestReceived(r, k, inputs, options, now).value.file);
            && l'.credited == l.credited && l'.subtotal == l.subtotal && l'.total == l.total
            && Paid(l.status) && Paid(l'.status)
  {
    ReceptionWritesOrder(r, k, inputs, options, now);
    CreditedAfter(r.file.history, Entry(Some(Entregado), Devuelto, FullReturn(k)));
  }

  lemma ReturnPaidLedger(f: File, f': File, amount: Cents)
    requires ReturnPaid(f, f', amount)
    requires var l, l' := LedgerOf(f), LedgerOf(f');
             l'.credited == l.credited && l'.subtotal == l.subtotal && l'.total == l.total && l'.returned == l.returned + amount
    ensures LedgerOf(f') == LedgerOf(f).(status := f'.order.status, refunds := f'.refunds, returned := LedgerOf(f).returned + amount)
  {}

  /** A refund of returns keeps the ledger of a paid order. */
  lemma ReturnKeepsMoney(l: Ledger, l': Ledger, p: nat, amount: Cents)
    requires MoneyOk(l) && Paid(l.status) && p < |l.payments| && l.payments[p].status == Aprobado
    requires 0 < amount && amount + RefundedCents(l.refunds, p) <= l.payments[p].amount
    requires l' == l.(status := l'.status, refunds := l.refunds + [NewRefund(p, amount, CU22)], returned := l.returned + amount)
    ensures MoneyOk(l')
  {
    RequestKeepsMoney(l, -1, p, amount, CU22);
    var requested := l.(refunds := l'.refunds, returned := l'.returned);
    StatusKeepsMoney(requested, -1, l'.status, l.missed);
    assert requested.(status := l'.status, missed := l.missed) == l';
  }

  lemma ReturnPaidKeepsMoney(f: File, f': File, amount: Cents)
    requires MoneyOk(LedgerOf(f)) && ReturnPaid(f, f', amount) && Paid(f.order.status)
    requires LedgerOf(f') == LedgerOf(f).(status := f'.order.status, refunds := f'.refunds, returned := LedgerOf(f).returned + amount)
    ensures MoneyOk(LedgerOf(f'))
  {
    var l := LedgerOf(f);
    if amount > 0 {
      var p: nat :| CanRefund(f, amount, None, p) && f'.refunds == f.refunds + [NewRefund(p, amount, CU22)];
      ReturnKeepsMoney(l, LedgerOf(f'), p, amount);
    } else {
      StatusKeepsMoney(l, -1, f'.order.status, l.missed);
    }
  }

  lemma ReceptionKeepsMoney(r: Rows, k: nat, inputs: seq<Input>, options: map<nat, set<VariantId>>, now: Time)
    requires FileOk(r.file) && RequestReceived(r, k, inputs, options, now).Done?
    ensures MoneyOk(LedgerOf(RequestReceived(r, k, inputs, options, now).value.file))
  {
    ReceptionAddsValue(r, k, inputs, options, now);
    OpenMeansDelivered(r.file, k);
    ReceptionLedger(r, k, inputs, options, now);
    ReceptionIsRefunded(r, k, inputs, options, now);
    ReturnPaidLedger(r.file, RequestReceived(r, k, inputs, options, now).value.file, ReceivedValue(r.file, k, inputs));
    ReturnPaidKeepsMoney(r.file, RequestReceived(r, k, inputs, options, now).value.file, ReceivedValue(r.file, k, inputs));
  }

  // ----- Refund rows -----

  lemma RefundRowKeepsMoney(f: File, k: nat, row: Refund)
    requires MoneyOk(LedgerOf(f)) && k < |f.refunds|
    requires row == f.refunds[k].(status := row.status, attempt := row.attempt, external := row.external, manual := row.manual)
    requires row.manual ==> row.status == Reembolsado
    requires Commits(row.status) && !row.manual ==> Commits(f.refunds[k].status) || FitsInBalance(f, k)
    requires f.refunds[k].manual ==> row.manual
    ensures MoneyOk(LedgerOf(f.(refunds := f.refunds[k := row])))
  {
    var others := f.refunds[..k] + f.refunds[k + 1..];
    RefundedIsSum(others, row.payment);
    SumAtMost(others, Live(row.payment), CommittedTo(row.payment));
    RowKeepsMoney(LedgerOf(f), k, row);
  }

  lemma MoveKeepsMoney(f: File, k: nat, attempt: nat, to: RefundStatus)
    requires MoneyOk(LedgerOf(f)) && to != EnTramite
    ensures MoneyOk(LedgerOf(RefundMoved(f, k, attempt, to)))
  {
    if k < |f.refunds| {
      RefundRowKeepsMoney(f, k, RowMoved(f.refunds[k], attempt, to));
    }
  }

  lemma AnswerKeepsMoney(f: File, k: nat, attempt: nat, external: GatewayRefundId)
    requires MoneyOk(LedgerOf(f))
    ensures MoneyOk(LedgerOf(RefundAnswered(f, k, attempt, external)))
  {
    if k < |f.refunds| {
      RefundRowKeepsMoney(f, k, RowAnswered(f.refunds[k], attempt, external));
    }
  }

  lemma RetryKeepsMoney(f: File, k: nat)
    requires MoneyOk(LedgerOf(f)) && RefundRetried(f, k).Done?
    ensures MoneyOk(LedgerOf(RefundRetried(f, k).value))
  {
    RefundRowKeepsMoney(f, k, RowRetried(f.refunds[k]));
  }

  lemma ResolveKeepsMoney(f: File, k: nat)
    requires MoneyOk(LedgerOf(f)) && RefundResolved(f, k).Done?
    ensures MoneyOk(LedgerOf(RefundResolved(f, k).value))
  {
    RefundRowKeepsMoney(f, k, RowResolved(f.refunds[k]));
  }

  lemma AnswerStepKeepsMoney(r: Rows, e: Event, now: Time)
    requires MoneyOk(LedgerOf(r.file)) && (e.MoveRefund? || e.AnswerRefund?)
    ensures MoneyOk(LedgerOf(Step(r, e, now).file))
  {
    if e.MoveRefund? {
      if e.result != EnTramite { MoveKeepsMoney(r.file, e.refund, e.attempt, e.result); }
    } else {
      AnswerKeepsMoney(r.file, e.refund, e.attempt, e.external);
    }
  }

  lemma ManagedStepKeepsMoney(r: Rows, e: Event, now: Time)
    requires MoneyOk(LedgerOf(r.file)) && (e.RetryRefund? || e.ResolveRefund?)
    ensures MoneyOk(LedgerOf(Step(r, e, now).file))
  {
    if e.RetryRefund? {
      if RefundRetried(r.file, e.refund).Done? { RetryKeepsMoney(r.file, e.refund); }
    } else if RefundResolved(r.file, e.refund).Done? {
      ResolveKeepsMoney(r.file, e.refund);
    }
  }

  /** Answers, retries and manual closings keep every payment's refunds inside it, except what is closed by hand. */
  lemma RefundStepKeepsMoney(r: Rows, e: Event, now: Time)
    requires MoneyOk(LedgerOf(r.file)) && (e.MoveRefund? || e.AnswerRefund? || e.RetryRefund? || e.ResolveRefund?)
    ensures MoneyOk(LedgerOf(Step(r, e, now).file))
  {
    if e.MoveRefund? || e.AnswerRefund? {
      AnswerStepKeepsMoney(r, e, now);
    } else {
      ManagedStepKeepsMoney(r, e, now);
    }
  }

  /** What is committed on a payment, manual closings included. */
  ghost predicate WithinPayment(f: File, p: nat)
    requires p < |f.payments|
  {
    RefundedCents(f.refunds, p) <= f.payments[p].amount
  }

  /**
   * Closing by hand keeps the payment's committed refunds within its amount exactly when
   * the row was still committed, or the balance has room for it; the code does not check the second.
   */
  lemma ManualClosingFits(f: File, k: nat)
    requires RefundResolved(f, k).Done?
    requires f.refunds[k].payment < |f.payments| && WithinPayment(f, f.refunds[k].payment)
    ensures WithinPayment(RefundResolved(f, k).value, f.refunds[k].payment)
            <==> f.refunds[k].status == PendienteDeGestion || FitsInBalance(f, k)
  {
    var p, row := f.refunds[k].payment, f.refunds[k];
    var closed := RefundResolved(f, k).value.refunds;
    SumUpdate(f.refunds, k, closed[k], CommittedTo(p));
    SumWithout(f.refunds, k, CommittedTo(p));
    RefundedIsSum(f.refunds, p);
    RefundedIsSum(closed, p);
    RefundedIsSum(f.refunds[..k] + f.refunds[k + 1..], p);
  }

  // ----- Every step -----

  /** A file with another status, items as bought, and a new entry that is not a payment. */
  lemma MovedLedger(f: File, f': File, to: Status, reason: Reason)
    requires f'.history == f.history + [Entry(Some(f.order.status), to, reason)] && to != Pagado
    requires f' == f.(order := f'.order, history := f'.history, notes := f'.notes)
    requires f'.order.items == f.order.items && f'.order.subtotal == f.order.subtotal && f'.order.total == f.order.total
    requires RefundNotRegistered in f'.notes <==> RefundNotRegistered in f.notes
    ensures LedgerOf(f') == LedgerOf(f).(status := f'.order.status)
  {
    CreditedAfter(f.history, Entry(Some(f.order.status), to, reason));
  }

  lemma CancelBySystemLedger(r: Rows, now: Time)
    ensures var l, l' := LedgerOf(r.file), LedgerOf(Expired(r, now).file); l' == l.(status := l'.status) && (Paid(l'.status) ==> Paid(l.status))
    ensures var l, l' := LedgerOf(r.file), LedgerOf(Compensated(r, now).file); l' == l.(status := l'.status) && (Paid(l'.status) ==> Paid(l.status))
  {
    if ReservationDue(r.file.order, now) {
      MovedLedger(r.file, Expired(r, now).file, Cancelado, CancelledBy(ReservaVencida));
    }
    if r.file.order.status == PendientePago {
      MovedLedger(r.file, Compensated(r, now).file, Cancelado, CancelledBy(Pasarela));
    }
  }

  lemma RetryLedger(r: Rows, payer: nat, offers: seq<Offer>, now: Time)
    requires |offers| == |r.file.order.items|
    ensures var l, l' := LedgerOf(r.file), LedgerOf(OpenedOr(RetryOpened(r, payer, offers, now), r).file);
            l' == l.(status := l'.status) && (Paid(l'.status) ==> Paid(l.status))
  {
    var f' := OpenedOr(RetryOpened(r, payer, offers, now), r).file;
    if f'.history != r.file.history {
      MovedLedger(r.file, f', PendientePago, PaymentRetry);
    }
  }

  /** Expiry, compensation, retry and administrator moves write at most the status. */
  lemma StatusStepLedger(r: Rows, e: Event, now: Time)
    requires e.Expire? || e.Compensate? || e.MoveAsAdmin? || e.RetryPay?
    ensures var l, l' := LedgerOf(r.file), LedgerOf(Step(r, e, now).file);
            l' == l.(status := l'.status) && (Paid(l'.status) ==> Paid(l.status))
  {
    if e.Expire? || e.Compensate? {
      CancelBySystemLedger(r, now);
    } else if e.RetryPay? {
      if |e.offers| == |r.file.order.items| { RetryLedger(r, e.payer, e.offers, now); }
    } else if AdminMoved(r, e.expected, e.to, now).Done? {
      AdminTransitionsAreTransitions(r.file.order.status, e.to);
      MovedLedger(r.file, Step(r, e, now).file, e.to, AdminAction);
    }
  }

  lemma StatusStepKeepsMoney(r: Rows, e: Event, now: Time)
    requires MoneyOk(LedgerOf(r.file)) && (e.Expire? || e.Compensate? || e.MoveAsAdmin? || e.RetryPay?)
    ensures MoneyOk(LedgerOf(Step(r, e, now).file))
  {
    var l, l' := LedgerOf(r.file), LedgerOf(Step(r, e, now).file);
    StatusStepLedger(r, e, now);
    StatusKeepsMoney(l, -1, l'.status, l.missed);
  }

  lemma CustomerCancelKeepsMoney(r: Rows, userId: nat, expected: Status, now: Time)
    requires FileOk(r.file)
    ensures MoneyOk(LedgerOf(RowsOr(CustomerCancelled(r, userId, expected, now), r).file))
  {
    if CustomerCancelled(r, userId, expected, now).Done? {
      CancellationKeepsMoney(r, Cliente, CU14, now);
    }
  }

  lemma AdminCancelKeepsMoney(r: Rows, expected: Status, now: Time)
    requires FileOk(r.file)
    ensures MoneyOk(LedgerOf(RowsOr(AdminCancelled(r, expected, now), r).file))
  {
    if AdminCancelled(r, expected, now).Done? {
      CancellationKeepsMoney(r, Administrador, CU19, now);
    }
  }

  /** Every step of an order keeps its money accounted for. */
  lemma StepKeepsMoney(r: Rows, e: Event, now: Time)
    requires FileOk(r.file)
    ensures MoneyOk(LedgerOf(Step(r, e, now).file))
  {
    if e.ReportPayment? {
      PaymentKeepsMoney(r, e.report, now);
    } else if e.CancelAsCustomer? {
      CustomerCancelKeepsMoney(r, e.userId, e.expected, now);
    } else if e.CancelAsAdmin? {
      AdminCancelKeepsMoney(r, e.expected, now);
    } else if e.CreateReturn? || e.ApproveReturn? || e.RejectReturn? {
      RequestStepKeepsMoney(r, e, now);
    } else if e.ReceiveReturn? {
      if RequestReceived(r, e.request, e.inputs, e.options, now).Done? { ReceptionKeepsMoney(r, e.request, e.inputs, e.options, now); }
    } else if e.MoveRefund? || e.AnswerRefund? || e.RetryRefund? || e.ResolveRefund? {
      RefundStepKeepsMoney(r, e, now);
    } else {
      StatusStepKeepsMoney(r, e, now);
    }
  }
}
