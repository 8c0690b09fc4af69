/** The print saga: billing, stock and the broker as one state machine. Every SQL
    transaction is one step; everything else that can happen to a message is an
    upkeep step of one of the two channels. */
module Saga {
  import opened Common
  import opened Contracts
  import opened Sorting
  import opened Channels
  import opened Invoices
  import L = Ledger
  import opened LedgerOperations

  /** `requests` runs from billing to stock and `answers` back. `applied` is
      history: the answers whose effect billing ever committed. */
  datatype System = System(
    invoices: map<Uuid, Invoice>,
    stock: L.Tables,
    requests: Channel,
    answers: Channel,
    applied: set<Uuid>,
    now: Time)

  const START := System(map[], L.EMPTY, IDLE, IDLE, {}, 0)

  datatype Step =
    | CreateInvoice(id: Uuid, items: seq<Item>)
    | Print(invoice: Uuid, request: Uuid)
    /** Stock applies a request: its lines in lock order, its answer's id. */
    | ApplyRequest(m: Message, ordered: seq<Line>, answer: Uuid)
    /** Billing applies an answer. */
    | ApplyAnswer(m: Message)
    | Reconcile(timeout: Time)
    | ManageProducts(op: Operation)
    | RequestUpkeep(u: Upkeep)
    | AnswerUpkeep(u: Upkeep)
    | Tick(elapsed: nat)

  ghost predicate Enabled(s: System, step: Step) {
    match step
    case CreateInvoice(id, items) => id !in s.invoices && ValidItems(items)
    case Print(invoice, request) =>
      && invoice in s.invoices
      && request !in s.requests.sent
      && StartPrinting(s.invoices[invoice], s.now).Ok?
    case ApplyRequest(m, ordered, answer) =>
      && m in s.requests.ready
      && m.id !in s.requests.processed
      && m.body.PrintRequested?
      && LockOrder(ordered, m.body.lines)
      && answer !in s.answers.sent
    case ApplyAnswer(m) =>
      && m in s.answers.ready
      && m.id !in s.answers.processed
      && IsAnswer(m.body)
      && m.body.invoice in s.invoices
    case Reconcile(timeout) => true
    case ManageProducts(op) => true
    case RequestUpkeep(u) => CanKeepUp(s.requests, u)
    case AnswerUpkeep(u) => CanKeepUp(s.answers, u)
    case Tick(elapsed) => true
  }

  ghost function Next(s: System, step: Step): System
    requires Enabled(s, step)
  {
    match step
    case CreateInvoice(id, items) => s.(invoices := s.invoices[id := NewInvoice(items)])
    case Print(invoice, request) =>
      var printing := StartPrinting(s.invoices[invoice], s.now).value;
      s.(invoices := s.invoices[invoice := printing],
         requests := Enqueue(s.requests,
           Message(request, PrintRequested(invoice, printing.attempt, RequestLines(printing.items)))))
    case ApplyRequest(m, ordered, answer) =>
      var r := L.DebitInSavepoint(s.stock, m.body.invoice, ordered);
      s.(stock := r.tables,
         requests := Consume(s.requests, m),
         answers := Enqueue(s.answers, Message(answer, L.AnswerTo(m.body, r.error))))
    case ApplyAnswer(m) =>
      s.(invoices := Settle(s.invoices, m.body, s.now),
         answers := Consume(s.answers, m),
         applied := s.applied + {m.id})
    case Reconcile(timeout) => s.(invoices := ReopenAll(s.invoices, s.now, timeout))
    case ManageProducts(op) => s.(stock := Perform(s.stock, op).tables)
    case RequestUpkeep(u) => s.(requests := KeepUp(s.requests, u))
    case AnswerUpkeep(u) => s.(answers := KeepUp(s.answers, u))
    case Tick(elapsed) => s.(now := s.now + elapsed)
  }

  // ---- The invariant --------------------------------------------------------

  predicate IsRequestOf(body: Body, invoice: Uuid, attempt: nat) {
    body.PrintRequested? && body.invoice == invoice && body.attempt == attempt
  }

  predicate IsAnswerOf(body: Body, invoice: Uuid, attempt: nat) {
    IsAnswer(body) && body.invoice == invoice && body.attempt == attempt
  }

  ghost predicate ChannelsSound(s: System) {
    Sound(s.requests) && Sound(s.answers)
  }

  ghost predicate InvoicesValid(s: System) {
    forall i :: i in s.invoices ==>
      && ValidItems(s.invoices[i].items)
      && (s.invoices[i].status == Printing ==> s.invoices[i].attempt >= 1 && s.invoices[i].printingSince.Some?)
  }

  /** A request asks for the items of its invoice, under an attempt it had. */
  ghost predicate RequestsFaithful(s: System) {
    forall id :: id in s.requests.sent ==>
      var body := s.requests.sent[id].body;
      && body.PrintRequested?
      && body.invoice in s.invoices
      && 1 <= body.attempt <= s.invoices[body.invoice].attempt
      && body.lines == RequestLines(s.invoices[body.invoice].items)
  }

  ghost predicate Requested(c: Channel, invoice: Uuid, attempt: nat) {
    exists id :: id in c.sent && IsRequestOf(c.sent[id].body, invoice, attempt)
  }

  /** Attempts 1 to PrintAttempt were each requested. */
  ghost predicate AttemptsRequested(s: System) {
    forall i, n {:trigger Requested(s.requests, i, n)} ::
      i in s.invoices && 1 <= n <= s.invoices[i].attempt ==> Requested(s.requests, i, n)
  }

  predicate SameAttempt(a: Body, b: Body) {
    a.PrintRequested? && b.PrintRequested? && a.invoice == b.invoice && a.attempt == b.attempt
  }

  /** No attempt was requested twice. */
  ghost predicate AttemptsDistinct(c: Channel) {
    forall a, b :: a in c.sent && b in c.sent && SameAttempt(c.sent[a].body, c.sent[b].body) ==> a == b
  }

  ghost predicate AnswersFaithful(s: System) {
    forall id :: id in s.answers.sent ==>
      var body := s.answers.sent[id].body;
      && IsAnswer(body)
      && body.invoice in s.invoices
      && 1 <= body.attempt <= s.invoices[body.invoice].attempt
      && (body.Debited? ==> body.invoice in s.stock.debits)
  }

  ghost predicate ConfirmationWaiting(c: Channel, invoice: Uuid) {
    exists id :: Waiting(c, id) && c.sent[id].body.Debited? && c.sent[id].body.invoice == invoice
  }

  ghost predicate ClosedIsDebited(s: System) {
    forall i :: i in s.invoices && s.invoices[i].status == Closed ==> i in s.stock.debits
  }

  ghost predicate DebitIsConfirmed(s: System) {
    forall i :: i in s.stock.debits ==>
      i in s.invoices && (s.invoices[i].status == Closed || ConfirmationWaiting(s.answers, i))
  }

  /** Applying this answer again would change nothing, now or later. */
  ghost predicate Settled(invoices: map<Uuid, Invoice>, answer: Body) {
    && IsAnswer(answer)
    && answer.invoice in invoices
    && 1 <= answer.attempt <= invoices[answer.invoice].attempt
    && (answer.Debited? ==> invoices[answer.invoice].status == Closed)
    && (answer.Rejected? ==>
        !(invoices[answer.invoice].status == Printing && invoices[answer.invoice].attempt == answer.attempt))
  }

  ghost predicate AppliedIsSettled(s: System) {
    && s.answers.processed <= s.applied
    && forall id :: id in s.applied ==> id in s.answers.sent && Settled(s.invoices, s.answers.sent[id].body)
  }

  ghost predicate RequestWaiting(c: Channel, invoice: Uuid, attempt: nat) {
    exists id :: Waiting(c, id) && IsRequestOf(c.sent[id].body, invoice, attempt)
  }

  ghost predicate AnswerWaiting(c: Channel, invoice: Uuid, attempt: nat) {
    exists id :: Waiting(c, id) && IsAnswerOf(c.sent[id].body, invoice, attempt)
  }

  ghost predicate PrintIsPending(s: System) {
    forall i :: i in s.invoices && s.invoices[i].status == Printing ==>
      || RequestWaiting(s.requests, i, s.invoices[i].attempt)
      || AnswerWaiting(s.answers, i, s.invoices[i].attempt)
  }

  /** The history holds exactly the items of each debited invoice, in lock
      order, and nothing under any other. */
  ghost predicate HistoryMatchesDebits(s: System) {
    && (forall i :: i !in s.stock.debits ==> L.InvoiceLines(s.stock.movements, i) == [])
    && (forall i :: i in s.stock.debits ==>
        i in s.invoices && LockOrder(L.InvoiceLines(s.stock.movements, i), RequestLines(s.invoices[i].items)))
  }

  ghost predicate Inv(s: System) {
    && ChannelsSound(s)
    && InvoicesValid(s)
    && RequestsFaithful(s)
    && AttemptsRequested(s)
    && AttemptsDistinct(s.requests)
    && AnswersFaithful(s)
    && ClosedIsDebited(s)
    && DebitIsConfirmed(s)
    && AppliedIsSettled(s)
    && PrintIsPending(s)
    && L.Balanced(s.stock)
    && HistoryMatchesDebits(s)
  }

  lemma StartIsInv()
    ensures Inv(START)
  {
    var s := START;
    assert L.Balanced(s.stock);
    assert HistoryMatchesDebits(s);
    assert AttemptsRequested(s);
    assert AppliedIsSettled(s) && DebitIsConfirmed(s) && PrintIsPending(s);
  }

  // ---- How an invoice moves ---------------------------------------------------

  /** What every step keeps of an invoice: its items and its history. */
  predicate Advances(a: Invoice, b: Invoice) {
    && b.items == a.items
    && a.attempt <= b.attempt
    && (a.status == Closed ==> b.status == Closed)
    && (b.status == Printing && b.attempt == a.attempt ==> a.status == Printing)
  }

  ghost predicate AllAdvance(before: map<Uuid, Invoice>, after: map<Uuid, Invoice>) {
    forall i :: i in before ==> i in after && Advances(before[i], after[i])
  }

  /** An answer that would change nothing now would change nothing later. */
  lemma SettledForGood(before: map<Uuid, Invoice>, after: map<Uuid, Invoice>, answer: Body)
    requires AllAdvance(before, after) && Settled(before, answer)
    ensures Settled(after, answer)
  {
  }

  lemma SettledMeansNoEffect(invoices: map<Uuid, Invoice>, answer: Body, now: Time)
    requires Settled(invoices, answer)
    ensures Settle(invoices, answer, now) == invoices
  {
  }

  lemma SettleSettles(invoices: map<Uuid, Invoice>, answer: Body, now: Time)
    requires IsAnswer(answer) && answer.invoice in invoices
    requires 1 <= answer.attempt <= invoices[answer.invoice].attempt
    ensures Settled(Settle(invoices, answer, now), answer)
  {
  }

  // ---- Every step keeps the invariant -----------------------------------------

  lemma RequestUpkeepKeepsInv(s: System, u: Upkeep)
    requires Inv(s) && CanKeepUp(s.requests, u)
    ensures Inv(Next(s, RequestUpkeep(u)))
  {
    var s' := Next(s, RequestUpkeep(u));
    UpkeepLosesNothing(s.requests, u);
    forall i, n | i in s'.invoices && 1 <= n <= s'.invoices[i].attempt ensures Requested(s'.requests, i, n) {
      assert Requested(s.requests, i, n);
    }
    forall i | i in s'.invoices && s'.invoices[i].status == Printing
      ensures RequestWaiting(s'.requests, i, s'.invoices[i].attempt)
           || AnswerWaiting(s'.answers, i, s'.invoices[i].attempt)
    {
    }
  }

  lemma AnswerUpkeepKeepsInv(s: System, u: Upkeep)
    requires Inv(s) && CanKeepUp(s.answers, u)
    ensures Inv(Next(s, AnswerUpkeep(u)))
  {
    var s' := Next(s, AnswerUpkeep(u));
    UpkeepLosesNothing(s.answers, u);
    forall i | i in s'.stock.debits
      ensures i in s'.invoices && (s'.invoices[i].status == Closed || ConfirmationWaiting(s'.answers, i))
    {
    }
    forall i | i in s'.invoices && s'.invoices[i].status == Printing
      ensures RequestWaiting(s'.requests, i, s'.invoices[i].attempt)
           || AnswerWaiting(s'.answers, i, s'.invoices[i].attempt)
    {
    }
  }

  /** What survives any move of the invoices, whatever caused it. */
  lemma AdvanceKeepsMessages(s: System, s': System)
    requires AllAdvance(s.invoices, s'.invoices)
    requires s'.requests.sent == s.requests.sent && s'.answers.sent == s.answers.sent
    requires s'.stock.debits == s.stock.debits
    requires RequestsFaithful(s) && AnswersFaithful(s)
    ensures RequestsFaithful(s') && AnswersFaithful(s')
  {
  }

  lemma AdvanceKeepsApplied(s: System, s': System)
    requires AllAdvance(s.invoices, s'.invoices)
    requires s'.answers.sent == s.answers.sent && s'.answers.processed == s.answers.processed
    requires s'.applied == s.applied && AppliedIsSettled(s)
    ensures AppliedIsSettled(s')
  {
    forall id | id in s'.applied ensures Settled(s'.invoices, s'.answers.sent[id].body) {
      SettledForGood(s.invoices, s'.invoices, s.answers.sent[id].body);
    }
  }

  lemma AdvanceKeepsHistory(s: System, s': System)
    requires AllAdvance(s.invoices, s'.invoices) && s'.stock == s.stock && HistoryMatchesDebits(s)
    ensures HistoryMatchesDebits(s')
  {
    forall i | i in s'.stock.debits
      ensures i in s'.invoices && LockOrder(L.InvoiceLines(s'.stock.movements, i), RequestLines(s'.invoices[i].items))
    {
      assert s'.invoices[i].items == s.invoices[i].items;
    }
  }

  /** No invoice starts printing: it was printing that attempt already, or it is
      not printing. */
  ghost predicate OnlyLeavesPrinting(before: map<Uuid, Invoice>, after: map<Uuid, Invoice>) {
    && AllAdvance(before, after)
    && forall i :: i in after ==>
      if i in before then
        after[i].attempt == before[i].attempt && (after[i].status == Printing ==> after[i] == before[i])
      else
        after[i].attempt == 0 && after[i].status == Open && ValidItems(after[i].items)
  }

  lemma LeavingKeepsInvoices(s: System, s': System)
    requires OnlyLeavesPrinting(s.invoices, s'.invoices) && s'.requests == s.requests
    requires InvoicesValid(s) && AttemptsRequested(s)
    ensures InvoicesValid(s') && AttemptsRequested(s')
  {
  }

  lemma LeavingKeepsPending(s: System, s': System)
    requires OnlyLeavesPrinting(s.invoices, s'.invoices) && s'.requests == s.requests && s'.answers == s.answers
    requires PrintIsPending(s)
    ensures PrintIsPending(s')
  {
  }

  lemma CreateInvoiceKeepsInv(s: System, id: Uuid, items: seq<Item>)
    requires Inv(s) && Enabled(s, CreateInvoice(id, items))
    ensures Inv(Next(s, CreateInvoice(id, items)))
  {
    var s' := Next(s, CreateInvoice(id, items));
    AdvanceKeepsMessages(s, s');
    AdvanceKeepsApplied(s, s');
    AdvanceKeepsHistory(s, s');
    LeavingKeepsInvoices(s, s');
    LeavingKeepsPending(s, s');
    assert ClosedIsDebited(s') && DebitIsConfirmed(s');
  }

  lemma ReconcileLeavesPrinting(s: System, timeout: Time)
    ensures OnlyLeavesPrinting(s.invoices, Next(s, Reconcile(timeout)).invoices)
  {
  }

  lemma ReconcileKeepsInv(s: System, timeout: Time)
    requires Inv(s)
    ensures Inv(Next(s, Reconcile(timeout)))
  {
    var s' := Next(s, Reconcile(timeout));
    ReconcileLeavesPrinting(s, timeout);
    AdvanceKeepsMessages(s, s');
    AdvanceKeepsApplied(s, s');
    AdvanceKeepsHistory(s, s');
    LeavingKeepsInvoices(s, s');
    LeavingKeepsPending(s, s');
    ReconcileKeepsConfirmed(s, timeout);
  }

  lemma ReconcileKeepsConfirmed(s: System, timeout: Time)
    requires ClosedIsDebited(s) && DebitIsConfirmed(s)
    ensures var s' := Next(s, Reconcile(timeout)); ClosedIsDebited(s') && DebitIsConfirmed(s')
  {
  }

  lemma ManageProductsKeepsInv(s: System, op: Operation)
    requires Inv(s)
    ensures Inv(Next(s, ManageProducts(op)))
  {
    var s' := Next(s, ManageProducts(op));
    PerformKeepsBalanced(s.stock, op);
    forall i ensures L.InvoiceLines(s'.stock.movements, i) == L.InvoiceLines(s.stock.movements, i) {
      PerformFramesInvoices(s.stock, op, i);
    }
  }

  // ---- Printing ---------------------------------------------------------------

  lemma PrintAdvances(s: System, invoice: Uuid, request: Uuid)
    requires Enabled(s, Print(invoice, request)) && InvoicesValid(s)
    ensures var s' := Next(s, Print(invoice, request));
      AllAdvance(s.invoices, s'.invoices) && InvoicesValid(s')
  {
  }

  lemma PrintKeepsRequests(s: System, invoice: Uuid, request: Uuid)
    requires Enabled(s, Print(invoice, request))
    requires RequestsFaithful(s) && AttemptsRequested(s) && AttemptsDistinct(s.requests)
    ensures var s' := Next(s, Print(invoice, request));
      RequestsFaithful(s') && AttemptsRequested(s') && AttemptsDistinct(s'.requests)
  {
    var s' := Next(s, Print(invoice, request));
    forall i, n | i in s'.invoices && 1 <= n <= s'.invoices[i].attempt ensures Requested(s'.requests, i, n) {
      if i == invoice && n == s'.invoices[i].attempt {
        assert IsRequestOf(s'.requests.sent[request].body, i, n);
      } else {
        assert Requested(s.requests, i, n);
        var id :| id in s.requests.sent && IsRequestOf(s.requests.sent[id].body, i, n);
        assert s'.requests.sent[id] == s.requests.sent[id];
      }
    }
  }

  /** A request that was waiting waits on beside a new one, and the new one waits. */
  lemma RequestAdded(c: Channel, m: Message)
    requires Sound(c) && m.id !in c.sent && m.body.PrintRequested?
    ensures var c' := Enqueue(c, m);
      && (forall i, n :: RequestWaiting(c, i, n) ==> RequestWaiting(c', i, n))
      && RequestWaiting(c', m.body.invoice, m.body.attempt)
  {
    var c' := Enqueue(c, m);
    EnqueueAddsWaiting(c, m);
    assert Waiting(c', m.id) && IsRequestOf(c'.sent[m.id].body, m.body.invoice, m.body.attempt);
    forall i, n | RequestWaiting(c, i, n) ensures RequestWaiting(c', i, n) {
      var id :| Waiting(c, id) && IsRequestOf(c.sent[id].body, i, n);
      assert Waiting(c', id) && c'.sent[id] == c.sent[id];
    }
  }

  lemma PrintKeepsPending(s: System, invoice: Uuid, request: Uuid)
    requires Enabled(s, Print(invoice, request)) && Sound(s.requests) && PrintIsPending(s)
    ensures PrintIsPending(Next(s, Print(invoice, request)))
  {
    var s' := Next(s, Print(invoice, request));
    RequestAdded(s.requests, s'.requests.sent[request]);
    forall i | i in s'.invoices && s'.invoices[i].status == Printing
      ensures RequestWaiting(s'.requests, i, s'.invoices[i].attempt)
           || AnswerWaiting(s'.answers, i, s'.invoices[i].attempt)
    {
      assert i != invoice ==> s'.invoices[i] == s.invoices[i];
    }
  }

  lemma PrintKeepsInv(s: System, invoice: Uuid, request: Uuid)
    requires Inv(s) && Enabled(s, Print(invoice, request))
    ensures Inv(Next(s, Print(invoice, request)))
  {
    var s' := Next(s, Print(invoice, request));
    PrintAdvances(s, invoice, request);
    EnqueueAddsWaiting(s.requests, s'.requests.sent[request]);
    PrintKeepsRequests(s, invoice, request);
    PrintKeepsPending(s, invoice, request);
    AdvanceKeepsMessages(s, s'.(requests := s.requests));
    AdvanceKeepsApplied(s, s');
    AdvanceKeepsHistory(s, s');
    assert ClosedIsDebited(s') && DebitIsConfirmed(s');
  }

  // ---- Billing applies an answer ----------------------------------------------

  lemma ApplyAnswerLeavesPrinting(s: System, m: Message)
    requires Enabled(s, ApplyAnswer(m))
    ensures OnlyLeavesPrinting(s.invoices, Next(s, ApplyAnswer(m)).invoices)
  {
  }

  lemma ConfirmationKept(c: Channel, m: Message, invoice: Uuid)
    requires Sound(c) && m in c.ready && ConfirmationWaiting(c, invoice)
    requires !(m.body.Debited? && m.body.invoice == invoice)
    ensures ConfirmationWaiting(Consume(c, m), invoice)
  {
    var id :| Waiting(c, id) && c.sent[id].body.Debited? && c.sent[id].body.invoice == invoice;
    ConsumeSettlesOne(c, m);
    assert Waiting(Consume(c, m), id);
  }

  lemma AnswerKept(c: Channel, m: Message, invoice: Uuid, attempt: nat)
    requires Sound(c) && m in c.ready && AnswerWaiting(c, invoice, attempt)
    requires !IsAnswerOf(m.body, invoice, attempt)
    ensures AnswerWaiting(Consume(c, m), invoice, attempt)
  {
    var id :| Waiting(c, id) && IsAnswerOf(c.sent[id].body, invoice, attempt);
    ConsumeSettlesOne(c, m);
    assert Waiting(Consume(c, m), id);
  }

  lemma ApplyAnswerKeepsConfirmed(s: System, m: Message)
    requires Enabled(s, ApplyAnswer(m)) && Sound(s.answers)
    requires AnswersFaithful(s) && ClosedIsDebited(s) && DebitIsConfirmed(s)
    ensures var s' := Next(s, ApplyAnswer(m)); ClosedIsDebited(s') && DebitIsConfirmed(s')
  {
    var s' := Next(s, ApplyAnswer(m));
    assert s.answers.sent[m.id] == m;
    forall i | i in s'.stock.debits
      ensures i in s'.invoices && (s'.invoices[i].status == Closed || ConfirmationWaiting(s'.answers, i))
    {
      if s'.invoices[i].status != Closed {
        ConfirmationKept(s.answers, m, i);
      }
    }
  }

  lemma ApplyAnswerKeepsPending(s: System, m: Message)
    requires Enabled(s, ApplyAnswer(m)) && Sound(s.answers) && PrintIsPending(s)
    ensures PrintIsPending(Next(s, ApplyAnswer(m)))
  {
    var s' := Next(s, ApplyAnswer(m));
    forall i | i in s'.invoices && s'.invoices[i].status == Printing
      ensures RequestWaiting(s'.requests, i, s'.invoices[i].attempt)
           || AnswerWaiting(s'.answers, i, s'.invoices[i].attempt)
    {
      if !RequestWaiting(s.requests, i, s.invoices[i].attempt) {
        AnswerKept(s.answers, m, i, s.invoices[i].attempt);
      }
    }
  }

  lemma ApplyAnswerKeepsApplied(s: System, m: Message)
    requires Enabled(s, ApplyAnswer(m)) && Sound(s.answers) && AnswersFaithful(s) && AppliedIsSettled(s)
    ensures AppliedIsSettled(Next(s, ApplyAnswer(m)))
  {
    var s' := Next(s, ApplyAnswer(m));
    assert s.answers.sent[m.id] == m;
    SettleSettles(s.invoices, m.body, s.now);
    ApplyAnswerLeavesPrinting(s, m);
    forall id | id in s.applied ensures Settled(s'.invoices, s'.answers.sent[id].body) {
      SettledForGood(s.invoices, s'.invoices, s.answers.sent[id].body);
    }
  }

  lemma ApplyAnswerKeepsInv(s: System, m: Message)
    requires Inv(s) && Enabled(s, ApplyAnswer(m))
    ensures Inv(Next(s, ApplyAnswer(m)))
  {
    var s' := Next(s, ApplyAnswer(m));
    ConsumeSettlesOne(s.answers, m);
    ApplyAnswerLeavesPrinting(s, m);
    ApplyAnswerKeepsConfirmed(s, m);
    ApplyAnswerKeepsPending(s, m);
    ApplyAnswerKeepsApplied(s, m);
    AdvanceKeepsMessages(s, s');
    AdvanceKeepsHistory(s, s');
    LeavingKeepsInvoices(s, s');
  }

  // ---- Stock applies a request --------------------------------------------------

  lemma AnswerAdded(c: Channel, m: Message)
    requires Sound(c) && m.id !in c.sent && IsAnswer(m.body)
    ensures var c' := Enqueue(c, m);
      && (forall i, n :: AnswerWaiting(c, i, n) ==> AnswerWaiting(c', i, n))
      && (forall i :: ConfirmationWaiting(c, i) ==> ConfirmationWaiting(c', i))
      && AnswerWaiting(c', m.body.invoice, m.body.attempt)
      && (m.body.Debited? ==> ConfirmationWaiting(c', m.body.invoice))
  {
    var c' := Enqueue(c, m);
    EnqueueAddsWaiting(c, m);
    assert Waiting(c', m.id) && IsAnswerOf(c'.sent[m.id].body, m.body.invoice, m.body.attempt);
    forall i, n | AnswerWaiting(c, i, n) ensures AnswerWaiting(c', i, n) {
      var id :| Waiting(c, id) && IsAnswerOf(c.sent[id].body, i, n);
      assert Waiting(c', id) && c'.sent[id] == c.sent[id];
    }
    forall i | ConfirmationWaiting(c, i) ensures ConfirmationWaiting(c', i) {
      var id :| Waiting(c, id) && c.sent[id].body.Debited? && c.sent[id].body.invoice == i;
      assert Waiting(c', id) && c'.sent[id] == c.sent[id];
    }
  }

  lemma RequestKept(c: Channel, m: Message, invoice: Uuid, attempt: nat)
    requires Sound(c) && m in c.ready && RequestWaiting(c, invoice, attempt)
    requires !IsRequestOf(m.body, invoice, attempt)
    ensures RequestWaiting(Consume(c, m), invoice, attempt)
  {
    var id :| Waiting(c, id) && IsRequestOf(c.sent[id].body, invoice, attempt);
    ConsumeSettlesOne(c, m);
    assert Waiting(Consume(c, m), id);
  }

  /** What the savepoint leaves of the debits, before any ledger detail. */
  lemma DebitRows(t: L.Tables, invoice: Uuid, ordered: seq<Line>)
    ensures var r := L.DebitInSavepoint(t, invoice, ordered);
      && t.debits <= r.tables.debits <= t.debits + {invoice}
      && (r.error.None? ==> invoice in r.tables.debits)
      && (r.error.Some? ==> r.tables == t)
  {
    if invoice !in t.debits {
      L.DebitLinesCharacterised(t.(debits := t.debits + {invoice}), invoice, ordered);
    }
  }

  lemma ApplyRequestKeepsMessages(s: System, m: Message, ordered: seq<Line>, answer: Uuid)
    requires Enabled(s, ApplyRequest(m, ordered, answer)) && ChannelsSound(s)
    requires RequestsFaithful(s) && AnswersFaithful(s)
    ensures var s' := Next(s, ApplyRequest(m, ordered, answer));
      ChannelsSound(s') && RequestsFaithful(s') && AnswersFaithful(s')
  {
    var s' := Next(s, ApplyRequest(m, ordered, answer));
    assert s.requests.sent[m.id] == m;
    DebitRows(s.stock, m.body.invoice, ordered);
    ConsumeSettlesOne(s.requests, m);
    EnqueueAddsWaiting(s.answers, s'.answers.sent[answer]);
  }

  lemma ApplyRequestKeepsPending(s: System, m: Message, ordered: seq<Line>, answer: Uuid)
    requires Enabled(s, ApplyRequest(m, ordered, answer)) && ChannelsSound(s) && PrintIsPending(s)
    ensures PrintIsPending(Next(s, ApplyRequest(m, ordered, answer)))
  {
    var s' := Next(s, ApplyRequest(m, ordered, answer));
    AnswerAdded(s.answers, s'.answers.sent[answer]);
    forall i | i in s'.invoices && s'.invoices[i].status == Printing
      ensures RequestWaiting(s'.requests, i, s'.invoices[i].attempt)
           || AnswerWaiting(s'.answers, i, s'.invoices[i].attempt)
    {
      var n := s.invoices[i].attempt;
      if !AnswerWaiting(s.answers, i, n) && !IsRequestOf(m.body, i, n) {
        RequestKept(s.requests, m, i, n);
      }
    }
  }

  lemma ApplyRequestKeepsConfirmed(s: System, m: Message, ordered: seq<Line>, answer: Uuid)
    requires Enabled(s, ApplyRequest(m, ordered, answer)) && ChannelsSound(s) && RequestsFaithful(s)
    requires ClosedIsDebited(s) && DebitIsConfirmed(s)
    ensures var s' := Next(s, ApplyRequest(m, ordered, answer)); ClosedIsDebited(s') && DebitIsConfirmed(s')
  {
    var s' := Next(s, ApplyRequest(m, ordered, answer));
    assert s.requests.sent[m.id] == m;
    DebitRows(s.stock, m.body.invoice, ordered);
    AnswerAdded(s.answers, s'.answers.sent[answer]);
    forall i | i in s'.stock.debits
      ensures i in s'.invoices && (s'.invoices[i].status == Closed || ConfirmationWaiting(s'.answers, i))
    {
    }
  }

  lemma ApplyRequestKeepsApplied(s: System, m: Message, ordered: seq<Line>, answer: Uuid)
    requires Enabled(s, ApplyRequest(m, ordered, answer)) && AppliedIsSettled(s)
    ensures AppliedIsSettled(Next(s, ApplyRequest(m, ordered, answer)))
  {
  }

  lemma DebitKeepsBalanced(t: L.Tables, invoice: Uuid, ordered: seq<Line>)
    requires L.Balanced(t)
    ensures L.Balanced(L.DebitInSavepoint(t, invoice, ordered).tables)
  {
    L.DebitLinesKeepBalanced(t.(debits := t.debits + {invoice}), invoice, ordered);
  }

  /** A debit writes its lines under its own invoice when it is the first one that
      succeeds for it, and nothing else under any invoice. */
  lemma DebitRecordsOnce(t: L.Tables, invoice: Uuid, ordered: seq<Line>, other: Uuid)
    ensures var t' := L.DebitInSavepoint(t, invoice, ordered).tables;
      L.InvoiceLines(t'.movements, other)
        == L.InvoiceLines(t.movements, other)
           + if other == invoice && invoice in t'.debits && invoice !in t.debits then ordered else []
  {
    DebitRows(t, invoice, ordered);
    var t1 := t.(debits := t.debits + {invoice});
    if invoice !in t.debits && L.DebitLines(t1, invoice, ordered).error.None? {
      L.DebitLinesRecorded(t1, invoice, ordered, other);
    }
  }

  lemma ApplyRequestKeepsHistory(s: System, m: Message, ordered: seq<Line>, answer: Uuid)
    requires Enabled(s, ApplyRequest(m, ordered, answer)) && Sound(s.requests) && RequestsFaithful(s)
    requires HistoryMatchesDebits(s)
    ensures HistoryMatchesDebits(Next(s, ApplyRequest(m, ordered, answer)))
  {
    assert s.requests.sent[m.id] == m;
    DebitKeepsHistory(s, Next(s, ApplyRequest(m, ordered, answer)), m.body.invoice, ordered);
  }

  lemma DebitKeepsHistory(s: System, s': System, invoice: Uuid, ordered: seq<Line>)
    requires HistoryMatchesDebits(s)
    requires invoice in s.invoices && LockOrder(ordered, RequestLines(s.invoices[invoice].items))
    requires s'.invoices == s.invoices && s'.stock == L.DebitInSavepoint(s.stock, invoice, ordered).tables
    ensures HistoryMatchesDebits(s')
  {
    DebitRows(s.stock, invoice, ordered);
    forall i | i !in s'.stock.debits ensures L.InvoiceLines(s'.stock.movements, i) == [] {
      DebitRecordsOnce(s.stock, invoice, ordered, i);
    }
    forall i | i in s'.stock.debits
      ensures i in s'.invoices && LockOrder(L.InvoiceLines(s'.stock.movements, i), RequestLines(s'.invoices[i].items))
    {
      DebitRecordsOnce(s.stock, invoice, ordered, i);
      assert [] + ordered == ordered;
    }
  }

  lemma ApplyRequestKeepsInv(s: System, m: Message, ordered: seq<Line>, answer: Uuid)
    requires Inv(s) && Enabled(s, ApplyRequest(m, ordered, answer))
    ensures Inv(Next(s, ApplyRequest(m, ordered, answer)))
  {
    ApplyRequestKeepsMessages(s, m, ordered, answer);
    ApplyRequestKeepsPending(s, m, ordered, answer);
    ApplyRequestKeepsConfirmed(s, m, ordered, answer);
    ApplyRequestKeepsApplied(s, m, ordered, answer);
    ApplyRequestKeepsHistory(s, m, ordered, answer);
    DebitKeepsBalanced(s.stock, m.body.invoice, ordered);
    var s' := Next(s, ApplyRequest(m, ordered, answer));
    assert AttemptsRequested(s') by {
      forall i, n | i in s'.invoices && 1 <= n <= s'.invoices[i].attempt ensures Requested(s'.requests, i, n) {
        assert Requested(s.requests, i, n);
      }
    }
  }

  // ---- Every step, every run ------------------------------------------------------

  lemma StepKeepsInv(s: System, step: Step)
    requires Inv(s) && Enabled(s, step)
    ensures Inv(Next(s, step))
  {
    match step
    case CreateInvoice(id, items) => CreateInvoiceKeepsInv(s, id, items);
    case Print(invoice, request) => PrintKeepsInv(s, invoice, request);
    case ApplyRequest(m, ordered, answer) => ApplyRequestKeepsInv(s, m, ordered, answer);
    case ApplyAnswer(m) => ApplyAnswerKeepsInv(s, m);
    case Reconcile(timeout) => ReconcileKeepsInv(s, timeout);
    case ManageProducts(op) => ManageProductsKeepsInv(s, op);
    case RequestUpkeep(u) => RequestUpkeepKeepsInv(s, u);
    case AnswerUpkeep(u) => AnswerUpkeepKeepsInv(s, u);
    case Tick(elapsed) => TickKeepsInv(s, elapsed);
  }

  lemma TickKeepsInv(s: System, elapsed: nat)
    requires Inv(s)
    ensures Inv(Next(s, Tick(elapsed)))
  {
    var s' := Next(s, Tick(elapsed));
    AdvanceKeepsMessages(s, s');
    AdvanceKeepsApplied(s, s');
    AdvanceKeepsHistory(s, s');
    LeavingKeepsInvoices(s, s');
    LeavingKeepsPending(s, s');
    assert ClosedIsDebited(s') && DebitIsConfirmed(s');
  }
}
