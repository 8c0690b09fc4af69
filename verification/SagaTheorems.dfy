/** What the print saga guarantees on every run, whatever is duplicated, delayed,
    dead lettered, replayed, reopened or forgotten. */
module SagaTheorems {
  import opened Common
  import opened Contracts
  import opened Sorting
  import opened Channels
  import opened Invoices
  import L = Ledger
  import opened LedgerOperations
  import opened Saga

  /** A run from the empty databases: states[k + 1] is steps[k] done in states[k]. */
  ghost predicate Behaviour(states: seq<System>, steps: seq<Step>) {
    && |states| == |steps| + 1
    && states[0] == START
    && Follows(states, steps)
  }

  ghost predicate Follows(states: seq<System>, steps: seq<Step>)
    requires |states| == |steps| + 1
  {
    forall k :: 0 <= k < |steps| ==> Enabled(states[k], steps[k]) && states[k + 1] == Next(states[k], steps[k])
  }

  lemma {:induction false} EveryStateIsInv(states: seq<System>, steps: seq<Step>, k: nat)
    requires Behaviour(states, steps) && k < |states|
    ensures Inv(states[k])
  {
    if k == 0 {
      StartIsInv();
    } else {
      EveryStateIsInv(states, steps, k - 1);
      StepKeepsInv(states[k - 1], steps[k - 1]);
    }
  }

  // ---- No orphan debit, no unpaid close -------------------------------------

  /** A confirmation of the invoice sits unpublished in the outbox, in the queue
      or in the dead letter queue. */
  ghost predicate ConfirmationSomewhere(c: Channel, invoice: Uuid) {
    exists id :: id in c.sent && c.sent[id].body.Debited? && c.sent[id].body.invoice == invoice
      && (|| (id in c.outbox && !c.outbox[id].published)
          || c.sent[id] in c.ready
          || c.sent[id] in c.dead)
  }

  lemma EveryStateConfirms(states: seq<System>, steps: seq<Step>, k: nat)
    requires Behaviour(states, steps) && k < |states|
    ensures var s := states[k]; Sound(s.answers) && ClosedIsDebited(s) && DebitIsConfirmed(s)
  {
    EveryStateIsInv(states, steps, k);
  }

  /** An invoice is closed only if it was debited; a debited one is closed or its
      confirmation is still on the way. */
  lemma NoOrphanDebit(states: seq<System>, steps: seq<Step>, k: nat, i: Uuid)
    requires Behaviour(states, steps) && k < |states|
    ensures var s := states[k];
      && (i in s.invoices && s.invoices[i].status == Closed ==> i in s.stock.debits)
      && (i in s.stock.debits ==>
          i in s.invoices && (s.invoices[i].status == Closed || ConfirmationSomewhere(s.answers, i)))
  {
    EveryStateConfirms(states, steps, k);
    var s := states[k];
    if i in s.stock.debits && s.invoices[i].status != Closed {
      ConfirmationIsSomewhere(s.answers, i);
    }
  }

  lemma ConfirmationIsSomewhere(c: Channel, i: Uuid)
    requires Sound(c) && ConfirmationWaiting(c, i)
    ensures ConfirmationSomewhere(c, i)
  {
    var id :| Waiting(c, id) && c.sent[id].body.Debited? && c.sent[id].body.invoice == i;
    assert id in c.sent;
  }

  // ---- No stuck print ---------------------------------------------------------

  /** Nothing is left unpublished, queued or dead lettered. */
  ghost predicate Drained(c: Channel) {
    && (forall id :: id in c.outbox ==> c.outbox[id].published)
    && c.ready == multiset{}
    && c.dead == multiset{}
  }

  lemma DrainedWaitsForNothing(c: Channel, id: Uuid)
    requires Sound(c) && Drained(c)
    ensures !Waiting(c, id)
  {
  }

  lemma EveryStatePends(states: seq<System>, steps: seq<Step>, k: nat)
    requires Behaviour(states, steps) && k < |states|
    ensures ChannelsSound(states[k]) && PrintIsPending(states[k])
  {
    EveryStateIsInv(states, steps, k);
  }

  lemma DrainedPrintsNothing(s: System, i: Uuid)
    requires ChannelsSound(s) && PrintIsPending(s) && ClosedIsDebited(s) && DebitIsConfirmed(s)
    requires Drained(s.requests) && Drained(s.answers) && i in s.invoices
    ensures s.invoices[i].status != Printing
    ensures s.invoices[i].status == Closed <==> i in s.stock.debits
  {
    forall id ensures !Waiting(s.requests, id) && !Waiting(s.answers, id) {
      DrainedWaitsForNothing(s.requests, id);
      DrainedWaitsForNothing(s.answers, id);
    }
  }

  /** An invoice printing its attempt n has request n, or an answer to it, still
      to be applied; so once everything in flight was drained nothing is printing
      and the closed invoices are the debited ones, with or without the
      reconciler. */
  lemma NoStuckPrint(states: seq<System>, steps: seq<Step>, k: nat, i: Uuid)
    requires Behaviour(states, steps) && k < |states| && i in states[k].invoices
    ensures var s := states[k]; var n := s.invoices[i].attempt;
      s.invoices[i].status == Printing ==> RequestWaiting(s.requests, i, n) || AnswerWaiting(s.answers, i, n)
    ensures var s := states[k];
      Drained(s.requests) && Drained(s.answers) ==>
        s.invoices[i].status != Printing && (s.invoices[i].status == Closed <==> i in s.stock.debits)
  {
    EveryStatePends(states, steps, k);
    EveryStateConfirms(states, steps, k);
    if Drained(states[k].requests) && Drained(states[k].answers) {
      DrainedPrintsNothing(states[k], i);
    }
  }

  // ---- The ledger ---------------------------------------------------------------

  lemma EveryStateBalances(states: seq<System>, steps: seq<Step>, k: nat)
    requires Behaviour(states, steps) && k < |states|
    ensures L.Balanced(states[k].stock) && HistoryMatchesDebits(states[k])
  {
    EveryStateIsInv(states, steps, k);
  }

  /** Each balance is non-negative and the sum of its history; each row of the
      history says what the balance became; and under an invoice the history
      holds exactly its items, once, if it was debited and nothing otherwise. */
  lemma LedgerConserved(states: seq<System>, steps: seq<Step>, k: nat)
    requires Behaviour(states, steps) && k < |states|
    ensures var t := states[k].stock;
      && (forall p :: p in t.products ==> 0 <= t.products[p].balance == L.Sum(t.movements, p))
      && L.Chained(t.movements, t.products.Keys)
      && (forall i :: i in t.debits ==>
          && i in states[k].invoices
          && multiset(L.InvoiceLines(t.movements, i)) == multiset(LinesOf(states[k].invoices[i].items)))
      && (forall i :: i !in t.debits ==> L.InvoiceLines(t.movements, i) == [])
  {
    EveryStateBalances(states, steps, k);
    var s := states[k];
    forall i | i in s.stock.debits
      ensures i in s.invoices
      ensures multiset(L.InvoiceLines(s.stock.movements, i)) == multiset(LinesOf(s.invoices[i].items))
    {
      RequestLinesAreTheItems(s.invoices[i].items);
    }
  }

  lemma NextGrows(s: System, step: Step)
    requires Enabled(s, step)
    ensures RowsGrew(s.stock.products, Next(s, step).stock.products)
    ensures s.stock.debits <= Next(s, step).stock.debits
  {
    match step
    case ApplyRequest(m, ordered, answer) =>
      DebitGrows(s.stock, m.body.invoice, ordered);
      DebitRows(s.stock, m.body.invoice, ordered);
    case ManageProducts(op) =>
      PerformGrows(s.stock, op);
      PerformKeepsDebits(s.stock, op);
    case _ =>
  }

  lemma PerformKeepsDebits(t: L.Tables, op: Operation)
    ensures Perform(t, op).tables.debits == t.debits
  {
    if op.AdjustBalances? {
      AdjustAllFrame(t, op.ordered);
    }
  }

  lemma {:induction false} StockGrows(states: seq<System>, steps: seq<Step>, a: nat, b: nat)
    requires Behaviour(states, steps) && a <= b < |states|
    ensures RowsGrew(states[a].stock.products, states[b].stock.products)
    ensures states[a].stock.debits <= states[b].stock.debits
    decreases b - a
  {
    if a < b {
      StockGrows(states, steps, a, b - 1);
      NextGrows(states[b - 1], steps[b - 1]);
      RowsGrewTransitive(states[a].stock.products, states[b - 1].stock.products, states[b].stock.products);
    }
  }

  /** No lost update: an edit based on what was read at state a is refused at
      state b if anything moved the product in between, and otherwise still finds
      the row that was read. A debit, once taken, stays taken. */
  lemma StaleEditsAreRefused(states: seq<System>, steps: seq<Step>, a: nat, b: nat, p: Uuid, description: string, balance: int)
    requires Behaviour(states, steps) && a <= b < |states| && p in states[a].stock.products
    ensures p in states[b].stock.products
    ensures var read := states[a].stock.products[p];
      var r := Update(states[b].stock, p, description, balance, read.version);
      && (r.error.None? ==> states[b].stock.products[p] == read)
      && (states[b].stock.products[p] != read ==> r == L.Outcome(states[b].stock, Some(L.ProductChanged)))
  {
    StockGrows(states, steps, a, b);
  }

  // ---- The attempt fence ----------------------------------------------------------

  lemma EveryStateRequests(states: seq<System>, steps: seq<Step>, k: nat)
    requires Behaviour(states, steps) && k < |states|
    ensures var s := states[k]; RequestsFaithful(s) && AttemptsRequested(s) && AttemptsDistinct(s.requests)
  {
    EveryStateIsInv(states, steps, k);
  }

  /** The requests ever enqueued for an invoice carry exactly its attempts 1 to
      PrintAttempt, each once, and each asks for the stored items. */
  lemma RequestsAreTheAttempts(states: seq<System>, steps: seq<Step>, k: nat, i: Uuid, n: nat)
    requires Behaviour(states, steps) && k < |states| && i in states[k].invoices
    ensures var s := states[k]; Requested(s.requests, i, n) <==> 1 <= n <= s.invoices[i].attempt
    ensures var c := states[k].requests;
      forall a, b :: a in c.sent && b in c.sent && IsRequestOf(c.sent[a].body, i, n) && IsRequestOf(c.sent[b].body, i, n) ==>
        a == b && multiset(c.sent[a].body.lines) == multiset(LinesOf(states[k].invoices[i].items))
  {
    EveryStateRequests(states, steps, k);
    var s := states[k];
    if Requested(s.requests, i, n) {
      var id :| id in s.requests.sent && IsRequestOf(s.requests.sent[id].body, i, n);
      assert 1 <= n <= s.invoices[i].attempt;
    }
    RequestLinesAreTheItems(s.invoices[i].items);
    forall a, b | a in s.requests.sent && b in s.requests.sent
        && IsRequestOf(s.requests.sent[a].body, i, n) && IsRequestOf(s.requests.sent[b].body, i, n)
      ensures a == b
    {
      assert SameAttempt(s.requests.sent[a].body, s.requests.sent[b].body);
    }
  }

  /** A rejection takes an invoice out of PRINTING exactly when it answers the
      attempt being printed, or names none, as an older stock service does; nothing
      else about any invoice moves. */
  lemma RejectionReopensItsAttempt(invoices: map<Uuid, Invoice>, i: Uuid, attempt: nat, code: string, now: Time)
    requires i in invoices
    ensures var after := Settle(invoices, Rejected(i, attempt, code), now);
      && (after != invoices <==> invoices[i].status == Printing && (attempt == 0 || invoices[i].attempt == attempt))
      && (after != invoices ==>
          after == invoices[i := invoices[i].(status := Open, printingSince := None, failure := Some(code))])
  {
    var after := Settle(invoices, Rejected(i, attempt, code), now);
    assert after[i] == Reopen(invoices[i], attempt, code);
    if !(invoices[i].status == Printing && (attempt == 0 || invoices[i].attempt == attempt)) {
      assert after == invoices;
    } else {
      assert after[i].status != invoices[i].status;
    }
  }

  lemma EveryStateSettles(states: seq<System>, steps: seq<Step>, k: nat)
    requires Behaviour(states, steps) && k < |states|
    ensures Sound(states[k].answers) && AppliedIsSettled(states[k])
  {
    EveryStateIsInv(states, steps, k);
  }

  lemma NextKeepsApplied(s: System, step: Step)
    requires Enabled(s, step) && Sound(s.answers)
    ensures var s' := Next(s, step);
      && s.applied <= s'.applied
      && forall id :: id in s.answers.sent ==> id in s'.answers.sent && s'.answers.sent[id] == s.answers.sent[id]
  {
    match step
    case ApplyRequest(m, ordered, answer) =>
    case AnswerUpkeep(u) => UpkeepLosesNothing(s.answers, u);
    case _ =>
  }

  lemma {:induction false} AppliedForGood(states: seq<System>, steps: seq<Step>, a: nat, b: nat, m: Message)
    requires Behaviour(states, steps) && a < b < |states| && steps[a] == ApplyAnswer(m)
    ensures m.id in states[b].applied && m.id in states[b].answers.sent && states[b].answers.sent[m.id] == m
    decreases b - a
  {
    if a + 1 == b {
      EveryStateSettles(states, steps, a);
      ApplyingApplies(states[a], m);
    } else {
      AppliedIsKept(states, steps, b - 1);
      AppliedForGood(states, steps, a, b - 1, m);
    }
  }

  lemma AppliedIsKept(states: seq<System>, steps: seq<Step>, k: nat)
    requires Behaviour(states, steps) && k < |steps|
    ensures states[k].applied <= states[k + 1].applied
    ensures forall id :: id in states[k].answers.sent ==>
      id in states[k + 1].answers.sent && states[k + 1].answers.sent[id] == states[k].answers.sent[id]
  {
    EveryStateSettles(states, steps, k);
    NextKeepsApplied(states[k], steps[k]);
  }

  lemma ApplyingApplies(s: System, m: Message)
    requires Enabled(s, ApplyAnswer(m)) && Sound(s.answers)
    ensures var s' := Next(s, ApplyAnswer(m));
      m.id in s'.applied && m.id in s'.answers.sent && s'.answers.sent[m.id] == m
  {
  }

  /** An answer billing applied once changes nothing when it is delivered again
      at any later state, even after its inbox record was forgotten. */
  lemma AnswersApplyOnce(states: seq<System>, steps: seq<Step>, a: nat, b: nat, m: Message, now: Time)
    requires Behaviour(states, steps) && a < b < |states| && steps[a] == ApplyAnswer(m)
    ensures IsAnswer(m.body) && m.body.invoice in states[b].invoices
    ensures Settle(states[b].invoices, m.body, now) == states[b].invoices
  {
    AppliedForGood(states, steps, a, b, m);
    EveryStateSettles(states, steps, b);
    SettledMeansNoEffect(states[b].invoices, m.body, now);
  }

  // ---- Convergence ------------------------------------------------------------------

  ghost function NeverPublished(c: Channel): set<Uuid> {
    set id | id in c.outbox && id !in c.published
  }

  ghost function Unmarked(c: Channel): set<Uuid> {
    set id | id in c.outbox && id in c.published && !c.outbox[id].published
  }

  ghost function PrintingNow(s: System): set<Uuid> {
    set i | i in s.invoices && s.invoices[i].status == Printing
  }

  /** The work left: a request still to publish is worth a publication, a mark, a
      delivery, and then an answer's publication, mark and delivery. */
  ghost function Measure(s: System): nat {
    6 * |NeverPublished(s.requests)| + 4 * |s.requests.ready| + |Unmarked(s.requests)|
    + 3 * |NeverPublished(s.answers)| + |s.answers.ready| + |Unmarked(s.answers)|
    + |PrintingNow(s)|
  }

  /** No new print, no duplicate, no failed attempt and no replay. */
  ghost predicate QuietUpkeep(c: Channel, u: Upkeep) {
    match u
    case Publish(id) => id !in c.published
    case Redeliver(_) => false
    case DeadLetter(_) => false
    case Replay(_) => false
    case _ => true
  }

  ghost predicate Quiet(s: System, step: Step) {
    match step
    case Print(_, _) => false
    case RequestUpkeep(u) => QuietUpkeep(s.requests, u)
    case AnswerUpkeep(u) => QuietUpkeep(s.answers, u)
    case _ => true
  }

  /** The quiet steps that move a message or reopen an invoice. */
  ghost predicate UpkeepWorks(c: Channel, u: Upkeep) {
    match u
    case Publish(id) => id in c.outbox && id !in c.published
    case MarkPublished(id) => id in c.outbox && !c.outbox[id].published
    case SkipKnown(_) => true
    case _ => false
  }

  ghost predicate Works(s: System, step: Step) {
    match step
    case ApplyRequest(_, _, _) => true
    case ApplyAnswer(_) => true
    case Reconcile(timeout) => exists i :: i in s.invoices && IsStale(s.invoices[i], s.now, timeout)
    case RequestUpkeep(u) => UpkeepWorks(s.requests, u)
    case AnswerUpkeep(u) => UpkeepWorks(s.answers, u)
    case _ => false
  }

  lemma SmallerSet<T>(a: set<T>, b: set<T>)
    requires a <= b
    ensures |a| <= |b|
    ensures a != b ==> |a| < |b|
  {
    assert |b| == |a| + |b - a| by {
      assert b == a + (b - a);
    }
    if a != b {
      assert b - a != {};
    }
  }

  lemma PublishCounts(c: Channel, id: Uuid)
    requires CanKeepUp(c, Publish(id)) && id !in c.published
    ensures var c' := KeepUp(c, Publish(id));
      && |NeverPublished(c')| == |NeverPublished(c)| - 1
      && |Unmarked(c')| == |Unmarked(c)| + 1
      && |c'.ready| == |c.ready| + 1
  {
    var c' := KeepUp(c, Publish(id));
    assert NeverPublished(c') == NeverPublished(c) - {id};
    assert Unmarked(c') == Unmarked(c) + {id};
  }

  lemma OtherUpkeepCounts(c: Channel, u: Upkeep)
    requires CanKeepUp(c, u) && QuietUpkeep(c, u) && !u.Publish?
    ensures var c' := KeepUp(c, u);
      && |NeverPublished(c')| <= |NeverPublished(c)|
      && |Unmarked(c')| <= |Unmarked(c)|
      && |c'.ready| <= |c.ready|
      && (UpkeepWorks(c, u) ==> |Unmarked(c')| < |Unmarked(c)| || |c'.ready| < |c.ready|)
  {
    var c' := KeepUp(c, u);
    SmallerSet(NeverPublished(c'), NeverPublished(c));
    SmallerSet(Unmarked(c'), Unmarked(c));
    if u.MarkPublished? && UpkeepWorks(c, u) {
      assert u.id in Unmarked(c) && u.id !in Unmarked(c');
    }
  }

  lemma EnqueueCounts(c: Channel, m: Message)
    requires Sound(c) && m.id !in c.sent
    ensures var c' := Enqueue(c, m);
      |NeverPublished(c')| == |NeverPublished(c)| + 1 && Unmarked(c') == Unmarked(c) && c'.ready == c.ready
  {
    NewIdIsUnknown(c, m.id);
    NewMessageCounts(c, m);
  }

  lemma NewMessageCounts(c: Channel, m: Message)
    requires m.id !in c.outbox && m.id !in c.published
    ensures var c' := Enqueue(c, m);
      |NeverPublished(c')| == |NeverPublished(c)| + 1 && Unmarked(c') == Unmarked(c) && c'.ready == c.ready
  {
    var c' := Enqueue(c, m);
    assert NeverPublished(c') == NeverPublished(c) + {m.id};
    assert Unmarked(c') == Unmarked(c);
  }

  lemma NewIdIsUnknown(c: Channel, id: Uuid)
    requires Sound(c) && id !in c.sent
    ensures id !in c.outbox && id !in c.published
  {
  }

  lemma ConsumeCounts(c: Channel, m: Message)
    requires m in c.ready
    ensures var c' := Consume(c, m);
      NeverPublished(c') == NeverPublished(c) && Unmarked(c') == Unmarked(c) && |c'.ready| == |c.ready| - 1
  {
  }

  lemma PrintingShrinks(s: System, s': System)
    requires OnlyLeavesPrinting(s.invoices, s'.invoices)
    ensures |PrintingNow(s')| <= |PrintingNow(s)|
    ensures PrintingNow(s') != PrintingNow(s) ==> |PrintingNow(s')| < |PrintingNow(s)|
  {
    SmallerSet(PrintingNow(s'), PrintingNow(s));
  }

  lemma ApplyRequestShrinks(s: System, m: Message, ordered: seq<Line>, answer: Uuid)
    requires Sound(s.answers) && Enabled(s, ApplyRequest(m, ordered, answer))
    ensures Measure(Next(s, ApplyRequest(m, ordered, answer))) < Measure(s)
  {
    var s' := Next(s, ApplyRequest(m, ordered, answer));
    ConsumeCounts(s.requests, m);
    EnqueueCounts(s.answers, s'.answers.sent[answer]);
    assert PrintingNow(s') == PrintingNow(s);
  }

  lemma ApplyAnswerShrinks(s: System, m: Message)
    requires Enabled(s, ApplyAnswer(m))
    ensures Measure(Next(s, ApplyAnswer(m))) < Measure(s)
  {
    var s' := Next(s, ApplyAnswer(m));
    ApplyAnswerLeavesPrinting(s, m);
    PrintingShrinks(s, s');
    ConsumeCounts(s.answers, m);
  }

  lemma ReconcileShrinks(s: System, timeout: Time)
    ensures var s' := Next(s, Reconcile(timeout));
      && Measure(s') <= Measure(s)
      && (Works(s, Reconcile(timeout)) ==> Measure(s') < Measure(s))
  {
    var s' := Next(s, Reconcile(timeout));
    ReconcileLeavesPrinting(s, timeout);
    PrintingShrinks(s, s');
    if Works(s, Reconcile(timeout)) {
      var i :| i in s.invoices && IsStale(s.invoices[i], s.now, timeout);
      assert i in PrintingNow(s) && i !in PrintingNow(s');
    }
  }

  lemma UpkeepShrinks(s: System, step: Step, c: Channel, u: Upkeep)
    requires (step == RequestUpkeep(u) && c == s.requests) || (step == AnswerUpkeep(u) && c == s.answers)
    requires Enabled(s, step) && Quiet(s, step)
    ensures Measure(Next(s, step)) <= Measure(s)
    ensures Works(s, step) ==> Measure(Next(s, step)) < Measure(s)
  {
    assert PrintingNow(Next(s, step)) == PrintingNow(s);
    if u.Publish? {
      PublishCounts(c, u.id);
    } else {
      OtherUpkeepCounts(c, u);
    }
  }

  /** A quiet step never adds work, and a working one takes some away. */
  lemma QuietStepShrinks(s: System, step: Step)
    requires ChannelsSound(s) && Enabled(s, step) && Quiet(s, step)
    ensures Measure(Next(s, step)) <= Measure(s)
    ensures Works(s, step) ==> Measure(Next(s, step)) < Measure(s)
  {
    match step
    case CreateInvoice(id, items) => assert PrintingNow(Next(s, step)) == PrintingNow(s);
    case ApplyRequest(m, ordered, answer) => ApplyRequestShrinks(s, m, ordered, answer);
    case ApplyAnswer(m) => ApplyAnswerShrinks(s, m);
    case Reconcile(timeout) => ReconcileShrinks(s, timeout);
    case ManageProducts(op) => assert PrintingNow(Next(s, step)) == PrintingNow(s);
    case RequestUpkeep(u) => UpkeepShrinks(s, step, s.requests, u);
    case AnswerUpkeep(u) => UpkeepShrinks(s, step, s.answers, u);
    case Tick(elapsed) => assert PrintingNow(Next(s, step)) == PrintingNow(s);
  }

  ghost function WorkDone(states: seq<System>, steps: seq<Step>): nat
    requires |states| == |steps| + 1
  {
    if steps == [] then 0
    else
      var last := |steps| - 1;
      WorkDone(states[..last + 1], steps[..last]) + if Works(states[last], steps[last]) then 1 else 0
  }

  lemma {:induction false} RunsKeepInv(states: seq<System>, steps: seq<Step>, k: nat)
    requires |states| == |steps| + 1 && Follows(states, steps) && k <= |steps| && Inv(states[0])
    ensures Inv(states[k])
  {
    if k > 0 {
      RunsKeepInv(states, steps, k - 1);
      StepKeepsInv(states[k - 1], steps[k - 1]);
    }
  }

  lemma RunsStaySound(states: seq<System>, steps: seq<Step>, k: nat)
    requires |states| == |steps| + 1 && Follows(states, steps) && k <= |steps| && Inv(states[0])
    ensures ChannelsSound(states[k])
  {
    RunsKeepInv(states, steps, k);
  }

  lemma {:induction false} WorkIsBounded(states: seq<System>, steps: seq<Step>)
    requires |states| == |steps| + 1 && Follows(states, steps)
    requires forall k :: 0 <= k < |steps| ==> ChannelsSound(states[k]) && Quiet(states[k], steps[k])
    ensures WorkDone(states, steps) + Measure(states[|steps|]) <= Measure(states[0])
  {
    if steps != [] {
      var last := |steps| - 1;
      WorkIsBounded(states[..last + 1], steps[..last]);
      QuietStepShrinks(states[last], steps[last]);
    }
  }

  lemma QuietRunsFromInv(states: seq<System>, steps: seq<Step>)
    requires |states| == |steps| + 1 && Follows(states, steps) && Inv(states[0])
    requires forall k :: 0 <= k < |steps| ==> Quiet(states[k], steps[k])
    ensures WorkDone(states, steps) + Measure(states[|steps|]) <= Measure(states[0])
  {
    forall k | 0 <= k < |steps| ensures ChannelsSound(states[k]) {
      RunsStaySound(states, steps, k);
    }
    WorkIsBounded(states, steps);
  }

  /** A quiet step of the relays or the consumers; the reconciler is not needed. */
  ghost predicate Delivers(s: System, step: Step) {
    Quiet(s, step) && !step.Reconcile?
  }

  /** A request in the queue can be skipped or applied. */
  lemma RequestCanMove(s: System, m: Message) returns (step: Step)
    requires m in s.requests.ready && m.body.PrintRequested?
    ensures Enabled(s, step) && Works(s, step) && Delivers(s, step)
  {
    if m.id in s.requests.processed {
      step := RequestUpkeep(SkipKnown(m));
    } else {
      SortGivesLockOrder(m.body.lines);
      var answer := Bound(s.answers.sent.Keys);
      step := ApplyRequest(m, Sort(m.body.lines, ProductLeq), answer);
    }
  }

  lemma AnswerCanMove(s: System, m: Message) returns (step: Step)
    requires m in s.answers.ready && IsAnswer(m.body) && m.body.invoice in s.invoices
    ensures Enabled(s, step) && Works(s, step) && Delivers(s, step)
  {
    if m.id in s.answers.processed {
      step := AnswerUpkeep(SkipKnown(m));
    } else {
      step := ApplyAnswer(m);
    }
  }

  lemma OutboxCanMove(c: Channel, id: Uuid) returns (u: Upkeep)
    requires id in c.outbox && !c.outbox[id].published
    ensures CanKeepUp(c, u) && UpkeepWorks(c, u) && QuietUpkeep(c, u)
  {
    u := if id in c.published then MarkPublished(id) else Publish(id);
  }

  lemma EveryStateDelivers(s: System)
    requires Inv(s)
    ensures ChannelsSound(s) && RequestsFaithful(s) && AnswersFaithful(s)
  {
  }

  /** While anything is unpublished or queued some quiet step works on it. */
  lemma UndrainedCanMove(s: System) returns (step: Step)
    requires ChannelsSound(s) && RequestsFaithful(s) && AnswersFaithful(s)
    requires s.requests.dead == multiset{} && s.answers.dead == multiset{}
    requires !(Drained(s.requests) && Drained(s.answers))
    ensures Enabled(s, step) && Works(s, step) && Delivers(s, step)
  {
    if m :| m in s.requests.ready {
      assert s.requests.sent[m.id] == m;
      step := RequestCanMove(s, m);
    } else if m :| m in s.answers.ready {
      assert s.answers.sent[m.id] == m;
      step := AnswerCanMove(s, m);
    } else if id :| id in s.requests.outbox && !s.requests.outbox[id].published {
      var u := OutboxCanMove(s.requests, id);
      step := RequestUpkeep(u);
    } else {
      var id :| id in s.answers.outbox && !s.answers.outbox[id].published;
      var u := OutboxCanMove(s.answers, id);
      step := AnswerUpkeep(u);
    }
  }

  lemma InvConfirms(s: System)
    requires Inv(s)
    ensures ChannelsSound(s) && PrintIsPending(s) && ClosedIsDebited(s) && DebitIsConfirmed(s)
  {
  }

  /** Nothing is printing, and the closed invoices are the debited ones. */
  ghost predicate Consistent(s: System) {
    && (forall i :: i in s.invoices ==>
         s.invoices[i].status != Printing && (s.invoices[i].status == Closed <==> i in s.stock.debits))
    && (forall i :: i in s.stock.debits ==> i in s.invoices && s.invoices[i].status == Closed)
  }

  ghost predicate NoDeadLetters(s: System) {
    s.requests.dead == multiset{} && s.answers.dead == multiset{}
  }

  lemma DrainedIsConsistent(s: System)
    requires Inv(s) && Drained(s.requests) && Drained(s.answers)
    ensures Consistent(s)
  {
    InvConfirms(s);
    forall i | i in s.invoices
      ensures s.invoices[i].status != Printing && (s.invoices[i].status == Closed <==> i in s.stock.debits)
    {
      DrainedPrintsNothing(s, i);
    }
  }

  lemma QuietEndOfInv(s: System)
    requires Inv(s) && NoDeadLetters(s)
    requires forall step :: Enabled(s, step) && Delivers(s, step) ==> !Works(s, step)
    ensures Consistent(s)
  {
    EveryStateDelivers(s);
    if !(Drained(s.requests) && Drained(s.answers)) {
      var step := UndrainedCanMove(s);
      assert false;
    }
    DrainedIsConsistent(s);
  }

  lemma DeliveringBuriesNothing(s: System, step: Step)
    requires Enabled(s, step) && Delivers(s, step) && NoDeadLetters(s)
    ensures NoDeadLetters(Next(s, step))
  {
  }

  lemma DrainingStep(s: System) returns (step: Step)
    requires Inv(s) && NoDeadLetters(s) && !(Drained(s.requests) && Drained(s.answers))
    ensures Enabled(s, step) && Delivers(s, step)
    ensures Inv(Next(s, step)) && NoDeadLetters(Next(s, step)) && Measure(Next(s, step)) < Measure(s)
  {
    EveryStateDelivers(s);
    step := UndrainedCanMove(s);
    StepKeepsInv(s, step);
    QuietStepShrinks(s, step);
    DeliveringBuriesNothing(s, step);
  }

  /** These steps of the relays and consumers lead from s to drained queues. */
  ghost predicate Drains(s: System, states: seq<System>, steps: seq<Step>) {
    && |states| == |steps| + 1 && states[0] == s && Follows(states, steps)
    && (forall k :: 0 <= k < |steps| ==> Delivers(states[k], steps[k]))
    && Drained(states[|steps|].requests) && Drained(states[|steps|].answers)
  }

  lemma DrainsFrom(s: System, step: Step, later: seq<System>, more: seq<Step>)
    requires Enabled(s, step) && Delivers(s, step) && Drains(Next(s, step), later, more)
    ensures Drains(s, [s] + later, [step] + more)
  {
    var states, steps := [s] + later, [step] + more;
    forall k | 0 <= k < |steps|
      ensures Enabled(states[k], steps[k]) && states[k + 1] == Next(states[k], steps[k]) && Delivers(states[k], steps[k])
    {
      if k > 0 {
        assert Enabled(later[k - 1], more[k - 1]) && later[k] == Next(later[k - 1], more[k - 1]);
        assert Delivers(later[k - 1], more[k - 1]);
      }
    }
  }

  lemma {:induction false} DrainFrom(s: System) returns (states: seq<System>, steps: seq<Step>)
    requires Inv(s) && NoDeadLetters(s)
    ensures Drains(s, states, steps) && |steps| <= Measure(s)
    decreases Measure(s)
  {
    if Drained(s.requests) && Drained(s.answers) {
      states, steps := [s], [];
    } else {
      var step := DrainingStep(s);
      var later, more := DrainFrom(Next(s, step));
      states, steps := [s] + later, [step] + more;
      DrainsFrom(s, step, later, more);
    }
  }

  lemma PartFollows(states: seq<System>, steps: seq<Step>, k: nat)
    requires |states| == |steps| + 1 && Follows(states, steps) && k <= |steps|
    ensures Follows(states[k..], steps[k..])
  {
  }

  /** From any reachable state on, a continuation without new prints, duplicates,
      failures and replays does at most as much work as the measure says. */
  lemma QuietRunsAreBounded(states: seq<System>, steps: seq<Step>, k: nat)
    requires Behaviour(states, steps) && k <= |steps|
    requires forall j :: k <= j < |steps| ==> Quiet(states[j], steps[j])
    ensures WorkDone(states[k..], steps[k..]) + Measure(states[|steps|]) <= Measure(states[k])
  {
    EveryStateIsInv(states, steps, k);
    PartFollows(states, steps, k);
    QuietRunsFromInv(states[k..], steps[k..]);
  }

  /** In a reachable state in which no step of the relays and consumers works any
      more and no dead letter is left, nothing is printing and the closed invoices
      are the debited ones; the reconciler has no part in it. */
  lemma QuietEndIsConsistent(states: seq<System>, steps: seq<Step>, k: nat)
    requires Behaviour(states, steps) && k < |states| && NoDeadLetters(states[k])
    requires forall step :: Enabled(states[k], step) && Delivers(states[k], step) ==> !Works(states[k], step)
    ensures Consistent(states[k])
  {
    EveryStateIsInv(states, steps, k);
    QuietEndOfInv(states[k]);
  }

  /** And such a state can be reached from any reachable one without dead letters,
      by steps of the relays and consumers alone, as many as the measure says. */
  lemma QuietEndIsReachable(states: seq<System>, steps: seq<Step>, k: nat)
    returns (later: seq<System>, more: seq<Step>)
    requires Behaviour(states, steps) && k < |states| && NoDeadLetters(states[k])
    ensures Drains(states[k], later, more) && |more| <= Measure(states[k])
    ensures Consistent(later[|more|])
  {
    EveryStateIsInv(states, steps, k);
    later, more := DrainFrom(states[k]);
    RunsKeepInv(later, more, |more|);
    DrainedIsConsistent(later[|more|]);
  }
}
