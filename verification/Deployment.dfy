/** The two services and their queues wired together (backend/cmd), and the proof
    that what their code does to the databases and the broker is exactly the
    steps of the saga: every guarantee about its runs is one about this code. */
module Deployment {
  import opened Common
  import opened Contracts
  import opened Sorting
  import opened Channels
  import opened Messaging
  import opened Relay
  import Billing = BillingStore
  import Stock = StockStore
  import L = Ledger
  import I = Invoices
  import Lines = InvoiceLines
  import opened LedgerOperations
  import opened Saga

  class Services {
    const billing: Billing.Database
    const stock: Stock.Database
    const requests: Queue
    const answers: Queue
    var now: Time

    constructor ()
      ensures Wired() && fresh(billing) && fresh(stock) && fresh(requests) && fresh(answers)
      ensures fresh(billing.outbox) && fresh(stock.outbox)
      ensures Represents(START)
    {
      now := 0;
      billing := new Billing.Database();
      stock := new Stock.Database();
      requests := new Queue();
      answers := new Queue();
      new;
      assert View(billing.outbox.rows) == map[] && View(stock.outbox.rows) == map[];
    }

    ghost predicate Wired()
      reads this, billing, stock, billing.outbox, stock.outbox
    {
      billing.outbox.Valid() && stock.outbox.Valid() && billing.outbox != stock.outbox && requests != answers
    }

    /** The state of the saga these databases and queues are in; the histories of
        the saga are not stored anywhere. */
    ghost predicate Represents(s: System)
      reads this, billing, stock, billing.outbox, stock.outbox, requests, answers
    {
      && s.invoices == billing.invoices
      && s.stock == stock.Tables()
      && s.now == now
      && s.requests.outbox == View(billing.outbox.rows)
      && s.requests.ready == requests.ready
      && s.requests.dead == multiset(requests.dead)
      && s.requests.processed == stock.processed.Keys
      && s.answers.outbox == View(stock.outbox.rows)
      && s.answers.ready == answers.ready
      && s.answers.dead == multiset(answers.dead)
      && s.answers.processed == billing.processed.Keys
    }

    /** POST /invoices, with the id drawn for the row. A request whose lines are
        accepted and whose products are found is always stored, and is the first
        step of an invoice in the saga. */
    method CreateInvoice(id: Uuid, inputs: seq<Line>, lookup: seq<Uuid> -> Option<seq<Lines.CatalogueProduct>>,
                         ghost s: System)
      returns (result: Result<seq<I.Item>, Lines.CreateError>, ghost s': System)
      requires Wired() && Represents(s) && id !in billing.invoices
      modifies billing`invoices
      ensures Wired() && Represents(s')
      ensures result.Err? && result.error.Invalid? <==> !Lines.Acceptable(inputs)
      ensures result.Ok? ==> exists merged :: Lines.Merges(merged, inputs) && I.LinesOf(result.value) == merged
      ensures result.Ok? ==> Enabled(s, Step.CreateInvoice(id, result.value))
      ensures s' == if result.Ok? then Next(s, Step.CreateInvoice(id, result.value)) else s
    {
      result := Lines.CreateInvoice(inputs, lookup);
      s' := s;
      if result.Ok? {
        ghost var products := lookup(Lines.Firsts(inputs)).value;
        ghost var merged :| Lines.Merges(merged, inputs) && Lines.Itemised(result.value, merged, products);
        Lines.ItemsAreMerged(result.value, merged, products);
        Lines.StoredItemsAreValid(inputs, merged, result.value, products);
        var _ := billing.Create(id, result.value);
        s' := Next(s, Step.CreateInvoice(id, result.value));
      }
    }

    /** POST /invoices/{id}/print, with the id drawn for its message. */
    method RequestPrint(id: Uuid, request: Uuid, ghost s: System)
      returns (result: Result<I.Invoice, I.PrintError>, ghost s': System)
      requires Wired() && Represents(s) && request !in s.requests.sent && request !in s.requests.outbox
      modifies billing`invoices, billing.outbox
      ensures Wired() && Represents(s')
      ensures result.Ok? <==> Enabled(s, Print(id, request))
      ensures s' == if result.Ok? then Next(s, Print(id, request)) else s
    {
      result := billing.StartPrinting(id, request, now);
      s' := if result.Ok? then Next(s, Print(id, request)) else s;
    }

    /** One delivery of the stock consumer: applied, recognised or given up on. */
    method ConsumeRequest(m: Message, failing: bool, answer: Uuid, ghost s: System)
      returns (ghost step: Step, ghost s': System)
      requires Wired() && Represents(s) && m in requests.ready && m.body.PrintRequested?
      requires answer !in s.answers.sent && answer !in s.answers.outbox
      modifies stock, stock.outbox, requests
      ensures Wired() && Represents(s')
      ensures Enabled(s, step) && s' == Next(s, step)
      ensures step == RequestUpkeep(SkipKnown(m)) || step == RequestUpkeep(DeadLetter(m))
        || (step.ApplyRequest? && step.m == m && step.answer == answer)
      ensures step == RequestUpkeep(SkipKnown(m)) <==> m.id in old(stock.processed)
      ensures step.ApplyRequest? <==> m.id !in old(stock.processed) && !failing
    {
      ghost var known, rows := m.id in stock.processed, stock.outbox.rows;
      var handled;
      ghost var ordered;
      handled, ordered := stock.HandleOnce(m, failing, answer, now);
      requests.Deliver(m, handled);
      step := if known then RequestUpkeep(SkipKnown(m))
              else if handled then ApplyRequest(m, ordered, answer)
              else RequestUpkeep(DeadLetter(m));
      if step.ApplyRequest? {
        ViewOfInserted(rows, stock.outbox.rows[answer]);
      }
      s' := Next(s, step);
    }

    /** One delivery of the billing consumer. */
    method ConsumeAnswer(m: Message, ghost s: System) returns (ghost step: Step, ghost s': System)
      requires Wired() && Represents(s) && m in answers.ready && IsAnswer(m.body)
      modifies billing`invoices, billing`processed, answers
      ensures Wired() && Represents(s')
      ensures Enabled(s, step) && s' == Next(s, step)
      ensures step == AnswerUpkeep(SkipKnown(m)) || step == AnswerUpkeep(DeadLetter(m)) || step == ApplyAnswer(m)
      ensures step == ApplyAnswer(m) <==> m.id !in old(billing.processed) && m.body.invoice in old(billing.invoices)
    {
      ghost var known := m.id in billing.processed;
      var handled := billing.HandleOnce(m, now);
      answers.Deliver(m, handled);
      step := if known then AnswerUpkeep(SkipKnown(m))
              else if handled then ApplyAnswer(m)
              else AnswerUpkeep(DeadLetter(m));
      s' := Next(s, step);
    }

    /** The reconciler. */
    method ReconcileOnce(timeout: Time, ghost s: System) returns (ghost s': System)
      requires Wired() && Represents(s)
      modifies billing`invoices
      ensures Wired() && Represents(s') && s' == Next(s, Reconcile(timeout))
    {
      var _ := billing.ReopenStalePrintings(timeout, now);
      s' := Next(s, Reconcile(timeout));
    }

    /** A round of billing's relay is a run of upkeep steps of the requests. */
    method RelayRequests(batchSize: int, outcomes: nat -> Publication, ghost s: System)
      returns (published: nat, ghost us: seq<Upkeep>, ghost s': System)
      requires Wired() && Represents(s)
      modifies billing.outbox`rows, requests`ready
      ensures Wired()
      ensures CanKeepUpAll(s.requests, us) && s' == s.(requests := KeepUpAll(s.requests, us))
      ensures Represents(s')
    {
      ghost var rows := billing.outbox.rows;
      ghost var batch;
      published, batch := Relay.RunOnce(billing.outbox, requests, batchSize, outcomes, now);
      RelayRoundIsUpkeep(s.requests, rows, batchSize, outcomes, now, batch);
      us := UpkeepsOf(batch, outcomes, |batch|);
      RoundKeepsInbox(s.requests, batch, outcomes, |batch|);
      s' := s.(requests := KeepUpAll(s.requests, us));
    }

    method RelayAnswers(batchSize: int, outcomes: nat -> Publication, ghost s: System)
      returns (published: nat, ghost us: seq<Upkeep>, ghost s': System)
      requires Wired() && Represents(s)
      modifies stock.outbox`rows, answers`ready
      ensures Wired()
      ensures CanKeepUpAll(s.answers, us) && s' == s.(answers := KeepUpAll(s.answers, us))
      ensures Represents(s')
    {
      ghost var rows := stock.outbox.rows;
      ghost var batch;
      published, batch := Relay.RunOnce(stock.outbox, answers, batchSize, outcomes, now);
      RelayRoundIsUpkeep(s.answers, rows, batchSize, outcomes, now, batch);
      us := UpkeepsOf(batch, outcomes, |batch|);
      RoundKeepsInbox(s.answers, batch, outcomes, |batch|);
      s' := s.(answers := KeepUpAll(s.answers, us));
    }

    /** Dead letters of the requests go back to their queue; what the broker took
        without the acknowledgement stays a dead letter as well. */
    method ReplayRequests(limit: int, outcomes: nat -> Publication, ghost s: System)
      returns (replayed: nat, ghost us: seq<Upkeep>, ghost s': System)
      requires Wired() && Represents(s) && Sound(s.requests)
      modifies requests
      ensures Wired() && Represents(s')
      ensures CanKeepUpAll(s.requests, us) && s' == s.(requests := KeepUpAll(s.requests, us))
    {
      ghost var dead := requests.dead;
      replayed := requests.Replay(limit, outcomes);
      us := ReplayedIsUpkeep(s.requests, dead, replayed, requests.ready, requests.dead);
      s' := s.(requests := KeepUpAll(s.requests, us));
    }

    /** Dead letters of the answers go back to their queue; what the broker took
        without the acknowledgement stays a dead letter as well. */
    method ReplayAnswers(limit: int, outcomes: nat -> Publication, ghost s: System)
      returns (replayed: nat, ghost us: seq<Upkeep>, ghost s': System)
      requires Wired() && Represents(s) && Sound(s.answers)
      modifies answers
      ensures Wired() && Represents(s')
      ensures CanKeepUpAll(s.answers, us) && s' == s.(answers := KeepUpAll(s.answers, us))
    {
      ghost var dead := answers.dead;
      replayed := answers.Replay(limit, outcomes);
      us := ReplayedIsUpkeep(s.answers, dead, replayed, answers.ready, answers.dead);
      s' := s.(answers := KeepUpAll(s.answers, us));
    }

    /** Retention of the outbox of the requests. */
    method DropPublishedRequests(age: Time, ghost s: System) returns (deleted: nat, ghost us: seq<Upkeep>, ghost s': System)
      requires Wired() && Represents(s)
      modifies billing.outbox`rows
      ensures Wired() && Represents(s')
      ensures CanKeepUpAll(s.requests, us) && s' == s.(requests := KeepUpAll(s.requests, us))
    {
      ghost var rows := billing.outbox.rows;
      deleted := billing.outbox.DeletePublishedBefore(age, now);
      ghost var gone := rows.Keys - billing.outbox.rows.Keys;
      us := DroppingIsUpkeep(s.requests, gone);
      assert View(rows) - gone == View(billing.outbox.rows);
      s' := s.(requests := KeepUpAll(s.requests, us));
    }

    /** Retention of the outbox of the answers. */
    method DropPublishedAnswers(age: Time, ghost s: System) returns (deleted: nat, ghost us: seq<Upkeep>, ghost s': System)
      requires Wired() && Represents(s)
      modifies stock.outbox`rows
      ensures Wired() && Represents(s')
      ensures CanKeepUpAll(s.answers, us) && s' == s.(answers := KeepUpAll(s.answers, us))
    {
      ghost var rows := stock.outbox.rows;
      deleted := stock.outbox.DeletePublishedBefore(age, now);
      ghost var gone := rows.Keys - stock.outbox.rows.Keys;
      us := DroppingIsUpkeep(s.answers, gone);
      assert View(rows) - gone == View(stock.outbox.rows);
      s' := s.(answers := KeepUpAll(s.answers, us));
    }

    /** Retention of the inbox of the requests. */
    method ForgetProcessedRequests(age: Time, ghost s: System) returns (ghost us: seq<Upkeep>, ghost s': System)
      requires Wired() && Represents(s)
      modifies stock`processed
      ensures Wired() && Represents(s')
      ensures CanKeepUpAll(s.requests, us) && s' == s.(requests := KeepUpAll(s.requests, us))
    {
      ghost var known := stock.processed.Keys;
      stock.DeleteProcessedBefore(age, now);
      ghost var gone := known - stock.processed.Keys;
      us := ForgettingIsUpkeep(s.requests, gone);
      assert known - gone == stock.processed.Keys;
      s' := s.(requests := KeepUpAll(s.requests, us));
    }

    /** Retention of the inbox of the answers. */
    method ForgetProcessedAnswers(age: Time, ghost s: System) returns (ghost us: seq<Upkeep>, ghost s': System)
      requires Wired() && Represents(s)
      modifies billing`processed
      ensures Wired() && Represents(s')
      ensures CanKeepUpAll(s.answers, us) && s' == s.(answers := KeepUpAll(s.answers, us))
    {
      ghost var known := billing.processed.Keys;
      billing.DeleteProcessedBefore(age, now);
      ghost var gone := known - billing.processed.Keys;
      us := ForgettingIsUpkeep(s.answers, gone);
      assert known - gone == billing.processed.Keys;
      s' := s.(answers := KeepUpAll(s.answers, us));
    }

    /** Registering a product, for the id its row draws. */
    method RegisterProduct(id: Uuid, code: string, description: string, balance: int, ghost s: System)
      returns (error: Option<L.Error>, ghost s': System)
      requires Wired() && Represents(s)
      modifies stock`products, stock`codes, stock`movements
      ensures Wired() && Represents(s')
      ensures s' == Next(s, ManageProducts(CreateProduct(id, code, description, balance)))
    {
      error := stock.Create(id, code, description, balance);
      s' := Next(s, ManageProducts(CreateProduct(id, code, description, balance)));
    }

    method EditProduct(id: Uuid, description: string, balance: int, version: int, ghost s: System)
      returns (error: Option<L.Error>, ghost s': System)
      requires Wired() && Represents(s)
      modifies stock`products, stock`movements
      ensures Wired() && Represents(s')
      ensures s' == Next(s, ManageProducts(Operation.EditProduct(id, description, balance, version)))
    {
      error := stock.Update(id, description, balance, version);
      s' := Next(s, ManageProducts(Operation.EditProduct(id, description, balance, version)));
    }

    /** POST of a batch of movements: validated, then applied sorted. */
    method AdjustBalances(adjustments: seq<Adjustment>, ghost s: System)
      returns (results: seq<Stock.ItemResult>, accepted: bool, ghost s': System)
      requires Wired() && Represents(s)
      modifies stock`products, stock`codes, stock`movements, stock`debits
      ensures Wired() && Represents(s') && |results| == |adjustments|
      ensures s' == s || s' == Next(s, ManageProducts(Operation.AdjustBalances(Sort(adjustments, AdjustmentLeq))))
      ensures accepted <==>
        && (forall a :: a in adjustments ==> Stock.Sound(a)) && Stock.DistinctKeys(adjustments)
        && StaysInRange(s.stock, Sort(adjustments, AdjustmentLeq))
      ensures accepted ==> s'.stock == LedgerOperations.Adjust(s.stock, Sort(adjustments, AdjustmentLeq)).tables
    {
      results, accepted := Stock.ValidateAdjustments(adjustments);
      s' := s;
      if accepted {
        var error;
        ghost var at;
        AdjustRunningIff(s.stock, Sort(adjustments, AdjustmentLeq));
        results, error, at := stock.Adjust(adjustments);
        accepted := error.None?;
        s' := Next(s, ManageProducts(Operation.AdjustBalances(Sort(adjustments, AdjustmentLeq))));
      }
    }

    /** Time goes by. */
    method Tick(elapsed: nat, ghost s: System) returns (ghost s': System)
      requires Wired() && Represents(s)
      modifies this`now
      ensures Wired() && Represents(s') && s' == Next(s, Step.Tick(elapsed))
    {
      now := now + elapsed;
      s' := Next(s, Step.Tick(elapsed));
    }
  }

  ghost predicate SameInbox(c: Channel, c': Channel) {
    c'.processed == c.processed && c'.dead == c.dead && c'.sent == c.sent
  }

  lemma {:induction false} RoundKeepsInbox(c: Channel, batch: seq<Message>, outcomes: nat -> Publication, n: nat)
    requires n <= |batch| && CanKeepUpAll(c, UpkeepsOf(batch, outcomes, n))
    ensures SameInbox(c, KeepUpAll(c, UpkeepsOf(batch, outcomes, n)))
  {
    OnlyPublishes(batch, outcomes, n);
    PublishingKeepsInbox(c, UpkeepsOf(batch, outcomes, n));
  }

  lemma {:induction false} OnlyPublishes(batch: seq<Message>, outcomes: nat -> Publication, n: nat)
    requires n <= |batch|
    ensures forall u :: u in UpkeepsOf(batch, outcomes, n) ==> u.Publish? || u.MarkPublished?
  {
    if n != 0 {
      OnlyPublishes(batch, outcomes, n - 1);
    }
  }

  lemma {:induction false} PublishingKeepsInbox(c: Channel, us: seq<Upkeep>)
    requires CanKeepUpAll(c, us) && forall u :: u in us ==> u.Publish? || u.MarkPublished?
    ensures SameInbox(c, KeepUpAll(c, us))
    decreases |us|
  {
    if us != [] {
      assert us[0] in us;
      PublishingKeepsInbox(KeepUp(c, us[0]), us[1..]);
    }
  }
}
