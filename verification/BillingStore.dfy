/** The billing database as the object the service writes in place, and the
    invoice object its transactions load, change and write back
    (backend/internal/billing: invoice.go, print_store.go, printing.go). */
module BillingStore {
  import opened Common
  import opened Contracts
  import opened Sorting
  import opened Channels
  import opened Messaging
  import I = Invoices

  /** An invoice in memory. Its methods check and change its status. */
  class InvoiceObject {
    var status: I.Status
    const items: seq<I.Item>
    var attempt: nat
    var printingSince: Option<Time>
    var printedAt: Option<Time>
    var failure: Option<string>

    function Row(): I.Invoice
      reads this
    {
      I.Invoice(status, items, attempt, printingSince, printedAt, failure)
    }

    constructor (row: I.Invoice)
      ensures Row() == row
    {
      status, items, attempt := row.status, row.items, row.attempt;
      printingSince, printedAt, failure := row.printingSince, row.printedAt, row.failure;
    }

    /** Only an open invoice starts printing, and each start is a new attempt. */
    method StartPrinting(startedAt: Time) returns (error: Option<I.PrintError>)
      modifies this
      ensures error == if old(status) == I.Open then None else Some(I.NotPrintable)
      ensures Row() == if error.Some? then old(Row())
                       else old(Row()).(status := I.Printing, printingSince := Some(startedAt),
                                        attempt := old(attempt) + 1, failure := None)
    {
      if status != I.Open {
        return Some(I.NotPrintable);
      }
      status, printingSince, attempt, failure := I.Printing, Some(startedAt), attempt + 1, None;
      error := None;
    }

    /** Any invoice closes, and a closed one stays as it was. */
    method Close(printedAt: Time)
      modifies this
      ensures Row() == I.Close(old(Row()), printedAt)
      ensures Row() == if old(status) == I.Closed then old(Row())
                       else old(Row()).(status := I.Closed, printedAt := Some(printedAt), printingSince := None,
                                        failure := None)
    {
      if status == I.Closed {
        return;
      }
      status, this.printedAt, printingSince, failure := I.Closed, Some(printedAt), None, None;
    }

    method Reopen(code: string) returns (error: Option<I.PrintError>)
      modifies this
      ensures error == if old(status) == I.Printing then None else Some(I.InvalidTransition)
      ensures Row() == if error.Some? then old(Row())
                       else old(Row()).(status := I.Open, printingSince := None, failure := Some(code))
    {
      if status != I.Printing {
        return Some(I.InvalidTransition);
      }
      status, printingSince, failure := I.Open, None, Some(code);
      error := None;
    }
  }

  class Database {
    var invoices: map<Uuid, I.Invoice>
    var processed: map<Uuid, Time>
    const outbox: Outbox

    constructor ()
      ensures outbox.Valid() && fresh(outbox) && invoices == map[] && processed == map[] && outbox.rows == map[]
    {
      invoices, processed := map[], map[];
      outbox := new Outbox();
    }

    /** Stores an open invoice with its items in one transaction, which the
        constraints of the two tables let through or undo. */
    method Create(id: Uuid, items: seq<I.Item>) returns (created: bool)
      modifies this`invoices
      ensures created <==>
        && id !in old(invoices)
        && (forall i :: 0 <= i < |items| ==> items[i].quantity > 0)
        && (forall i, j :: 0 <= i < j < |items| ==> items[i].product != items[j].product)
      ensures invoices == if created then old(invoices)[id := I.Invoice(I.Open, items, 0, None, None, None)]
                          else old(invoices)
    {
      if id in invoices {
        return false;
      }
      var begin := invoices;
      var stored: seq<I.Item> := [];
      for index := 0 to |items|
        invariant stored == items[..index]
      {
        stored := stored + [items[index]];
      }
      assert stored == items;
      invoices := invoices[id := I.NewInvoice(stored)];
      created := I.ValidItems(stored);
      if !created {
        invoices := begin;
      }
    }

    /** Moves an open invoice to PRINTING and records its request, both or neither. */
    method StartPrinting(id: Uuid, request: Uuid, now: Time) returns (result: Result<I.Invoice, I.PrintError>)
      requires outbox.Valid()
      modifies this`invoices, outbox
      ensures outbox.Valid()
      ensures id !in old(invoices) ==> result == Err(I.InvoiceNotFound)
      ensures id in old(invoices) ==>
        var started := I.StartPrinting(old(invoices)[id], now);
        result == if started.Ok? && request in old(outbox.rows) then Err(I.EnqueueFailed) else started
      ensures result.Err? ==> invoices == old(invoices) && outbox.rows == old(outbox.rows)
      ensures result.Ok? ==>
        && invoices == old(invoices)[id := result.value]
        && outbox.rows == old(outbox.rows)[request := Row(
             Message(request, PrintRequested(id, result.value.attempt, I.RequestLines(result.value.items))),
             old(outbox.nextSequence), 0, now, None)]
    {
      if id !in invoices {
        return Err(I.InvoiceNotFound);
      }
      var begin := invoices;
      var invoice := new InvoiceObject(invoices[id]);
      if invoice.items == [] {
        return Err(I.InvalidInvoice);
      }
      var error := invoice.StartPrinting(now);
      if error.Some? {
        return Err(error.value);
      }
      invoices := invoices[id := invoice.Row()];
      var lines := RequestLines(invoice.items);
      var enqueued := outbox.EnqueueTx(Message(request, PrintRequested(id, invoice.attempt, lines)), now);
      if !enqueued {
        invoices := begin;
        return Err(I.EnqueueFailed);
      }
      result := Ok(invoice.Row());
    }

    /** Closes a printed invoice whichever attempt the confirmation came from. */
    method CloseTx(id: Uuid, now: Time) returns (error: Option<I.PrintError>)
      modifies this`invoices
      ensures id !in old(invoices) ==> error == Some(I.InvoiceNotFound) && invoices == old(invoices)
      ensures id in old(invoices) ==> error == None && invoices == old(invoices)[id := I.Close(old(invoices)[id], now)]
    {
      if id !in invoices {
        return Some(I.InvoiceNotFound);
      }
      var invoice := new InvoiceObject(invoices[id]);
      if invoice.status == I.Closed {
        assert invoices == invoices[id := invoices[id]];
        return None;
      }
      invoice.Close(now);
      invoices := invoices[id := invoice.Row()];
      error := None;
    }

    /** Reopens an invoice after a rejection of the attempt it is printing. */
    method ReopenTx(id: Uuid, attempt: nat, code: string) returns (error: Option<I.PrintError>)
      modifies this`invoices
      ensures id !in old(invoices) ==> error == Some(I.InvoiceNotFound) && invoices == old(invoices)
      ensures id in old(invoices) ==>
        error == None && invoices == old(invoices)[id := I.Reopen(old(invoices)[id], attempt, code)]
    {
      if id !in invoices {
        return Some(I.InvoiceNotFound);
      }
      assert invoices == invoices[id := invoices[id]];
      var invoice := new InvoiceObject(invoices[id]);
      if invoice.status != I.Printing {
        return None;
      }
      if attempt != 0 && attempt != invoice.attempt {
        return None;
      }
      error := invoice.Reopen(code);
      if error.Some? {
        return;
      }
      invoices := invoices[id := invoice.Row()];
    }

    /** Reopens every invoice printing for longer than the timeout. */
    method ReopenStalePrintings(timeout: Time, now: Time) returns (reopened: nat)
      modifies this`invoices
      ensures invoices == I.ReopenAll(old(invoices), now, timeout)
      ensures reopened == |set id | id in old(invoices) && id in invoices && invoices[id] != old(invoices)[id]|
    {
      var stale := set id | id in invoices && I.IsStale(invoices[id], now, timeout);
      I.ReopensExactlyTheStale(invoices, now, timeout);
      reopened := |stale|;
      invoices := map id | id in invoices :: I.ReopenStale(invoices[id], now, timeout);
      assert stale == set id | id in old(invoices) && id in invoices && invoices[id] != old(invoices)[id];
    }

    /** Retention of the inbox. */
    method DeleteProcessedBefore(age: Time, now: Time)
      modifies this`processed
      ensures processed == map id | id in old(processed) && old(processed)[id] >= now - age :: old(processed)[id]
    {
      processed := map id | id in processed && processed[id] >= now - age :: processed[id];
    }

    /** The handler of one answer. */
    method StockResultHandler(message: Message, now: Time) returns (error: Option<I.PrintError>)
      modifies this`invoices
      ensures IsAnswer(message.body) && message.body.invoice in old(invoices) ==>
        error == None && invoices == I.Settle(old(invoices), message.body, now)
      ensures IsAnswer(message.body) && message.body.invoice !in old(invoices) ==> error == Some(I.InvoiceNotFound)
      ensures !IsAnswer(message.body) ==> error == None
      ensures !(IsAnswer(message.body) && message.body.invoice in old(invoices)) ==> invoices == old(invoices)
    {
      match message.body {
        case Debited(invoice, _) => error := CloseTx(invoice, now);
        case Rejected(invoice, attempt, code) => error := ReopenTx(invoice, attempt, code);
        case PrintRequested(_, _, _) => error := None;
      }
    }

    /** One attempt at one delivery: the inbox record and the effect are committed
        together or not at all. */
    method HandleOnce(message: Message, now: Time) returns (handled: bool)
      modifies this`invoices, this`processed
      ensures handled <==> message.id in old(processed) || !IsAnswer(message.body) || message.body.invoice in old(invoices)
      ensures message.id in old(processed) || !handled ==> invoices == old(invoices) && processed == old(processed)
      ensures message.id !in old(processed) && handled ==>
        && processed == old(processed)[message.id := now]
        && invoices == if IsAnswer(message.body) then I.Settle(old(invoices), message.body, now) else old(invoices)
    {
      var beginInvoices, beginProcessed := invoices, processed;
      if message.id in processed {
        return true;
      }
      processed := processed[message.id := now];
      var error := StockResultHandler(message, now);
      if error.Some? {
        invoices, processed := beginInvoices, beginProcessed;
        return false;
      }
      handled := true;
    }
  }

  /** The items of the event, appended one by one in code order. */
  method RequestLines(items: seq<I.Item>) returns (lines: seq<Line>)
    ensures lines == I.RequestLines(items)
  {
    var ordered := Sort(items, I.CodeLeq);
    lines := [];
    for k := 0 to |ordered|
      invariant lines == I.LinesOf(ordered[..k])
    {
      lines := lines + [Line(ordered[k].product, ordered[k].quantity)];
      assert ordered[..k + 1] == ordered[..k] + [ordered[k]];
    }
    assert ordered[..|ordered|] == ordered;
  }
}
