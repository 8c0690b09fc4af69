/** An invoice and its print life cycle: backend/internal/billing/invoice.go and
    the row changes of print_store.go. */
module Invoices {
  import opened Common
  import opened Contracts
  import opened Sorting

  datatype Status = Open | Printing | Closed

  datatype Item = Item(product: Uuid, code: string, description: string, quantity: int)

  datatype Invoice = Invoice(
    status: Status,
    items: seq<Item>,
    attempt: nat,
    printingSince: Option<Time>,
    printedAt: Option<Time>,
    failure: Option<string>)

  datatype PrintError = InvoiceNotFound | InvalidInvoice | NotPrintable | InvalidTransition | EnqueueFailed

  const TIMEOUT_CODE := "print_timeout"

  /** What the constraints of invoice_items allow. */
  predicate ValidItems(items: seq<Item>) {
    && (forall i :: i in items ==> i.quantity > 0)
    && (forall i, j :: 0 <= i < j < |items| ==> items[i].product != items[j].product)
  }

  function NewInvoice(items: seq<Item>): Invoice {
    Invoice(Open, items, 0, None, None, None)
  }

  predicate CodeLeq(a: Item, b: Item) {
    StringLeq(a.code, b.code)
  }

  function LinesOf(items: seq<Item>): seq<Line> {
    seq(|items|, i requires 0 <= i < |items| => Line(items[i].product, items[i].quantity))
  }

  /** The lines of a print request: the items as read back, in code order. */
  function RequestLines(items: seq<Item>): seq<Line> {
    LinesOf(Sort(items, CodeLeq))
  }

  /** StartPrinting on a locked row. */
  function StartPrinting(invoice: Invoice, now: Time): Result<Invoice, PrintError> {
    if invoice.items == [] then Err(InvalidInvoice)
    else if invoice.status != Open then Err(NotPrintable)
    else Ok(invoice.(status := Printing, printingSince := Some(now), attempt := invoice.attempt + 1, failure := None))
  }

  /** CloseTx: whichever attempt was confirmed. */
  function Close(invoice: Invoice, now: Time): Invoice {
    if invoice.status == Closed then invoice
    else invoice.(status := Closed, printedAt := Some(now), printingSince := None, failure := None)
  }

  /** ReopenTx: only while the attempt the rejection answers is still printing. */
  function Reopen(invoice: Invoice, attempt: nat, code: string): Invoice {
    if invoice.status != Printing then invoice
    else if attempt != 0 && attempt != invoice.attempt then invoice
    else invoice.(status := Open, printingSince := None, failure := Some(code))
  }

  predicate IsStale(invoice: Invoice, now: Time, timeout: Time) {
    invoice.status == Printing && invoice.printingSince.Some? && invoice.printingSince.value < now - timeout
  }

  function ReopenStale(invoice: Invoice, now: Time, timeout: Time): Invoice {
    if IsStale(invoice, now, timeout)
    then invoice.(status := Open, printingSince := None, failure := Some(TIMEOUT_CODE))
    else invoice
  }

  /** The effect of an answer of the stock service on the invoices. */
  function Settle(invoices: map<Uuid, Invoice>, answer: Body, now: Time): map<Uuid, Invoice>
    requires IsAnswer(answer) && answer.invoice in invoices
  {
    var invoice := invoices[answer.invoice];
    invoices[answer.invoice := match answer
      case Debited(_, _) => Close(invoice, now)
      case Rejected(_, attempt, code) => Reopen(invoice, attempt, code)]
  }

  function ReopenAll(invoices: map<Uuid, Invoice>, now: Time, timeout: Time): map<Uuid, Invoice> {
    map id | id in invoices :: ReopenStale(invoices[id], now, timeout)
  }

  lemma LinesOfConcat(a: seq<Item>, b: seq<Item>)
    ensures LinesOf(a + b) == LinesOf(a) + LinesOf(b)
  {
  }

  lemma {:induction false} LinesOfPermutation(a: seq<Item>, b: seq<Item>)
    requires multiset(a) == multiset(b)
    ensures multiset(LinesOf(a)) == multiset(LinesOf(b))
  {
    if a == [] {
      assert |multiset(b)| == 0;
    } else {
      assert a == [a[0]] + a[1..];
      var k := TakeOut(a[0], a[1..], b);
      LinesOfPermutation(a[1..], b[..k] + b[k + 1..]);
      LinesOfConcat(b[..k], b[k + 1..]);
      LinesOfConcat([b[k]], b[k + 1..]);
      LinesOfConcat(b[..k], [b[k]] + b[k + 1..]);
      LinesOfConcat([a[0]], a[1..]);
      assert b == b[..k] + ([b[k]] + b[k + 1..]);
    }
  }

  /** The request asks for exactly the stored items. */
  lemma RequestLinesAreTheItems(items: seq<Item>)
    ensures multiset(RequestLines(items)) == multiset(LinesOf(items))
  {
    SortIsPermutation(items, CodeLeq);
    LinesOfPermutation(Sort(items, CodeLeq), items);
  }

  /** And asks for them in the order of their codes, line by line. */
  lemma RequestLinesInCodeOrder(items: seq<Item>) returns (ordered: seq<Item>)
    ensures multiset(ordered) == multiset(items)
    ensures forall i, j :: 0 <= i < j < |ordered| ==> StringLeq(ordered[i].code, ordered[j].code)
    ensures |RequestLines(items)| == |ordered| == |items|
    ensures forall k :: 0 <= k < |ordered| ==> RequestLines(items)[k] == Line(ordered[k].product, ordered[k].quantity)
  {
    ordered := Sort(items, CodeLeq);
    SortIsPermutation(items, CodeLeq);
    forall a, b ensures CodeLeq(a, b) || CodeLeq(b, a) {
      StringLeqTotal(a.code, b.code);
    }
    forall a, b, c | CodeLeq(a, b) && CodeLeq(b, c) ensures CodeLeq(a, c) {
      StringLeqTransitive(a.code, b.code, c.code);
    }
    SortIsSorted(items, CodeLeq);
    assert forall i, j :: 0 <= i < j < |ordered| ==> CodeLeq(ordered[i], ordered[j]);
  }

  /** A print starts exactly for an open invoice with items; it is then printing since
      now, under the next attempt, without an old failure. Having no items is said
      before having another status. */
  lemma PrintStartsIff(invoice: Invoice, now: Time)
    ensures var r := StartPrinting(invoice, now);
      && (r.Ok? <==> |invoice.items| > 0 && invoice.status.Open?)
      && (r == Err(InvalidInvoice) <==> |invoice.items| == 0)
      && (r == Err(NotPrintable) <==> |invoice.items| > 0 && !invoice.status.Open?)
      && (r.Ok? ==> r.value == Invoice(Printing, invoice.items, invoice.attempt + 1, Some(now), invoice.printedAt, None))
  {
  }

  /** A confirmation closes its invoice whatever it was doing and whichever attempt it
      confirms, stamping the moment; a closed invoice keeps the moment it has, and no
      other invoice changes. */
  lemma ConfirmationCloses(invoices: map<Uuid, Invoice>, i: Uuid, attempt: nat, now: Time)
    requires i in invoices
    ensures var before, after := invoices[i], Settle(invoices, Body.Debited(i, attempt), now);
      && after.Keys == invoices.Keys
      && (forall j :: j in invoices && j != i ==> after[j] == invoices[j])
      && after[i] == if before.status.Closed? then before
                     else Invoice(Closed, before.items, before.attempt, None, Some(now), None)
  {
  }

  /** The reconciler reopens exactly the invoices printing since before the timeout:
      their status, the moment they started and the failure change, and nothing else
      about them or about any other invoice. */
  lemma ReopensExactlyTheStale(invoices: map<Uuid, Invoice>, now: Time, timeout: Time)
    ensures var after := ReopenAll(invoices, now, timeout);
      && after.Keys == invoices.Keys
      && forall id :: id in invoices ==>
           var before := invoices[id];
           var stale := before.status.Printing? && before.printingSince.Some? && before.printingSince.value < now - timeout;
           && (stale ==> after[id] == Invoice(Open, before.items, before.attempt, None, before.printedAt, Some("print_timeout")))
           && (!stale ==> after[id] == before)
           && (stale <==> after[id] != before)
  {
  }
}
