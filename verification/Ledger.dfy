/** The tables of the stock service and what one transaction does to them:
    backend/internal/stock (debit.go, bulk.go, store.go, movement.go). */
module Ledger {
  import opened Common
  import opened Contracts
  import opened Sorting

  /** The range of an INTEGER column. */
  const MAX_INTEGER := 2_147_483_647

  datatype Product = Product(code: string, description: string, balance: int, version: int)

  datatype Source = Registration | Edit | Adjusted | Invoiced(invoice: Uuid)

  datatype Movement = Movement(product: Uuid, delta: int, balanceAfter: int, source: Source)

  /** `codes` is the unique index on the upper-cased code. */
  datatype Tables = Tables(
    products: map<Uuid, Product>,
    codes: map<string, Uuid>,
    movements: seq<Movement>,
    debits: set<Uuid>)

  const EMPTY := Tables(map[], map[], [], {})

  datatype Error =
    | InvalidQuantity
    | ProductNotFound(product: Uuid)
    | CodeNotFound(code: string)
    | InsufficientBalance(product: Uuid, available: int, required: int)
    | DuplicatedCode
    | ProductChanged
    /** An error the database raises and no domain error stands for. */
    | DatabaseError

  /** What a statement left behind in its transaction, and whether it failed. */
  datatype Outcome = Outcome(tables: Tables, error: Option<Error>)

  function UpperChar(c: char): char {
    if 'a' <= c <= 'z' then c - 32 as char else c
  }

  function Upper(s: string): string {
    seq(|s|, i requires 0 <= i < |s| => UpperChar(s[i]))
  }

  // ---- Writing a balance ------------------------------------------------

  /** recordMovementTx: a change of nothing is not a movement. */
  function RecordMovement(movements: seq<Movement>, movement: Movement): seq<Movement> {
    if movement.delta == 0 then movements else movements + [movement]
  }

  /** One conditional UPDATE that hit its row, with the movement beside it. */
  function Write(t: Tables, p: Uuid, description: string, balance: int, source: Source): Tables
    requires p in t.products
  {
    var old_ := t.products[p];
    t.(products := t.products[p := old_.(description := description, balance := balance, version := old_.version + 1)],
       movements := RecordMovement(t.movements, Movement(p, balance - old_.balance, balance, source)))
  }

  function Move(t: Tables, p: Uuid, delta: int, source: Source): Tables
    requires p in t.products
  {
    Write(t, p, t.products[p].description, t.products[p].balance + delta, source)
  }

  // ---- Debiting an invoice ----------------------------------------------

  function DebitLine(t: Tables, invoice: Uuid, line: Line): Outcome {
    if line.quantity <= 0 then Outcome(t, Some(InvalidQuantity))
    else if line.product !in t.products then Outcome(t, Some(ProductNotFound(line.product)))
    else if t.products[line.product].balance < line.quantity then
      Outcome(t, Some(InsufficientBalance(line.product, t.products[line.product].balance, line.quantity)))
    else Outcome(Move(t, line.product, -line.quantity, Invoiced(invoice)), None)
  }

  /** The loop over the ordered lines; a failure keeps what was already written. */
  function DebitLines(t: Tables, invoice: Uuid, ordered: seq<Line>): Outcome
    decreases |ordered|
  {
    if ordered == [] then Outcome(t, None)
    else
      var first := DebitLine(t, invoice, ordered[0]);
      if first.error.Some? then first else DebitLines(first.tables, invoice, ordered[1..])
  }

  function DebitTx(t: Tables, invoice: Uuid, ordered: seq<Line>): Outcome {
    if invoice in t.debits then Outcome(t, None)
    else DebitLines(t.(debits := t.debits + {invoice}), invoice, ordered)
  }

  /** DebitTx in its savepoint: a failure undoes everything it wrote. */
  function DebitInSavepoint(t: Tables, invoice: Uuid, ordered: seq<Line>): Outcome {
    var attempt := DebitTx(t, invoice, ordered);
    if attempt.error.Some? then Outcome(t, attempt.error) else attempt
  }

  /** buildAnswer: the outcome goes back under the attempt that asked. */
  function AnswerTo(request: Body, error: Option<Error>): Body
    requires request.PrintRequested?
  {
    match error
    case None => Body.Debited(request.invoice, request.attempt)
    case Some(e) => Rejected(request.invoice, request.attempt, ErrorCode(e))
  }

  function ErrorCode(e: Error): string {
    match e
    case InvalidQuantity => "invalid_product"
    case ProductNotFound(_) => "product_not_found"
    case CodeNotFound(_) => "product_not_found"
    case InsufficientBalance(_, _, _) => "insufficient_balance"
    case DuplicatedCode => "duplicated_product_code"
    case ProductChanged => "product_changed"
    case DatabaseError => "internal_error"
  }

  /** What the catalogue must offer for the lines to be debited, with no order in it. */
  ghost predicate Fulfils(products: map<Uuid, Product>, lines: seq<Line>) {
    forall l :: l in lines ==>
      && l.quantity > 0
      && l.product in products
      && Total(lines, l.product) <= products[l.product].balance
  }

  /** The catalogue after the lines were taken out of it. */
  ghost predicate TakenOut(before: map<Uuid, Product>, after: map<Uuid, Product>, lines: seq<Line>) {
    && after.Keys == before.Keys
    && forall p :: p in before ==>
      after[p] == before[p].(balance := before[p].balance - Total(lines, p),
                             version := before[p].version + Count(lines, p))
  }

  lemma FulfilsOfPermutation(products: map<Uuid, Product>, a: seq<Line>, b: seq<Line>)
    requires multiset(a) == multiset(b) && Fulfils(products, a)
    ensures Fulfils(products, b)
  {
    forall l | l in b
      ensures l.quantity > 0 && l.product in products && Total(b, l.product) <= products[l.product].balance
    {
      assert l in multiset(b);
      assert l in a;
      TotalOfPermutation(a, b, l.product);
    }
  }

  /** The first line can be taken, and then the rest, exactly when all can. */
  lemma FulfilsStep(t: Tables, invoice: Uuid, ordered: seq<Line>)
    requires ordered != []
    ensures Fulfils(t.products, ordered) <==>
      (var first := DebitLine(t, invoice, ordered[0]);
       first.error.None? && Fulfils(first.tables.products, ordered[1..]))
  {
    var first := DebitLine(t, invoice, ordered[0]);
    var l0, rest := ordered[0], ordered[1..];
    assert forall l :: l in ordered <==> l == l0 || l in rest;
    if Fulfils(t.products, ordered) {
      TotalIsPositive(ordered, l0.product);
    }
    if first.error.None? && Fulfils(first.tables.products, rest) {
      TotalIsPositive(rest, l0.product);
    }
  }

  /** Sequential conditional decrements succeed exactly when the totals fit,
      and then they take exactly the totals. */
  lemma {:induction false} DebitLinesCharacterised(t: Tables, invoice: Uuid, ordered: seq<Line>)
    ensures var r := DebitLines(t, invoice, ordered);
      && (r.error.None? <==> Fulfils(t.products, ordered))
      && (r.error.None? ==> TakenOut(t.products, r.tables.products, ordered))
      && r.tables.debits == t.debits && r.tables.codes == t.codes
    decreases |ordered|
  {
    if ordered != [] {
      FulfilsStep(t, invoice, ordered);
      DebitLinesCharacterised(DebitLine(t, invoice, ordered[0]).tables, invoice, ordered[1..]);
    }
  }

  /** A print request for an invoice not yet debited succeeds exactly when every
      quantity is positive, every product exists and covers what the lines ask
      of it in total; otherwise nothing at all changes. */
  lemma DebitSucceedsIff(t: Tables, invoice: Uuid, lines: seq<Line>, ordered: seq<Line>)
    requires invoice !in t.debits && LockOrder(ordered, lines)
    ensures var r := DebitInSavepoint(t, invoice, ordered);
      && (r.error.None? <==> Fulfils(t.products, lines))
      && (r.error.None? ==> r.tables.debits == t.debits + {invoice} && TakenOut(t.products, r.tables.products, lines))
      && (r.error.Some? ==> r.tables == t)
  {
    DebitLinesCharacterised(t.(debits := t.debits + {invoice}), invoice, ordered);
    if Fulfils(t.products, lines) {
      FulfilsOfPermutation(t.products, lines, ordered);
    }
    if Fulfils(t.products, ordered) {
      FulfilsOfPermutation(t.products, ordered, lines);
    }
    forall p ensures Total(ordered, p) == Total(lines, p) && Count(ordered, p) == Count(lines, p) {
      TotalOfPermutation(ordered, lines, p);
    }
  }

  // ---- What the answer and the history say ---------------------------------

  /** The lines before it taken, line k can be taken too. */
  ghost predicate Takable(products: map<Uuid, Product>, ordered: seq<Line>, k: nat)
    requires k < |ordered|
  {
    var line := ordered[k];
    && line.quantity > 0
    && line.product in products
    && line.quantity <= products[line.product].balance - Total(ordered[..k], line.product)
  }

  /** Line k is the first, in lock order, that cannot be taken. */
  ghost predicate FirstFault(products: map<Uuid, Product>, ordered: seq<Line>, k: nat) {
    && k < |ordered|
    && !Takable(products, ordered, k)
    && forall j :: 0 <= j < k ==> Takable(products, ordered, j)
  }

  /** What billing is told, read off the catalogue and the lines alone: a
      confirmation when the invoice was debited before or every line can be taken,
      and otherwise why the first line at fault cannot be. */
  ghost predicate Reports(t: Tables, request: Body, ordered: seq<Line>, answer: Body)
    requires request.PrintRequested?
  {
    && (request.invoice in t.debits || (forall k :: 0 <= k < |ordered| ==> Takable(t.products, ordered, k)) ==>
        answer == Body.Debited(request.invoice, request.attempt))
    && (request.invoice !in t.debits ==> forall k: nat :: FirstFault(t.products, ordered, k) ==>
        answer == Rejected(request.invoice, request.attempt,
          if ordered[k].quantity <= 0 then "invalid_product"
          else if ordered[k].product !in t.products then "product_not_found"
          else "insufficient_balance"))
  }

  lemma TakableLater(t: Tables, invoice: Uuid, ordered: seq<Line>, k: nat)
    requires k + 1 < |ordered| && DebitLine(t, invoice, ordered[0]).error.None?
    ensures Takable(t.products, ordered, k + 1)
       <==> Takable(DebitLine(t, invoice, ordered[0]).tables.products, ordered[1..], k)
  {
    assert ordered[..k + 1][1..] == ordered[1..][..k];
  }

  /** The loop stops at the first line at fault, and its error names the fault. */
  lemma {:induction false} FaultStops(t: Tables, invoice: Uuid, ordered: seq<Line>, k: nat)
    requires FirstFault(t.products, ordered, k)
    ensures DebitLines(t, invoice, ordered).error.Some?
    ensures ErrorCode(DebitLines(t, invoice, ordered).error.value) ==
      if ordered[k].quantity <= 0 then "invalid_product"
      else if ordered[k].product !in t.products then "product_not_found"
      else "insufficient_balance"
    decreases |ordered|
  {
    if k > 0 {
      assert Takable(t.products, ordered, 0);
      var t1 := DebitLine(t, invoice, ordered[0]).tables;
      forall j | 0 <= j < k - 1 ensures Takable(t1.products, ordered[1..], j) {
        TakableLater(t, invoice, ordered, j);
      }
      TakableLater(t, invoice, ordered, k - 1);
      FaultStops(t1, invoice, ordered[1..], k - 1);
    }
  }

  lemma {:induction false} NoFaultGoesThrough(t: Tables, invoice: Uuid, ordered: seq<Line>)
    requires forall k :: 0 <= k < |ordered| ==> Takable(t.products, ordered, k)
    ensures DebitLines(t, invoice, ordered).error.None?
    decreases |ordered|
  {
    if ordered != [] {
      assert Takable(t.products, ordered, 0);
      var t1 := DebitLine(t, invoice, ordered[0]).tables;
      forall j | 0 <= j < |ordered| - 1 ensures Takable(t1.products, ordered[1..], j) {
        TakableLater(t, invoice, ordered, j);
      }
      NoFaultGoesThrough(t1, invoice, ordered[1..]);
    }
  }

  /** The answer to a request says of the first line at fault whether its quantity is
      not positive, its product unknown or its balance, less what the lines before it
      took, too small; the difference matters to the operator. */
  lemma AnswerNamesTheFault(t: Tables, request: Body, ordered: seq<Line>)
    requires request.PrintRequested?
    ensures Reports(t, request, ordered, AnswerTo(request, DebitInSavepoint(t, request.invoice, ordered).error))
  {
    if request.invoice !in t.debits {
      var t1 := t.(debits := t.debits + {request.invoice});
      if forall k :: 0 <= k < |ordered| ==> Takable(t.products, ordered, k) {
        NoFaultGoesThrough(t1, request.invoice, ordered);
      }
      forall k: nat | FirstFault(t.products, ordered, k)
        ensures DebitLines(t1, request.invoice, ordered).error.Some?
        ensures ErrorCode(DebitLines(t1, request.invoice, ordered).error.value) ==
          if ordered[k].quantity <= 0 then "invalid_product"
          else if ordered[k].product !in t.products then "product_not_found"
          else "insufficient_balance"
      {
        FaultStops(t1, request.invoice, ordered, k);
      }
    }
  }

  /** The row of the history for line k: what it took, what was left, and for which
      invoice. */
  ghost function Withdrawal(products: map<Uuid, Product>, invoice: Uuid, ordered: seq<Line>, k: nat): Movement
    requires k < |ordered| && ordered[k].product in products
  {
    var p := ordered[k].product;
    Movement(p, -ordered[k].quantity, products[p].balance - Total(ordered[..k + 1], p), Invoiced(invoice))
  }

  lemma WithdrawalLater(t: Tables, invoice: Uuid, ordered: seq<Line>, k: nat)
    requires k + 1 < |ordered| && DebitLine(t, invoice, ordered[0]).error.None?
    requires ordered[k + 1].product in t.products
    ensures var t1 := DebitLine(t, invoice, ordered[0]).tables;
      && ordered[k + 1].product in t1.products
      && Withdrawal(t.products, invoice, ordered, k + 1) == Withdrawal(t1.products, invoice, ordered[1..], k)
  {
    assert ordered[..k + 2][1..] == ordered[1..][..k + 1];
  }

  lemma WithdrawalFirst(t: Tables, invoice: Uuid, ordered: seq<Line>)
    requires ordered != [] && DebitLine(t, invoice, ordered[0]).error.None?
    ensures DebitLine(t, invoice, ordered[0]).tables.movements
         == t.movements + [Withdrawal(t.products, invoice, ordered, 0)]
  {
    assert ordered[..1][1..] == [] && ordered[..1][0] == ordered[0];
    assert Total(ordered[..1], ordered[0].product) == ordered[0].quantity;
  }

  /** A debit that goes through adds one row per line to the history, in the order the
      products are locked, and nothing else. */
  lemma {:induction false} DebitHistory(t: Tables, invoice: Uuid, ordered: seq<Line>)
    requires DebitLines(t, invoice, ordered).error.None?
    ensures var before, after := t.movements, DebitLines(t, invoice, ordered).tables.movements;
      && |after| == |before| + |ordered| && before <= after
      && forall k :: 0 <= k < |ordered| ==>
           ordered[k].product in t.products && after[|before| + k] == Withdrawal(t.products, invoice, ordered, k)
    decreases |ordered|
  {
    if ordered != [] {
      var t1 := DebitLine(t, invoice, ordered[0]).tables;
      WithdrawalFirst(t, invoice, ordered);
      DebitHistory(t1, invoice, ordered[1..]);
      forall k | 0 < k < |ordered|
        ensures ordered[k].product in t.products
        ensures Withdrawal(t.products, invoice, ordered, k) == Withdrawal(t1.products, invoice, ordered[1..], k - 1)
      {
        assert ordered[k] == ordered[1..][k - 1];
        WithdrawalLater(t, invoice, ordered, k - 1);
      }
    }
  }

  // ---- The ledger invariant ---------------------------------------------

  /** The sum of what the history says moved product `p`. */
  function Sum(movements: seq<Movement>, p: Uuid): int {
    if movements == [] then 0
    else
      var last := movements[|movements| - 1];
      Sum(movements[..|movements| - 1], p) + if last.product == p then last.delta else 0
  }

  lemma SumAppend(movements: seq<Movement>, m: Movement, p: Uuid)
    ensures Sum(movements + [m], p) == Sum(movements, p) + if m.product == p then m.delta else 0
  {
    assert (movements + [m])[..|movements|] == movements;
  }

  /** The lines the history says an invoice took, in the order it took them. */
  function InvoiceLines(movements: seq<Movement>, invoice: Uuid): seq<Line> {
    if movements == [] then []
    else
      var last := movements[|movements| - 1];
      InvoiceLines(movements[..|movements| - 1], invoice)
      + if last.source == Invoiced(invoice) then [Line(last.product, -last.delta)] else []
  }

  lemma InvoiceLinesAppend(movements: seq<Movement>, m: Movement, invoice: Uuid)
    ensures InvoiceLines(movements + [m], invoice)
         == InvoiceLines(movements, invoice) + if m.source == Invoiced(invoice) then [Line(m.product, -m.delta)] else []
  {
    assert (movements + [m])[..|movements|] == movements;
  }

  /** Every balance is the sum of its history. */
  ghost predicate BalancesAgree(t: Tables) {
    forall p :: p in t.products ==>
      0 <= t.products[p].balance <= MAX_INTEGER && t.products[p].balance == Sum(t.movements, p)
  }

  /** Every row of the history is a real change of a product of the catalogue,
      and says what the balance became. */
  ghost predicate Chained(movements: seq<Movement>, known: set<Uuid>) {
    movements == [] ||
    (var last, earlier := movements[|movements| - 1], movements[..|movements| - 1];
     && Chained(earlier, known)
     && last.product in known
     && last.delta != 0
     && 0 <= last.balanceAfter == Sum(earlier, last.product) + last.delta)
  }

  ghost predicate CodesIndexed(t: Tables) {
    && (forall p :: p in t.products ==>
        Upper(t.products[p].code) in t.codes && t.codes[Upper(t.products[p].code)] == p)
    && (forall c :: c in t.codes ==> t.codes[c] in t.products && Upper(t.products[t.codes[c]].code) == c)
  }

  ghost predicate Balanced(t: Tables) {
    BalancesAgree(t) && Chained(t.movements, t.products.Keys) && CodesIndexed(t)
  }

  /** Read row by row: each row's `balanceAfter` is the sum of the rows of its
      product up to and including it. */
  lemma {:induction false} ChainedRowByRow(movements: seq<Movement>, known: set<Uuid>, i: nat)
    requires Chained(movements, known) && i < |movements|
    ensures movements[i].product in known && movements[i].delta != 0
    ensures 0 <= movements[i].balanceAfter == Sum(movements[..i + 1], movements[i].product)
  {
    var earlier := movements[..|movements| - 1];
    if i < |earlier| {
      ChainedRowByRow(earlier, known, i);
      assert earlier[..i + 1] == movements[..i + 1];
    } else {
      assert movements[..i + 1] == movements;
    }
  }

  lemma {:induction false} ChainedGrows(movements: seq<Movement>, known: set<Uuid>, more: set<Uuid>)
    requires Chained(movements, known) && known <= more
    ensures Chained(movements, more)
  {
    if movements != [] {
      ChainedGrows(movements[..|movements| - 1], known, more);
    }
  }

  lemma {:induction false} NoHistoryOfUnknown(movements: seq<Movement>, known: set<Uuid>, p: Uuid)
    requires Chained(movements, known) && p !in known
    ensures Sum(movements, p) == 0
  {
    if movements != [] {
      NoHistoryOfUnknown(movements[..|movements| - 1], known, p);
    }
  }

  lemma AppendKeepsChain(movements: seq<Movement>, known: set<Uuid>, m: Movement)
    requires Chained(movements, known) && m.product in known && m.delta != 0
    requires 0 <= m.balanceAfter == Sum(movements, m.product) + m.delta
    ensures Chained(movements + [m], known)
  {
    assert (movements + [m])[..|movements|] == movements;
  }

  lemma WriteKeepsSums(t: Tables, p: Uuid, description: string, balance: int, source: Source)
    requires BalancesAgree(t) && p in t.products && 0 <= balance <= MAX_INTEGER
    ensures BalancesAgree(Write(t, p, description, balance, source))
  {
    var t' := Write(t, p, description, balance, source);
    forall q | q in t'.products ensures t'.products[q].balance == Sum(t'.movements, q) {
      SumAppend(t.movements, Movement(p, balance - t.products[p].balance, balance, source), q);
    }
  }

  lemma WriteKeepsCodes(t: Tables, p: Uuid, description: string, balance: int, source: Source)
    requires CodesIndexed(t) && p in t.products
    ensures CodesIndexed(Write(t, p, description, balance, source))
  {
  }

  lemma WriteKeepsBalanced(t: Tables, p: Uuid, description: string, balance: int, source: Source)
    requires Balanced(t) && p in t.products && 0 <= balance <= MAX_INTEGER
    ensures Balanced(Write(t, p, description, balance, source))
  {
    WriteKeepsSums(t, p, description, balance, source);
    WriteKeepsCodes(t, p, description, balance, source);
    assert Write(t, p, description, balance, source).products.Keys == t.products.Keys;
    if balance != t.products[p].balance {
      AppendKeepsChain(t.movements, t.products.Keys, Movement(p, balance - t.products[p].balance, balance, source));
    }
  }

  lemma WriteFramesInvoices(t: Tables, p: Uuid, description: string, balance: int, source: Source, invoice: Uuid)
    requires p in t.products && source != Invoiced(invoice)
    ensures InvoiceLines(Write(t, p, description, balance, source).movements, invoice)
         == InvoiceLines(t.movements, invoice)
  {
    InvoiceLinesAppend(t.movements, Movement(p, balance - t.products[p].balance, balance, source), invoice);
  }

  lemma DebitLineKeepsBalanced(t: Tables, invoice: Uuid, line: Line)
    requires Balanced(t)
    ensures Balanced(DebitLine(t, invoice, line).tables)
  {
    if DebitLine(t, invoice, line).error.None? {
      var q := t.products[line.product];
      WriteKeepsBalanced(t, line.product, q.description, q.balance - line.quantity, Invoiced(invoice));
    }
  }

  lemma {:induction false} DebitLinesKeepBalanced(t: Tables, invoice: Uuid, ordered: seq<Line>)
    requires Balanced(t)
    ensures Balanced(DebitLines(t, invoice, ordered).tables)
    decreases |ordered|
  {
    if ordered != [] {
      var first := DebitLine(t, invoice, ordered[0]);
      DebitLineKeepsBalanced(t, invoice, ordered[0]);
      if first.error.None? {
        DebitLinesKeepBalanced(first.tables, invoice, ordered[1..]);
      }
    }
  }

  lemma DebitLineRecorded(t: Tables, invoice: Uuid, line: Line, other: Uuid)
    requires DebitLine(t, invoice, line).error.None?
    ensures InvoiceLines(DebitLine(t, invoice, line).tables.movements, other)
         == InvoiceLines(t.movements, other) + if other == invoice then [line] else []
  {
    var balance := t.products[line.product].balance - line.quantity;
    InvoiceLinesAppend(t.movements, Movement(line.product, -line.quantity, balance, Invoiced(invoice)), other);
  }

  /** What a debit leaves in the history: its own lines under its own invoice,
      nothing under any other. */
  lemma {:induction false} DebitLinesRecorded(t: Tables, invoice: Uuid, ordered: seq<Line>, other: Uuid)
    requires DebitLines(t, invoice, ordered).error.None?
    ensures InvoiceLines(DebitLines(t, invoice, ordered).tables.movements, other)
         == InvoiceLines(t.movements, other) + if other == invoice then ordered else []
    decreases |ordered|
  {
    if ordered != [] {
      DebitLineRecorded(t, invoice, ordered[0], other);
      DebitLinesRecorded(DebitLine(t, invoice, ordered[0]).tables, invoice, ordered[1..], other);
      assert ordered == [ordered[0]] + ordered[1..];
    }
  }
}
