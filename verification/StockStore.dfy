/** The stock database as the object the service writes in place: the tables, the
    outbox and the inbox, and the transactions over them
    (backend/internal/stock; consumer.go and inbox.go of the messaging). */
module StockStore {
  import opened Common
  import opened Contracts
  import opened Sorting
  import L = Ledger
  import opened LedgerOperations
  import opened Channels
  import opened Messaging

  /** What happened to one adjustment of a batch. */
  datatype ItemResult = Skipped | Succeeded(product: Uuid) | Failed(error: L.Error) | Invalid(why: Flaw)

  datatype Flaw = NoProduct | ZeroDelta | DeltaTooLarge | Duplicated(earlier: nat)

  const MAX_BALANCE := 1_000_000_000

  // ---- Validating a batch -------------------------------------------------------

  function KeyOf(a: Adjustment): (Uuid, string) {
    (a.product, L.Upper(a.code))
  }

  ghost predicate Sound(a: Adjustment) {
    && (a.product != NIL || a.code != "")
    && a.delta != 0
    && -MAX_BALANCE <= a.delta <= MAX_BALANCE
  }

  ghost predicate DistinctKeys(adjustments: seq<Adjustment>) {
    forall i, j :: 0 <= i < j < |adjustments| ==> KeyOf(adjustments[i]) != KeyOf(adjustments[j])
  }

  /** j is the first sound adjustment with the key of i, before i. */
  ghost predicate IsEarlier(adjustments: seq<Adjustment>, i: nat, j: nat)
    requires i < |adjustments|
  {
    && j < i
    && Sound(adjustments[j])
    && KeyOf(adjustments[j]) == KeyOf(adjustments[i])
    && forall k :: 0 <= k < j && Sound(adjustments[k]) ==> KeyOf(adjustments[k]) != KeyOf(adjustments[i])
  }

  /** What is wrong with an adjustment on its own terms is said first. */
  ghost predicate ExplainsItem(adjustments: seq<Adjustment>, i: nat, r: ItemResult)
    requires i < |adjustments|
  {
    var a := adjustments[i];
    if a.product == NIL && a.code == "" then r == Invalid(NoProduct)
    else if a.delta == 0 then r == Invalid(ZeroDelta)
    else if !(-1_000_000_000 <= a.delta <= 1_000_000_000) then r == Invalid(DeltaTooLarge)
    else if r.Invalid? then r.why.Duplicated? && IsEarlier(adjustments, i, r.why.earlier)
    else r == Skipped && forall k :: 0 <= k < i && Sound(adjustments[k]) ==> KeyOf(adjustments[k]) != KeyOf(a)
  }

  /** A batch is valid exactly when every movement is sound and no two share a
      key; otherwise each item says what is wrong with it, a repeated one naming
      where the key was first sent. */
  method ValidateAdjustments(adjustments: seq<Adjustment>) returns (results: seq<ItemResult>, valid: bool)
    ensures |results| == |adjustments|
    ensures valid <==> (forall a :: a in adjustments ==> Sound(a)) && DistinctKeys(adjustments)
    ensures forall i :: 0 <= i < |adjustments| ==> ExplainsItem(adjustments, i, results[i])
  {
    results := seq(|adjustments|, i => Skipped);
    valid := true;
    var seen: map<(Uuid, string), nat> := map[];
    ghost var flawed := 0;
    for index := 0 to |adjustments|
      invariant |results| == |adjustments|
      invariant forall i :: index <= i < |results| ==> results[i] == Skipped
      invariant forall i :: 0 <= i < index ==> ExplainsItem(adjustments, i, results[i])
      invariant if valid then forall i :: 0 <= i < index ==> results[i] == Skipped
                else flawed < index && results[flawed] != Skipped
      invariant forall key :: key in seen ==>
        && seen[key] < index && Sound(adjustments[seen[key]]) && KeyOf(adjustments[seen[key]]) == key
        && forall k :: 0 <= k < seen[key] && Sound(adjustments[k]) ==> KeyOf(adjustments[k]) != key
      invariant forall k :: 0 <= k < index && Sound(adjustments[k]) ==> KeyOf(adjustments[k]) in seen
    {
      var adjustment := adjustments[index];
      var key := KeyOf(adjustment);
      if adjustment.product == NIL && adjustment.code == "" {
        results := results[index := Invalid(NoProduct)];
        valid, flawed := false, index;
      } else if adjustment.delta == 0 {
        results := results[index := Invalid(ZeroDelta)];
        valid, flawed := false, index;
      } else if adjustment.delta > MAX_BALANCE || adjustment.delta < -MAX_BALANCE {
        results := results[index := Invalid(DeltaTooLarge)];
        valid, flawed := false, index;
      } else if key in seen {
        results := results[index := Invalid(Duplicated(seen[key]))];
        assert IsEarlier(adjustments, index, seen[key]);
        valid, flawed := false, index;
      } else {
        seen := seen[key := index];
      }
    }
    if valid {
      forall i | 0 <= i < |adjustments| ensures Sound(adjustments[i]) {
        assert ExplainsItem(adjustments, i, results[i]);
      }
      forall i, j | 0 <= i < j < |adjustments| ensures KeyOf(adjustments[i]) != KeyOf(adjustments[j]) {
        assert ExplainsItem(adjustments, j, results[j]);
      }
    } else {
      assert ExplainsItem(adjustments, flawed, results[flawed]);
      assert adjustments[flawed] in adjustments;
    }
  }

  /** What validation and the sort make of a batch: it is sent on, and applied in
      this order. */
  ghost predicate AppliedAs(adjustments: seq<Adjustment>, ordered: seq<Adjustment>) {
    && (forall a :: a in adjustments ==> Sound(a)) && DistinctKeys(adjustments)
    && ordered == Sort(adjustments, AdjustmentLeq)
  }

  /** Validation compares an id and a code together, so one product named in two
      ways passes: by its id and by its code, or by its id beside two codes. The
      sort then decides. Here one unit is added to an empty product and one taken;
      in total that fits, but the taking sorts first and the batch is refused. */
  lemma SameProductTwiceIsRefused() returns (t: L.Tables, byIdAndCode: seq<Adjustment>, besideTwoCodes: seq<Adjustment>)
    ensures t == Perform(L.EMPTY, CreateProduct(5, "A", "a", 0)).tables && L.Balanced(t)
    ensures byIdAndCode == [Adjustment(5, "", 1), Adjustment(NIL, "A", -1)]
    ensures besideTwoCodes == [Adjustment(5, "Z", 1), Adjustment(5, "A", -1)]
    ensures AppliedAs(byIdAndCode, [byIdAndCode[1], byIdAndCode[0]])
    ensures AppliedAs(besideTwoCodes, [besideTwoCodes[1], besideTwoCodes[0]])
    ensures forall batch :: batch == byIdAndCode || batch == besideTwoCodes ==>
      && Net(t, batch, 5) == 0
      && LedgerOperations.Adjust(t, Sort(batch, AdjustmentLeq)).error.Some?
  {
    t := Perform(L.EMPTY, CreateProduct(5, "A", "a", 0)).tables;
    PerformKeepsBalanced(L.EMPTY, CreateProduct(5, "A", "a", 0));
    assert L.Upper("A") == "A" && L.Upper("Z") == "Z" && L.Upper("") == "";
    assert 'a' in "a" && 'A' in "A";
    byIdAndCode := [Adjustment(5, "", 1), Adjustment(NIL, "A", -1)];
    besideTwoCodes := [Adjustment(5, "Z", 1), Adjustment(5, "A", -1)];
    TakingSortsFirst(t, byIdAndCode);
    TakingSortsFirst(t, besideTwoCodes);
  }

  lemma TakingSortsFirst(t: L.Tables, batch: seq<Adjustment>)
    requires t.products == map[5 := L.Product("A", "a", 0, 1)] && t.codes == map["A" := 5]
    requires |batch| == 2 && !AdjustmentLeq(batch[0], batch[1]) && batch[0].delta == 1 && batch[1].delta == -1
    requires L.Upper("A") == "A"
    requires forall i :: 0 <= i < 2 ==> batch[i].product == 5 || (batch[i].product == NIL && batch[i].code == "A")
    ensures Sort(batch, AdjustmentLeq) == [batch[1], batch[0]]
    ensures Net(t, batch, 5) == 0 && LedgerOperations.Adjust(t, [batch[1], batch[0]]).error.Some?
  {
    var add, take := batch[0], batch[1];
    assert batch == [add, take] && batch[1..] == [take] && [take][1..] == [];
    assert Sort([take], AdjustmentLeq) == [take];
    assert Insert(add, [take], AdjustmentLeq) == [take] + Insert(add, [], AdjustmentLeq);
    assert Resolve(t, add) == Some(5) && Resolve(t, take) == Some(5);
    assert Net(t, [take], 5) == -1;
  }

  // ---- The database -------------------------------------------------------------

  /** What the answer says of one movement: it was applied or it failed. A
      failure of the database itself blames no item. */
  function StatusOf(t: L.Tables, a: Adjustment): ItemResult
  {
    match AdjustOne(t, a).error
    case None => Succeeded(Resolve(t, a).value)
    case Some(e) => if e.DatabaseError? then Skipped else Failed(e)
  }

  /** And of the movement at position j of the ordered batch, which is skipped
      when one before it failed. */
  function StatusAt(t: L.Tables, ordered: seq<Adjustment>, j: nat): ItemResult
    requires j < |ordered|
    decreases j
  {
    if j == 0 then StatusOf(t, ordered[0])
    else if AdjustOne(t, ordered[0]).error.Some? then Skipped
    else StatusAt(AdjustOne(t, ordered[0]).tables, ordered[1..], j - 1)
  }

  /** The first k movements of the batch were applied and led from t to now. */
  ghost predicate Passed(t: L.Tables, ordered: seq<Adjustment>, k: nat, now: L.Tables)
    requires k <= |ordered|
    decreases k
  {
    if k == 0 then now == t
    else
      var first := AdjustOne(t, ordered[0]);
      first.error.None? && Passed(first.tables, ordered[1..], k - 1, now)
  }

  lemma {:induction false} PassedStep(t: L.Tables, ordered: seq<Adjustment>, k: nat, now: L.Tables)
    requires k < |ordered| && Passed(t, ordered, k, now)
    ensures StatusAt(t, ordered, k) == StatusOf(now, ordered[k])
    ensures var one := AdjustOne(now, ordered[k]);
      if one.error.None? then Passed(t, ordered, k + 1, one.tables)
      else AdjustAll(t, ordered) == one && forall j :: k < j < |ordered| ==> StatusAt(t, ordered, j) == Skipped
    decreases k
  {
    if k > 0 {
      var t1, rest := AdjustOne(t, ordered[0]).tables, ordered[1..];
      PassedStep(t1, rest, k - 1, now);
      forall j | k < j < |ordered| ensures StatusAt(t, ordered, j) == StatusAt(t1, rest, j - 1) {
      }
    }
  }

  lemma {:induction false} PassedAll(t: L.Tables, ordered: seq<Adjustment>, now: L.Tables)
    requires Passed(t, ordered, |ordered|, now)
    ensures AdjustAll(t, ordered) == L.Outcome(now, None)
    decreases |ordered|
  {
    if ordered != [] {
      PassedAll(AdjustOne(t, ordered[0]).tables, ordered[1..], now);
    }
  }

  ghost function Statuses(t: L.Tables, ordered: seq<Adjustment>): seq<ItemResult>
  {
    seq(|ordered|, j requires 0 <= j < |ordered| => StatusAt(t, ordered, j))
  }

  /** PassedStep, read off the list of all statuses. */
  lemma PassedStatus(t: L.Tables, ordered: seq<Adjustment>, k: nat, now: L.Tables, statuses: seq<ItemResult>)
    requires k < |ordered| && Passed(t, ordered, k, now) && statuses == Statuses(t, ordered)
    ensures statuses[k] == StatusOf(now, ordered[k])
    ensures AdjustOne(now, ordered[k]).error.None? ==> Passed(t, ordered, k + 1, AdjustOne(now, ordered[k]).tables)
    ensures AdjustOne(now, ordered[k]).error.Some? ==>
      && LedgerOperations.Adjust(t, ordered) == L.Outcome(t, AdjustOne(now, ordered[k]).error)
      && forall j :: k < j < |ordered| ==> statuses[j] == Skipped
  {
    PassedStep(t, ordered, k, now);
  }

  /** Where each movement of the ordered batch stood in the request. */
  ghost predicate Places(adjustments: seq<Adjustment>, ordered: seq<Adjustment>, at: seq<nat>) {
    && |at| == |ordered|
    && (forall j :: 0 <= j < |at| ==> at[j] < |adjustments| && adjustments[at[j]] == ordered[j])
    && (forall i, j :: 0 <= i < j < |at| ==> at[i] != at[j])
  }

  /** The first k statuses stand where their movements stood; the rest is untouched. */
  ghost predicate Reported(results: seq<ItemResult>, at: seq<nat>, statuses: seq<ItemResult>, k: nat) {
    && |at| == |statuses|
    && (forall j :: 0 <= j < |at| ==> at[j] < |results|)
    && (forall j :: 0 <= j < |at| ==> results[at[j]] == if j < k then statuses[j] else Skipped)
  }

  /** What is to be said of movement j, read off the balances and the movements before
      it: skipped after one that could not be applied; otherwise that its product is
      unknown, what its balance would have had to cover, or that it was applied. */
  ghost predicate Tells(t: L.Tables, ordered: seq<Adjustment>, j: nat, r: ItemResult)
    requires j < |ordered|
  {
    var a := ordered[j];
    if exists i :: 0 <= i < j && !FitsAt(t, ordered, i) then r == Skipped
    else match Resolve(t, a)
      case None => r == Failed(if a.product != 0 then L.ProductNotFound(a.product) else L.CodeNotFound(a.code))
      case Some(p) =>
        p in t.products
        && var available := t.products[p].balance + Net(t, ordered[..j], p);
          if available + a.delta < 0 then r == Failed(L.InsufficientBalance(p, available, a.delta))
          else if available + a.delta > 2_147_483_647 then r == Skipped
          else r == Succeeded(p)
  }

  lemma TellsLater(t: L.Tables, ordered: seq<Adjustment>, j: nat, r: ItemResult)
    requires 0 < j < |ordered| && AdjustOne(t, ordered[0]).error.None?
    requires Tells(AdjustOne(t, ordered[0]).tables, ordered[1..], j - 1, r)
    ensures Tells(t, ordered, j, r)
  {
    var t1, a, rest := AdjustOne(t, ordered[0]).tables, ordered[j], ordered[1..];
    FitsFirst(t, ordered);
    AdjustOneFrame(t, ordered[0]);
    forall i | 0 < i < j ensures FitsAt(t, ordered, i) <==> FitsAt(t1, rest, i - 1) {
      FitsLater(t, ordered, i - 1);
    }
    if i :| 0 <= i < j - 1 && !FitsAt(t1, rest, i) {
      assert !FitsAt(t, ordered, i + 1);
    }
    assert rest[j - 1] == a && Resolve(t1, a) == Resolve(t, a);
    if Resolve(t, a).Some? {
      var p := Resolve(t, a).value;
      SumsFrame(t, t1, rest[..j - 1], p);
      assert ordered[..j][1..] == rest[..j - 1];
      assert t1.products[p].balance == t.products[p].balance + ShareOf(t, ordered[0], p);
    }
  }

  lemma {:induction false} StatusTells(t: L.Tables, ordered: seq<Adjustment>, j: nat)
    requires j < |ordered|
    ensures Tells(t, ordered, j, StatusAt(t, ordered, j))
    decreases j
  {
    FitsFirst(t, ordered);
    if j > 0 {
      if AdjustOne(t, ordered[0]).error.Some? {
        assert !FitsAt(t, ordered, 0);
      } else {
        StatusTells(AdjustOne(t, ordered[0]).tables, ordered[1..], j - 1);
        TellsLater(t, ordered, j, StatusAt(t, ordered, j));
      }
    }
  }

  /** So every item of the answer tells what became of its own movement. */
  lemma ReportTells(t: L.Tables, ordered: seq<Adjustment>, results: seq<ItemResult>, at: seq<nat>)
    requires Reported(results, at, Statuses(t, ordered), |at|)
    ensures |at| == |ordered|
    ensures forall j :: 0 <= j < |at| ==> at[j] < |results| && Tells(t, ordered, j, results[at[j]])
  {
    forall j | 0 <= j < |at| ensures Tells(t, ordered, j, results[at[j]]) {
      StatusTells(t, ordered, j);
    }
  }

  lemma ReportNext(adjustments: seq<Adjustment>, ordered: seq<Adjustment>, results: seq<ItemResult>, at: seq<nat>,
                   statuses: seq<ItemResult>, k: nat)
    requires Places(adjustments, ordered, at) && Reported(results, at, statuses, k) && k < |at|
    ensures Reported(results[at[k] := statuses[k]], at, statuses, k + 1)
    ensures (forall j :: k < j < |at| ==> statuses[j] == Skipped) ==>
      Reported(results[at[k] := statuses[k]], at, statuses, |at|)
    ensures statuses[k] == Skipped && (forall j :: k < j < |at| ==> statuses[j] == Skipped) ==>
      Reported(results, at, statuses, |at|)
  {
  }

  lemma {:induction false} PlacesExist(adjustments: seq<Adjustment>, ordered: seq<Adjustment>) returns (at: seq<nat>)
    requires multiset(ordered) == multiset(adjustments) && DistinctKeys(adjustments)
    ensures Places(adjustments, ordered, at)
  {
    at := [];
    for k := 0 to |ordered|
      invariant |at| == k
      invariant forall j :: 0 <= j < k ==> at[j] < |adjustments| && adjustments[at[j]] == ordered[j]
      invariant forall i, j :: 0 <= i < j < k ==> at[i] != at[j]
    {
      assert ordered[k] in multiset(ordered);
      assert ordered[k] in adjustments;
      var i :| 0 <= i < |adjustments| && adjustments[i] == ordered[k];
      forall j | 0 <= j < k ensures at[j] != i {
        if at[j] == i {
          TwoPlaces(adjustments, ordered, j, k);
        }
      }
      at := at + [i];
    }
  }

  /** Where Adjust stands after k movements: they were applied and reported. */
  ghost predicate Applying(start: L.Tables, adjustments: seq<Adjustment>, ordered: seq<Adjustment>, at: seq<nat>,
                           results: seq<ItemResult>, k: nat, now: L.Tables)
    requires k <= |ordered|
  {
    && Places(adjustments, ordered, at)
    && |results| == |adjustments|
    && Passed(start, ordered, k, now)
    && Reported(results, at, Statuses(start, ordered), k)
  }

  /** One movement more, applied or refused. */
  lemma ApplyNext(start: L.Tables, adjustments: seq<Adjustment>, ordered: seq<Adjustment>, at: seq<nat>,
                  results: seq<ItemResult>, k: nat, now: L.Tables)
    requires k < |ordered| && Applying(start, adjustments, ordered, at, results, k, now)
    ensures at[k] < |results|
    ensures var one := AdjustOne(now, ordered[k]);
      match one.error
      case None => Applying(start, adjustments, ordered, at, results[at[k] := Succeeded(Resolve(now, ordered[k]).value)],
                            k + 1, one.tables)
      case Some(e) =>
        && LedgerOperations.Adjust(start, ordered) == L.Outcome(start, one.error)
        && Reported(if e.DatabaseError? then results else results[at[k] := Failed(e)], at, Statuses(start, ordered), |at|)
  {
    var statuses := Statuses(start, ordered);
    PassedStatus(start, ordered, k, now, statuses);
    ReportNext(adjustments, ordered, results, at, statuses, k);
  }

  class Database {
    var products: map<Uuid, L.Product>
    var codes: map<string, Uuid>
    var movements: seq<L.Movement>
    var debits: set<Uuid>
    var processed: map<Uuid, Time>
    const outbox: Outbox

    function Tables(): L.Tables
      reads this
    {
      L.Tables(products, codes, movements, debits)
    }

    ghost predicate Valid()
      reads this, outbox
    {
      outbox.Valid()
    }

    constructor ()
      ensures Valid() && fresh(outbox) && Tables() == L.EMPTY && processed == map[] && outbox.rows == map[]
    {
      products, codes, movements, debits, processed := map[], map[], [], {}, map[];
      outbox := new Outbox();
    }

    /** ROLLBACK, to the start of the transaction or to a savepoint. */
    method Restore(t: L.Tables)
      modifies this`products, this`codes, this`movements, this`debits
      ensures Tables() == t
    {
      products, codes, movements, debits := t.products, t.codes, t.movements, t.debits;
    }

    method RecordMovementTx(movement: L.Movement)
      modifies this`movements
      ensures movements == L.RecordMovement(old(movements), movement)
    {
      if movement.delta == 0 {
        return;
      }
      movements := movements + [movement];
    }

    method Create(id: Uuid, code: string, description: string, balance: int) returns (error: Option<L.Error>)
      modifies this`products, this`codes, this`movements
      ensures L.Outcome(Tables(), error) == LedgerOperations.Create(old(Tables()), id, code, description, balance)
    {
      if !CodeChecks(code) || !RowChecks(description, balance) {
        return Some(L.DatabaseError);
      }
      if id in products || L.Upper(code) in codes {
        return Some(L.DuplicatedCode);
      }
      products := products[id := L.Product(code, description, balance, 1)];
      codes := codes[L.Upper(code) := id];
      RecordMovementTx(L.Movement(id, balance, balance, L.Registration));
      error := None;
    }

    method Update(id: Uuid, description: string, balance: int, version: int) returns (error: Option<L.Error>)
      modifies this`products, this`movements
      ensures L.Outcome(Tables(), error) == LedgerOperations.Update(old(Tables()), id, description, balance, version)
    {
      if id !in products {
        return Some(L.ProductNotFound(id));
      }
      var previous := products[id];
      if previous.version != version {
        return Some(L.ProductChanged);
      }
      if !RowChecks(description, balance) {
        return Some(L.DatabaseError);
      }
      products := products[id := L.Product(previous.code, description, balance, previous.version + 1)];
      RecordMovementTx(L.Movement(id, balance - previous.balance, balance, L.Edit));
      error := None;
    }

    /** The conditional UPDATE of one product and the movement beside it. */
    method MoveTx(p: Uuid, delta: int, source: L.Source)
      requires p in products
      modifies this`products, this`movements
      ensures Tables() == L.Move(old(Tables()), p, delta, source)
    {
      var q := products[p];
      products := products[p := q.(balance := q.balance + delta, version := q.version + 1)];
      RecordMovementTx(L.Movement(p, delta, q.balance + delta, source));
    }

    /** Takes the lines of an invoice out of the balances, once; a failure leaves
        what it wrote to the caller's savepoint. */
    method DebitTx(invoice: Uuid, items: seq<Line>) returns (error: Option<L.Error>, ghost ordered: seq<Line>)
      modifies this`products, this`movements, this`debits
      ensures LockOrder(ordered, items)
      ensures L.Outcome(Tables(), error) == L.DebitTx(old(Tables()), invoice, ordered)
    {
      var sorted := Sort(items, ProductLeq);
      SortGivesLockOrder(items);
      ordered := sorted;
      if invoice in debits {
        return None, ordered;
      }
      debits := debits + {invoice};
      ghost var start := Tables();
      for i := 0 to |sorted|
        invariant debits == start.debits && codes == start.codes
        invariant L.DebitLines(Tables(), invoice, sorted[i..]) == L.DebitLines(start, invoice, sorted)
      {
        var item := sorted[i];
        assert sorted[i..][0] == item && sorted[i..][1..] == sorted[i + 1..];
        if item.quantity <= 0 {
          return Some(L.InvalidQuantity), ordered;
        }
        if item.product !in products {
          return Some(L.ProductNotFound(item.product)), ordered;
        }
        if products[item.product].balance < item.quantity {
          return Some(L.InsufficientBalance(item.product, products[item.product].balance, item.quantity)), ordered;
        }
        MoveTx(item.product, -item.quantity, L.Invoiced(invoice));
      }
      error := None;
    }

    /** Every movement in one transaction, or none; what result i says is about
        adjustment i, whatever order they were applied in. */
    method Adjust(adjustments: seq<Adjustment>)
      returns (results: seq<ItemResult>, error: Option<L.Error>, ghost at: seq<nat>)
      requires DistinctKeys(adjustments)
      modifies this`products, this`codes, this`movements, this`debits
      ensures L.Outcome(Tables(), error)
           == LedgerOperations.Adjust(old(Tables()), Sort(adjustments, AdjustmentLeq))
      ensures var ordered := Sort(adjustments, AdjustmentLeq);
        && Places(adjustments, ordered, at)
        && |results| == |adjustments|
        && forall j :: 0 <= j < |at| ==> at[j] < |results| && Tells(old(Tables()), ordered, j, results[at[j]])
    {
      var start := Tables();
      var ordered := Sort(adjustments, AdjustmentLeq);
      SortIsPermutation(adjustments, AdjustmentLeq);
      at := PlacesExist(adjustments, ordered);
      var indexOf := IndexByKey(adjustments);
      results := seq(|adjustments|, i => Skipped);
      for k := 0 to |ordered|
        invariant Applying(start, adjustments, ordered, at, results, k, Tables())
      {
        ApplyNext(start, adjustments, ordered, at, results, k, Tables());
        var index := indexOf[KeyOf(ordered[k])];
        assert index == at[k];
        var resolved;
        resolved, error := ApplyOne(ordered[k]);
        if error.Some? {
          if !error.value.DatabaseError? {
            results := results[index := Failed(error.value)];
          }
          Restore(start);
          ReportTells(start, ordered, results, at);
          return;
        }
        results := results[index := Succeeded(resolved.value)];
      }
      PassedAll(start, ordered, Tables());
      ReportTells(start, ordered, results, at);
      error := None;
    }

    method ApplyOne(adjustment: Adjustment) returns (resolved: Option<Uuid>, error: Option<L.Error>)
      modifies this`products, this`movements
      ensures L.Outcome(Tables(), error) == AdjustOne(old(Tables()), adjustment)
      ensures resolved == Resolve(old(Tables()), adjustment)
    {
      resolved := Resolve(Tables(), adjustment);
      if resolved.None? {
        error := Some(if adjustment.product != NIL then L.ProductNotFound(adjustment.product)
                      else L.CodeNotFound(adjustment.code));
        return;
      }
      var p := resolved.value;
      if products[p].balance + adjustment.delta > L.MAX_INTEGER {
        error := Some(L.DatabaseError);
        return;
      }
      if products[p].balance + adjustment.delta < 0 {
        error := Some(L.InsufficientBalance(p, products[p].balance, adjustment.delta));
        return;
      }
      MoveTx(p, adjustment.delta, L.Adjusted);
      error := None;
    }

    // ---- Consuming print requests -----------------------------------------------

    method MarkProcessedTx(id: Uuid, now: Time) returns (first: bool)
      modifies this`processed
      ensures first <==> id !in old(processed)
      ensures processed == if first then old(processed)[id := now] else old(processed)
    {
      first := id !in processed;
      if first {
        processed := processed[id := now];
      }
    }

    method DeleteProcessedBefore(age: Time, now: Time)
      modifies this`processed
      ensures processed == map id | id in old(processed) && old(processed)[id] >= now - age :: old(processed)[id]
    {
      processed := map id | id in processed && processed[id] >= now - age :: processed[id];
    }

    /** The handler of one delivery, inside the consumer's transaction: the debit
        in a savepoint, then its answer into the outbox. Anything that is not a
        print request is ignored, and an enabled failure switch or an answer that
        cannot be stored is an error for the consumer. */
    method PrintRequestHandler(message: Message, failing: bool, answer: Uuid, now: Time)
      returns (handled: bool, ghost ordered: seq<Line>)
      requires outbox.Valid()
      modifies this`products, this`codes, this`movements, this`debits, outbox
      ensures outbox.Valid()
      ensures !message.body.PrintRequested? ==>
        handled && Tables() == old(Tables()) && outbox.rows == old(outbox.rows)
      ensures message.body.PrintRequested? ==>
        (handled <==> !failing && answer !in old(outbox.rows))
      ensures message.body.PrintRequested? && handled ==>
        var r := L.DebitInSavepoint(old(Tables()), message.body.invoice, ordered);
        && LockOrder(ordered, message.body.lines)
        && Tables() == r.tables
        && outbox.rows == old(outbox.rows)[answer := Row(
             Message(answer, L.AnswerTo(message.body, r.error)), old(outbox.nextSequence), 0, now, None)]
        && L.Reports(old(Tables()), message.body, ordered, outbox.rows[answer].message.body)
    {
      ordered := [];
      if !message.body.PrintRequested? {
        return true, [];
      }
      if failing {
        return false, [];
      }
      var savepoint := Tables();
      var debitError;
      debitError, ordered := DebitTx(message.body.invoice, message.body.lines);
      if debitError.Some? {
        Restore(savepoint);
      }
      L.AnswerNamesTheFault(savepoint, message.body, ordered);
      handled := outbox.EnqueueTx(Message(answer, L.AnswerTo(message.body, debitError)), now);
    }

    /** One attempt at one delivery: the inbox record, the effect and the answer
        are committed together or not at all. */
    method HandleOnce(message: Message, failing: bool, answer: Uuid, now: Time)
      returns (handled: bool, ghost ordered: seq<Line>)
      requires outbox.Valid()
      modifies this, outbox
      ensures outbox.Valid()
      ensures message.id in old(processed) || !handled ==>
        Tables() == old(Tables()) && processed == old(processed) && outbox.rows == old(outbox.rows)
      ensures message.id in old(processed) ==> handled
      ensures message.id !in old(processed) && message.body.PrintRequested? ==>
        (handled <==> !failing && answer !in old(outbox.rows))
      ensures message.id !in old(processed) && message.body.PrintRequested? && handled ==>
        var r := L.DebitInSavepoint(old(Tables()), message.body.invoice, ordered);
        && LockOrder(ordered, message.body.lines)
        && Tables() == r.tables
        && processed == old(processed)[message.id := now]
        && outbox.rows == old(outbox.rows)[answer := Row(
             Message(answer, L.AnswerTo(message.body, r.error)), old(outbox.nextSequence), 0, now, None)]
      ensures message.id !in old(processed) && !message.body.PrintRequested? ==>
        && handled && Tables() == old(Tables()) && outbox.rows == old(outbox.rows)
        && processed == old(processed)[message.id := now]
    {
      var begin, beginProcessed, beginRows, beginSequence := Tables(), processed, outbox.rows, outbox.nextSequence;
      ordered := [];
      var first := MarkProcessedTx(message.id, now);
      if !first {
        return true, [];
      }
      handled, ordered := PrintRequestHandler(message, failing, answer, now);
      if !handled {
        Restore(begin);
        processed, outbox.rows, outbox.nextSequence := beginProcessed, beginRows, beginSequence;
      }
    }
  }

  method IndexByKey(adjustments: seq<Adjustment>) returns (indexOf: map<(Uuid, string), nat>)
    requires DistinctKeys(adjustments)
    ensures forall i :: 0 <= i < |adjustments| ==>
      KeyOf(adjustments[i]) in indexOf && indexOf[KeyOf(adjustments[i])] == i
  {
    indexOf := map[];
    for i := 0 to |adjustments|
      invariant forall j :: 0 <= j < i ==> KeyOf(adjustments[j]) in indexOf && indexOf[KeyOf(adjustments[j])] == j
    {
      indexOf := indexOf[KeyOf(adjustments[i]) := i];
    }
  }
}
