/** Registering, editing and adjusting products, and what every run of the stock
    service keeps: backend/internal/stock/store.go and bulk.go. */
module LedgerOperations {
  import opened Common
  import opened Contracts
  import opened Sorting
  import opened Ledger

  // ---- Registering and editing --------------------------------------------

  const MAX_CODE_LENGTH := 32
  const MAX_DESCRIPTION_LENGTH := 200

  /** `btrim` takes away spaces only. */
  predicate Blank(text: string) {
    forall c :: c in text ==> c == ' '
  }

  /** The CHECK constraints a row must pass before any index is looked at. */
  predicate CodeChecks(code: string) {
    !Blank(code) && |code| <= MAX_CODE_LENGTH
  }

  predicate RowChecks(description: string, balance: int) {
    !Blank(description) && |description| <= MAX_DESCRIPTION_LENGTH && 0 <= balance <= MAX_INTEGER
  }

  /** Store.Create, for the id the database draws. */
  function Create(t: Tables, id: Uuid, code: string, description: string, balance: int): Outcome {
    if !CodeChecks(code) || !RowChecks(description, balance) then Outcome(t, Some(DatabaseError))
    else if id in t.products || Upper(code) in t.codes then Outcome(t, Some(DuplicatedCode))
    else Outcome(
      t.(products := t.products[id := Product(code, description, balance, 1)],
         codes := t.codes[Upper(code) := id],
         movements := RecordMovement(t.movements, Movement(id, balance, balance, Registration))),
      None)
  }

  /** Store.Update: lands only on the version the caller read. */
  function Update(t: Tables, id: Uuid, description: string, balance: int, version: int): Outcome {
    if id !in t.products then Outcome(t, Some(ProductNotFound(id)))
    else if t.products[id].version != version then Outcome(t, Some(ProductChanged))
    else if !RowChecks(description, balance) then Outcome(t, Some(DatabaseError))
    else Outcome(Write(t, id, description, balance, Edit), None)
  }

  /** The same letter, in either case. */
  predicate SameLetter(a: char, b: char) {
    || a == b
    || ('a' <= a <= 'z' && a as int - b as int == 32)
    || ('a' <= b <= 'z' && b as int - a as int == 32)
  }

  lemma LettersFold(a: char, b: char)
    ensures UpperChar(a) == UpperChar(b) <==> SameLetter(a, b)
  {
  }

  /** Codes are told apart without regard to case. */
  lemma CodesIgnoreCase(a: string, b: string)
    ensures Upper(a) == Upper(b) <==> |a| == |b| && forall i :: 0 <= i < |a| ==> SameLetter(a[i], b[i])
  {
    forall i | 0 <= i < |a| && i < |b| ensures Upper(a)[i] == Upper(b)[i] <==> SameLetter(a[i], b[i]) {
      LettersFold(a[i], b[i]);
    }
    if |a| == |b| && forall i :: 0 <= i < |a| ==> SameLetter(a[i], b[i]) {
      assert forall i :: 0 <= i < |a| ==> Upper(a)[i] == Upper(b)[i];
    }
  }

  /** What the columns of a product accept: a text that is more than spaces, of at most
      200 characters, and a balance the column can hold. */
  ghost predicate FitsRow(description: string, balance: int) {
    (exists i :: 0 <= i < |description| && description[i] != ' ') && |description| <= 200 && 0 <= balance <= 2_147_483_647
  }

  lemma BlankIff(text: string)
    ensures Blank(text) <==> !exists i :: 0 <= i < |text| && text[i] != ' '
  {
    if i :| 0 <= i < |text| && text[i] != ' ' {
      assert text[i] in text;
    } else {
      assert forall c :: c in text ==> exists i :: 0 <= i < |text| && text[i] == c;
    }
  }

  /** A product is registered exactly when its columns accept it and no product has its
      id or its code; then it has what was typed, version 1, and its first movement
      brings the whole balance, unless that is nothing. */
  lemma RegistrationStoresTheProduct(t: Tables, id: Uuid, code: string, description: string, balance: int)
    requires CodesIndexed(t)
    ensures var r := Create(t, id, code, description, balance);
      var fits := FitsRow(description, balance) && (exists i :: 0 <= i < |code| && code[i] != ' ') && |code| <= 32;
      var taken := id in t.products || exists p :: p in t.products && Upper(t.products[p].code) == Upper(code);
      && (r.error == None <==> fits && !taken)
      && (r.error == Some(DuplicatedCode) <==> fits && taken)
      && (r.error == Some(DatabaseError) <==> !fits)
      && (r.error.Some? ==> r.tables == t)
      && (r.error.None? ==>
           && r.tables.products == t.products[id := Product(code, description, balance, 1)]
           && r.tables.debits == t.debits
           && r.tables.movements
              == t.movements + if balance == 0 then [] else [Movement(id, balance, balance, Registration)])
  {
    BlankIff(description);
    BlankIff(code);
    assert t.movements + [] == t.movements;
    assert Upper(code) in t.codes <==> exists p :: p in t.products && Upper(t.products[p].code) == Upper(code) by {
      if Upper(code) in t.codes {
        assert t.codes[Upper(code)] in t.products;
      }
    }
  }

  /** An edit lands exactly when the product is there under the version that was read
      and its columns accept what was typed. Then its row has the description and the
      balance that were typed, its own code and the next version; every other row is as
      it was; and the history gains the difference, unless there is none. */
  lemma EditStoresWhatWasTyped(t: Tables, id: Uuid, description: string, balance: int, version: int)
    ensures var r := Update(t, id, description, balance, version);
      && (r.error == Some(ProductNotFound(id)) <==> id !in t.products)
      && (r.error == Some(ProductChanged) <==> id in t.products && t.products[id].version != version)
      && (r.error == None <==> id in t.products && t.products[id].version == version && FitsRow(description, balance))
      && (r.error.Some? ==> r.tables == t)
      && (r.error.None? ==>
           var old_ := t.products[id];
           && r.tables.products.Keys == t.products.Keys
           && r.tables.products[id] == Product(old_.code, description, balance, version + 1)
           && (forall p :: p in t.products && p != id ==> r.tables.products[p] == t.products[p])
           && r.tables.codes == t.codes && r.tables.debits == t.debits
           && r.tables.movements == t.movements
              + if balance == old_.balance then [] else [Movement(id, balance - old_.balance, balance, Edit)])
  {
    BlankIff(description);
    assert t.movements + [] == t.movements;
  }

  // ---- Adjusting several balances together --------------------------------

  /** A product is named by its id or, when that is nil, by its code. */
  datatype Adjustment = Adjustment(product: Uuid, code: string, delta: int)

  /** The order of the texts `id + code`: ids have one width, so it is by id first. */
  predicate AdjustmentLeq(a: Adjustment, b: Adjustment) {
    a.product < b.product || (a.product == b.product && StringLeq(a.code, b.code))
  }

  function Resolve(t: Tables, a: Adjustment): Option<Uuid> {
    if a.product != NIL then
      if a.product in t.products then Some(a.product) else None
    else if Upper(a.code) in t.codes && t.codes[Upper(a.code)] in t.products then Some(t.codes[Upper(a.code)])
    else None
  }

  function AdjustOne(t: Tables, a: Adjustment): Outcome
  {
    match Resolve(t, a)
    case None => Outcome(t, Some(if a.product != NIL then ProductNotFound(a.product) else CodeNotFound(a.code)))
    case Some(p) =>
      var balance := t.products[p].balance;
      if balance + a.delta > MAX_INTEGER then Outcome(t, Some(DatabaseError))
      else if balance + a.delta < 0 then Outcome(t, Some(InsufficientBalance(p, balance, a.delta)))
      else Outcome(Move(t, p, a.delta, Adjusted), None)
  }

  lemma AdjustOneFrame(t: Tables, a: Adjustment)
    ensures var t' := AdjustOne(t, a).tables;
      && t'.codes == t.codes && t'.products.Keys == t.products.Keys && t'.debits == t.debits
  {
  }

  /** The loop over the ordered movements; a failure keeps what was already written. */
  function AdjustAll(t: Tables, ordered: seq<Adjustment>): Outcome
    decreases |ordered|
  {
    if ordered == [] then Outcome(t, None)
    else
      var first := AdjustOne(t, ordered[0]);
      if first.error.Some? then first else AdjustAll(first.tables, ordered[1..])
  }

  /** Store.Adjust: the transaction is rolled back when any movement fails. */
  function Adjust(t: Tables, ordered: seq<Adjustment>): Outcome
  {
    var r := AdjustAll(t, ordered);
    if r.error.Some? then Outcome(t, r.error) else r
  }

  ghost predicate DistinctProducts(t: Tables, adjustments: seq<Adjustment>) {
    forall i, j :: 0 <= i < j < |adjustments| && Resolve(t, adjustments[i]).Some? ==>
      Resolve(t, adjustments[i]) != Resolve(t, adjustments[j])
  }

  /** Every product exists and stays within its column, with no order in it. */
  ghost predicate Applicable(t: Tables, adjustments: seq<Adjustment>) {
    forall a :: a in adjustments ==>
      && Resolve(t, a).Some?
      && Resolve(t, a).value in t.products
      && 0 <= t.products[Resolve(t, a).value].balance + a.delta <= MAX_INTEGER
  }

  /** The catalogue after every movement was added to its product. */
  ghost predicate AdjustedBy(t: Tables, after: map<Uuid, Product>, adjustments: seq<Adjustment>) {
    && after.Keys == t.products.Keys
    && (forall a :: a in adjustments && Resolve(t, a).Some? && Resolve(t, a).value in t.products ==>
        after[Resolve(t, a).value]
        == (var q := t.products[Resolve(t, a).value]; q.(balance := q.balance + a.delta, version := q.version + 1)))
    && (forall p :: p in t.products && (forall a :: a in adjustments ==> Resolve(t, a) != Some(p)) ==>
        after[p] == t.products[p])
  }

  lemma {:induction false} AdjustAllFrame(t: Tables, ordered: seq<Adjustment>)
    ensures var t' := AdjustAll(t, ordered).tables;
      && t'.codes == t.codes && t'.products.Keys == t.products.Keys && t'.debits == t.debits
    decreases |ordered|
  {
    if ordered != [] {
      AdjustOneFrame(t, ordered[0]);
      if AdjustOne(t, ordered[0]).error.None? {
        AdjustAllFrame(AdjustOne(t, ordered[0]).tables, ordered[1..]);
      }
    }
  }

  /** Taking the first movement changes neither what the others name nor, for
      other products, whether they can be applied. */
  lemma ApplicableStep(t: Tables, ordered: seq<Adjustment>)
    requires DistinctProducts(t, ordered) && ordered != []
    ensures var first := AdjustOne(t, ordered[0]);
      && DistinctProducts(first.tables, ordered[1..])
      && (Applicable(t, ordered) <==> first.error.None? && Applicable(first.tables, ordered[1..]))
  {
    var first := AdjustOne(t, ordered[0]);
    var rest := ordered[1..];
    assert forall a :: a in ordered <==> a == ordered[0] || a in rest;
    forall a ensures Resolve(first.tables, a) == Resolve(t, a) {
    }
    if first.error.None? {
      var p := Resolve(t, ordered[0]).value;
      forall a | a in rest ensures Resolve(t, a) != Some(p) {
        var j :| 0 <= j < |rest| && rest[j] == a;
        assert ordered[j + 1] == a;
      }
      assert forall q :: q in t.products && q != p ==> first.tables.products[q] == t.products[q];
    }
  }

  lemma {:induction false} AdjustAllCharacterised(t: Tables, ordered: seq<Adjustment>)
    requires DistinctProducts(t, ordered)
    ensures AdjustAll(t, ordered).error.None? <==> Applicable(t, ordered)
    ensures AdjustAll(t, ordered).error.None? ==> AdjustedBy(t, AdjustAll(t, ordered).tables.products, ordered)
    decreases |ordered|
  {
    if ordered != [] {
      ApplicableStep(t, ordered);
      AdjustOneFrame(t, ordered[0]);
      if AdjustOne(t, ordered[0]).error.None? {
        AdjustAllCharacterised(AdjustOne(t, ordered[0]).tables, ordered[1..]);
        if AdjustAll(t, ordered).error.None? {
          AdjustedByStep(t, ordered, AdjustAll(t, ordered).tables.products);
        }
      }
    }
  }

  lemma AdjustedByStep(t: Tables, ordered: seq<Adjustment>, after: map<Uuid, Product>)
    requires DistinctProducts(t, ordered) && ordered != []
    requires AdjustOne(t, ordered[0]).error.None?
    requires AdjustedBy(AdjustOne(t, ordered[0]).tables, after, ordered[1..])
    ensures AdjustedBy(t, after, ordered)
  {
    var first, rest := ordered[0], ordered[1..];
    var t1 := AdjustOne(t, first).tables;
    var p := Resolve(t, first).value;
    assert t1.products == t.products[p := t1.products[p]];
    forall a ensures Resolve(t1, a) == Resolve(t, a) {
    }
    forall a | a in rest ensures Resolve(t, a) != Some(p) {
      var j :| 0 <= j < |rest| && rest[j] == a;
      assert ordered[j + 1] == a;
    }
    assert after[p] == t1.products[p];
    forall a | a in ordered && Resolve(t, a).Some? && Resolve(t, a).value in t.products
      ensures after[Resolve(t, a).value]
        == (var q := t.products[Resolve(t, a).value]; q.(balance := q.balance + a.delta, version := q.version + 1))
    {
      if a != first {
        assert a in rest;
      }
    }
    forall q | q in t.products && (forall a :: a in ordered ==> Resolve(t, a) != Some(q))
      ensures after[q] == t.products[q]
    {
      assert first in ordered;
      assert forall a :: a in rest ==> a in ordered;
    }
  }

  lemma DistinctOfPermutation(t: Tables, a: seq<Adjustment>, b: seq<Adjustment>)
    requires multiset(a) == multiset(b) && DistinctProducts(t, a)
    ensures DistinctProducts(t, b)
    decreases |b|
  {
    forall i, j | 0 <= i < j < |b| && Resolve(t, b[i]).Some?
      ensures Resolve(t, b[i]) != Resolve(t, b[j])
    {
      TwoPlaces(a, b, i, j);
      var k, l :| 0 <= k < |a| && 0 <= l < |a| && k != l && a[k] == b[i] && a[l] == b[j];
    }
  }

  lemma TwoPlaces<T>(a: seq<T>, b: seq<T>, i: nat, j: nat)
    requires multiset(a) == multiset(b) && i < j < |b|
    ensures exists k, l :: 0 <= k < |a| && 0 <= l < |a| && k != l && a[k] == b[i] && a[l] == b[j]
  {
    var rest := b[..i] + b[i + 1..];
    assert b == b[..i] + ([b[i]] + b[i + 1..]);
    var k := TakeOut(b[i], rest, a);
    assert rest[j - 1] == b[j];
    assert b[j] in multiset(rest);
    assert b[j] in multiset(a[..k] + a[k + 1..]);
    var l := OtherPlace(a, k, b[j]);
  }

  lemma OtherPlace<T>(a: seq<T>, k: nat, x: T) returns (l: nat)
    requires k < |a| && x in a[..k] + a[k + 1..]
    ensures l < |a| && l != k && a[l] == x
  {
    if x in a[..k] {
      l :| 0 <= l < k && a[l] == x;
    } else {
      var i :| 0 <= i < |a[k + 1..]| && a[k + 1..][i] == x;
      l := k + 1 + i;
    }
  }

  lemma SameMembers<T>(a: seq<T>, b: seq<T>, x: T)
    requires multiset(a) == multiset(b)
    ensures x in a <==> x in b
  {
    assert x in multiset(a) <==> x in multiset(b);
  }

  lemma ApplicableOfPermutation(t: Tables, a: seq<Adjustment>, b: seq<Adjustment>)
    requires multiset(a) == multiset(b)
    ensures Applicable(t, a) <==> Applicable(t, b)
    ensures forall after :: AdjustedBy(t, after, a) <==> AdjustedBy(t, after, b)
  {
    forall x ensures x in a <==> x in b {
      SameMembers(a, b, x);
    }
  }

  /** A batch naming distinct products is accepted exactly when every product
      exists and stays between zero and the column's limit; then every product
      moved by its own delta, in whatever order they were applied; a refusal
      changes nothing. */
  lemma AdjustAcceptedIff(t: Tables, adjustments: seq<Adjustment>, ordered: seq<Adjustment>)
    requires DistinctProducts(t, adjustments)
    requires multiset(ordered) == multiset(adjustments)
    ensures var r := Adjust(t, ordered);
      && (r.error.None? <==> Applicable(t, adjustments))
      && (r.error.None? ==> AdjustedBy(t, r.tables.products, adjustments) && r.tables.debits == t.debits)
      && (r.error.Some? ==> r.tables == t)
  {
    DistinctOfPermutation(t, adjustments, ordered);
    AdjustAllCharacterised(t, ordered);
    AdjustAllFrame(t, ordered);
    ApplicableOfPermutation(t, ordered, adjustments);
  }

  // ---- Batches that may name a product more than once ---------------------

  /** What the movements add to product p in all, what they take from it and what
      they bring it. */
  function Net(t: Tables, items: seq<Adjustment>, p: Uuid): int {
    if items == [] then 0 else ShareOf(t, items[0], p) + Net(t, items[1..], p)
  }

  function ShareOf(t: Tables, a: Adjustment, p: Uuid): int {
    if Resolve(t, a) == Some(p) then a.delta else 0
  }

  function Taken(t: Tables, items: seq<Adjustment>, p: Uuid): int {
    if items == [] then 0
    else (if ShareOf(t, items[0], p) < 0 then ShareOf(t, items[0], p) else 0) + Taken(t, items[1..], p)
  }

  function Added(t: Tables, items: seq<Adjustment>, p: Uuid): int {
    if items == [] then 0
    else (if ShareOf(t, items[0], p) > 0 then ShareOf(t, items[0], p) else 0) + Added(t, items[1..], p)
  }

  /** How many of the movements are of product p. */
  function Touches(t: Tables, items: seq<Adjustment>, p: Uuid): nat {
    if items == [] then 0 else (if Resolve(t, items[0]) == Some(p) then 1 else 0) + Touches(t, items[1..], p)
  }

  /** The k-th movement finds its product and leaves it within its column. */
  ghost predicate FitsAt(t: Tables, ordered: seq<Adjustment>, k: nat)
    requires k < |ordered|
  {
    match Resolve(t, ordered[k])
    case None => false
    case Some(p) => 0 <= t.products[p].balance + Net(t, ordered[..k + 1], p) <= MAX_INTEGER
  }

  ghost predicate StaysInRange(t: Tables, ordered: seq<Adjustment>) {
    forall k :: 0 <= k < |ordered| ==> FitsAt(t, ordered, k)
  }

  /** The catalogue after the movements of each product were added up. */
  ghost predicate MovedBy(t: Tables, after: map<Uuid, Product>, items: seq<Adjustment>) {
    && after.Keys == t.products.Keys
    && forall p :: p in t.products ==>
      after[p] == t.products[p].(balance := t.products[p].balance + Net(t, items, p),
                                 version := t.products[p].version + Touches(t, items, p))
  }

  lemma {:induction false} SumsFrame(t: Tables, t': Tables, items: seq<Adjustment>, p: Uuid)
    requires t'.codes == t.codes && t'.products.Keys == t.products.Keys
    ensures Net(t', items, p) == Net(t, items, p) && Touches(t', items, p) == Touches(t, items, p)
  {
    if items != [] {
      SumsFrame(t, t', items[1..], p);
      assert Resolve(t', items[0]) == Resolve(t, items[0]);
    }
  }

  /** A movement after the first is judged as it would be by the tables the first
      one leaves. */
  lemma FitsLater(t: Tables, ordered: seq<Adjustment>, k: nat)
    requires k + 1 < |ordered| && AdjustOne(t, ordered[0]).error.None?
    ensures FitsAt(t, ordered, k + 1) <==> FitsAt(AdjustOne(t, ordered[0]).tables, ordered[1..], k)
  {
    var t1, a, rest := AdjustOne(t, ordered[0]).tables, ordered[k + 1], ordered[1..];
    AdjustOneFrame(t, ordered[0]);
    assert rest[k] == a && Resolve(t1, a) == Resolve(t, a);
    if Resolve(t, a).Some? {
      var p := Resolve(t, a).value;
      SumsFrame(t, t1, rest[..k + 1], p);
      assert ordered[..k + 2][1..] == rest[..k + 1];
      assert t1.products[p].balance == t.products[p].balance + ShareOf(t, ordered[0], p);
    }
  }

  lemma FitsFirst(t: Tables, ordered: seq<Adjustment>)
    requires ordered != []
    ensures FitsAt(t, ordered, 0) <==> AdjustOne(t, ordered[0]).error.None?
  {
    if Resolve(t, ordered[0]).Some? {
      var p := Resolve(t, ordered[0]).value;
      assert ordered[..1][1..] == [];
      assert Net(t, ordered[..1], p) == ordered[0].delta;
    }
  }

  lemma StaysInRangeStep(t: Tables, ordered: seq<Adjustment>)
    requires ordered != []
    ensures StaysInRange(t, ordered) <==>
      AdjustOne(t, ordered[0]).error.None? && StaysInRange(AdjustOne(t, ordered[0]).tables, ordered[1..])
  {
    FitsFirst(t, ordered);
    if AdjustOne(t, ordered[0]).error.None? {
      forall k | 0 <= k < |ordered| - 1
        ensures FitsAt(t, ordered, k + 1) <==> FitsAt(AdjustOne(t, ordered[0]).tables, ordered[1..], k)
      {
        FitsLater(t, ordered, k);
      }
      if StaysInRange(AdjustOne(t, ordered[0]).tables, ordered[1..]) {
        forall k | 0 <= k < |ordered| ensures FitsAt(t, ordered, k) {
          assert k > 0 ==> FitsAt(AdjustOne(t, ordered[0]).tables, ordered[1..], k - 1);
        }
      }
    }
  }

  lemma MovedByStep(t: Tables, ordered: seq<Adjustment>, after: map<Uuid, Product>)
    requires ordered != [] && AdjustOne(t, ordered[0]).error.None?
    requires MovedBy(AdjustOne(t, ordered[0]).tables, after, ordered[1..])
    ensures MovedBy(t, after, ordered)
  {
    var t1 := AdjustOne(t, ordered[0]).tables;
    AdjustOneFrame(t, ordered[0]);
    forall p | p in t.products
      ensures after[p] == t.products[p].(balance := t.products[p].balance + Net(t, ordered, p),
                                         version := t.products[p].version + Touches(t, ordered, p))
    {
      SumsFrame(t, t1, ordered[1..], p);
    }
  }

  lemma {:induction false} AdjustAllIff(t: Tables, ordered: seq<Adjustment>)
    ensures var r := AdjustAll(t, ordered);
      && (r.error.None? <==> StaysInRange(t, ordered))
      && (r.error.None? ==> MovedBy(t, r.tables.products, ordered))
    decreases |ordered|
  {
    if ordered != [] {
      StaysInRangeStep(t, ordered);
      if AdjustOne(t, ordered[0]).error.None? {
        AdjustAllIff(AdjustOne(t, ordered[0]).tables, ordered[1..]);
        if AdjustAll(t, ordered).error.None? {
          MovedByStep(t, ordered, AdjustAll(t, ordered).tables.products);
        }
      }
    }
  }

  /** Any batch at all, naming its products once or many times: in the order it is
      applied it is accepted exactly when every product is found and its running
      balance stays within the column; then every product moved by the sum of its
      movements, and a refusal changes nothing. */
  lemma AdjustRunningIff(t: Tables, ordered: seq<Adjustment>)
    ensures var r := Adjust(t, ordered);
      && (r.error.None? <==> StaysInRange(t, ordered))
      && (r.error.None? ==> MovedBy(t, r.tables.products, ordered) && r.tables.debits == t.debits)
      && (r.error.Some? ==> r.tables == t)
  {
    AdjustAllIff(t, ordered);
    AdjustAllFrame(t, ordered);
  }

  /** The product a movement names: by its id or, when that is nil, by its code
      whatever its case. */
  lemma ResolveFinds(t: Tables, a: Adjustment, p: Uuid)
    requires CodesIndexed(t)
    ensures Resolve(t, a) == Some(p) <==>
      p in t.products && if a.product != 0 then p == a.product else Upper(t.products[p].code) == Upper(a.code)
  {
  }

  /** The row of the history for movement k: its own change, what the balance became,
      and that it was adjusted. */
  ghost predicate AdjustmentRow(t: Tables, ordered: seq<Adjustment>, k: nat, row: Movement)
    requires k < |ordered|
  {
    match Resolve(t, ordered[k])
    case None => false
    case Some(p) =>
      p in t.products
      && row == Movement(p, ordered[k].delta, t.products[p].balance + Net(t, ordered[..k + 1], p), Adjusted)
  }

  lemma AdjustmentRowLater(t: Tables, ordered: seq<Adjustment>, k: nat, row: Movement)
    requires k + 1 < |ordered| && AdjustOne(t, ordered[0]).error.None?
    requires AdjustmentRow(AdjustOne(t, ordered[0]).tables, ordered[1..], k, row)
    ensures AdjustmentRow(t, ordered, k + 1, row)
  {
    var t1, a, rest := AdjustOne(t, ordered[0]).tables, ordered[k + 1], ordered[1..];
    AdjustOneFrame(t, ordered[0]);
    assert rest[k] == a && Resolve(t1, a) == Resolve(t, a);
    var p := Resolve(t, a).value;
    SumsFrame(t, t1, rest[..k + 1], p);
    assert ordered[..k + 2][1..] == rest[..k + 1];
    assert t1.products[p].balance == t.products[p].balance + ShareOf(t, ordered[0], p);
  }

  lemma AdjustmentRowFirst(t: Tables, ordered: seq<Adjustment>) returns (row: Movement)
    requires ordered != [] && AdjustOne(t, ordered[0]).error.None? && ordered[0].delta != 0
    ensures AdjustOne(t, ordered[0]).tables.movements == t.movements + [row] && AdjustmentRow(t, ordered, 0, row)
  {
    var p := Resolve(t, ordered[0]).value;
    row := Movement(p, ordered[0].delta, t.products[p].balance + ordered[0].delta, Adjusted);
    assert ordered[..1][1..] == [] && ordered[..1][0] == ordered[0];
    assert Net(t, ordered[..1], p) == ordered[0].delta;
  }

  /** An accepted batch of real movements adds one row each to the history, in the order
      they were applied, and nothing else. */
  lemma {:induction false} AdjustHistory(t: Tables, ordered: seq<Adjustment>) returns (rows: seq<Movement>)
    requires AdjustAll(t, ordered).error.None? && forall a :: a in ordered ==> a.delta != 0
    ensures AdjustAll(t, ordered).tables.movements == t.movements + rows && |rows| == |ordered|
    ensures forall k :: 0 <= k < |ordered| ==> AdjustmentRow(t, ordered, k, rows[k])
    decreases |ordered|
  {
    if ordered == [] {
      rows := [];
    } else {
      var t1 := AdjustOne(t, ordered[0]).tables;
      var first := AdjustmentRowFirst(t, ordered);
      var later := AdjustHistory(t1, ordered[1..]);
      rows := [first] + later;
      forall k | 0 < k < |ordered| ensures AdjustmentRow(t, ordered, k, rows[k]) {
        AdjustmentRowLater(t, ordered, k - 1, later[k - 1]);
      }
    }
  }

  /** Every balance is within its column. */
  ghost predicate InRange(t: Tables) {
    forall p :: p in t.products ==> 0 <= t.products[p].balance <= MAX_INTEGER
  }

  ghost predicate AcceptedInEveryOrder(t: Tables, batch: seq<Adjustment>) {
    forall ordered :: multiset(ordered) == multiset(batch) ==> Adjust(t, ordered).error.None?
  }

  /** With no order in it: every product is found, has what is taken from it without
      what it is brought, and room for what it is brought without what is taken. */
  ghost predicate FitsWithoutOrder(t: Tables, batch: seq<Adjustment>) {
    && (forall a :: a in batch ==> Resolve(t, a).Some?)
    && forall p :: p in t.products ==>
      && t.products[p].balance + Taken(t, batch, p) >= 0
      && t.products[p].balance + Added(t, batch, p) <= MAX_INTEGER
  }

  lemma {:induction false} SumsConcat(t: Tables, a: seq<Adjustment>, b: seq<Adjustment>, p: Uuid)
    ensures Net(t, a + b, p) == Net(t, a, p) + Net(t, b, p)
    ensures Taken(t, a + b, p) == Taken(t, a, p) + Taken(t, b, p)
    ensures Added(t, a + b, p) == Added(t, a, p) + Added(t, b, p)
  {
    if a == [] {
      assert a + b == b;
    } else {
      SumsConcat(t, a[1..], b, p);
      assert (a + b)[1..] == a[1..] + b;
    }
  }

  lemma {:induction false} SumsSplit(t: Tables, items: seq<Adjustment>, p: Uuid)
    ensures Net(t, items, p) == Taken(t, items, p) + Added(t, items, p)
    ensures Taken(t, items, p) <= 0 <= Added(t, items, p)
  {
    if items != [] {
      SumsSplit(t, items[1..], p);
    }
  }

  lemma {:induction false} SumsOfPermutation(t: Tables, a: seq<Adjustment>, b: seq<Adjustment>, p: Uuid)
    requires multiset(a) == multiset(b)
    ensures Taken(t, a, p) == Taken(t, b, p) && Added(t, a, p) == Added(t, b, p)
  {
    if a == [] {
      assert |multiset(b)| == 0;
    } else {
      assert a == [a[0]] + a[1..];
      var k := TakeOut(a[0], a[1..], b);
      SumsOfPermutation(t, a[1..], b[..k] + b[k + 1..], p);
      SumsConcat(t, b[..k], b[k + 1..], p);
      SumsConcat(t, b[..k], [b[k]] + b[k + 1..], p);
      assert b == b[..k] + ([b[k]] + b[k + 1..]);
    }
  }

  function Downs(items: seq<Adjustment>): seq<Adjustment> {
    if items == [] then [] else (if items[0].delta < 0 then [items[0]] else []) + Downs(items[1..])
  }

  function Ups(items: seq<Adjustment>): seq<Adjustment> {
    if items == [] then [] else (if items[0].delta < 0 then [] else [items[0]]) + Ups(items[1..])
  }

  lemma {:induction false} DownsAndUpsAreAll(items: seq<Adjustment>)
    ensures multiset(Downs(items)) + multiset(Ups(items)) == multiset(items)
  {
    if items != [] {
      DownsAndUpsAreAll(items[1..]);
      assert items == [items[0]] + items[1..];
    }
  }

  lemma NetOfHead(t: Tables, head: seq<Adjustment>, rest: seq<Adjustment>, p: Uuid)
    requires |head| <= 1
    ensures Net(t, head + rest, p) == (if head == [] then 0 else ShareOf(t, head[0], p)) + Net(t, rest, p)
  {
    SumsConcat(t, head, rest, p);
    assert head == [] || head[1..] == [];
  }

  lemma {:induction false} DownsAndUpsNet(t: Tables, items: seq<Adjustment>, p: Uuid)
    ensures Net(t, Downs(items), p) == Taken(t, items, p) && Net(t, Ups(items), p) == Added(t, items, p)
  {
    if items != [] {
      DownsAndUpsNet(t, items[1..], p);
      NetOfHead(t, if items[0].delta < 0 then [items[0]] else [], Downs(items[1..]), p);
      NetOfHead(t, if items[0].delta < 0 then [] else [items[0]], Ups(items[1..]), p);
    }
  }

  /** All that is taken first, or all that is brought first. */
  lemma ExtremeOrders(t: Tables, batch: seq<Adjustment>)
    requires AcceptedInEveryOrder(t, batch)
    ensures Adjust(t, Downs(batch) + Ups(batch)).error.None? && Adjust(t, Ups(batch) + Downs(batch)).error.None?
  {
    DownsAndUpsAreAll(batch);
    assert multiset(Downs(batch) + Ups(batch)) == multiset(batch) == multiset(Ups(batch) + Downs(batch));
  }

  /** The first part of an accepted order leaves every balance in range. */
  lemma {:induction false} PartInRange(t: Tables, a: seq<Adjustment>, b: seq<Adjustment>)
    requires InRange(t) && AdjustAll(t, a + b).error.None?
    ensures AdjustAll(t, a).error.None? && InRange(AdjustAll(t, a).tables)
    decreases |a|
  {
    if a != [] {
      assert (a + b)[1..] == a[1..] + b;
      PartInRange(AdjustOne(t, a[0]).tables, a[1..], b);
    }
  }

  lemma PartNet(t: Tables, a: seq<Adjustment>, b: seq<Adjustment>, p: Uuid)
    requires InRange(t) && p in t.products && Adjust(t, a + b).error.None?
    ensures 0 <= t.products[p].balance + Net(t, a, p) <= MAX_INTEGER
  {
    PartInRange(t, a, b);
    AdjustAllIff(t, a);
  }

  /** A batch is accepted in every order exactly when it fits without any order. */
  lemma EveryOrderIff(t: Tables, batch: seq<Adjustment>)
    requires InRange(t)
    ensures AcceptedInEveryOrder(t, batch) <==> FitsWithoutOrder(t, batch)
  {
    if AcceptedInEveryOrder(t, batch) {
      EveryOrderFits(t, batch);
    }
    if FitsWithoutOrder(t, batch) {
      forall ordered | multiset(ordered) == multiset(batch) ensures Adjust(t, ordered).error.None? {
        FittingStays(t, batch, ordered);
        AdjustRunningIff(t, ordered);
      }
    }
  }

  lemma EveryOrderFits(t: Tables, batch: seq<Adjustment>)
    requires InRange(t) && AcceptedInEveryOrder(t, batch)
    ensures FitsWithoutOrder(t, batch)
  {
    AdjustRunningIff(t, batch);
    ExtremeOrders(t, batch);
    forall a | a in batch ensures Resolve(t, a).Some? {
      var k :| 0 <= k < |batch| && batch[k] == a;
      assert FitsAt(t, batch, k);
    }
    forall p | p in t.products
      ensures t.products[p].balance + Taken(t, batch, p) >= 0 && t.products[p].balance + Added(t, batch, p) <= MAX_INTEGER
    {
      DownsAndUpsNet(t, batch, p);
      PartNet(t, Downs(batch), Ups(batch), p);
      PartNet(t, Ups(batch), Downs(batch), p);
    }
  }

  lemma FittingStays(t: Tables, batch: seq<Adjustment>, ordered: seq<Adjustment>)
    requires FitsWithoutOrder(t, batch) && multiset(ordered) == multiset(batch)
    ensures StaysInRange(t, ordered)
  {
    forall k | 0 <= k < |ordered| ensures FitsAt(t, ordered, k) {
      SameMembers(ordered, batch, ordered[k]);
      var p := Resolve(t, ordered[k]).value;
      SumsOfPermutation(t, ordered, batch, p);
      assert ordered == ordered[..k + 1] + ordered[k + 1..];
      SumsConcat(t, ordered[..k + 1], ordered[k + 1..], p);
      SumsSplit(t, ordered[..k + 1], p);
      SumsSplit(t, ordered[k + 1..], p);
    }
  }

  // ---- Every run ----------------------------------------------------------

  datatype Operation =
    | CreateProduct(id: Uuid, code: string, description: string, balance: int)
    | EditProduct(product: Uuid, newDescription: string, newBalance: int, version: int)
    | AdjustBalances(ordered: seq<Adjustment>)

  function Perform(t: Tables, op: Operation): Outcome
  {
    match op
    case CreateProduct(id, code, description, balance) => Create(t, id, code, description, balance)
    case EditProduct(id, description, balance, version) => Update(t, id, description, balance, version)
    case AdjustBalances(ordered) => Adjust(t, ordered)
  }

  lemma CreateKeepsBalanced(t: Tables, id: Uuid, code: string, description: string, balance: int)
    requires Balanced(t)
    ensures Balanced(Create(t, id, code, description, balance).tables)
  {
    var r := Create(t, id, code, description, balance);
    if r.error.None? {
      var t', m := r.tables, Movement(id, balance, balance, Registration);
      NoHistoryOfUnknown(t.movements, t.products.Keys, id);
      ChainedGrows(t.movements, t.products.Keys, t'.products.Keys);
      if balance != 0 {
        AppendKeepsChain(t.movements, t'.products.Keys, m);
      }
      CreatedBalances(t, t', id, m);
      CreatedCodes(t, t', id);
    }
  }

  lemma CreatedBalances(t: Tables, t': Tables, id: Uuid, m: Movement)
    requires BalancesAgree(t) && id !in t.products && Sum(t.movements, id) == 0
    requires m.product == id && 0 <= m.delta <= MAX_INTEGER && t'.movements == RecordMovement(t.movements, m)
    requires id in t'.products && t'.products == t.products[id := t'.products[id]] && t'.products[id].balance == m.delta
    ensures BalancesAgree(t')
  {
    forall q | q in t'.products
      ensures 0 <= t'.products[q].balance <= MAX_INTEGER && t'.products[q].balance == Sum(t'.movements, q)
    {
      SumRecorded(t.movements, m, q);
      if q != id {
        assert t'.products[q] == t.products[q];
      }
    }
  }

  lemma SumRecorded(movements: seq<Movement>, m: Movement, p: Uuid)
    ensures Sum(RecordMovement(movements, m), p) == Sum(movements, p) + if m.product == p then m.delta else 0
  {
    SumAppend(movements, m, p);
  }

  lemma CreatedCodes(t: Tables, t': Tables, id: Uuid)
    requires CodesIndexed(t) && id !in t.products && id in t'.products
    requires Upper(t'.products[id].code) !in t.codes
    requires t'.products == t.products[id := t'.products[id]]
    requires t'.codes == t.codes[Upper(t'.products[id].code) := id]
    ensures CodesIndexed(t')
  {
  }

  lemma AdjustOneKeepsBalanced(t: Tables, a: Adjustment)
    requires Balanced(t)
    ensures Balanced(AdjustOne(t, a).tables)
  {
    if AdjustOne(t, a).error.None? {
      AdjustOneWrites(t, a);
      var p := Resolve(t, a).value;
      WriteKeepsBalanced(t, p, t.products[p].description, t.products[p].balance + a.delta, Adjusted);
    }
  }

  lemma AdjustOneWrites(t: Tables, a: Adjustment)
    requires AdjustOne(t, a).error.None?
    ensures Resolve(t, a).Some? && Resolve(t, a).value in t.products
    ensures var p := Resolve(t, a).value;
      && 0 <= t.products[p].balance + a.delta <= MAX_INTEGER
      && AdjustOne(t, a).tables == Write(t, p, t.products[p].description, t.products[p].balance + a.delta, Adjusted)
  {
  }

  lemma {:induction false} AdjustAllKeepsBalanced(t: Tables, ordered: seq<Adjustment>)
    requires Balanced(t)
    ensures Balanced(AdjustAll(t, ordered).tables)
    decreases |ordered|
  {
    if ordered != [] {
      AdjustOneKeepsBalanced(t, ordered[0]);
      if AdjustOne(t, ordered[0]).error.None? {
        AdjustAllKeepsBalanced(AdjustOne(t, ordered[0]).tables, ordered[1..]);
      }
    }
  }

  lemma PerformKeepsBalanced(t: Tables, op: Operation)
    requires Balanced(t)
    ensures Balanced(Perform(t, op).tables) && Perform(t, op).tables.debits == t.debits
  {
    match op
    case CreateProduct(id, code, description, balance) => CreateKeepsBalanced(t, id, code, description, balance);
    case EditProduct(id, description, balance, version) =>
      if Update(t, id, description, balance, version).error.None? {
        WriteKeepsBalanced(t, id, description, balance, Edit);
      }
    case AdjustBalances(ordered) =>
      AdjustAllKeepsBalanced(t, ordered);
      AdjustAllFrame(t, ordered);
  }

  lemma {:induction false} AdjustAllFramesInvoices(t: Tables, ordered: seq<Adjustment>, invoice: Uuid)
    ensures InvoiceLines(AdjustAll(t, ordered).tables.movements, invoice) == InvoiceLines(t.movements, invoice)
    decreases |ordered|
  {
    if ordered != [] {
      var first := AdjustOne(t, ordered[0]);
      AdjustOneFrame(t, ordered[0]);
      if first.error.None? {
        var p := Resolve(t, ordered[0]).value;
        WriteFramesInvoices(t, p, t.products[p].description, t.products[p].balance + ordered[0].delta, Adjusted, invoice);
        AdjustAllFramesInvoices(first.tables, ordered[1..], invoice);
      }
    }
  }

  /** No product operation writes history under an invoice. */
  lemma PerformFramesInvoices(t: Tables, op: Operation, invoice: Uuid)
    ensures InvoiceLines(Perform(t, op).tables.movements, invoice) == InvoiceLines(t.movements, invoice)
  {
    match op
    case CreateProduct(id, code, description, balance) =>
      InvoiceLinesAppend(t.movements, Movement(id, balance, balance, Registration), invoice);
    case EditProduct(id, description, balance, version) =>
      if Update(t, id, description, balance, version).error.None? {
        WriteFramesInvoices(t, id, description, balance, Edit, invoice);
      }
    case AdjustBalances(ordered) => AdjustAllFramesInvoices(t, ordered, invoice);
  }

  // ---- Optimistic versions ------------------------------------------------

  /** Products never disappear, and a row that changed has a larger version. */
  ghost predicate RowsGrew(before: map<Uuid, Product>, after: map<Uuid, Product>) {
    forall p :: p in before ==> p in after && (after[p] == before[p] || after[p].version > before[p].version)
  }

  lemma RowsGrewTransitive(a: map<Uuid, Product>, b: map<Uuid, Product>, c: map<Uuid, Product>)
    requires RowsGrew(a, b) && RowsGrew(b, c)
    ensures RowsGrew(a, c)
  {
    forall p | p in a ensures p in c && (c[p] == a[p] || c[p].version > a[p].version) {
      assert p in b;
    }
  }

  lemma {:induction false} AdjustAllGrows(t: Tables, ordered: seq<Adjustment>)
    ensures RowsGrew(t.products, AdjustAll(t, ordered).tables.products)
    decreases |ordered|
  {
    if ordered != [] {
      AdjustOneFrame(t, ordered[0]);
      var first := AdjustOne(t, ordered[0]);
      if first.error.None? {
        AdjustAllGrows(first.tables, ordered[1..]);
        RowsGrewTransitive(t.products, first.tables.products, AdjustAll(t, ordered).tables.products);
      }
    }
  }

  lemma {:induction false} DebitLinesGrows(t: Tables, invoice: Uuid, ordered: seq<Line>)
    ensures RowsGrew(t.products, DebitLines(t, invoice, ordered).tables.products)
    decreases |ordered|
  {
    if ordered != [] {
      var first := DebitLine(t, invoice, ordered[0]);
      if first.error.None? {
        DebitLinesGrows(first.tables, invoice, ordered[1..]);
        RowsGrewTransitive(t.products, first.tables.products, DebitLines(t, invoice, ordered).tables.products);
      }
    }
  }

  lemma PerformGrows(t: Tables, op: Operation)
    ensures RowsGrew(t.products, Perform(t, op).tables.products)
  {
    if op.AdjustBalances? {
      AdjustAllGrows(t, op.ordered);
    }
  }

  lemma DebitGrows(t: Tables, invoice: Uuid, ordered: seq<Line>)
    ensures RowsGrew(t.products, DebitInSavepoint(t, invoice, ordered).tables.products)
  {
    DebitLinesGrows(t.(debits := t.debits + {invoice}), invoice, ordered);
  }
}
