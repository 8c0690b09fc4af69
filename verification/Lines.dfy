/** The lines of a new invoice: NewItemInputs of backend/internal/billing/invoice.go
    and CreateInvoice of service.go. */
module InvoiceLines {
  import opened Common
  import opened Contracts
  import opened Sorting
  import I = Invoices
  import L = Ledger

  const MAX_ITEMS_PER_INVOICE := 100
  const MAX_ITEM_QUANTITY := 1_000_000

  datatype Flaw = EmptyProduct | NotPositive | TooLarge

  datatype InputError = NoItems | Flawed(details: map<nat, Flaw>) | TooManyProducts

  predicate Sound(line: Line) {
    line.product != NIL && 0 < line.quantity <= MAX_ITEM_QUANTITY
  }

  /** What is wrong with a line, after the lines accepted so far. */
  function FlawOf(accepted: seq<Line>, line: Line): Option<Flaw> {
    if line.product == NIL then Some(EmptyProduct)
    else if line.quantity <= 0 then Some(NotPositive)
    else if line.quantity > MAX_ITEM_QUANTITY then Some(TooLarge)
    else if Total(accepted, line.product) + line.quantity > MAX_ITEM_QUANTITY then Some(TooLarge)
    else None
  }

  /** The lines that are let in: a line with a flaw does not count against later ones. */
  function Accepted(inputs: seq<Line>): seq<Line> {
    if inputs == [] then []
    else
      var before, last := Accepted(inputs[..|inputs| - 1]), inputs[|inputs| - 1];
      if FlawOf(before, last).Some? then before else before + [last]
  }

  function FlawAt(inputs: seq<Line>, i: nat): Option<Flaw>
    requires i < |inputs|
  {
    FlawOf(Accepted(inputs[..i]), inputs[i])
  }

  /** The products in the order they first appear. */
  function Firsts(lines: seq<Line>): seq<Uuid> {
    if lines == [] then []
    else
      var before, last := Firsts(lines[..|lines| - 1]), lines[|lines| - 1];
      if last.product in before then before else before + [last.product]
  }

  /** One line a product, in that order, each with the total of its product. */
  ghost predicate Merges(merged: seq<Line>, lines: seq<Line>) {
    && |merged| == |Firsts(lines)|
    && forall k :: 0 <= k < |merged| ==>
         merged[k] == Line(Firsts(lines)[k], Total(lines, Firsts(lines)[k]))
  }

  /** The whole rule, with no order in it. */
  ghost predicate Acceptable(inputs: seq<Line>) {
    && inputs != []
    && (forall l :: l in inputs ==> Sound(l) && Total(inputs, l.product) <= MAX_ITEM_QUANTITY)
    && |Firsts(inputs)| <= MAX_ITEMS_PER_INVOICE
  }

  // ---- What the order of first appearance means -------------------------------------

  lemma FirstsSnoc(lines: seq<Line>, line: Line)
    ensures Firsts(lines + [line])
         == if line.product in Firsts(lines) then Firsts(lines) else Firsts(lines) + [line.product]
  {
    assert (lines + [line])[..|lines|] == lines;
  }

  lemma AcceptedSnoc(inputs: seq<Line>, line: Line)
    ensures Accepted(inputs + [line])
         == if FlawOf(Accepted(inputs), line).Some? then Accepted(inputs) else Accepted(inputs) + [line]
  {
    assert (inputs + [line])[..|inputs|] == inputs;
  }

  lemma TotalSnoc(lines: seq<Line>, line: Line, p: Uuid)
    ensures Total(lines + [line], p) == Total(lines, p) + if line.product == p then line.quantity else 0
  {
    TotalConcat(lines, [line], p);
    assert [line][1..] == [];
  }

  /** Every product once, exactly those of the lines, and each before those that
      first appear later. */
  lemma {:induction false} FirstsAreFirst(lines: seq<Line>)
    ensures forall i, j :: 0 <= i < j < |Firsts(lines)| ==> Firsts(lines)[i] != Firsts(lines)[j]
    ensures forall p :: p in Firsts(lines) <==> exists i :: 0 <= i < |lines| && lines[i].product == p
    ensures forall n :: 0 <= n <= |lines| ==> Firsts(lines[..n]) <= Firsts(lines)
  {
    if lines != [] {
      var before := lines[..|lines| - 1];
      FirstsAreFirst(before);
      forall p ensures p in Firsts(lines) <==> exists i :: 0 <= i < |lines| && lines[i].product == p {
        FirstsHas(lines, p);
      }
      forall n | 0 <= n <= |lines| ensures Firsts(lines[..n]) <= Firsts(lines) {
        if n < |lines| {
          assert before[..n] == lines[..n];
        } else {
          assert lines[..n] == lines;
        }
      }
    }
  }

  lemma {:induction false} FirstsHas(lines: seq<Line>, p: Uuid)
    ensures p in Firsts(lines) <==> exists i :: 0 <= i < |lines| && lines[i].product == p
  {
    if lines != [] {
      var before, last := lines[..|lines| - 1], lines[|lines| - 1];
      FirstsHas(before, p);
      if i :| 0 <= i < |lines| && lines[i].product == p {
        assert i < |before| ==> before[i].product == p;
      }
      if p in Firsts(before) {
        var i :| 0 <= i < |before| && before[i].product == p;
        assert lines[i].product == p;
      }
    }
  }

  /** What is said of line i: that it names no product, that it asks for nothing, or that
      it asks for more than a million together with the lines accepted before it. */
  lemma FlawNames(inputs: seq<Line>, i: nat)
    requires i < |inputs|
    ensures var line, flaw := inputs[i], FlawAt(inputs, i);
      var earlier := Total(Accepted(inputs[..i]), line.product);
      && (flaw == Some(EmptyProduct) <==> line.product == 0)
      && (flaw == Some(NotPositive) <==> line.product != 0 && line.quantity <= 0)
      && (flaw == Some(TooLarge) <==> line.product != 0 && line.quantity > 0 && earlier + line.quantity > 1_000_000)
  {
    AcceptedIsPositive(inputs[..i]);
    TotalIsPositive(Accepted(inputs[..i]), inputs[i].product);
  }

  lemma {:induction false} AcceptedIsPositive(inputs: seq<Line>)
    ensures forall l :: l in Accepted(inputs) ==> l.quantity > 0
  {
    if inputs != [] {
      AcceptedIsPositive(inputs[..|inputs| - 1]);
    }
  }

  /** The places of the lines nothing is said of, among the first n. */
  ghost predicate Flawless(at: seq<nat>, inputs: seq<Line>, n: nat)
    requires n <= |inputs|
  {
    && (forall k :: 0 <= k < |at| ==> at[k] < n)
    && (forall j, k :: 0 <= j < k < |at| ==> at[j] < at[k])
    && forall i: nat :: i < n ==> (i in at <==> FlawAt(inputs, i).None?)
  }

  ghost function Picked(inputs: seq<Line>, at: seq<nat>): seq<Line>
    requires forall k :: 0 <= k < |at| ==> at[k] < |inputs|
  {
    seq(|at|, k requires 0 <= k < |at| => inputs[at[k]])
  }

  lemma FlawlessMore(at: seq<nat>, inputs: seq<Line>, n: nat)
    requires n < |inputs| && Flawless(at, inputs, n)
    ensures FlawAt(inputs, n).None? ==> Flawless(at + [n], inputs, n + 1)
    ensures FlawAt(inputs, n).Some? ==> Flawless(at, inputs, n + 1)
    ensures Picked(inputs, at + [n]) == Picked(inputs, at) + [inputs[n]]
  {
    assert forall i: nat :: i in at + [n] <==> i in at || i == n;
  }

  /** The lines accepted are those nothing is said of, each once and in order. */
  lemma {:induction false} AcceptedAreTheFlawless(inputs: seq<Line>, n: nat) returns (at: seq<nat>)
    requires n <= |inputs|
    ensures Flawless(at, inputs, n) && Accepted(inputs[..n]) == Picked(inputs, at)
    decreases n
  {
    if n == 0 {
      at := [];
    } else {
      var before := AcceptedAreTheFlawless(inputs, n - 1);
      FlawlessMore(before, inputs, n - 1);
      assert inputs[..n] == inputs[..n - 1] + [inputs[n - 1]];
      AcceptedSnoc(inputs[..n - 1], inputs[n - 1]);
      at := if FlawAt(inputs, n - 1).None? then before + [n - 1] else before;
    }
  }

  ghost function Products(lines: seq<Line>): set<Uuid> {
    set l | l in lines :: l.product
  }

  lemma {:induction false} FirstsCount(lines: seq<Line>)
    ensures |Firsts(lines)| == |Products(lines)|
  {
    if lines != [] {
      var before, last := lines[..|lines| - 1], lines[|lines| - 1];
      FirstsCount(before);
      FirstsHas(before, last.product);
      assert forall l :: l in lines <==> l in before || l == last;
      assert Products(lines) == Products(before) + {last.product};
      assert last.product in Firsts(before) <==> last.product in Products(before) by {
        if l :| l in before && l.product == last.product {
          var i :| 0 <= i < |before| && before[i] == l;
        }
        if i :| 0 <= i < |before| && before[i].product == last.product {
          assert before[i] in before;
        }
      }
      if last.product in Firsts(before) {
        assert Products(lines) == Products(before);
      } else {
        assert |Products(lines)| == |Products(before)| + 1;
        assert |Firsts(lines)| == |Firsts(before)| + 1;
      }
    }
  }

  /** The whole rule in numbers: some lines, each for a product and a quantity, no more
      than a million of any product in all and no more than a hundred products. */
  lemma AcceptableIff(inputs: seq<Line>)
    ensures Acceptable(inputs) <==>
      && |inputs| > 0
      && (forall l :: l in inputs ==> l.product != 0 && l.quantity > 0 && Total(inputs, l.product) <= 1_000_000)
      && |Products(inputs)| <= 100
  {
    FirstsCount(inputs);
    if forall l :: l in inputs ==> l.quantity > 0 {
      forall l | l in inputs ensures l.quantity <= Total(inputs, l.product) {
        TotalIsPositive(inputs, l.product);
      }
    }
  }

  // ---- The loop ---------------------------------------------------------------------

  /** Where each merged product stands. */
  ghost predicate Positions(positionOf: map<Uuid, nat>, firsts: seq<Uuid>) {
    && (forall p :: p in positionOf ==> positionOf[p] < |firsts| && firsts[positionOf[p]] == p)
    && (forall p :: p in firsts ==> p in positionOf)
  }

  /** The details name exactly the lines with a flaw. */
  ghost predicate Explains(details: map<nat, Flaw>, inputs: seq<Line>, n: nat)
    requires n <= |inputs|
  {
    && (forall i :: i in details ==> i < n && FlawAt(inputs, i) == Some(details[i]))
    && (forall i :: 0 <= i < n && FlawAt(inputs, i).Some? ==> i in details)
  }

  lemma MergeRepeated(merged: seq<Line>, lines: seq<Line>, line: Line, k: nat)
    requires Merges(merged, lines) && k < |merged| && merged[k].product == line.product
    ensures Merges(merged[k := merged[k].(quantity := merged[k].quantity + line.quantity)], lines + [line])
    ensures Firsts(lines + [line]) == Firsts(lines)
  {
    var firsts := Firsts(lines);
    FirstsAreFirst(lines);
    FirstsSnoc(lines, line);
    assert firsts[k] == line.product;
    forall i | 0 <= i < |merged|
      ensures Total(lines + [line], firsts[i]) == merged[i].quantity + if i == k then line.quantity else 0
    {
      TotalSnoc(lines, line, firsts[i]);
    }
  }

  lemma MergeNew(merged: seq<Line>, lines: seq<Line>, line: Line)
    requires Merges(merged, lines) && line.product !in Firsts(lines)
    ensures Merges(merged + [line], lines + [line])
    ensures Firsts(lines + [line]) == Firsts(lines) + [line.product]
  {
    var firsts := Firsts(lines);
    FirstsSnoc(lines, line);
    UnseenTotal(lines, line.product);
    TotalSnoc(lines, line, line.product);
    forall i | 0 <= i < |merged| ensures Total(lines + [line], firsts[i]) == merged[i].quantity {
      TotalSnoc(lines, line, firsts[i]);
    }
  }

  lemma {:induction false} UnseenTotal(lines: seq<Line>, p: Uuid)
    requires p !in Firsts(lines)
    ensures Total(lines, p) == 0
  {
    if lines != [] {
      var before, last := lines[..|lines| - 1], lines[|lines| - 1];
      UnseenTotal(before, p);
      TotalSnoc(before, last, p);
      assert lines == before + [last];
    }
  }

  /** Where the loop stands after n lines. */
  ghost predicate Reading(details: map<nat, Flaw>, merged: seq<Line>, positionOf: map<Uuid, nat>,
                          inputs: seq<Line>, n: nat)
    requires n <= |inputs|
  {
    var accepted := Accepted(inputs[..n]);
    Explains(details, inputs, n) && Merges(merged, accepted) && Positions(positionOf, Firsts(accepted))
  }

  /** The total accepted for a product is the quantity of its merged line. */
  lemma FlawIs(details: map<nat, Flaw>, merged: seq<Line>, positionOf: map<Uuid, nat>, inputs: seq<Line>, n: nat)
    requires n < |inputs| && Reading(details, merged, positionOf, inputs, n)
    ensures var line := inputs[n];
      && (line.product in positionOf ==>
           positionOf[line.product] < |merged| && merged[positionOf[line.product]].product == line.product)
      && FlawAt(inputs, n) ==
           if line.product == NIL then Some(EmptyProduct)
           else if line.quantity <= 0 then Some(NotPositive)
           else if line.quantity > MAX_ITEM_QUANTITY then Some(TooLarge)
           else if line.product in positionOf &&
                   merged[positionOf[line.product]].quantity + line.quantity > MAX_ITEM_QUANTITY then Some(TooLarge)
           else None
  {
    if inputs[n].product !in positionOf {
      UnseenTotal(Accepted(inputs[..n]), inputs[n].product);
    }
  }

  lemma OneMore(details: map<nat, Flaw>, inputs: seq<Line>, n: nat)
    requires n < |inputs| && Explains(details, inputs, n)
    ensures var accepted, flaw := Accepted(inputs[..n]), FlawAt(inputs, n);
      && Accepted(inputs[..n + 1]) == (if flaw.Some? then accepted else accepted + [inputs[n]])
      && (if flaw.Some? then Explains(details[n := flaw.value], inputs, n + 1) else Explains(details, inputs, n + 1))
  {
    assert inputs[..n + 1] == inputs[..n] + [inputs[n]];
    AcceptedSnoc(inputs[..n], inputs[n]);
  }

  lemma FlawedLine(details: map<nat, Flaw>, merged: seq<Line>, positionOf: map<Uuid, nat>, inputs: seq<Line>, n: nat,
                   flaw: Flaw)
    requires n < |inputs| && Reading(details, merged, positionOf, inputs, n) && FlawAt(inputs, n) == Some(flaw)
    ensures Reading(details[n := flaw], merged, positionOf, inputs, n + 1)
  {
    OneMore(details, inputs, n);
  }

  lemma RepeatedLine(details: map<nat, Flaw>, merged: seq<Line>, positionOf: map<Uuid, nat>, inputs: seq<Line>, n: nat)
    requires n < |inputs| && Reading(details, merged, positionOf, inputs, n) && FlawAt(inputs, n).None?
    requires inputs[n].product in positionOf && positionOf[inputs[n].product] < |merged|
    ensures var k := positionOf[inputs[n].product];
      Reading(details, merged[k := merged[k].(quantity := merged[k].quantity + inputs[n].quantity)], positionOf,
              inputs, n + 1)
  {
    OneMore(details, inputs, n);
    MergeRepeated(merged, Accepted(inputs[..n]), inputs[n], positionOf[inputs[n].product]);
  }

  lemma NewLine(details: map<nat, Flaw>, merged: seq<Line>, positionOf: map<Uuid, nat>, inputs: seq<Line>, n: nat)
    requires n < |inputs| && Reading(details, merged, positionOf, inputs, n) && FlawAt(inputs, n).None?
    requires inputs[n].product !in positionOf
    ensures Reading(details, merged + [inputs[n]], positionOf[inputs[n].product := |merged|], inputs, n + 1)
  {
    OneMore(details, inputs, n);
    MergeNew(merged, Accepted(inputs[..n]), inputs[n]);
  }

  /** What the details say once every line was looked at. */
  lemma Judged(details: map<nat, Flaw>, merged: seq<Line>, positionOf: map<Uuid, nat>, inputs: seq<Line>)
    requires Reading(details, merged, positionOf, inputs, |inputs|)
    ensures |details| == 0 <==> details == map[]
    ensures Explains(details, inputs, |inputs|)
    ensures details == map[] <==> Unflawed(inputs)
    ensures Unflawed(inputs) <==> WithinLimits(inputs)
    ensures Unflawed(inputs) ==> Merges(merged, inputs)
  {
    assert inputs[..|inputs|] == inputs;
    NoFlawIff(inputs);
    assert |details| == |details.Keys|;
    if details != map[] {
      var i :| i in details;
      assert FlawAt(inputs, i).Some?;
    }
  }

  /** On success every product comes once, in the order it first appeared, with
      the total the lines ask of it; and it succeeds exactly when no line is
      flawed, no product is asked for too much of and there are not too many. A
      refusal says which lines were at fault. */
  method NewItemInputs(inputs: seq<Line>) returns (result: Result<seq<Line>, InputError>)
    ensures result.Ok? <==> Acceptable(inputs)
    ensures result.Ok? ==> Merges(result.value, inputs)
    ensures result == Err(NoItems) <==> inputs == []
    ensures result.Err? && result.error.Flawed? ==>
      result.error.details != map[] && Explains(result.error.details, inputs, |inputs|)
    ensures result == Err(TooManyProducts) ==>
      |Firsts(inputs)| > MAX_ITEMS_PER_INVOICE && forall i :: 0 <= i < |inputs| ==> FlawAt(inputs, i).None?
  {
    if inputs == [] {
      return Err(NoItems);
    }
    var details: map<nat, Flaw> := map[];
    var merged: seq<Line> := [];
    var positionOf: map<Uuid, nat> := map[];
    for index := 0 to |inputs|
      invariant Reading(details, merged, positionOf, inputs, index)
    {
      var input := inputs[index];
      FlawIs(details, merged, positionOf, inputs, index);
      if input.product == NIL {
        FlawedLine(details, merged, positionOf, inputs, index, EmptyProduct);
        details := details[index := EmptyProduct];
        continue;
      }
      if input.quantity <= 0 {
        FlawedLine(details, merged, positionOf, inputs, index, NotPositive);
        details := details[index := NotPositive];
        continue;
      } else if input.quantity > MAX_ITEM_QUANTITY {
        FlawedLine(details, merged, positionOf, inputs, index, TooLarge);
        details := details[index := TooLarge];
        continue;
      }
      if input.product in positionOf {
        var position := positionOf[input.product];
        var total := merged[position].quantity + input.quantity;
        if total > MAX_ITEM_QUANTITY {
          FlawedLine(details, merged, positionOf, inputs, index, TooLarge);
          details := details[index := TooLarge];
          continue;
        }
        RepeatedLine(details, merged, positionOf, inputs, index);
        merged := merged[position := merged[position].(quantity := total)];
        continue;
      }
      NewLine(details, merged, positionOf, inputs, index);
      positionOf := positionOf[input.product := |merged|];
      merged := merged + [input];
    }
    Judged(details, merged, positionOf, inputs);
    if |details| > 0 {
      return Err(Flawed(details));
    }
    if |merged| > MAX_ITEMS_PER_INVOICE {
      return Err(TooManyProducts);
    }
    result := Ok(merged);
  }

  // ---- No flaw, whatever the order ----------------------------------------------------

  ghost predicate Unflawed(inputs: seq<Line>) {
    forall i :: 0 <= i < |inputs| ==> FlawAt(inputs, i).None?
  }

  ghost predicate WithinLimits(inputs: seq<Line>) {
    forall l :: l in inputs ==> Sound(l) && Total(inputs, l.product) <= MAX_ITEM_QUANTITY
  }

  lemma UnflawedSnoc(inputs: seq<Line>, line: Line)
    ensures Unflawed(inputs + [line]) <==> Unflawed(inputs) && FlawOf(Accepted(inputs), line).None?
  {
    var whole := inputs + [line];
    forall i | 0 <= i < |inputs| ensures FlawAt(whole, i) == FlawAt(inputs, i) {
      assert whole[..i] == inputs[..i];
    }
    assert whole[..|inputs|] == inputs;
    assert FlawAt(whole, |inputs|) == FlawOf(Accepted(inputs), line);
  }

  lemma WithinLimitsSnoc(inputs: seq<Line>, line: Line)
    ensures WithinLimits(inputs + [line]) <==>
      WithinLimits(inputs) && Sound(line) && Total(inputs, line.product) + line.quantity <= MAX_ITEM_QUANTITY
  {
    var whole := inputs + [line];
    forall l ensures l in whole <==> l in inputs || l == line {
    }
    forall p ensures Total(whole, p) == Total(inputs, p) + if line.product == p then line.quantity else 0 {
      TotalSnoc(inputs, line, p);
    }
  }

  /** Looked at one after the other, no line is flawed exactly when all are within
      the limits together; and then all are accepted. */
  lemma {:induction false} NoFlawIff(inputs: seq<Line>)
    ensures Unflawed(inputs) <==> WithinLimits(inputs)
    ensures Unflawed(inputs) ==> Accepted(inputs) == inputs
  {
    if inputs != [] {
      var before, last := inputs[..|inputs| - 1], inputs[|inputs| - 1];
      NoFlawIff(before);
      assert inputs == before + [last];
      UnflawedSnoc(before, last);
      WithinLimitsSnoc(before, last);
    }
  }

  // ---- From the request to the ledger ---------------------------------------------------

  datatype CatalogueProduct = CatalogueProduct(id: Uuid, code: string, description: string)

  datatype CreateError = Invalid(error: InputError) | LookupFailed | MissingProduct(product: Uuid)

  /** An item is a merged line with the code and description of its product. */
  ghost predicate ItemOf(item: I.Item, line: Line, products: seq<CatalogueProduct>) {
    && item.product == line.product
    && item.quantity == line.quantity
    && CatalogueProduct(line.product, item.code, item.description) in products
  }

  ghost predicate Itemised(items: seq<I.Item>, merged: seq<Line>, products: seq<CatalogueProduct>) {
    |items| == |merged| && forall k :: 0 <= k < |items| ==> ItemOf(items[k], merged[k], products)
  }

  ghost predicate Listed(products: seq<CatalogueProduct>, p: Uuid) {
    exists c :: c in products && c.id == p
  }

  /** The k-th product is the first one the catalogue did not answer with. */
  ghost predicate FirstMissing(products: seq<CatalogueProduct>, wanted: seq<Uuid>, k: nat)
    requires k < |wanted|
  {
    !Listed(products, wanted[k]) && forall j :: 0 <= j < k ==> Listed(products, wanted[j])
  }

  /** Up to the insert: the items a valid request is stored as. */
  method CreateInvoice(inputs: seq<Line>, lookup: seq<Uuid> -> Option<seq<CatalogueProduct>>)
    returns (result: Result<seq<I.Item>, CreateError>)
    ensures result.Err? && result.error.Invalid? <==> !Acceptable(inputs)
    ensures result == Err(LookupFailed) <==> Acceptable(inputs) && lookup(Firsts(inputs)).None?
    ensures result.Ok? ==> lookup(Firsts(inputs)).Some? && exists merged ::
      Merges(merged, inputs) && Itemised(result.value, merged, lookup(Firsts(inputs)).value)
    ensures result.Err? && result.error.MissingProduct? ==>
      && lookup(Firsts(inputs)).Some?
      && exists k :: 0 <= k < |Firsts(inputs)| && FirstMissing(lookup(Firsts(inputs)).value, Firsts(inputs), k)
           && result.error.product == Firsts(inputs)[k]
  {
    var checked := NewItemInputs(inputs);
    if checked.Err? {
      return Err(Invalid(checked.error));
    }
    var merged := checked.value;
    var ids: seq<Uuid> := [];
    for k := 0 to |merged|
      invariant |ids| == k && forall i :: 0 <= i < k ==> ids[i] == merged[i].product
    {
      ids := ids + [merged[k].product];
    }
    assert ids == Firsts(inputs);
    var answer := lookup(ids);
    if answer.None? {
      return Err(LookupFailed);
    }
    var products := answer.value;
    var byID: map<Uuid, CatalogueProduct> := map[];
    for k := 0 to |products|
      invariant forall id :: id in byID ==> byID[id].id == id && byID[id] in products
      invariant forall i :: 0 <= i < k ==> products[i].id in byID
    {
      byID := byID[products[k].id := products[k]];
    }
    var items: seq<I.Item> := [];
    for k := 0 to |merged|
      invariant |items| == k && forall i :: 0 <= i < k ==> ItemOf(items[i], merged[i], products)
      invariant forall i :: 0 <= i < k ==> Listed(products, ids[i])
    {
      if merged[k].product !in byID {
        assert FirstMissing(products, ids, k);
        return Err(MissingProduct(merged[k].product));
      }
      var product := byID[merged[k].product];
      items := items + [I.Item(product.id, product.code, product.description, merged[k].quantity)];
    }
    result := Ok(items);
  }

  lemma {:induction false} MergedTotal(merged: seq<Line>, p: Uuid)
    requires forall i, j :: 0 <= i < j < |merged| ==> merged[i].product != merged[j].product
    ensures forall k :: 0 <= k < |merged| && merged[k].product == p ==> Total(merged, p) == merged[k].quantity
    ensures (forall k :: 0 <= k < |merged| ==> merged[k].product != p) ==> Total(merged, p) == 0
  {
    if merged != [] {
      MergedTotal(merged[1..], p);
      if merged[0].product == p {
        forall k | 0 <= k < |merged| - 1 ensures merged[1..][k].product != p {
          assert merged[k + 1].product != merged[0].product;
        }
      } else {
        forall k | 0 <= k < |merged| && merged[k].product == p ensures Total(merged, p) == merged[k].quantity {
          assert merged[1..][k - 1] == merged[k];
        }
      }
    }
  }

  /** Merging changes no total. */
  lemma MergingKeepsTotals(merged: seq<Line>, inputs: seq<Line>, p: Uuid)
    requires Merges(merged, inputs)
    ensures Total(merged, p) == Total(inputs, p)
  {
    FirstsAreFirst(inputs);
    MergedTotal(merged, p);
    if p in Firsts(inputs) {
      var k :| 0 <= k < |merged| && Firsts(inputs)[k] == p;
      assert merged[k].product == p;
    } else {
      UnseenTotal(inputs, p);
    }
  }

  lemma ItemsAreMerged(items: seq<I.Item>, merged: seq<Line>, products: seq<CatalogueProduct>)
    requires Itemised(items, merged, products)
    ensures I.LinesOf(items) == merged
  {
  }

  /** The stored items meet the constraints of their table, and the request to
      print them carries for every product the total the caller asked for. */
  lemma RequestCarriesTheTotals(inputs: seq<Line>, merged: seq<Line>, items: seq<I.Item>,
                                products: seq<CatalogueProduct>, p: Uuid)
    requires Acceptable(inputs) && Merges(merged, inputs) && Itemised(items, merged, products)
    ensures I.ValidItems(items)
    ensures Total(I.RequestLines(items), p) == Total(inputs, p)
  {
    ItemsAreMerged(items, merged, products);
    I.RequestLinesAreTheItems(items);
    TotalOfPermutation(I.RequestLines(items), merged, p);
    MergingKeepsTotals(merged, inputs, p);
    StoredItemsAreValid(inputs, merged, items, products);
  }

  lemma StoredItemsAreValid(inputs: seq<Line>, merged: seq<Line>, items: seq<I.Item>, products: seq<CatalogueProduct>)
    requires Acceptable(inputs) && Merges(merged, inputs) && Itemised(items, merged, products)
    ensures I.ValidItems(items)
  {
    FirstsAreFirst(inputs);
    forall k | 0 <= k < |items| ensures items[k].quantity > 0 {
      var p := Firsts(inputs)[k];
      assert p in Firsts(inputs);
      var i :| 0 <= i < |inputs| && inputs[i].product == p;
      assert inputs[i] in inputs;
      assert forall l :: l in inputs ==> l.quantity > 0;
      TotalIsPositive(inputs, p);
    }
  }

  /** End to end: for an invoice made from these lines and not debited before, the
      debit goes through exactly when the catalogue fulfils the lines as they were
      first sent, and then takes exactly their totals. */
  lemma DebitTakesTheTotals(inputs: seq<Line>, merged: seq<Line>, items: seq<I.Item>, products: seq<CatalogueProduct>,
                            t: L.Tables, invoice: Uuid, ordered: seq<Line>)
    requires Acceptable(inputs) && Merges(merged, inputs) && Itemised(items, merged, products)
    requires invoice !in t.debits && LockOrder(ordered, I.RequestLines(items))
    ensures var r := L.DebitInSavepoint(t, invoice, ordered);
      && (r.error.None? <==> L.Fulfils(t.products, inputs))
      && (r.error.None? ==> r.tables.products.Keys == t.products.Keys && forall p :: p in t.products ==>
           r.tables.products[p].balance == t.products[p].balance - Total(inputs, p))
  {
    var request := I.RequestLines(items);
    L.DebitSucceedsIff(t, invoice, request, ordered);
    forall p ensures Total(request, p) == Total(inputs, p) {
      RequestCarriesTheTotals(inputs, merged, items, products, p);
    }
    SameDemand(inputs, merged, request, items, products, t.products);
  }

  ghost predicate Asks(lines: seq<Line>, p: Uuid) {
    exists l :: l in lines && l.product == p
  }

  /** Every line has a positive quantity, of a product the others ask for too. */
  ghost predicate AsksNoMore(lines: seq<Line>, others: seq<Line>) {
    forall l :: l in lines ==> l.quantity > 0 && Asks(others, l.product)
  }

  lemma FulfilsSameTotals(catalogue: map<Uuid, L.Product>, a: seq<Line>, b: seq<Line>)
    requires L.Fulfils(catalogue, a) && AsksNoMore(b, a) && forall p :: Total(a, p) == Total(b, p)
    ensures L.Fulfils(catalogue, b)
  {
    forall l | l in b
      ensures l.quantity > 0 && l.product in catalogue && Total(b, l.product) <= catalogue[l.product].balance
    {
      assert Asks(a, l.product);
    }
  }

  lemma SameDemand(inputs: seq<Line>, merged: seq<Line>, request: seq<Line>, items: seq<I.Item>,
                   products: seq<CatalogueProduct>, catalogue: map<Uuid, L.Product>)
    requires Acceptable(inputs) && Merges(merged, inputs) && Itemised(items, merged, products)
    requires request == I.RequestLines(items) && forall p :: Total(request, p) == Total(inputs, p)
    ensures L.Fulfils(catalogue, request) <==> L.Fulfils(catalogue, inputs)
  {
    RequestAsksNoMore(inputs, merged, request, items, products);
    InputsAskNoMore(inputs, merged, request, items, products);
    if L.Fulfils(catalogue, request) {
      FulfilsSameTotals(catalogue, request, inputs);
    }
    if L.Fulfils(catalogue, inputs) {
      FulfilsSameTotals(catalogue, inputs, request);
    }
  }

  lemma RequestAsksNoMore(inputs: seq<Line>, merged: seq<Line>, request: seq<Line>, items: seq<I.Item>,
                          products: seq<CatalogueProduct>)
    requires Acceptable(inputs) && Merges(merged, inputs) && Itemised(items, merged, products)
    requires request == I.RequestLines(items)
    ensures AsksNoMore(request, inputs)
  {
    ItemsAreMerged(items, merged, products);
    I.RequestLinesAreTheItems(items);
    StoredItemsAreValid(inputs, merged, items, products);
    FirstsAreFirst(inputs);
    forall l | l in request ensures l.quantity > 0 && Asks(inputs, l.product) {
      assert l in multiset(request);
      var k :| 0 <= k < |merged| && merged[k] == l;
      assert items[k] in items && Firsts(inputs)[k] in Firsts(inputs);
      var i :| 0 <= i < |inputs| && inputs[i].product == Firsts(inputs)[k];
      assert inputs[i] in inputs;
    }
  }

  lemma InputsAskNoMore(inputs: seq<Line>, merged: seq<Line>, request: seq<Line>, items: seq<I.Item>,
                        products: seq<CatalogueProduct>)
    requires Acceptable(inputs) && Merges(merged, inputs) && Itemised(items, merged, products)
    requires request == I.RequestLines(items)
    ensures AsksNoMore(inputs, request)
  {
    ItemsAreMerged(items, merged, products);
    I.RequestLinesAreTheItems(items);
    FirstsAreFirst(inputs);
    forall l | l in inputs ensures l.quantity > 0 && Asks(request, l.product) {
      var i :| 0 <= i < |inputs| && inputs[i] == l;
      assert l.product in Firsts(inputs);
      var k :| 0 <= k < |merged| && Firsts(inputs)[k] == l.product;
      assert merged[k] in multiset(request);
    }
  }
}
