/** The events the two services exchange: backend/internal/contracts/events.go. */
module Contracts {
  import opened Common
  import opened Sorting

  /** A product and a quantity of it: a print item, and the item of a debit. */
  datatype Line = Line(product: Uuid, quantity: int)

  datatype Body =
    | PrintRequested(invoice: Uuid, attempt: nat, lines: seq<Line>)
    | Debited(invoice: Uuid, attempt: nat)
    | Rejected(invoice: Uuid, attempt: nat, code: string)

  datatype Message = Message(id: Uuid, body: Body)

  /** Answers travel from stock to billing; requests the other way. */
  predicate IsAnswer(body: Body) {
    !body.PrintRequested?
  }

  predicate ProductLeq(a: Line, b: Line) {
    a.product <= b.product
  }

  /** One of the orders a sort by product id can leave the lines in. */
  ghost predicate LockOrder(ordered: seq<Line>, lines: seq<Line>) {
    multiset(ordered) == multiset(lines) && SortedBy(ordered, ProductLeq)
  }

  /** How much of product `p` the lines ask for. */
  function Total(lines: seq<Line>, p: Uuid): int {
    if lines == [] then 0
    else (if lines[0].product == p then lines[0].quantity else 0) + Total(lines[1..], p)
  }

  /** How many of the lines ask for product `p`. */
  function Count(lines: seq<Line>, p: Uuid): nat {
    if lines == [] then 0
    else (if lines[0].product == p then 1 else 0) + Count(lines[1..], p)
  }

  lemma {:induction false} TotalConcat(a: seq<Line>, b: seq<Line>, p: Uuid)
    ensures Total(a + b, p) == Total(a, p) + Total(b, p)
    ensures Count(a + b, p) == Count(a, p) + Count(b, p)
  {
    if a == [] {
      assert a + b == b;
    } else {
      TotalConcat(a[1..], b, p);
      assert (a + b)[1..] == a[1..] + b;
    }
  }

  /** The totals do not depend on the order of the lines. */
  lemma {:induction false} TotalOfPermutation(a: seq<Line>, b: seq<Line>, p: Uuid)
    requires multiset(a) == multiset(b)
    ensures Total(a, p) == Total(b, p) && Count(a, p) == Count(b, p)
  {
    if a == [] {
      assert |multiset(b)| == 0;
    } else {
      assert a == [a[0]] + a[1..];
      var k := TakeOut(a[0], a[1..], b);
      TotalOfPermutation(a[1..], b[..k] + b[k + 1..], p);
      TotalConcat(b[..k], b[k + 1..], p);
      TotalConcat(b[..k], [b[k]] + b[k + 1..], p);
      assert b == b[..k] + ([b[k]] + b[k + 1..]);
    }
  }

  lemma {:induction false} TotalIsPositive(lines: seq<Line>, p: Uuid)
    requires forall l :: l in lines ==> l.quantity > 0
    ensures Total(lines, p) >= 0
    ensures (exists l :: l in lines && l.product == p) <==> Total(lines, p) > 0
    ensures forall l :: l in lines && l.product == p ==> l.quantity <= Total(lines, p)
  {
    if lines != [] {
      TotalIsPositive(lines[1..], p);
      assert forall l :: l in lines <==> l == lines[0] || l in lines[1..];
    }
  }

  lemma SortGivesLockOrder(lines: seq<Line>)
    ensures LockOrder(Sort(lines, ProductLeq), lines)
  {
    SortIsPermutation(lines, ProductLeq);
    SortIsSorted(lines, ProductLeq);
  }
}
