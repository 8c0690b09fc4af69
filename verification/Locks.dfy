/** The row locks of the stock database: why an invoice being debited and a batch
    being adjusted cannot wait for each other in a circle, and when they can
    (debit.go:61-66, bulk.go:177-182 and consumer.go:80 of the backend). */
module Locks {
  import opened Common
  import opened Contracts
  import opened Sorting
  import L = Ledger
  import opened LedgerOperations

  /** An inserted inbox record, an inserted debit row, a product row. */
  datatype Lock = Inbox(id: Uuid) | Debit(invoice: Uuid) | ProductRow(product: Uuid)

  function Rank(l: Lock): nat {
    match l
    case Inbox(_) => 0
    case Debit(_) => 1
    case ProductRow(_) => 2
  }

  function Key(l: Lock): Uuid {
    match l
    case Inbox(id) => id
    case Debit(invoice) => invoice
    case ProductRow(product) => product
  }

  predicate Less(a: Lock, b: Lock) {
    Rank(a) < Rank(b) || (Rank(a) == Rank(b) && Key(a) < Key(b))
  }

  type Tx = nat

  /** A transaction has taken the first `taken` locks of its program. */
  datatype Progress = Progress(program: seq<Lock>, taken: nat)

  datatype Manager = Manager(txs: map<Tx, Progress>, owner: map<Lock, Tx>)

  const IDLE := Manager(map[], map[])

  datatype Step =
    | Begin(tx: Tx, program: seq<Lock>)
    | Take(tx: Tx)
    | RollbackTo(tx: Tx, kept: nat)   // to a savepoint: later locks are given back
    | End(tx: Tx)                     // commit, or abort at any point

  function Awaited(s: Manager, t: Tx): Lock
    requires t in s.txs && s.txs[t].taken < |s.txs[t].program|
  {
    s.txs[t].program[s.txs[t].taken]
  }

  predicate Enabled(s: Manager, step: Step) {
    match step
    case Begin(t, _) => t !in s.txs
    case Take(t) =>
      && t in s.txs && s.txs[t].taken < |s.txs[t].program|
      && (Awaited(s, t) in s.owner ==> s.owner[Awaited(s, t)] == t)
    case RollbackTo(t, kept) => t in s.txs && kept <= s.txs[t].taken <= |s.txs[t].program|
    case End(t) => t in s.txs
  }

  function Next(s: Manager, step: Step): Manager
    requires Enabled(s, step)
  {
    match step
    case Begin(t, program) => s.(txs := s.txs[t := Progress(program, 0)])
    case Take(t) =>
      Manager(s.txs[t := s.txs[t].(taken := s.txs[t].taken + 1)], s.owner[Awaited(s, t) := t])
    case RollbackTo(t, kept) =>
      var program := s.txs[t].program[..kept];
      Manager(s.txs[t := Progress(program, kept)], map l | l in s.owner && (s.owner[l] != t || l in program) :: s.owner[l])
    case End(t) =>
      Manager(s.txs - {t}, map l | l in s.owner && s.owner[l] != t :: s.owner[l])
  }

  /** Locks are asked for in one order; asking again for one already held is fine. */
  ghost predicate Ascending(program: seq<Lock>) {
    forall i, j :: 0 <= i < j < |program| && program[j] !in program[..j] ==> !Less(program[j], program[i])
  }

  /** Every transaction owns exactly the locks it has taken. */
  ghost predicate Held(s: Manager) {
    && (forall t :: t in s.txs ==> s.txs[t].taken <= |s.txs[t].program|)
    && (forall l :: l in s.owner ==> s.owner[l] in s.txs && l in Taken(s, s.owner[l]))
    && (forall t, l :: t in s.txs && l in Taken(s, t) ==> l in s.owner && s.owner[l] == t)
  }

  function Taken(s: Manager, t: Tx): seq<Lock>
    requires t in s.txs
  {
    if s.txs[t].taken <= |s.txs[t].program| then s.txs[t].program[..s.txs[t].taken] else []
  }

  /** The states the runs from the idle manager reach. */
  ghost predicate RunsTo(steps: seq<Step>, s: Manager) {
    if steps == [] then s == IDLE
    else
      var last := steps[|steps| - 1];
      exists before :: RunsTo(steps[..|steps| - 1], before) && Enabled(before, last) && s == Next(before, last)
  }

  /** Every transaction runs one of the programs begun, up to the point where a
      savepoint cut it off. */
  ghost predicate Begun(steps: seq<Step>, s: Manager) {
    forall t :: t in s.txs ==> exists program :: Begin(t, program) in steps && s.txs[t].program <= program
  }

  ghost predicate AllAscend(steps: seq<Step>) {
    forall step :: step in steps && step.Begin? ==> Ascending(step.program)
  }

  lemma TakeKeepsHeld(s: Manager, t: Tx)
    requires Held(s) && Enabled(s, Take(t))
    ensures Held(Next(s, Take(t)))
  {
    var s' := Next(s, Take(t));
    assert Taken(s', t) == Taken(s, t) + [Awaited(s, t)];
    assert forall u :: u in s.txs && u != t ==> Taken(s', u) == Taken(s, u);
  }

  lemma RollbackKeepsHeld(s: Manager, t: Tx, kept: nat)
    requires Held(s) && Enabled(s, RollbackTo(t, kept))
    ensures Held(Next(s, RollbackTo(t, kept)))
  {
    var s', program := Next(s, RollbackTo(t, kept)), s.txs[t].program[..kept];
    assert Taken(s', t) == program;
    assert program == Taken(s, t)[..kept];
    assert forall l :: l in program ==> l in Taken(s, t);
    assert forall u :: u in s.txs && u != t ==> Taken(s', u) == Taken(s, u);
  }

  lemma BeginKeepsHeld(s: Manager, t: Tx, program: seq<Lock>)
    requires Held(s) && Enabled(s, Begin(t, program))
    ensures Held(Next(s, Begin(t, program)))
  {
    var s' := Next(s, Begin(t, program));
    assert Taken(s', t) == [];
    assert forall u :: u in s.txs ==> Taken(s', u) == Taken(s, u);
  }

  lemma EndKeepsHeld(s: Manager, t: Tx)
    requires Held(s) && Enabled(s, End(t))
    ensures Held(Next(s, End(t)))
  {
    var s' := Next(s, End(t));
    assert forall u :: u in s'.txs ==> Taken(s', u) == Taken(s, u);
  }

  lemma NextKeepsHeld(s: Manager, step: Step)
    requires Held(s) && Enabled(s, step)
    ensures Held(Next(s, step))
  {
    match step
    case Begin(t, program) => BeginKeepsHeld(s, t, program);
    case Take(t) => TakeKeepsHeld(s, t);
    case RollbackTo(t, kept) => RollbackKeepsHeld(s, t, kept);
    case End(t) => EndKeepsHeld(s, t);
  }

  lemma RunOn(steps: seq<Step>, s: Manager, step: Step)
    requires RunsTo(steps, s) && Enabled(s, step)
    ensures RunsTo(steps + [step], Next(s, step))
  {
    var all := steps + [step];
    assert all[..|all| - 1] == steps && all[|all| - 1] == step;
    assert RunsTo(all[..|all| - 1], s);
  }

  lemma NextKeepsBegun(steps: seq<Step>, s: Manager, step: Step)
    requires Begun(steps, s) && Enabled(s, step)
    ensures Begun(steps + [step], Next(s, step))
  {
    var s' := Next(s, step);
    forall t | t in s'.txs ensures exists program :: Begin(t, program) in steps + [step] && s'.txs[t].program <= program {
      if step.Begin? && t == step.tx {
        assert Begin(t, step.program) in steps + [step];
      } else {
        var program :| Begin(t, program) in steps && s.txs[t].program <= program;
        assert Begin(t, program) in steps + [step];
        assert s'.txs[t].program <= s.txs[t].program;
      }
    }
  }

  lemma {:induction false} RunKeeps(steps: seq<Step>, s: Manager)
    requires RunsTo(steps, s)
    ensures Held(s) && Begun(steps, s)
  {
    if steps != [] {
      var before, last :| last == steps[|steps| - 1] && RunsTo(steps[..|steps| - 1], before) && Enabled(before, last)
        && s == Next(before, last);
      RunKeeps(steps[..|steps| - 1], before);
      NextKeepsHeld(before, last);
      NextKeepsBegun(steps[..|steps| - 1], before, last);
      assert steps == steps[..|steps| - 1] + [last];
    }
  }

  lemma PrefixAscends(a: seq<Lock>, b: seq<Lock>)
    requires Ascending(b) && a <= b
    ensures Ascending(a)
  {
    forall i, j | 0 <= i < j < |a| && a[j] !in a[..j] ensures !Less(a[j], a[i]) {
      assert a[..j] == b[..j];
    }
  }

  ghost predicate Orderly(s: Manager) {
    Held(s) && forall t :: t in s.txs ==> Ascending(s.txs[t].program)
  }

  lemma RunIsOrderly(steps: seq<Step>, s: Manager)
    requires RunsTo(steps, s) && AllAscend(steps)
    ensures Orderly(s)
  {
    RunKeeps(steps, s);
    forall t | t in s.txs ensures Ascending(s.txs[t].program) {
      var program :| Begin(t, program) in steps && s.txs[t].program <= program;
      PrefixAscends(s.txs[t].program, program);
    }
  }

  // ---- Waiting ------------------------------------------------------------------

  predicate Waits(s: Manager, t: Tx) {
    && t in s.txs && s.txs[t].taken < |s.txs[t].program|
    && Awaited(s, t) in s.owner && s.owner[Awaited(s, t)] != t
  }

  predicate WaitsFor(s: Manager, t: Tx, u: Tx) {
    Waits(s, t) && s.owner[Awaited(s, t)] == u
  }

  lemma WaitingGoesUp(s: Manager, t: Tx, u: Tx)
    requires Orderly(s) && WaitsFor(s, t, u) && Waits(s, u)
    ensures Less(Awaited(s, t), Awaited(s, u))
  {
    var p := s.txs[u];
    assert Awaited(s, t) in Taken(s, u);
    var i :| 0 <= i < p.taken && p.program[i] == Awaited(s, t);
    assert p.program[p.taken] !in Taken(s, u);
    assert p.program[p.taken] !in p.program[..p.taken];
    assert !Less(p.program[p.taken], p.program[i]);
  }

  ghost predicate WaitPath(s: Manager, path: seq<Tx>) {
    forall i :: 0 <= i < |path| - 1 ==> WaitsFor(s, path[i], path[i + 1])
  }

  lemma {:induction false} PathGoesUp(s: Manager, path: seq<Tx>, n: nat)
    requires Orderly(s) && WaitPath(s, path) && 1 <= n < |path| && Waits(s, path[n])
    ensures Waits(s, path[0]) && Less(Awaited(s, path[0]), Awaited(s, path[n]))
  {
    assert WaitsFor(s, path[n - 1], path[n]);
    WaitingGoesUp(s, path[n - 1], path[n]);
    if n > 1 {
      PathGoesUp(s, path, n - 1);
    }
  }

  /** In every reachable state the wait-for graph has no cycle. */
  lemma NoWaitCycle(steps: seq<Step>, s: Manager, path: seq<Tx>)
    requires RunsTo(steps, s) && AllAscend(steps) && WaitPath(s, path) && |path| >= 2
    ensures path[0] != path[|path| - 1]
  {
    RunIsOrderly(steps, s);
    assert WaitsFor(s, path[0], path[1]);
    if path[0] == path[|path| - 1] {
      PathGoesUp(s, path, |path| - 1);
    }
  }

  /** A transaction moves on its own: it takes its next lock or, holding them all,
      commits. */
  predicate CanMoveOn(s: Manager, t: Tx) {
    t in s.txs && (s.txs[t].taken < |s.txs[t].program| ==> Enabled(s, Take(t)))
  }

  lemma {:induction false} Highest(s: Manager, ts: set<Tx>) returns (top: Tx)
    requires ts != {} && forall t :: t in ts ==> Waits(s, t)
    ensures top in ts && Waits(s, top)
    ensures forall t :: t in ts ==> Waits(s, t) && !Less(Awaited(s, top), Awaited(s, t))
    decreases ts
  {
    top :| top in ts;
    if ts != {top} {
      var other := Highest(s, ts - {top});
      if Less(Awaited(s, top), Awaited(s, other)) {
        top := other;
      }
    }
  }

  lemma AllWait(s: Manager)
    requires Held(s) && forall t :: t in s.txs ==> !CanMoveOn(s, t)
    ensures forall t :: t in s.txs ==> Waits(s, t)
  {
    forall t | t in s.txs ensures Waits(s, t) {
      assert !CanMoveOn(s, t);
    }
  }

  lemma OrderlyMovesOn(s: Manager)
    requires Orderly(s) && s.txs != map[]
    ensures exists t :: CanMoveOn(s, t)
  {
    if forall t :: t in s.txs ==> !CanMoveOn(s, t) {
      AllWait(s);
      assert s.txs.Keys != {};
      var top := Highest(s, s.txs.Keys);
      WaitingGoesUp(s, top, s.owner[Awaited(s, top)]);
      assert false;
    }
  }

  /** In every reachable state with a transaction in it, some transaction can move
      on without any other being aborted. */
  lemma SomeTransactionMovesOn(steps: seq<Step>, s: Manager)
    requires RunsTo(steps, s) && AllAscend(steps) && s.txs != map[]
    ensures exists t :: CanMoveOn(s, t)
  {
    RunIsOrderly(steps, s);
    OrderlyMovesOn(s);
  }

  // ---- The programs the code runs -------------------------------------------------

  /** The product rows a debit locks: each line's as long as its decrement finds
      enough, which is where the loop goes on. */
  function DebitLocks(t: L.Tables, invoice: Uuid, ordered: seq<Line>): seq<Lock>
    decreases |ordered|
  {
    if ordered == [] || L.DebitLine(t, invoice, ordered[0]).error.Some? then []
    else [ProductRow(ordered[0].product)] + DebitLocks(L.DebitLine(t, invoice, ordered[0]).tables, invoice, ordered[1..])
  }

  /** One print request: its inbox record, its debit row, its products in order. */
  function RequestProgram(t: L.Tables, message: Uuid, invoice: Uuid, ordered: seq<Line>): seq<Lock> {
    [Inbox(message), Debit(invoice)]
    + if invoice in t.debits then [] else DebitLocks(t.(debits := t.debits + {invoice}), invoice, ordered)
  }

  /** One batch of adjustments: the products it moves in the order it is sorted, up
      to the first movement that is refused. */
  function AdjustProgram(t: L.Tables, ordered: seq<Adjustment>): seq<Lock>
    decreases |ordered|
  {
    if ordered == [] || AdjustOne(t, ordered[0]).error.Some? then []
    else [ProductRow(Resolve(t, ordered[0]).value)] + AdjustProgram(AdjustOne(t, ordered[0]).tables, ordered[1..])
  }

  predicate Stocked(t: L.Tables, l: Lock) {
    l.ProductRow? && l.product in t.products && t.products[l.product].balance >= 1
  }

  /** A debit locks a part of its ordered lines, all of products in stock. */
  lemma {:induction false} DebitLocksAre(t: L.Tables, invoice: Uuid, ordered: seq<Line>)
    ensures var locks := DebitLocks(t, invoice, ordered);
      && |locks| <= |ordered|
      && forall k :: 0 <= k < |locks| ==> locks[k] == ProductRow(ordered[k].product) && Stocked(t, locks[k])
    decreases |ordered|
  {
    if ordered != [] && L.DebitLine(t, invoice, ordered[0]).error.None? {
      var next := L.DebitLine(t, invoice, ordered[0]).tables;
      DebitLocksAre(next, invoice, ordered[1..]);
      forall l | Stocked(next, l) ensures Stocked(t, l) {
      }
    }
  }

  lemma RequestsAscend(t: L.Tables, message: Uuid, invoice: Uuid, ordered: seq<Line>)
    requires SortedBy(ordered, ProductLeq)
    ensures Ascending(RequestProgram(t, message, invoice, ordered))
  {
    var program := RequestProgram(t, message, invoice, ordered);
    DebitLocksAre(t.(debits := t.debits + {invoice}), invoice, ordered);
    forall i, j | 0 <= i < j < |program| ensures !Less(program[j], program[i]) {
      if i >= 2 {
        assert ProductLeq(ordered[i - 2], ordered[j - 2]);
      }
    }
  }

  /** A batch locks rows of products that are there. */
  lemma {:induction false} AdjustLocksAre(t: L.Tables, ordered: seq<Adjustment>)
    ensures forall l :: l in AdjustProgram(t, ordered) ==> l.ProductRow? && l.product in t.products
    decreases |ordered|
  {
    if ordered != [] && AdjustOne(t, ordered[0]).error.None? {
      AdjustOneFrame(t, ordered[0]);
      AdjustLocksAre(AdjustOne(t, ordered[0]).tables, ordered[1..]);
    }
  }

  lemma {:induction false} AdjustLocks(t: L.Tables, ordered: seq<Adjustment>, least: Uuid)
    requires SortedBy(ordered, AdjustmentLeq)
    requires forall a :: a in ordered ==> a.product != NIL && least <= a.product
    ensures Ascending(AdjustProgram(t, ordered))
    ensures forall l :: l in AdjustProgram(t, ordered) ==> l.ProductRow? && least <= l.product
    decreases |ordered|
  {
    if ordered != [] && AdjustOne(t, ordered[0]).error.None? {
      var first := ordered[0].product;
      forall a | a in ordered[1..] ensures first <= a.product {
        var j :| 0 <= j < |ordered[1..]| && ordered[1..][j] == a;
        assert AdjustmentLeq(ordered[0], ordered[j + 1]);
      }
      AdjustLocks(AdjustOne(t, ordered[0]).tables, ordered[1..], first);
      assert ordered[0] in ordered;
      LowestFirst(ProductRow(first), AdjustProgram(AdjustOne(t, ordered[0]).tables, ordered[1..]));
    }
  }

  lemma LowestFirst(first: Lock, rest: seq<Lock>)
    requires Ascending(rest) && first.ProductRow? && forall l :: l in rest ==> l.ProductRow? && first.product <= l.product
    ensures Ascending([first] + rest)
  {
    var program := [first] + rest;
    forall i, j | 0 <= i < j < |program| && program[j] !in program[..j] ensures !Less(program[j], program[i]) {
      assert program[j] == rest[j - 1] && rest[j - 1] in rest;
      if i > 0 {
        assert program[..j] == [first] + rest[..j - 1];
      }
    }
  }

  /** A batch whose products are all named by id locks them in id order, the order
      of the debits. */
  lemma AdjustmentsByIdAscend(t: L.Tables, ordered: seq<Adjustment>)
    requires SortedBy(ordered, AdjustmentLeq) && forall a :: a in ordered ==> a.product != NIL
    ensures Ascending(AdjustProgram(t, ordered))
  {
    AdjustLocks(t, ordered, 0);
  }

  // ---- Debits and batches named by id never deadlock -------------------------------

  ghost predicate IsDebit(program: seq<Lock>) {
    exists t: L.Tables, message: Uuid, invoice: Uuid, ordered: seq<Line> ::
      SortedBy(ordered, ProductLeq) && program == RequestProgram(t, message, invoice, ordered)
  }

  ghost predicate IsBatchById(program: seq<Lock>) {
    exists t: L.Tables, ordered: seq<Adjustment> ::
      SortedBy(ordered, AdjustmentLeq) && (forall a :: a in ordered ==> a.product != NIL) && program == AdjustProgram(t, ordered)
  }

  /** On every run of print requests and of batches that name their products by id,
      each starting from whatever tables it finds, nobody waits in a circle, and
      while any is unfinished some transaction can move on. */
  lemma DebitsAndBatchesByIdNeverDeadlock(steps: seq<Step>, s: Manager)
    requires RunsTo(steps, s)
    requires forall step :: step in steps && step.Begin? ==> IsDebit(step.program) || IsBatchById(step.program)
    ensures forall path :: WaitPath(s, path) && |path| >= 2 ==> path[0] != path[|path| - 1]
    ensures s.txs != map[] ==> exists t :: CanMoveOn(s, t)
  {
    forall step | step in steps && step.Begin? ensures Ascending(step.program) {
      if IsDebit(step.program) {
        var t: L.Tables, message: Uuid, invoice: Uuid, ordered: seq<Line> :|
          SortedBy(ordered, ProductLeq) && step.program == RequestProgram(t, message, invoice, ordered);
        RequestsAscend(t, message, invoice, ordered);
      } else {
        var t: L.Tables, ordered: seq<Adjustment> :|
          SortedBy(ordered, AdjustmentLeq) && (forall a :: a in ordered ==> a.product != NIL) && step.program == AdjustProgram(t, ordered);
        AdjustmentsByIdAscend(t, ordered);
      }
    }
    forall path | WaitPath(s, path) && |path| >= 2 ensures path[0] != path[|path| - 1] {
      NoWaitCycle(steps, s, path);
    }
    if s.txs != map[] {
      SomeTransactionMovesOn(steps, s);
    }
  }

  // ---- When a batch can deadlock with a debit --------------------------------------

  /** A run of one batch and one debit, either of which may also be over or not yet
      begun. */
  ghost predicate Between(steps: seq<Step>, batch: seq<Lock>, debit: seq<Lock>) {
    forall step :: step in steps && step.Begin? ==>
      (step.tx == 1 && step.program == batch) || (step.tx == 2 && step.program == debit)
  }

  /** From these tables some debit and some run of it beside the batch reach a state
      in which each waits for the other. */
  ghost predicate CanDeadlock(t: L.Tables, batch: seq<Adjustment>) {
    exists message: Uuid, invoice: Uuid, lines: seq<Line>, steps: seq<Step>, s: Manager ::
      && SortedBy(lines, ProductLeq)
      && Between(steps, AdjustProgram(t, batch), RequestProgram(t, message, invoice, lines))
      && RunsTo(steps, s) && WaitsFor(s, 1, 2) && WaitsFor(s, 2, 1)
  }

  /** The batch comes to a product with a smaller id than one it has locked before,
      and both are in stock, so that a debit can hold the one and want the other. */
  ghost predicate TurnsBack(t: L.Tables, program: seq<Lock>) {
    exists i, j :: 0 <= i < j < |program| && program[j] !in program[..j] && Less(program[j], program[i])
      && Stocked(t, program[i]) && Stocked(t, program[j])
  }

  /** The next n locks of a transaction are free, or its own. */
  ghost predicate CanTake(s: Manager, t: Tx, n: nat) {
    && t in s.txs && s.txs[t].taken + n <= |s.txs[t].program|
    && forall k :: s.txs[t].taken <= k < s.txs[t].taken + n && s.txs[t].program[k] in s.owner ==>
         s.owner[s.txs[t].program[k]] == t
  }

  /** It took them, and nothing else changed. */
  ghost predicate Took(s: Manager, s': Manager, t: Tx, n: nat)
    requires t in s.txs && s.txs[t].taken + n <= |s.txs[t].program|
  {
    var locks := s.txs[t].program[s.txs[t].taken..s.txs[t].taken + n];
    && s'.txs == s.txs[t := s.txs[t].(taken := s.txs[t].taken + n)]
    && (forall l :: l in s'.owner <==> l in s.owner || l in locks)
    && (forall l :: l in s'.owner ==> s'.owner[l] == if l in locks then t else s.owner[l])
  }

  lemma TookOneMore(s: Manager, before: Manager, t: Tx, n: nat)
    requires CanTake(s, t, n + 1) && Took(s, before, t, n)
    ensures Enabled(before, Take(t)) && Took(s, Next(before, Take(t)), t, n + 1)
  {
    var k := s.txs[t].taken + n;
    assert s.txs[t].program[s.txs[t].taken..k + 1] == s.txs[t].program[s.txs[t].taken..k] + [s.txs[t].program[k]];
    assert Awaited(before, t) == s.txs[t].program[k];
  }

  lemma TookNone(s: Manager, t: Tx)
    requires t in s.txs && s.txs[t].taken <= |s.txs[t].program|
    ensures Took(s, s, t, 0)
  {
    assert s.txs[t].program[s.txs[t].taken..s.txs[t].taken] == [];
    assert s.txs[t := s.txs[t].(taken := s.txs[t].taken + 0)] == s.txs;
  }

  lemma BeginsOf(steps: seq<Step>, last: Step)
    requires !last.Begin?
    ensures forall step :: step in steps + [last] && step.Begin? ==> step in steps
  {
  }

  /** The next locks of a transaction, taken one after the other. */
  lemma {:induction false} TakeMany(steps: seq<Step>, s: Manager, t: Tx, n: nat) returns (steps': seq<Step>, s': Manager)
    requires RunsTo(steps, s) && CanTake(s, t, n)
    ensures RunsTo(steps', s') && Took(s, s', t, n)
    ensures forall step :: step in steps' && step.Begin? ==> step in steps
  {
    if n == 0 {
      steps', s' := steps, s;
      TookNone(s, t);
    } else {
      var earlier, before := TakeMany(steps, s, t, n - 1);
      TookOneMore(s, before, t, n - 1);
      RunOn(earlier, before, Take(t));
      steps', s' := earlier + [Take(t)], Next(before, Take(t));
      BeginsOf(earlier, Take(t));
    }
  }

  /** One program takes all up to its j-th lock; the other the j-th, and then wants
      one of the first program's: each waits for the other. */
  lemma CrossingRun(a: seq<Lock>, d: seq<Lock>, i: nat, j: nat) returns (steps: seq<Step>, s: Manager)
    requires i < j < |a| && a[j] !in a[..j] && |d| == 4 && d[2] == a[j] && d[3] == a[i] && a[i] !in d[..3]
    requires d[0] !in a[..j] && d[1] !in a[..j]
    ensures Between(steps, a, d) && RunsTo(steps, s) && WaitsFor(s, 1, 2) && WaitsFor(s, 2, 1)
  {
    var half, s' := FirstHolds(a, d, j);
    assert forall k :: 0 <= k < 3 ==> d[k] !in a[..j];
    steps, s := TakeMany(half, s', 2, 3);
    assert d[0..3] == d[..3];
    assert a[i] in a[..j] && a[j] in d[..3];
  }

  lemma FirstHolds(a: seq<Lock>, d: seq<Lock>, j: nat) returns (steps: seq<Step>, s: Manager)
    requires j <= |a|
    ensures Between(steps, a, d) && RunsTo(steps, s)
    ensures s.txs == map[1 := Progress(a, j), 2 := Progress(d, 0)]
    ensures forall l :: l in s.owner <==> l in a[..j]
    ensures forall l :: l in s.owner ==> s.owner[l] == 1
  {
    var s0 := Next(IDLE, Begin(1, a));
    RunOn([], IDLE, Begin(1, a));
    var s1 := Next(s0, Begin(2, d));
    RunOn([] + [Begin(1, a)], s0, Begin(2, d));
    assert a[0..j] == a[..j];
    steps, s := TakeMany([] + [Begin(1, a)] + [Begin(2, d)], s1, 1, j);
  }

  /** The batch takes the larger product, the debit the smaller one, and then each
      asks for the other's. */
  lemma TurningBackDeadlocks(t: L.Tables, batch: seq<Adjustment>, i: nat, j: nat)
    requires var program := AdjustProgram(t, batch);
      && i < j < |program| && program[j] !in program[..j] && Less(program[j], program[i])
      && Stocked(t, program[i]) && Stocked(t, program[j])
    ensures CanDeadlock(t, batch)
  {
    var a := AdjustProgram(t, batch);
    AdjustLocksAre(t, batch);
    var small, large := a[j].product, a[i].product;
    var invoice := Bound(t.debits);
    TwoLines(t, invoice, small, large);
    var lines := [Line(small, 1), Line(large, 1)];
    var d := RequestProgram(t, 0, invoice, lines);
    forall l | l in a[..j] ensures l.ProductRow? {
      assert l in a;
    }
    var steps, s := CrossingRun(a, d, i, j);
    assert SortedBy(lines, ProductLeq);
  }

  lemma TwoLines(t: L.Tables, invoice: Uuid, small: Uuid, large: Uuid)
    requires invoice !in t.debits && small < large && Stocked(t, ProductRow(small)) && Stocked(t, ProductRow(large))
    ensures RequestProgram(t, 0, invoice, [Line(small, 1), Line(large, 1)])
         == [Inbox(0), Debit(invoice), ProductRow(small), ProductRow(large)]
  {
    var lines := [Line(small, 1), Line(large, 1)];
    var t0 := t.(debits := t.debits + {invoice});
    var t1 := L.DebitLine(t0, invoice, lines[0]).tables;
    assert lines[1..] == [Line(large, 1)] && lines[1..][1..] == [];
    assert t1.products[large] == t.products[large];
    assert DebitLocks(t1, invoice, lines[1..]) == [ProductRow(large)];
  }

  /** Two transactions waiting for each other hold locks the other's program names
      further on. */
  lemma CircleInPrograms(steps: seq<Step>, s: Manager, a: seq<Lock>, d: seq<Lock>)
    returns (i: nat, j: nat, h: nat, k: nat)
    requires RunsTo(steps, s) && Between(steps, a, d) && WaitsFor(s, 1, 2) && WaitsFor(s, 2, 1)
    ensures i < j < |a| && a[j] !in a[..j] && h < k < |d| && d[k] !in d[..k] && a[i] == d[k] && d[h] == a[j]
  {
    RunKeeps(steps, s);
    j, k := s.txs[1].taken, s.txs[2].taken;
    assert s.txs[1].program <= a && s.txs[2].program <= d;
    assert Taken(s, 1) == a[..j] && Taken(s, 2) == d[..k];
    assert a[j] in Taken(s, 2) && d[k] in Taken(s, 1);
    i :| 0 <= i < j && a[i] == d[k];
    h :| 0 <= h < k && d[h] == a[j];
  }

  lemma DeadlockTurnsBack(t: L.Tables, batch: seq<Adjustment>, message: Uuid, invoice: Uuid, lines: seq<Line>,
                          steps: seq<Step>, s: Manager)
    requires SortedBy(lines, ProductLeq) && RunsTo(steps, s) && WaitsFor(s, 1, 2) && WaitsFor(s, 2, 1)
    requires Between(steps, AdjustProgram(t, batch), RequestProgram(t, message, invoice, lines))
    ensures TurnsBack(t, AdjustProgram(t, batch))
  {
    var a, d := AdjustProgram(t, batch), RequestProgram(t, message, invoice, lines);
    var i, j, h, k := CircleInPrograms(steps, s, a, d);
    AdjustLocksAre(t, batch);
    assert a[i] in a && a[j] in a;
    RequestsAscend(t, message, invoice, lines);
    assert !Less(d[k], d[h]);
    DebitLocksAre(t.(debits := t.debits + {invoice}), invoice, lines);
    ProductsOfRequest(t, message, invoice, lines, h);
    ProductsOfRequest(t, message, invoice, lines, k);
  }

  lemma ProductsOfRequest(t: L.Tables, message: Uuid, invoice: Uuid, lines: seq<Line>, k: nat)
    requires k < |RequestProgram(t, message, invoice, lines)|
    ensures var l := RequestProgram(t, message, invoice, lines)[k]; l.ProductRow? ==> Stocked(t, l)
  {
    DebitLocksAre(t.(debits := t.debits + {invoice}), invoice, lines);
  }

  /** For every table and every batch: some debit can end up waiting for it while it
      waits for the debit, exactly when the batch turns back among products in
      stock. */
  lemma BatchCanDeadlockIff(t: L.Tables, batch: seq<Adjustment>)
    ensures CanDeadlock(t, batch) <==> TurnsBack(t, AdjustProgram(t, batch))
  {
    if CanDeadlock(t, batch) {
      var message: Uuid, invoice: Uuid, lines: seq<Line>, steps: seq<Step>, s: Manager :|
        && SortedBy(lines, ProductLeq)
        && Between(steps, AdjustProgram(t, batch), RequestProgram(t, message, invoice, lines))
        && RunsTo(steps, s) && WaitsFor(s, 1, 2) && WaitsFor(s, 2, 1);
      DeadlockTurnsBack(t, batch, message, invoice, lines, steps, s);
    }
    if TurnsBack(t, AdjustProgram(t, batch)) {
      var program := AdjustProgram(t, batch);
      var i, j :| 0 <= i < j < |program| && program[j] !in program[..j] && Less(program[j], program[i])
        && Stocked(t, program[i]) && Stocked(t, program[j]);
      TurningBackDeadlocks(t, batch, i, j);
    }
  }

  /** Named by code the batch is sorted by code, and then it can deadlock with a
      debit: here product "A", registered second, has the larger id. */
  lemma AdjustmentsByCodeCanDeadlock() returns (t: L.Tables, batch: seq<Adjustment>)
    ensures t == Perform(Perform(L.EMPTY, CreateProduct(6, "B", "b", 9)).tables, CreateProduct(7, "A", "a", 9)).tables
    ensures batch == [Adjustment(NIL, "A", 1), Adjustment(NIL, "B", 1)] && SortedBy(batch, AdjustmentLeq)
    ensures L.Balanced(t) && CanDeadlock(t, batch)
  {
    var t1 := Perform(L.EMPTY, CreateProduct(6, "B", "b", 9)).tables;
    t := Perform(t1, CreateProduct(7, "A", "a", 9)).tables;
    batch := [Adjustment(NIL, "A", 1), Adjustment(NIL, "B", 1)];
    PerformKeepsBalanced(L.EMPTY, CreateProduct(6, "B", "b", 9));
    PerformKeepsBalanced(t1, CreateProduct(7, "A", "a", 9));
    TwoRegistered();
    CodesTurnBack(t);
    BatchCanDeadlockIff(t, batch);
  }

  lemma TwoRegistered()
    ensures var t := Perform(Perform(L.EMPTY, CreateProduct(6, "B", "b", 9)).tables, CreateProduct(7, "A", "a", 9)).tables;
      && t.products == map[6 := L.Product("B", "b", 9, 1), 7 := L.Product("A", "a", 9, 1)]
      && t.codes == map["B" := 6, "A" := 7]
  {
    assert L.Upper("A") == "A" && L.Upper("B") == "B";
    assert 'a' in "a" && 'b' in "b" && 'A' in "A" && 'B' in "B";
    var t1 := Perform(L.EMPTY, CreateProduct(6, "B", "b", 9)).tables;
    assert t1.products == map[6 := L.Product("B", "b", 9, 1)] && t1.codes == map["B" := 6];
  }

  lemma CodesTurnBack(t: L.Tables)
    requires t.products == map[6 := L.Product("B", "b", 9, 1), 7 := L.Product("A", "a", 9, 1)]
    requires t.codes == map["B" := 6, "A" := 7]
    ensures TurnsBack(t, AdjustProgram(t, [Adjustment(NIL, "A", 1), Adjustment(NIL, "B", 1)]))
  {
    var batch := [Adjustment(NIL, "A", 1), Adjustment(NIL, "B", 1)];
    assert L.Upper("A") == "A" && L.Upper("B") == "B";
    var next := AdjustOne(t, batch[0]).tables;
    assert batch[1..] == [batch[1]] && batch[1..][1..] == [];
    assert AdjustProgram(next, batch[1..]) == [ProductRow(6)];
    var program := AdjustProgram(t, batch);
    assert program == [ProductRow(7), ProductRow(6)];
    assert program[1] !in program[..1] && Less(program[1], program[0]);
  }
}
