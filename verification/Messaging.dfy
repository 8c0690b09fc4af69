/** The outbox table, the relay and the broker queue as the objects they are:
    backend/internal/platform/messaging (outbox.go, relay.go, rabbit.go). */
module Messaging {
  import opened Common
  import opened Contracts
  import opened Channels

  /** Seconds a claimed row stays invisible to other relays. */
  const CLAIM_LEASE: Time := 30

  datatype Row = Row(message: Message, sequence: nat, attempts: nat, nextAttemptAt: Time, publishedAt: Option<Time>)

  type Rows = map<Uuid, Row>

  // ---- Backoff --------------------------------------------------------------

  function Pow2(k: nat): nat {
    if k == 0 then 1 else 2 * Pow2(k - 1)
  }

  function Min(a: int, b: int): int {
    if a < b then a else b
  }

  function Max(a: int, b: int): int {
    if a < b then b else a
  }

  /** Seconds to wait after a failed publication. */
  function BackoffFor(attempts: int): Time {
    Min(Pow2(Min(Max(attempts - 1, 0), 6)), 60)
  }

  /** The delay starts at one second, doubles with every attempt and stops at a minute. */
  lemma BackoffDoublesToAMinute(attempts: int)
    ensures attempts <= 1 ==> BackoffFor(attempts) == 1
    ensures attempts >= 1 ==> BackoffFor(attempts + 1) == Min(2 * BackoffFor(attempts), 60)
    ensures 1 <= BackoffFor(attempts) <= 60
  {
    assert Pow2(0) == 1 && Pow2(1) == 2 && Pow2(2) == 4 && Pow2(3) == 8;
    assert Pow2(4) == 16 && Pow2(5) == 32 && Pow2(6) == 64;
  }

  // ---- Claiming ---------------------------------------------------------------

  predicate Due(row: Row, now: Time) {
    row.publishedAt.None? && row.nextAttemptAt <= now
  }

  function DueIds(rows: Rows, now: Time): set<Uuid> {
    set id | id in rows && Due(rows[id], now)
  }

  ghost predicate Numbered(rows: Rows) {
    && (forall id :: id in rows ==> rows[id].message.id == id)
    && (forall a, b :: a in rows && b in rows && rows[a].sequence == rows[b].sequence ==> a == b)
  }

  predicate IsFirst(rows: Rows, ids: set<Uuid>, first: Uuid)
    requires ids <= rows.Keys
  {
    first in ids && forall id :: id in ids ==> rows[first].sequence <= rows[id].sequence
  }

  lemma {:induction false} FirstExists(rows: Rows, ids: set<Uuid>)
    requires ids != {} && ids <= rows.Keys
    ensures exists first :: IsFirst(rows, ids, first)
    decreases ids
  {
    var x :| x in ids;
    if ids == {x} {
      assert IsFirst(rows, ids, x);
    } else {
      FirstExists(rows, ids - {x});
      var y :| IsFirst(rows, ids - {x}, y);
      assert IsFirst(rows, ids, if rows[x].sequence < rows[y].sequence then x else y);
    }
  }

  /** ORDER BY sequence LIMIT n. */
  function FirstBySequence(rows: Rows, ids: set<Uuid>, n: nat): seq<Uuid>
    requires Numbered(rows) && ids <= rows.Keys
  {
    if n == 0 || ids == {} then []
    else
      FirstExists(rows, ids);
      var first :| first in ids && IsFirst(rows, ids, first);
      [first] + FirstBySequence(rows, ids - {first}, n - 1)
  }

  /** The claimed rows are the first ones due, in sequence order, and as many as
      the limit allows. */
  lemma {:induction false} FirstBySequenceIsFirst(rows: Rows, ids: set<Uuid>, n: nat)
    requires Numbered(rows) && ids <= rows.Keys
    ensures var claimed := FirstBySequence(rows, ids, n);
      && |claimed| <= n
      && (forall id :: id in claimed ==> id in ids)
      && (forall i, j :: 0 <= i < j < |claimed| ==> rows[claimed[i]].sequence < rows[claimed[j]].sequence)
      && (forall id :: id in ids && id !in claimed ==>
          |claimed| == n && forall c :: c in claimed ==> rows[c].sequence < rows[id].sequence)
  {
    if n != 0 && ids != {} {
      var claimed := FirstBySequence(rows, ids, n);
      var first := claimed[0];
      FirstExists(rows, ids);
      assert IsFirst(rows, ids, first);
      FirstBySequenceIsFirst(rows, ids - {first}, n - 1);
      assert claimed[1..] == FirstBySequence(rows, ids - {first}, n - 1);
      forall c | c in claimed ensures c == first || c in claimed[1..] {
      }
    }
  }

  function Leased(row: Row, now: Time): Row {
    row.(attempts := row.attempts + 1, nextAttemptAt := now + CLAIM_LEASE)
  }

  function ClaimRows(rows: Rows, claimed: seq<Uuid>, now: Time): Rows {
    map id | id in rows :: if id in claimed then Leased(rows[id], now) else rows[id]
  }

  function ClaimLimit(limit: int): nat {
    if limit <= 0 then 50 else limit
  }

  function Claimed(rows: Rows, limit: int, now: Time): seq<Uuid>
    requires Numbered(rows)
  {
    FirstBySequence(rows, DueIds(rows, now), ClaimLimit(limit))
  }

  /** What a claim hands out, read off the rows: messages that are unpublished and due,
      in sequence, at most fifty when no limit is asked for; and a due message is left
      only when the limit is reached, by earlier ones. */
  lemma ClaimTakesTheFirstDue(rows: Rows, limit: int, now: Time)
    requires Numbered(rows)
    ensures var ids, most := Claimed(rows, limit, now), if limit <= 0 then 50 else limit;
      var due := set id | id in rows && rows[id].publishedAt == None && rows[id].nextAttemptAt <= now;
      && |ids| <= most
      && (forall i :: 0 <= i < |ids| ==> ids[i] in due)
      && (forall i, j :: 0 <= i < j < |ids| ==> rows[ids[i]].sequence < rows[ids[j]].sequence)
      && forall id :: id in due && id !in ids ==>
           |ids| == most && forall i :: 0 <= i < |ids| ==> rows[ids[i]].sequence < rows[id].sequence
  {
    var due := set id | id in rows && rows[id].publishedAt == None && rows[id].nextAttemptAt <= now;
    assert DueIds(rows, now) == due;
    FirstBySequenceIsFirst(rows, due, ClaimLimit(limit));
    assert Claimed(rows, limit, now) == FirstBySequence(rows, due, ClaimLimit(limit));
  }

  /** What a claim leaves: each row handed out has one attempt more and is out of sight
      for thirty seconds, and no other row changes. */
  lemma ClaimLeases(rows: Rows, ids: seq<Uuid>, now: Time)
    ensures var after := ClaimRows(rows, ids, now);
      && after.Keys == rows.Keys
      && forall id :: id in rows ==> after[id] == if id !in ids then rows[id] else
           Row(rows[id].message, rows[id].sequence, rows[id].attempts + 1, now + 30, rows[id].publishedAt)
  {
  }

  /** Everything that is done to the table, by any relay or service, and when. */
  datatype Op =
    | RowAdded(message: Message, sequence: nat, at: Time)
    | RowsClaimed(limit: int, at: Time)
    | RowPublished(id: Uuid, at: Time)
    | RowFailed(id: Uuid, attempts: int, at: Time)
    | RowsRetained(age: Time, at: Time)

  /** A sequence number is drawn once. */
  ghost predicate Distinct(rows: Rows, op: Op) {
    op.RowAdded? ==> forall id :: id in rows ==> rows[id].sequence != op.sequence
  }

  function PutOff(row: Row, attempts: int, now: Time): Row {
    row.(nextAttemptAt := now + BackoffFor(attempts))
  }

  predicate Outdated(row: Row, age: Time, now: Time) {
    row.publishedAt.Some? && row.publishedAt.value < now - age
  }

  ghost function AfterOp(rows: Rows, op: Op): (rows': Rows)
    requires Numbered(rows) && Distinct(rows, op)
    ensures Numbered(rows')
  {
    match op
    case RowAdded(message, sequence, at) =>
      if message.id in rows then rows else rows[message.id := Row(message, sequence, 0, at, None)]
    case RowsClaimed(limit, at) => ClaimRows(rows, Claimed(rows, limit, at), at)
    case RowPublished(id, at) => if id in rows then rows[id := rows[id].(publishedAt := Some(at))] else rows
    case RowFailed(id, attempts, at) => if id in rows then rows[id := PutOff(rows[id], attempts, at)] else rows
    case RowsRetained(age, at) => map id | id in rows && !Outdated(rows[id], age, at) :: rows[id]
  }

  ghost predicate AllDistinct(rows: Rows, ops: seq<Op>)
    requires Numbered(rows)
    decreases |ops|
  {
    ops == [] || (Distinct(rows, ops[0]) && AllDistinct(AfterOp(rows, ops[0]), ops[1..]))
  }

  ghost function AfterOps(rows: Rows, ops: seq<Op>): (rows': Rows)
    requires Numbered(rows) && AllDistinct(rows, ops)
    ensures Numbered(rows')
    decreases |ops|
  {
    if ops == [] then rows else AfterOps(AfterOp(rows, ops[0]), ops[1..])
  }

  /** The row is not to be handed out before this moment. */
  predicate Kept(rows: Rows, id: Uuid, until: Time) {
    id in rows ==> rows[id].publishedAt.Some? || rows[id].nextAttemptAt >= until
  }

  /** What could hand a row out sooner: its failure, or another row under its id. */
  predicate Frees(op: Op, id: Uuid) {
    (op.RowFailed? && op.id == id) || (op.RowAdded? && op.message.id == id)
  }

  lemma DoneKeeps(rows: Rows, op: Op, id: Uuid, until: Time)
    requires Numbered(rows) && Distinct(rows, op) && Kept(rows, id, until) && op.at < until && !Frees(op, id)
    ensures Kept(AfterOp(rows, op), id, until)
  {
    if op.RowsClaimed? && id in rows {
      FirstBySequenceIsFirst(rows, DueIds(rows, op.at), ClaimLimit(op.limit));
      assert id !in DueIds(rows, op.at);
      assert id !in Claimed(rows, op.limit, op.at);
    }
  }

  lemma {:induction false} AllKeep(rows: Rows, ops: seq<Op>, id: Uuid, until: Time)
    requires Numbered(rows) && AllDistinct(rows, ops) && Kept(rows, id, until)
    requires forall op :: op in ops ==> op.at < until && !Frees(op, id)
    ensures Kept(AfterOps(rows, ops), id, until)
    decreases |ops|
  {
    if ops != [] {
      DoneKeeps(rows, ops[0], id, until);
      AllKeep(AfterOp(rows, ops[0]), ops[1..], id, until);
    }
  }

  /** Within the lease nobody else is handed a claimed message, whatever is done to
      the table in between: only its own failure frees it sooner. */
  lemma ClaimsAreExclusive(rows: Rows, limit: int, now: Time, ops: seq<Op>, limit': int, now': Time)
    requires Numbered(rows) && now' < now + CLAIM_LEASE
    requires var rows1 := AfterOp(rows, RowsClaimed(limit, now));
      && AllDistinct(rows1, ops)
      && forall op :: op in ops ==> op.at < now + CLAIM_LEASE && (op.RowAdded? ==> op.message.id !in rows)
    ensures forall id :: id in Claimed(rows, limit, now) && (forall op :: op in ops ==> !(op.RowFailed? && op.id == id)) ==>
      id !in Claimed(AfterOps(AfterOp(rows, RowsClaimed(limit, now)), ops), limit', now')
  {
    var rows1 := AfterOp(rows, RowsClaimed(limit, now));
    var rows2 := AfterOps(rows1, ops);
    FirstBySequenceIsFirst(rows, DueIds(rows, now), ClaimLimit(limit));
    FirstBySequenceIsFirst(rows2, DueIds(rows2, now'), ClaimLimit(limit'));
    forall id | id in Claimed(rows, limit, now) && (forall op :: op in ops ==> !(op.RowFailed? && op.id == id))
      ensures id !in Claimed(rows2, limit', now')
    {
      AllKeep(rows1, ops, id, now + CLAIM_LEASE);
      assert id !in DueIds(rows2, now');
    }
  }

  // ---- The outbox table -------------------------------------------------------

  function View(rows: Rows): map<Uuid, OutboxRow> {
    map id | id in rows :: OutboxRow(rows[id].message, rows[id].publishedAt.Some?)
  }

  lemma ViewOfInserted(rows: Rows, row: Row)
    ensures View(rows[row.message.id := row])
         == View(rows)[row.message.id := OutboxRow(row.message, row.publishedAt.Some?)]
  {
  }

  class Outbox {
    var rows: Rows
    var nextSequence: nat

    ghost predicate Valid()
      reads this
    {
      Numbered(rows) && forall id :: id in rows ==> rows[id].sequence < nextSequence
    }

    constructor ()
      ensures Valid() && rows == map[]
    {
      rows, nextSequence := map[], 0;
    }

    /** A repeated id breaks the primary key and nothing is inserted. */
    method EnqueueTx(message: Message, now: Time) returns (inserted: bool)
      requires Valid()
      modifies this
      ensures Valid()
      ensures inserted <==> message.id !in old(rows)
      ensures !inserted ==> rows == old(rows) && nextSequence == old(nextSequence)
      ensures inserted ==> rows == old(rows)[message.id := Row(message, old(nextSequence), 0, now, None)]
      ensures rows == AfterOp(old(rows), RowAdded(message, old(nextSequence), now))
    {
      inserted := message.id !in rows;
      if inserted {
        rows := rows[message.id := Row(message, nextSequence, 0, now, None)];
        nextSequence := nextSequence + 1;
      }
    }

    /** The first due messages in the order they were enqueued, out of sight of
        other relays for the length of the lease. */
    method Claim(limit: int, now: Time) returns (batch: seq<Message>)
      requires Valid()
      modifies this`rows
      ensures Valid()
      ensures var ids := Claimed(old(rows), limit, now);
        && rows == ClaimRows(old(rows), ids, now)
        && |batch| == |ids|
        && forall i :: 0 <= i < |ids| ==> ids[i] in old(rows) && batch[i] == old(rows)[ids[i]].message
      ensures rows == AfterOp(old(rows), RowsClaimed(limit, now))
    {
      var claimed := Claimed(rows, limit, now);
      FirstBySequenceIsFirst(rows, DueIds(rows, now), ClaimLimit(limit));
      batch := [];
      for i := 0 to |claimed|
        invariant |batch| == i
        invariant forall j :: 0 <= j < i ==> batch[j] == rows[claimed[j]].message
      {
        assert claimed[i] in claimed;
        batch := batch + [rows[claimed[i]].message];
      }
      rows := ClaimRows(rows, claimed, now);
    }

    method MarkPublished(id: Uuid, now: Time)
      requires Valid()
      modifies this`rows
      ensures Valid()
      ensures rows == if id in old(rows) then old(rows)[id := old(rows)[id].(publishedAt := Some(now))] else old(rows)
      ensures rows == AfterOp(old(rows), RowPublished(id, now))
    {
      if id in rows {
        rows := rows[id := rows[id].(publishedAt := Some(now))];
      }
    }

    method MarkFailed(id: Uuid, attempts: int, now: Time)
      requires Valid()
      modifies this`rows
      ensures Valid()
      ensures rows == if id in old(rows)
                      then old(rows)[id := old(rows)[id].(nextAttemptAt := now + BackoffFor(attempts))] else old(rows)
      ensures rows == AfterOp(old(rows), RowFailed(id, attempts, now))
    {
      if id in rows {
        rows := rows[id := rows[id].(nextAttemptAt := now + BackoffFor(attempts))];
      }
    }

    /** Retention: nothing unpublished is ever deleted. */
    method DeletePublishedBefore(age: Time, now: Time) returns (deleted: nat)
      requires Valid()
      modifies this`rows
      ensures Valid()
      ensures rows == map id | id in old(rows) && !(old(rows)[id].publishedAt.Some?
                               && old(rows)[id].publishedAt.value < now - age) :: old(rows)[id]
      ensures deleted == |old(rows)| - |rows|
      ensures rows == AfterOp(old(rows), RowsRetained(age, now))
    {
      var kept := map id | id in rows && !(rows[id].publishedAt.Some?
                           && rows[id].publishedAt.value < now - age) :: rows[id];
      assert kept.Keys <= rows.Keys;
      SubsetIsNoLarger(kept.Keys, rows.Keys);
      deleted := |rows| - |kept|;
      rows := kept;
    }
  }
}
