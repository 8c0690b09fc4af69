/** The relay round and the replay of dead letters, and how both are upkeep steps
    of a channel: relay.go and the end of rabbit.go in
    backend/internal/platform/messaging. */
module Relay {
  import opened Common
  import opened Contracts
  import opened Channels
  import opened Messaging

  /** What becomes of one publication: the broker refuses it; accepts it and the
      row is marked; accepts it but the mark fails; or accepts it but the
      confirmation is lost, which the relay records as a failure. */
  datatype Publication = Refused | Confirmed | Unmarked | Unconfirmed

  function AfterPublication(row: Row, p: Publication, now: Time): Row {
    match p
    case Confirmed => row.(publishedAt := Some(now))
    case Unmarked => row
    case _ => row.(nextAttemptAt := now + BackoffFor(row.attempts))
  }

  /** The rows after the first n messages of a round. */
  function RoundRows(rows: Rows, batch: seq<Message>, outcomes: nat -> Publication, now: Time, n: nat): Rows
    requires n <= |batch|
  {
    if n == 0 then rows
    else
      var before := RoundRows(rows, batch, outcomes, now, n - 1);
      var id := batch[n - 1].id;
      if id in before then before[id := AfterPublication(before[id], outcomes(n - 1), now)] else before
  }

  /** What the broker holds after the first n messages of a round. */
  function RoundReady(ready: multiset<Message>, batch: seq<Message>, outcomes: nat -> Publication, n: nat): multiset<Message>
    requires n <= |batch|
  {
    if n == 0 then ready
    else RoundReady(ready, batch, outcomes, n - 1) + if outcomes(n - 1) == Refused then multiset{} else multiset{batch[n - 1]}
  }

  function Confirmations(outcomes: nat -> Publication, n: nat): nat {
    if n == 0 then 0 else Confirmations(outcomes, n - 1) + if outcomes(n - 1) == Confirmed then 1 else 0
  }

  ghost predicate DistinctIds(batch: seq<Message>) {
    forall i, j :: 0 <= i < j < |batch| ==> batch[i].id != batch[j].id
  }

  /** A queue hands out its messages in any order; its dead letter queue is read
      from the front. */
  class Queue {
    var ready: multiset<Message>
    var dead: seq<Message>

    constructor ()
      ensures ready == multiset{} && dead == []
    {
      ready, dead := multiset{}, [];
    }

    /** One delivery: acknowledged when the handler managed, dead lettered when it
        gave up. */
    method Deliver(m: Message, handled: bool)
      requires m in ready
      modifies this
      ensures ready == old(ready) - multiset{m}
      ensures dead == if handled then old(dead) else old(dead) + [m]
    {
      ready := ready - multiset{m};
      if !handled {
        dead := dead + [m];
      }
    }

    /** Moves up to `limit` dead letters back, oldest first. A publication that
        fails puts the letter back and stops; a confirmation or acknowledgement
        that is lost stops too, and leaves the letter in both places. Nothing is
        lost either way. */
    method Replay(limit: int, outcomes: nat -> Publication) returns (replayed: nat)
      modifies this
      ensures replayed <= |old(dead)| && replayed <= if limit <= 0 then 100 else limit
      ensures dead == old(dead)[replayed..]
      ensures var moved := old(ready) + multiset(old(dead)[..replayed]);
        || (ready == moved && (replayed < |old(dead)| && replayed < (if limit <= 0 then 100 else limit) ==>
                               outcomes(replayed) == Refused))
        || (replayed < |old(dead)| && ready == moved + multiset{old(dead)[replayed]}
            && (outcomes(replayed) == Unconfirmed || outcomes(replayed) == Unmarked))
    {
      var bound := if limit <= 0 then 100 else limit;
      ghost var letters := dead;
      replayed := 0;
      while replayed < bound && dead != []
        invariant replayed <= bound && replayed <= |letters|
        invariant dead == letters[replayed..]
        invariant ready == old(ready) + multiset(letters[..replayed])
      {
        var m := dead[0];
        if outcomes(replayed) == Refused {
          return;
        }
        ready := ready + multiset{m};
        if outcomes(replayed) != Confirmed {
          return;
        }
        assert letters[..replayed + 1] == letters[..replayed] + [m];
        dead := dead[1..];
        replayed := replayed + 1;
      }
    }
  }

  lemma ClaimedAreDistinct(rows: Rows, limit: int, now: Time)
    requires Numbered(rows)
    ensures var ids := Claimed(rows, limit, now);
      && (forall id :: id in ids ==> id in rows && Due(rows[id], now))
      && forall i, j :: 0 <= i < j < |ids| ==> ids[i] != ids[j]
  {
    FirstBySequenceIsFirst(rows, DueIds(rows, now), ClaimLimit(limit));
  }

  /** One publication and what the relay records about it. */
  method PublishOne(outbox: Outbox, queue: Queue, message: Message, outcome: Publication, now: Time)
    requires outbox.Valid()
    modifies outbox`rows, queue`ready
    ensures outbox.Valid()
    ensures outbox.rows ==
      if message.id in old(outbox.rows)
      then old(outbox.rows)[message.id := AfterPublication(old(outbox.rows)[message.id], outcome, now)]
      else old(outbox.rows)
    ensures queue.ready == old(queue.ready) + if outcome == Refused then multiset{} else multiset{message}
  {
    if outcome != Refused {
      queue.ready := queue.ready + multiset{message};
    }
    if outcome == Refused || outcome == Unconfirmed {
      var attempts := if message.id in outbox.rows then outbox.rows[message.id].attempts else 0;
      outbox.MarkFailed(message.id, attempts, now);
    } else if outcome == Confirmed {
      outbox.MarkPublished(message.id, now);
    } else if message.id in outbox.rows {
      assert outbox.rows == outbox.rows[message.id := outbox.rows[message.id]];
    }
  }

  /** One round: claim a batch, publish each message and record how it went. */
  method RunOnce(outbox: Outbox, queue: Queue, batchSize: int, outcomes: nat -> Publication, now: Time)
    returns (published: nat, ghost batch: seq<Message>)
    requires outbox.Valid()
    modifies outbox`rows, queue`ready
    ensures outbox.Valid()
    ensures var ids := Claimed(old(outbox.rows), batchSize, now);
      && |batch| == |ids|
      && (forall i :: 0 <= i < |ids| ==> ids[i] in old(outbox.rows) && batch[i] == old(outbox.rows)[ids[i]].message)
      && outbox.rows == RoundRows(ClaimRows(old(outbox.rows), ids, now), batch, outcomes, now, |batch|)
    ensures queue.ready == RoundReady(old(queue.ready), batch, outcomes, |batch|)
    ensures published == Confirmations(outcomes, |batch|)
  {
    var messages := outbox.Claim(batchSize, now);
    batch := messages;
    ghost var claimed := outbox.rows;
    published := 0;
    for i := 0 to |messages|
      invariant outbox.Valid()
      invariant outbox.rows == RoundRows(claimed, messages, outcomes, now, i)
      invariant queue.ready == RoundReady(old(queue.ready), messages, outcomes, i)
      invariant published == Confirmations(outcomes, i)
    {
      PublishOne(outbox, queue, messages[i], outcomes(i), now);
      if outcomes(i) == Confirmed {
        published := published + 1;
      }
    }
  }

  // ---- What a round leaves on the rows, in the queue and in its count ----------

  /** What stands in the table after one publication of a claimed row. A failure, or a
      confirmation that got lost, puts the row off by a second that doubles with each
      attempt up to a minute; a confirmed one is stamped; and one that could not be
      stamped waits out its lease. */
  ghost predicate Recorded(before: Row, after: Row, p: Publication, now: Time) {
    && after.message == before.message && after.sequence == before.sequence && after.attempts == before.attempts + 1
    && match p
       case Confirmed => after.publishedAt == Some(now) && after.nextAttemptAt == now + 30
       case Unmarked => after.publishedAt == None && after.nextAttemptAt == now + 30
       case _ =>
         && after.publishedAt == None
         && after.nextAttemptAt - now == if after.attempts >= 7 then 60 else Pow2(after.attempts - 1)
  }

  lemma Delay(attempts: nat)
    requires attempts >= 1
    ensures BackoffFor(attempts) == if attempts >= 7 then 60 else Pow2(attempts - 1)
  {
    assert Pow2(0) == 1 && Pow2(1) == 2 && Pow2(2) == 4 && Pow2(3) == 8;
    assert Pow2(4) == 16 && Pow2(5) == 32 && Pow2(6) == 64;
  }

  /** The row of message i after the first n, and a row of none of them. */
  lemma {:induction false} RowOfRound(rows: Rows, batch: seq<Message>, outcomes: nat -> Publication, now: Time, n: nat, i: nat)
    requires i < n <= |batch| && DistinctIds(batch) && forall k :: 0 <= k < |batch| ==> batch[k].id in rows
    ensures var after := RoundRows(rows, batch, outcomes, now, n);
      batch[i].id in after && after[batch[i].id] == AfterPublication(rows[batch[i].id], outcomes(i), now)
    decreases n
  {
    RoundLeavesLater(rows, batch, outcomes, now, n - 1);
    if i < n - 1 {
      RowOfRound(rows, batch, outcomes, now, n - 1, i);
      assert batch[i].id != batch[n - 1].id;
    }
  }

  lemma {:induction false} OtherRowOfRound(rows: Rows, batch: seq<Message>, outcomes: nat -> Publication, now: Time, n: nat,
                                           id: Uuid)
    requires n <= |batch| && id in rows && forall i :: 0 <= i < n ==> batch[i].id != id
    ensures var after := RoundRows(rows, batch, outcomes, now, n); id in after && after[id] == rows[id]
  {
    if n != 0 {
      OtherRowOfRound(rows, batch, outcomes, now, n - 1, id);
    }
  }

  /** After a round every claimed row tells how its own publication went, and every
      other row is as it was. */
  lemma RoundRecordsOutcomes(rows: Rows, limit: int, outcomes: nat -> Publication, now: Time, batch: seq<Message>)
    requires Numbered(rows)
    requires var ids := Claimed(rows, limit, now);
      |batch| == |ids| && forall i :: 0 <= i < |ids| ==> ids[i] in rows && batch[i] == rows[ids[i]].message
    ensures var after := RoundRows(ClaimRows(rows, Claimed(rows, limit, now), now), batch, outcomes, now, |batch|);
      && after.Keys == rows.Keys
      && (forall i :: 0 <= i < |batch| ==> batch[i].id in rows && Recorded(rows[batch[i].id], after[batch[i].id], outcomes(i), now))
      && forall id :: id in rows && (forall i :: 0 <= i < |batch| ==> batch[i].id != id) ==> after[id] == rows[id]
  {
    var ids := Claimed(rows, limit, now);
    var claimed := ClaimRows(rows, ids, now);
    ClaimedAreDistinct(rows, limit, now);
    forall i | 0 <= i < |batch| ensures ids[i] in ids && batch[i].id == ids[i] {
    }
    RoundLeavesLater(claimed, batch, outcomes, now, |batch|);
    forall i | 0 <= i < |batch|
      ensures Recorded(rows[ids[i]], RoundRows(claimed, batch, outcomes, now, |batch|)[ids[i]], outcomes(i), now)
    {
      Delay(rows[ids[i]].attempts + 1);
      RowOfRound(claimed, batch, outcomes, now, |batch|, i);
    }
    forall id | id in rows && (forall i :: 0 <= i < |batch| ==> batch[i].id != id)
      ensures RoundRows(claimed, batch, outcomes, now, |batch|)[id] == rows[id]
    {
      assert id !in ids;
      OtherRowOfRound(claimed, batch, outcomes, now, |batch|, id);
    }
  }

  /** Message m is among the first n of a round and the broker took it. */
  ghost predicate TakenByBroker(batch: seq<Message>, outcomes: nat -> Publication, n: nat, m: Message)
    requires n <= |batch|
  {
    exists i :: 0 <= i < n && batch[i] == m && outcomes(i) != Refused
  }

  /** The broker has a message once more exactly when it did not refuse it. */
  lemma {:induction false} RoundPublishes(ready: multiset<Message>, batch: seq<Message>, outcomes: nat -> Publication, n: nat,
                                          m: Message)
    requires n <= |batch| && DistinctIds(batch)
    ensures RoundReady(ready, batch, outcomes, n)[m] == ready[m] + if TakenByBroker(batch, outcomes, n, m) then 1 else 0
  {
    if n != 0 {
      RoundPublishes(ready, batch, outcomes, n - 1, m);
      if TakenByBroker(batch, outcomes, n - 1, m) {
        assert m != batch[n - 1];
      }
      assert TakenByBroker(batch, outcomes, n, m)
        <==> TakenByBroker(batch, outcomes, n - 1, m) || (batch[n - 1] == m && outcomes(n - 1) != Refused);
    }
  }

  /** A round counts the publications that were confirmed and recorded. */
  lemma {:induction false} RoundCounts(outcomes: nat -> Publication, n: nat)
    ensures Confirmations(outcomes, n) == |set i: nat | i < n && outcomes(i) == Confirmed|
  {
    if n != 0 {
      RoundCounts(outcomes, n - 1);
      var before, all := set i: nat | i < n - 1 && outcomes(i) == Confirmed, set i: nat | i < n && outcomes(i) == Confirmed;
      assert all == if outcomes(n - 1) == Confirmed then before + {n - 1} else before;
    }
  }

  // ---- A round is a run of upkeep steps -------------------------------------

  function UpkeepsOf(batch: seq<Message>, outcomes: nat -> Publication, n: nat): seq<Upkeep>
    requires n <= |batch|
  {
    if n == 0 then []
    else UpkeepsOf(batch, outcomes, n - 1) + UpkeepsOfOne(batch[n - 1].id, outcomes(n - 1))
  }

  function UpkeepsOfOne(id: Uuid, p: Publication): seq<Upkeep> {
    match p
    case Refused => []
    case Confirmed => [Publish(id), MarkPublished(id)]
    case _ => [Publish(id)]
  }

  ghost predicate CanKeepUpAll(c: Channel, us: seq<Upkeep>)
    decreases |us|
  {
    us == [] || (CanKeepUp(c, us[0]) && CanKeepUpAll(KeepUp(c, us[0]), us[1..]))
  }

  ghost function KeepUpAll(c: Channel, us: seq<Upkeep>): Channel
    requires CanKeepUpAll(c, us)
    decreases |us|
  {
    if us == [] then c else KeepUpAll(KeepUp(c, us[0]), us[1..])
  }

  lemma {:induction false} KeepUpMore(c: Channel, us: seq<Upkeep>, more: seq<Upkeep>)
    requires CanKeepUpAll(c, us) && CanKeepUpAll(KeepUpAll(c, us), more)
    ensures CanKeepUpAll(c, us + more) && KeepUpAll(c, us + more) == KeepUpAll(KeepUpAll(c, us), more)
    decreases |us|
  {
    if us == [] {
      assert us + more == more;
    } else {
      assert (us + more)[1..] == us[1..] + more;
      KeepUpMore(KeepUp(c, us[0]), us[1..], more);
    }
  }

  ghost predicate Shows(c: Channel, rows: Rows, ready: multiset<Message>) {
    c.outbox == View(rows) && c.ready == ready
  }

  /** One message of a round. */
  lemma PublicationIsUpkeep(c: Channel, rows: Rows, message: Message, p: Publication, now: Time)
    requires c.outbox == View(rows)
    requires message.id in rows && rows[message.id].message == message && rows[message.id].publishedAt.None?
    ensures CanKeepUpAll(c, UpkeepsOfOne(message.id, p))
    ensures Shows(KeepUpAll(c, UpkeepsOfOne(message.id, p)), rows[message.id := AfterPublication(rows[message.id], p, now)],
                  c.ready + if p == Refused then multiset{} else multiset{message})
  {
    var id := message.id;
    var us := UpkeepsOfOne(id, p);
    var rows' := rows[id := AfterPublication(rows[id], p, now)];
    if p == Refused {
      assert View(rows') == View(rows);
    } else {
      var c1 := KeepUp(c, Publish(id));
      assert CanKeepUpAll(c1, us[1..]);
      assert KeepUpAll(c, us) == KeepUpAll(c1, us[1..]);
      if p == Confirmed {
        assert us[1..] == [MarkPublished(id)];
        assert KeepUpAll(c1, us[1..]) == KeepUp(c1, MarkPublished(id));
        assert View(rows') == View(rows)[id := OutboxRow(message, true)];
      } else {
        assert View(rows') == View(rows);
      }
    }
  }

  lemma OneMoreIsUpkeep(c: Channel, us: seq<Upkeep>, rows: Rows, message: Message, p: Publication, now: Time)
    requires CanKeepUpAll(c, us) && KeepUpAll(c, us).outbox == View(rows)
    requires message.id in rows && rows[message.id].message == message && rows[message.id].publishedAt.None?
    ensures var all := us + UpkeepsOfOne(message.id, p);
      && CanKeepUpAll(c, all)
      && Shows(KeepUpAll(c, all), rows[message.id := AfterPublication(rows[message.id], p, now)],
               KeepUpAll(c, us).ready + if p == Refused then multiset{} else multiset{message})
  {
    PublicationIsUpkeep(KeepUpAll(c, us), rows, message, p, now);
    KeepUpMore(c, us, UpkeepsOfOne(message.id, p));
  }

  /** The first n messages touch no row of a later one. */
  lemma {:induction false} RoundLeavesLater(rows: Rows, batch: seq<Message>, outcomes: nat -> Publication, now: Time, n: nat)
    requires n <= |batch| && DistinctIds(batch) && forall i :: 0 <= i < |batch| ==> batch[i].id in rows
    ensures var after := RoundRows(rows, batch, outcomes, now, n);
      after.Keys == rows.Keys && forall i :: n <= i < |batch| ==> after[batch[i].id] == rows[batch[i].id]
  {
    if n != 0 {
      RoundLeavesLater(rows, batch, outcomes, now, n - 1);
    }
  }

  lemma {:induction false} RoundIsUpkeep(c: Channel, rows: Rows, batch: seq<Message>, outcomes: nat -> Publication, now: Time, n: nat)
    requires n <= |batch| && DistinctIds(batch) && c.outbox == View(rows)
    requires forall i :: 0 <= i < |batch| ==>
      batch[i].id in rows && rows[batch[i].id].message == batch[i] && rows[batch[i].id].publishedAt.None?
    ensures CanKeepUpAll(c, UpkeepsOf(batch, outcomes, n))
    ensures Shows(KeepUpAll(c, UpkeepsOf(batch, outcomes, n)), RoundRows(rows, batch, outcomes, now, n),
                  RoundReady(c.ready, batch, outcomes, n))
  {
    if n != 0 {
      RoundIsUpkeep(c, rows, batch, outcomes, now, n - 1);
      RoundLeavesLater(rows, batch, outcomes, now, n - 1);
      var us, before := UpkeepsOf(batch, outcomes, n - 1), RoundRows(rows, batch, outcomes, now, n - 1);
      var message, p := batch[n - 1], outcomes(n - 1);
      assert before[message.id] == rows[message.id];
      OneMoreIsUpkeep(c, us, before, message, p, now);
      assert UpkeepsOf(batch, outcomes, n) == us + UpkeepsOfOne(message.id, p);
      assert RoundRows(rows, batch, outcomes, now, n) == before[message.id := AfterPublication(before[message.id], p, now)];
    }
  }

  /** The messages a relay holds after claiming, and the rows they came from:
      claiming itself shows nothing, and the round that follows is upkeep of the
      channel, so it loses no message and duplicates at worst. */
  lemma RelayRoundIsUpkeep(c: Channel, rows: Rows, limit: int, outcomes: nat -> Publication, now: Time, batch: seq<Message>)
    requires Numbered(rows) && c.outbox == View(rows)
    requires var ids := Claimed(rows, limit, now);
      |batch| == |ids| && forall i :: 0 <= i < |ids| ==> ids[i] in rows && batch[i] == rows[ids[i]].message
    ensures var claimed := ClaimRows(rows, Claimed(rows, limit, now), now);
      && CanKeepUpAll(c, UpkeepsOf(batch, outcomes, |batch|))
      && Shows(KeepUpAll(c, UpkeepsOf(batch, outcomes, |batch|)),
               RoundRows(claimed, batch, outcomes, now, |batch|), RoundReady(c.ready, batch, outcomes, |batch|))
  {
    var ids := Claimed(rows, limit, now);
    var claimed := ClaimRows(rows, ids, now);
    ClaimedAreDistinct(rows, limit, now);
    assert View(claimed) == View(rows);
    forall i | 0 <= i < |batch|
      ensures batch[i].id in claimed && claimed[batch[i].id].message == batch[i] && claimed[batch[i].id].publishedAt.None?
    {
      assert ids[i] in ids && batch[i].id == ids[i];
    }
    RoundIsUpkeep(c, claimed, batch, outcomes, now, |batch|);
  }

  // ---- Replay and retention are runs of upkeep steps too -----------------------

  function Replays(letters: seq<Message>): seq<Upkeep> {
    seq(|letters|, i requires 0 <= i < |letters| => Upkeep.Replay(letters[i]))
  }

  lemma OneUpkeep(c: Channel, u: Upkeep)
    requires CanKeepUp(c, u)
    ensures CanKeepUpAll(c, [u]) && KeepUpAll(c, [u]) == KeepUp(c, u)
  {
    assert [u][1..] == [];
  }

  lemma FirstLetter(dead: seq<Message>, n: nat)
    requires 0 < n <= |dead|
    ensures dead[0] in multiset(dead) && multiset(dead) - multiset{dead[0]} == multiset(dead[1..])
    ensures multiset{dead[0]} + multiset(dead[1..][..n - 1]) == multiset(dead[..n])
    ensures dead[1..][n - 1..] == dead[n..]
    ensures Replays(dead[..n]) == [Upkeep.Replay(dead[0])] + Replays(dead[1..][..n - 1])
  {
    assert dead == [dead[0]] + dead[1..];
    assert dead[..n] == [dead[0]] + dead[1..][..n - 1];
  }

  lemma ConsUpkeep(c: Channel, u: Upkeep, us: seq<Upkeep>)
    requires CanKeepUp(c, u) && CanKeepUpAll(KeepUp(c, u), us)
    ensures CanKeepUpAll(c, [u] + us) && KeepUpAll(c, [u] + us) == KeepUpAll(KeepUp(c, u), us)
  {
    assert ([u] + us)[1..] == us;
  }

  /** Dead letters going back one by one, oldest first. */
  lemma {:induction false} ReplaysMoveLetters(c: Channel, dead: seq<Message>, n: nat)
    requires c.dead == multiset(dead) && n <= |dead|
    ensures CanKeepUpAll(c, Replays(dead[..n]))
    ensures KeepUpAll(c, Replays(dead[..n]))
         == c.(ready := c.ready + multiset(dead[..n]), dead := multiset(dead[n..]))
    decreases n
  {
    if n == 0 {
      assert dead[..0] == [] && dead[0..] == dead;
      assert c.ready + multiset([]) == c.ready;
    } else {
      FirstLetter(dead, n);
      var u := Upkeep.Replay(dead[0]);
      ReplaysMoveLetters(KeepUp(c, u), dead[1..], n - 1);
      ConsUpkeep(c, u, Replays(dead[1..][..n - 1]));
    }
  }

  /** What Replay does to a channel: the letters that went back, and one more that
      was published but stayed. */
  lemma ReplayIsUpkeep(c: Channel, dead: seq<Message>, n: nat, twice: bool) returns (us: seq<Upkeep>)
    requires Sound(c) && c.dead == multiset(dead) && n <= |dead| && (twice ==> n < |dead|)
    ensures CanKeepUpAll(c, us)
    ensures KeepUpAll(c, us) == c.(
      ready := c.ready + multiset(dead[..n]) + if twice then multiset{dead[n]} else multiset{},
      dead := multiset(dead[n..]))
  {
    ReplaysMoveLetters(c, dead, n);
    var moved := KeepUpAll(c, Replays(dead[..n]));
    us := Replays(dead[..n]);
    if twice {
      var m := dead[n];
      assert m in multiset(dead);
      assert m in c.dead && c.sent[m.id] == m;
      OneUpkeep(moved, Redeliver(m.id));
      KeepUpMore(c, us, [Redeliver(m.id)]);
      us := us + [Redeliver(m.id)];
    }
  }

  /** The same, for what the queue was before and is after. */
  lemma ReplayedIsUpkeep(c: Channel, dead: seq<Message>, n: nat, ready': multiset<Message>, dead': seq<Message>)
    returns (us: seq<Upkeep>)
    requires Sound(c) && c.dead == multiset(dead) && n <= |dead| && dead' == dead[n..]
    requires ready' == c.ready + multiset(dead[..n])
      || (n < |dead| && ready' == c.ready + multiset(dead[..n]) + multiset{dead[n]})
    ensures CanKeepUpAll(c, us) && KeepUpAll(c, us) == c.(ready := ready', dead := multiset(dead'))
  {
    if ready' == c.ready + multiset(dead[..n]) {
      us := ReplayIsUpkeep(c, dead, n, false);
    } else {
      us := ReplayIsUpkeep(c, dead, n, true);
    }
  }

  /** Retention of an outbox. */
  lemma {:induction false} DroppingIsUpkeep(c: Channel, gone: set<Uuid>) returns (us: seq<Upkeep>)
    requires forall id :: id in gone ==> id in c.outbox && c.outbox[id].published
    ensures CanKeepUpAll(c, us) && KeepUpAll(c, us) == c.(outbox := c.outbox - gone)
    decreases gone
  {
    if gone == {} {
      us := [];
      assert c.outbox - {} == c.outbox;
    } else {
      var id :| id in gone;
      var rest := DroppingIsUpkeep(KeepUp(c, DropRow(id)), gone - {id});
      us := [DropRow(id)] + rest;
      assert us[1..] == rest;
      assert c.outbox - {id} - (gone - {id}) == c.outbox - gone;
    }
  }

  /** Retention of an inbox. */
  lemma {:induction false} ForgettingIsUpkeep(c: Channel, gone: set<Uuid>) returns (us: seq<Upkeep>)
    requires gone <= c.processed
    ensures CanKeepUpAll(c, us) && KeepUpAll(c, us) == c.(processed := c.processed - gone)
    decreases gone
  {
    if gone == {} {
      us := [];
      assert c.processed - {} == c.processed;
    } else {
      var id :| id in gone;
      var rest := ForgettingIsUpkeep(KeepUp(c, Forget(id)), gone - {id});
      us := [Forget(id)] + rest;
      assert us[1..] == rest;
      assert c.processed - {id} - (gone - {id}) == c.processed - gone;
    }
  }
}
