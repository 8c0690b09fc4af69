/** One direction of the messaging between the services, from the outbox of the
    sender to the inbox of the receiver, as a value:
    backend/internal/platform/messaging. */
module Channels {
  import opened Common
  import opened Contracts

  datatype OutboxRow = OutboxRow(message: Message, published: bool)

  /** `ready` is the queue, `dead` its dead letter queue. The last two fields are
      history: every message ever enqueued, and the ids the broker ever accepted. */
  datatype Channel = Channel(
    outbox: map<Uuid, OutboxRow>,
    ready: multiset<Message>,
    dead: multiset<Message>,
    processed: set<Uuid>,
    sent: map<Uuid, Message>,
    published: set<Uuid>)

  const IDLE := Channel(map[], multiset{}, multiset{}, {}, map[], {})

  /** Everything but sending a new message and applying one for the first time. */
  datatype Upkeep =
    | Publish(id: Uuid)         // the relay hands a pending row to the broker
    | MarkPublished(id: Uuid)   // and records that it did, which may fail or come late
    | DropRow(id: Uuid)         // retention removes a published row
    | Redeliver(id: Uuid)       // the broker, a late relay or a half-done replay repeats a message
    | SkipKnown(m: Message)     // a delivery already processed is acknowledged
    | DeadLetter(m: Message)    // a delivery is given up on
    | Replay(m: Message)        // a dead letter goes back to its queue
    | Forget(id: Uuid)          // retention removes an inbox record

  predicate CanKeepUp(c: Channel, u: Upkeep) {
    match u
    case Publish(id) => id in c.outbox && !c.outbox[id].published
    case MarkPublished(id) => id in c.outbox && id in c.published
    case DropRow(id) => id in c.outbox && c.outbox[id].published
    case Redeliver(id) => id in c.published && id in c.sent
    case SkipKnown(m) => m in c.ready && m.id in c.processed
    case DeadLetter(m) => m in c.ready
    case Replay(m) => m in c.dead
    case Forget(id) => id in c.processed
  }

  function KeepUp(c: Channel, u: Upkeep): Channel
    requires CanKeepUp(c, u)
  {
    match u
    case Publish(id) =>
      c.(ready := c.ready + multiset{c.outbox[id].message}, published := c.published + {id})
    case MarkPublished(id) => c.(outbox := c.outbox[id := c.outbox[id].(published := true)])
    case DropRow(id) => c.(outbox := c.outbox - {id})
    case Redeliver(id) => c.(ready := c.ready + multiset{c.sent[id]})
    case SkipKnown(m) => c.(ready := c.ready - multiset{m})
    case DeadLetter(m) => c.(ready := c.ready - multiset{m}, dead := c.dead + multiset{m})
    case Replay(m) => c.(ready := c.ready + multiset{m}, dead := c.dead - multiset{m})
    case Forget(id) => c.(processed := c.processed - {id})
  }

  /** EnqueueTx, inside the transaction of the sender. */
  function Enqueue(c: Channel, m: Message): Channel {
    c.(outbox := c.outbox[m.id := OutboxRow(m, false)], sent := c.sent[m.id := m])
  }

  /** The inbox record and the acknowledgement of a message applied for the
      first time. A delivery that is committed but not acknowledged is this
      followed by Redeliver. */
  function Consume(c: Channel, m: Message): Channel {
    c.(ready := c.ready - multiset{m}, processed := c.processed + {m.id})
  }

  ghost predicate Sound(c: Channel) {
    && (forall id :: id in c.sent ==> c.sent[id].id == id)
    && (forall id :: id in c.outbox ==> id in c.sent && c.outbox[id].message == c.sent[id])
    && (forall id :: id in c.outbox && c.outbox[id].published ==> id in c.published)
    && (forall id :: id in c.sent && id !in c.published ==> id in c.outbox)
    && (forall m :: m in c.ready || m in c.dead ==> m.id in c.published && m.id in c.sent && c.sent[m.id] == m)
    && c.published <= c.sent.Keys
    && c.processed <= c.published
  }

  /** A message is waiting while the receiver still has to apply it: it sits in
      the outbox and never reached the broker, or it is in the queue or the dead
      letter queue; and the inbox does not know it. */
  ghost predicate Waiting(c: Channel, id: Uuid) {
    && id in c.sent
    && id !in c.processed
    && (id !in c.published || c.sent[id] in c.ready || c.sent[id] in c.dead)
  }

  /** What the rest of the system depends on when a channel keeps itself up. */
  ghost predicate LosesNothing(c: Channel, c': Channel) {
    && c'.sent == c.sent
    && c.published <= c'.published
    && c'.processed <= c.processed
    && forall id :: Waiting(c, id) ==> Waiting(c', id)
  }

  lemma UpkeepKeepsSound(c: Channel, u: Upkeep)
    requires Sound(c) && CanKeepUp(c, u)
    ensures Sound(KeepUp(c, u))
  {
    match u
    case Publish(_) => SendingKeepsSound(c, u);
    case MarkPublished(_) => SendingKeepsSound(c, u);
    case DropRow(_) => SendingKeepsSound(c, u);
    case Redeliver(_) => SendingKeepsSound(c, u);
    case SkipKnown(_) => ReceivingKeepsSound(c, u);
    case DeadLetter(_) => ReceivingKeepsSound(c, u);
    case Replay(_) => ReceivingKeepsSound(c, u);
    case Forget(_) => ReceivingKeepsSound(c, u);
  }

  lemma SendingKeepsSound(c: Channel, u: Upkeep)
    requires Sound(c) && CanKeepUp(c, u) && (u.Publish? || u.MarkPublished? || u.DropRow? || u.Redeliver?)
    ensures Sound(KeepUp(c, u))
  {
  }

  lemma ReceivingKeepsSound(c: Channel, u: Upkeep)
    requires Sound(c) && CanKeepUp(c, u) && (u.SkipKnown? || u.DeadLetter? || u.Replay? || u.Forget?)
    ensures Sound(KeepUp(c, u))
  {
  }

  lemma UpkeepKeepsWaiting(c: Channel, u: Upkeep, id: Uuid)
    requires Sound(c) && CanKeepUp(c, u) && Waiting(c, id)
    ensures Waiting(KeepUp(c, u), id)
  {
    match u
    case Publish(other) =>
    case SkipKnown(m) => assert c.sent[m.id] == m;
    case DeadLetter(m) =>
    case Replay(m) =>
    case _ =>
  }

  lemma UpkeepFrame(c: Channel, u: Upkeep)
    requires CanKeepUp(c, u)
    ensures var c' := KeepUp(c, u); c'.sent == c.sent && c.published <= c'.published && c'.processed <= c.processed
  {
    match u
    case Publish(_) =>
    case Forget(_) =>
    case _ =>
  }

  /** Publishing late or twice, marking late or never, duplicates, dead letters,
      replays and retention lose no message that is still to be applied. */
  lemma UpkeepLosesNothing(c: Channel, u: Upkeep)
    requires Sound(c) && CanKeepUp(c, u)
    ensures Sound(KeepUp(c, u)) && LosesNothing(c, KeepUp(c, u))
  {
    UpkeepKeepsSound(c, u);
    UpkeepFrame(c, u);
    forall id | Waiting(c, id) ensures Waiting(KeepUp(c, u), id) {
      UpkeepKeepsWaiting(c, u, id);
    }
  }

  lemma EnqueueAddsWaiting(c: Channel, m: Message)
    requires Sound(c) && m.id !in c.sent
    ensures var c' := Enqueue(c, m);
      && Sound(c') && Waiting(c', m.id) && c'.processed == c.processed
      && forall id :: Waiting(c, id) ==> Waiting(c', id)
  {
    var c' := Enqueue(c, m);
    assert m.id !in c.outbox;
    forall id | Waiting(c, id) ensures Waiting(c', id) {
      assert c'.sent[id] == c.sent[id];
    }
  }

  lemma ConsumeSettlesOne(c: Channel, m: Message)
    requires Sound(c) && m in c.ready
    ensures var c' := Consume(c, m);
      && Sound(c') && c'.sent == c.sent
      && !Waiting(c', m.id)
      && forall id :: Waiting(c, id) && id != m.id ==> Waiting(c', id)
  {
  }
}
