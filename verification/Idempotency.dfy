/** Idempotency keys: backend/internal/platform/idempotency. Times are in
    nanoseconds; a request is known by its endpoint and key. */
module Idempotency {
  import opened Common

  type Bytes = seq<bv8>

  type Id = (string, string)

  datatype Record = Record(statusCode: int, body: Bytes)

  datatype Row = Row(requestHash: string, answer: Option<Record>, reservedAt: Time, completedAt: Option<Time>)

  /** What Reserve says: go ahead, here is the stored answer, or a refusal. */
  datatype Reserved = Granted | Replayed(record: Record) | KeyReuse | InProgress

  const SECOND := 1_000_000_000
  const STALE_RESERVATION_AGE := 120 * SECOND
  const MAX_KEY_LENGTH := 128
  const MAX_BODY := 0x10_0000
  const INTERNAL_SERVER_ERROR := 500

  /** `beaten`: the key was free when it was read, and another request's row was
      there when this one was to be inserted. */
  function Reserving(rows: map<Id, Row>, id: Id, hash: string, now: Time, beaten: bool): (map<Id, Row>, Reserved)
    requires beaten ==> id in rows
  {
    if beaten then (rows, InProgress)
    else if id !in rows then (rows[id := Row(hash, None, now, None)], Granted)
    else
      var row := rows[id];
      if row.requestHash != hash then (rows, KeyReuse)
      else if row.completedAt.Some? && row.answer.Some? then (rows, Replayed(row.answer.value))
      else if now - row.reservedAt < STALE_RESERVATION_AGE then (rows, InProgress)
      else (rows[id := row.(reservedAt := now)], Granted)
  }

  function Completed(rows: map<Id, Row>, id: Id, record: Record, now: Time): map<Id, Row> {
    if id in rows then rows[id := rows[id].(answer := Some(record), completedAt := Some(now))] else rows
  }

  function Released(rows: map<Id, Row>, id: Id): map<Id, Row> {
    if id in rows && rows[id].completedAt.None? then rows - {id} else rows
  }

  predicate Old(row: Row, age: Time, now: Time) {
    row.completedAt.Some? && row.completedAt.value < now - age
  }

  function WithoutOld(rows: map<Id, Row>, age: Time, now: Time): map<Id, Row> {
    map id | id in rows && !Old(rows[id], age, now) :: rows[id]
  }

  /** Complete or Release, by the status the handler answered with. */
  function Finish(rows: map<Id, Row>, id: Id, record: Record, now: Time): map<Id, Row> {
    if record.statusCode >= INTERNAL_SERVER_ERROR then Released(rows, id) else Completed(rows, id, record, now)
  }

  // ---- The store and the middleware ---------------------------------------------

  datatype Request = Request(method': string, path: string, key: string, body: Bytes)

  /** What the client sees: the handler's own answer, the stored one, a refusal
      of the store, or a refusal of the key. */
  datatype Response = Handled(record: Record) | FromStore(record: Record) | Refused(why: Reserved) | InvalidKey

  predicate IsWrite(method': string) {
    method' == "POST" || method' == "PUT" || method' == "PATCH" || method' == "DELETE"
  }

  ghost predicate KeyIsValid(key: string) {
    1 <= |key| <= MAX_KEY_LENGTH && forall c :: c in key ==> '!' <= c <= '~'
  }

  method ValidateKey(key: string) returns (valid: bool)
    ensures valid <==> KeyIsValid(key)
  {
    if key == "" || |key| > MAX_KEY_LENGTH {
      return false;
    }
    for i := 0 to |key|
      invariant forall k :: 0 <= k < i ==> '!' <= key[k] <= '~'
    {
      if key[i] < '!' || key[i] > '~' {
        assert key[i] in key;
        return false;
      }
    }
    valid := true;
  }

  /** One request served from start to end, alone. The handler runs when the key
      does not matter or the store grants it, and answers with `made`. */
  ghost function Served(rows: map<Id, Row>, r: Request, hash: string, made: Record, begun: Time, ended: Time)
    : (map<Id, Row>, Response)
  {
    if r.key == "" || !IsWrite(r.method') then (rows, Handled(made))
    else if !KeyIsValid(r.key) || |r.body| > MAX_BODY then (rows, InvalidKey)
    else
      var id := (r.method' + " " + r.path, r.key);
      var (reserved, outcome) := Reserving(rows, id, hash, begun, false);
      match outcome
      case Granted => (Finish(reserved, id, made, ended), Handled(made))
      case Replayed(record) => (reserved, FromStore(record))
      case _ => (reserved, Refused(outcome))
  }

  class PostgresStore {
    var rows: map<Id, Row>

    constructor ()
      ensures rows == map[]
    {
      rows := map[];
    }

    method Reserve(id: Id, hash: string, now: Time, beaten: bool) returns (outcome: Reserved)
      requires beaten ==> id in rows
      modifies this
      ensures (rows, outcome) == Reserving(old(rows), id, hash, now, beaten)
    {
      var read := if beaten then None else if id in rows then Some(rows[id]) else None;
      if read.None? {
        if id in rows {
          return InProgress;
        }
        rows := rows[id := Row(hash, None, now, None)];
        return Granted;
      }
      var stored := read.value;
      if stored.requestHash != hash {
        return KeyReuse;
      }
      if stored.completedAt.Some? && stored.answer.Some? {
        return Replayed(stored.answer.value);
      }
      if now - stored.reservedAt < STALE_RESERVATION_AGE {
        return InProgress;
      }
      rows := rows[id := stored.(reservedAt := now)];
      outcome := Granted;
    }

    method Complete(id: Id, record: Record, now: Time)
      modifies this
      ensures rows == Completed(old(rows), id, record, now)
      ensures rows.Keys == old(rows).Keys && forall other :: other in rows ==>
        rows[other] == if other != id then old(rows)[other]
                       else Row(old(rows)[id].requestHash, Some(record), old(rows)[id].reservedAt, Some(now))
    {
      if id in rows {
        rows := rows[id := rows[id].(answer := Some(record), completedAt := Some(now))];
      }
    }

    method Release(id: Id)
      modifies this
      ensures rows == Released(old(rows), id)
      ensures forall other :: other in old(rows) ==>
        if other == id && old(rows)[other].completedAt.None? then other !in rows
        else other in rows && rows[other] == old(rows)[other]
      ensures rows.Keys <= old(rows).Keys
    {
      if id in rows && rows[id].completedAt.None? {
        rows := map other | other in rows && other != id :: rows[other];
      }
    }

    method DeleteCompletedBefore(age: Time, now: Time) returns (removed: nat)
      modifies this
      ensures rows == WithoutOld(old(rows), age, now)
      ensures rows == map id | id in old(rows) && (old(rows)[id].completedAt.Some? ==>
                old(rows)[id].completedAt.value >= now - age) :: old(rows)[id]
      ensures removed == |set id | id in old(rows) && Old(old(rows)[id], age, now)|
    {
      var old' := set id | id in rows && Old(rows[id], age, now);
      removed := |old'|;
      rows := rows - old';
    }

    method Serve(r: Request, requestHash: Request -> string, made: Record, begun: Time, ended: Time)
      returns (response: Response)
      modifies this
      ensures (rows, response) == Served(old(rows), r, requestHash(r), made, begun, ended)
    {
      if r.key == "" || !IsWrite(r.method') {
        return Handled(made);
      }
      var valid := ValidateKey(r.key);
      if !valid || |r.body| > MAX_BODY {
        return InvalidKey;
      }
      var id := (r.method' + " " + r.path, r.key);
      var outcome := Reserve(id, requestHash(r), begun, false);
      match outcome {
        case Granted =>
          if made.statusCode >= INTERNAL_SERVER_ERROR {
            Release(id);
          } else {
            Complete(id, made, ended);
          }
          response := Handled(made);
        case Replayed(record) => response := FromStore(record);
        case _ => response := Refused(outcome);
      }
    }
  }

  // ---- What one request gets, case by case -----------------------------------------

  /** The methods that change something. */
  ghost predicate Changes(method': string) {
    method' in {"POST", "PUT", "PATCH", "DELETE"}
  }

  /** What the middleware takes part in: a request with a key that changes something.
      And what it accepts of those: a key of 1 to 128 printable characters and a body of
      at most a mebibyte. */
  ghost predicate Guarded(r: Request) {
    r.key != "" && Changes(r.method')
  }

  ghost predicate WellFormed(r: Request) {
    1 <= |r.key| <= 128 && (forall i :: 0 <= i < |r.key| ==> 33 <= r.key[i] as int <= 126) && |r.body| <= 1_048_576
  }

  lemma WellFormedIff(r: Request)
    ensures WellFormed(r) <==> KeyIsValid(r.key) && |r.body| <= MAX_BODY
  {
    if forall i :: 0 <= i < |r.key| ==> 33 <= r.key[i] as int <= 126 {
      assert forall c :: c in r.key ==> '!' <= c <= '~';
    }
    if forall c :: c in r.key ==> '!' <= c <= '~' {
      forall i | 0 <= i < |r.key| ensures 33 <= r.key[i] as int <= 126 {
        assert r.key[i] in r.key;
      }
    }
  }

  /** A request that reads, or that carries no key, is handled and leaves no trace; one
      whose key or body is not acceptable is refused before anything runs. */
  lemma UnguardedPassesThrough(rows: map<Id, Row>, r: Request, hash: string, made: Record, begun: Time, ended: Time)
    ensures !Guarded(r) ==> Served(rows, r, hash, made, begun, ended) == (rows, Handled(made))
    ensures Guarded(r) && !WellFormed(r) ==> Served(rows, r, hash, made, begun, ended) == (rows, InvalidKey)
  {
    WellFormedIff(r);
  }

  /** The first request under a key is handled; its answer is kept with the request's
      hash, unless the server failed, which leaves the key free. */
  lemma NewKeyIsHandled(rows: map<Id, Row>, r: Request, hash: string, made: Record, begun: Time, ended: Time)
    requires Guarded(r) && WellFormed(r) && (r.method' + " " + r.path, r.key) !in rows
    ensures Served(rows, r, hash, made, begun, ended).1 == Handled(made)
    ensures Served(rows, r, hash, made, begun, ended).0 ==
      if made.statusCode < 500 then rows[(r.method' + " " + r.path, r.key) := Row(hash, Some(made), begun, Some(ended))]
      else rows
  {
    WellFormedIff(r);
    var id := (r.method' + " " + r.path, r.key);
    assert rows[id := Row(hash, None, begun, None)] - {id} == rows;
  }

  /** A later one is told, in this order: that the key belongs to another request; the
      answer that was kept; or that the first is still being worked on. Only a
      reservation two minutes old and without an answer is taken over, and then it is
      handled and kept as a first request is. */
  lemma KnownKeyIsJudged(rows: map<Id, Row>, r: Request, hash: string, made: Record, begun: Time, ended: Time)
    requires Guarded(r) && WellFormed(r) && (r.method' + " " + r.path, r.key) in rows
    ensures var id := (r.method' + " " + r.path, r.key);
      var row, served := rows[id], Served(rows, r, hash, made, begun, ended);
      var finished := row.completedAt.Some? && row.answer.Some?;
      && (row.requestHash != hash ==> served == (rows, Refused(KeyReuse)))
      && (row.requestHash == hash && finished ==> served == (rows, FromStore(row.answer.value)))
      && (row.requestHash == hash && !finished && begun - row.reservedAt < 120_000_000_000 ==>
           served == (rows, Refused(InProgress)))
      && (row.requestHash == hash && !finished && begun - row.reservedAt >= 120_000_000_000 ==>
           && served.1 == Handled(made)
           && (made.statusCode < 500 ==> served.0 == rows[id := Row(hash, Some(made), begun, Some(ended))])
           && (made.statusCode >= 500 && row.completedAt.None? ==> served.0 == rows - {id})
           && (made.statusCode >= 500 && row.completedAt.Some? ==> served.0 == rows[id := row.(reservedAt := begun)]))
  {
    WellFormedIff(r);
    var id := (r.method' + " " + r.path, r.key);
    assert rows[id := rows[id].(reservedAt := begun)] - {id} == rows - {id};
  }

  /** Whatever the table holds: once a request under a key was handled, sending it
      again gets the same answer and runs nothing; unless the answer was a failure
      of the server, after which it runs again. (The one row that would stop it is
      one with a completion time and no answer, which nothing writes.) */
  lemma RepeatIsReplayed(rows: map<Id, Row>, r: Request, hash: string, first: Record, second: Record,
                         begun: Time, ended: Time, begun': Time, ended': Time)
    requires r.key != "" && IsWrite(r.method') && Served(rows, r, hash, first, begun, ended).1.Handled?
    ensures var rows1 := Served(rows, r, hash, first, begun, ended).0;
      var (rows2, answer) := Served(rows1, r, hash, second, begun', ended');
      var id := (r.method' + " " + r.path, r.key);
      if first.statusCode < INTERNAL_SERVER_ERROR then answer == FromStore(first) && rows2 == rows1
      else (id in rows && rows[id].completedAt.Some?) || answer == Handled(second)
  {
    var id := (r.method' + " " + r.path, r.key);
    var reserved := Reserving(rows, id, hash, begun, false).0;
    assert id in reserved && reserved[id].requestHash == hash;
  }

  // ---- Runs ----------------------------------------------------------------------

  /** A request whose handler is at work. */
  datatype Run = Run(id: Id, hash: string, startedAt: Time)

  datatype State = State(rows: map<Id, Row>, clock: Time, running: map<nat, Run>)

  datatype Step =
    | Ask(run: nat, id: Id, hash: string, beaten: bool)   // a request reserves its key
    | End(run: nat, record: Record)         // its handler answers
    | Crash(run: nat)                       // the process dies with the run in it
    | Clean(age: Time)                      // retention

  datatype Timed = Timed(now: Time, step: Step)

  predicate Possible(s: State, e: Timed) {
    && s.clock <= e.now
    && match e.step
       case Ask(run, id, _, beaten) => run !in s.running && (beaten ==> id in s.rows)
       case End(run, _) => run in s.running
       case Crash(run) => run in s.running
       case Clean(_) => true
  }

  /** Every run in progress is younger than the age at which its key is taken over. */
  ghost predicate Punctual(s: State, now: Time) {
    forall r :: r in s.running ==> now - s.running[r].startedAt < STALE_RESERVATION_AGE
  }

  function Next(s: State, e: Timed): State
    requires Possible(s, e)
  {
    match e.step
    case Ask(run, id, hash, beaten) =>
      var (rows, outcome) := Reserving(s.rows, id, hash, e.now, beaten);
      State(rows, e.now, if outcome.Granted? then s.running[run := Run(id, hash, e.now)] else s.running)
    case End(run, record) => State(Finish(s.rows, s.running[run].id, record, e.now), e.now, s.running - {run})
    case Crash(run) => State(s.rows, e.now, s.running - {run})
    case Clean(age) => State(WithoutOld(s.rows, age, e.now), e.now, s.running)
  }

  const START := State(map[], 0, map[])

  ghost predicate Behaviour(run: seq<State>, events: seq<Timed>) {
    && |run| == |events| + 1
    && run[0] == START
    && forall i :: 0 <= i < |events| ==>
         Possible(run[i], events[i]) && Punctual(run[i], events[i].now) && run[i + 1] == Next(run[i], events[i])
  }

  /** The row of a run in progress is its own reservation. */
  ghost predicate Reserves(s: State, r: nat)
    requires r in s.running
  {
    var run := s.running[r];
    run.id in s.rows && s.rows[run.id] == Row(run.hash, None, run.startedAt, None)
  }

  ghost predicate RunsReserve(s: State) {
    forall r :: r in s.running ==> Reserves(s, r)
  }

  ghost predicate Alone(s: State) {
    forall a, b :: a in s.running && b in s.running && s.running[a].id == s.running[b].id ==> a == b
  }

  ghost predicate RowsWhole(s: State) {
    forall id :: id in s.rows ==> (s.rows[id].answer.Some? <==> s.rows[id].completedAt.Some?)
  }

  ghost predicate Inv(s: State) {
    RunsReserve(s) && Alone(s) && RowsWhole(s)
  }

  /** What the row of a run in progress answers to the same request. */
  lemma SecondRunInState(s: State, r: nat, now: Time)
    requires Inv(s) && r in s.running
    ensures s.running[r].id in s.rows
    ensures Reserving(s.rows, s.running[r].id, s.running[r].hash, now, false).1.Granted?
       <==> now - s.running[r].startedAt >= STALE_RESERVATION_AGE
  {
    assert Reserves(s, r);
  }

  lemma AskKeepsInv(s: State, e: Timed)
    requires Inv(s) && Possible(s, e) && Punctual(s, e.now) && e.step.Ask?
    ensures Inv(Next(s, e))
  {
    var s', id := Next(s, e), e.step.id;
    forall r | r in s.running ensures Reserves(s, r)
      && (s.running[r].id == id ==> !Reserving(s.rows, id, e.step.hash, e.now, e.step.beaten).1.Granted?)
    {
      assert Reserves(s, r);
    }
    forall r | r in s'.running ensures Reserves(s', r) {
      if r in s.running {
        assert s'.running[r] == s.running[r];
      }
    }
  }

  lemma EndKeepsInv(s: State, e: Timed)
    requires Inv(s) && Possible(s, e) && (e.step.End? || e.step.Crash?)
    ensures Inv(Next(s, e))
  {
    var s' := Next(s, e);
    forall r | r in s'.running ensures Reserves(s', r) {
      assert Reserves(s, r);
      assert s.running[r].id != s.running[e.step.run].id;
    }
  }

  lemma StepKeepsInv(s: State, e: Timed)
    requires Inv(s) && Possible(s, e) && Punctual(s, e.now)
    ensures Inv(Next(s, e))
  {
    match e.step
    case Ask(_, _, _, _) => AskKeepsInv(s, e);
    case End(_, _) => EndKeepsInv(s, e);
    case Crash(_) => EndKeepsInv(s, e);
    case Clean(_) =>
      forall r | r in s.running ensures Reserves(Next(s, e), r) {
        assert Reserves(s, r);
      }
  }

  lemma {:induction false} EveryStateIsInv(run: seq<State>, events: seq<Timed>, i: nat)
    requires Behaviour(run, events) && i < |run|
    ensures Inv(run[i])
  {
    if i > 0 {
      EveryStateIsInv(run, events, i - 1);
      StepKeepsInv(run[i - 1], events[i - 1]);
    }
  }

  /** In every reachable state at most one run per key is in progress. */
  lemma OneRunInProgress(run: seq<State>, events: seq<Timed>, i: nat, a: nat, b: nat)
    requires Behaviour(run, events) && i < |run| && a in run[i].running && b in run[i].running
    requires run[i].running[a].id == run[i].running[b].id
    ensures a == b
  {
    EveryStateIsInv(run, events, i);
  }

  /** In every reachable state: beside a run in progress a second one of the same
      request would start exactly once the first is as old as the age at which its
      key is taken over. So that runs end in time is not only enough, it is needed. */
  lemma SecondRunIff(run: seq<State>, events: seq<Timed>, i: nat, r: nat, now: Time)
    requires Behaviour(run, events) && i < |run| && r in run[i].running
    ensures var mine := run[i].running[r];
      Reserving(run[i].rows, mine.id, mine.hash, now, false).1.Granted? <==> now - mine.startedAt >= STALE_RESERVATION_AGE
  {
    EveryStateIsInv(run, events, i);
    SecondRunInState(run[i], r, now);
  }

  /** Event i ends a run with an answer that is kept. */
  ghost predicate Completes(run: seq<State>, events: seq<Timed>, i: nat)
    requires |run| == |events| + 1 && i < |events|
  {
    && events[i].step.End?
    && events[i].step.record.statusCode < INTERNAL_SERVER_ERROR
    && events[i].step.run in run[i].running
  }

  /** Between two events, retention never counted from after event i's answer. */
  ghost predicate NotForgotten(events: seq<Timed>, i: nat, j: nat)
    requires i < j <= |events|
  {
    forall k :: i < k < j && events[k].step.Clean? ==> !(events[i].now < events[k].now - events[k].step.age)
  }

  lemma CompletedRowStands(s: State, e: Timed, id: Id)
    requires Inv(s) && Possible(s, e) && Punctual(s, e.now)
    requires id in s.rows && s.rows[id].answer.Some? && s.rows[id].completedAt.Some?
    requires e.step.Clean? ==> !Old(s.rows[id], e.step.age, e.now)
    ensures id in Next(s, e).rows && Next(s, e).rows[id] == s.rows[id]
  {
    if e.step.End? {
      assert Reserves(s, e.step.run);
    }
  }

  /** From the moment a run completes until retention removes its key, the row
      holds its request and its answer. */
  lemma {:induction false} AnswerStands(run: seq<State>, events: seq<Timed>, i: nat, j: nat)
    requires Behaviour(run, events) && i < j < |run| && Completes(run, events, i) && NotForgotten(events, i, j)
    ensures var mine, record := run[i].running[events[i].step.run], events[i].step.record;
      && mine.id in run[j].rows
      && run[j].rows[mine.id] == Row(mine.hash, Some(record), mine.startedAt, Some(events[i].now))
    decreases j
  {
    EveryStateIsInv(run, events, j - 1);
    if i == j - 1 {
      assert Reserves(run[i], events[i].step.run);
    } else {
      AnswerStands(run, events, i, j - 1);
      CompletedRowStands(run[j - 1], events[j - 1], run[i].running[events[i].step.run].id);
    }
  }

  /** Until then the same request gets that status and body, and another request
      under the key is refused; one that was beaten to the key while the first ran
      is told that it is in progress. */
  lemma LaterRequestsGetTheAnswer(run: seq<State>, events: seq<Timed>, i: nat, j: nat)
    requires Behaviour(run, events) && i < j < |events| && Completes(run, events, i) && NotForgotten(events, i, j)
    requires events[j].step.Ask? && events[j].step.id == run[i].running[events[i].step.run].id
    ensures Reserving(run[j].rows, events[j].step.id, events[j].step.hash, events[j].now, events[j].step.beaten)
         == (run[j].rows, if events[j].step.beaten then InProgress
                          else if events[j].step.hash == run[i].running[events[i].step.run].hash
                          then Replayed(events[i].step.record) else KeyReuse)
  {
    AnswerStands(run, events, i, j);
  }

  /** And no second run of the key ends with an answer that is kept. */
  lemma AtMostOneCompletes(run: seq<State>, events: seq<Timed>, i: nat, j: nat)
    requires Behaviour(run, events) && i < j < |events| && Completes(run, events, i) && NotForgotten(events, i, j)
    ensures Completes(run, events, j) ==>
      run[j].running[events[j].step.run].id != run[i].running[events[i].step.run].id
  {
    AnswerStands(run, events, i, j);
    EveryStateIsInv(run, events, j);
    if Completes(run, events, j) {
      assert Reserves(run[j], events[j].step.run);
    }
  }

  // ---- What an overrun does --------------------------------------------------------

  ghost predicate Path(run: seq<State>, events: seq<Timed>) {
    && |run| == |events| + 1
    && run[0] == START
    && forall i :: 0 <= i < |events| ==> Possible(run[i], events[i]) && run[i + 1] == Next(run[i], events[i])
  }

  lemma {:induction false} PathIsWhole(run: seq<State>, events: seq<Timed>, i: nat)
    requires Path(run, events) && i < |run|
    ensures RowsWhole(run[i])
  {
    if i > 0 {
      PathIsWhole(run, events, i - 1);
    }
  }

  /** Even then a key that was completed stays completed for its own request until
      retention: a late failure releases nothing and no other request takes it. */
  lemma {:induction false} CompletedKeyStays(run: seq<State>, events: seq<Timed>, i: nat, j: nat, id: Id)
    requires Path(run, events) && i <= j < |run|
    requires id in run[i].rows && run[i].rows[id].completedAt.Some?
    requires forall k :: i <= k < j ==> !events[k].step.Clean?
    ensures id in run[j].rows && run[j].rows[id].completedAt.Some?
    ensures run[j].rows[id].requestHash == run[i].rows[id].requestHash
    decreases j
  {
    if i < j {
      CompletedKeyStays(run, events, i, j - 1, id);
      PathIsWhole(run, events, j - 1);
    }
  }

  /** A run that takes two minutes is joined by a second one; both end with an
      answer, and the second answer replaces the first. */
  lemma OverrunRunsTwice(id: Id, hash: string, a: Record, b: Record)
    returns (run: seq<State>, events: seq<Timed>)
    requires a.statusCode < INTERNAL_SERVER_ERROR && b.statusCode < INTERNAL_SERVER_ERROR
    ensures Path(run, events) && |events| == 4
    ensures Completes(run, events, 2) && Completes(run, events, 3) && NotForgotten(events, 2, 3)
    ensures run[2].running[events[2].step.run].id == run[3].running[events[3].step.run].id == id
    ensures id in run[4].rows && run[4].rows[id].answer == Some(b)
  {
    var stale := STALE_RESERVATION_AGE;
    var e0, e1 := Timed(0, Ask(0, id, hash, false)), Timed(stale, Ask(1, id, hash, false));
    var e2, e3 := Timed(stale, End(0, a)), Timed(stale, End(1, b));
    var s1 := Next(START, e0);
    var s2 := Next(s1, e1);
    var s3 := Next(s2, e2);
    run := [START, s1, s2, s3, Next(s3, e3)];
    events := [e0, e1, e2, e3];
  }
}
