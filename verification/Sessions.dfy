/** Refresh tokens and the sessions they form:
    backend/internal/identity/store.go and service.go. Times are in nanoseconds;
    tokens are known by the hash that is stored. */
module Sessions {
  import opened Common

  type Hash = string

  datatype Token = Token(user: Uuid, family: Uuid, expiresAt: Time, usedAt: Option<Time>, revokedAt: Option<Time>)

  /** The rows of `users` and `refresh_tokens`; a hash is unique. */
  datatype Tables = Tables(users: set<Uuid>, tokens: map<Hash, Token>)

  datatype Error =
    | InvalidToken
    | AlreadyRotated   // an invalid token, "token_already_rotated"
    | ReuseDetected    // an invalid token, "token_reuse_detected"
    | InvalidCredentials
    | UserNotFound
    | DatabaseError

  const SECOND := 1_000_000_000
  const DAY := 86_400 * SECOND
  const REUSE_GRACE_PERIOD := 15 * SECOND
  const REFRESH_TOKEN_TTL := 7 * DAY
  const RETENTION := 30 * DAY

  // ---- What each statement does to the tables ------------------------------------

  /** Inserting a token: its user exists, its hash is new, it outlives its issue. */
  predicate CanInsert(t: Tables, user: Uuid, hash: Hash, expiresAt: Time, now: Time) {
    user in t.users && hash !in t.tokens && expiresAt > now
  }

  function Issue(t: Tables, user: Uuid, family: Uuid, hash: Hash, expiresAt: Time): Tables {
    t.(tokens := t.tokens[hash := Token(user, family, expiresAt, None, None)])
  }

  function RevokedToken(token: Token, now: Time): Token {
    if token.revokedAt.None? then token.(revokedAt := Some(now)) else token
  }

  function RevokeFamily(t: Tables, family: Uuid, now: Time): Tables {
    t.(tokens := map h | h in t.tokens ::
      if t.tokens[h].family == family then RevokedToken(t.tokens[h], now) else t.tokens[h])
  }

  function RevokeUser(t: Tables, user: Uuid, now: Time): Tables {
    t.(tokens := map h | h in t.tokens ::
      if t.tokens[h].user == user then RevokedToken(t.tokens[h], now) else t.tokens[h])
  }

  function DropExpired(t: Tables, now: Time): Tables {
    t.(tokens := map h | h in t.tokens && !(t.tokens[h].expiresAt < now - RETENTION) :: t.tokens[h])
  }

  /** Deleting an account takes its tokens along. */
  function DropUser(t: Tables, user: Uuid): Tables {
    Tables(t.users - {user}, map h | h in t.tokens && t.tokens[h].user != user :: t.tokens[h])
  }

  /** Marking a token used and storing the next one, in one transaction. */
  function Exchange(t: Tables, presented: Hash, next: Hash, expiresAt: Time, now: Time): Tables
    requires presented in t.tokens
  {
    var stored := t.tokens[presented];
    Issue(t.(tokens := t.tokens[presented := stored.(usedAt := Some(now))]),
          stored.user, stored.family, next, expiresAt)
  }

  /** RotateRefreshToken, with the tables it leaves and what it answers. */
  function Rotate(t: Tables, presented: Hash, next: Hash, expiresAt: Time, now: Time): (Tables, Result<Uuid, Error>) {
    if presented !in t.tokens then (t, Err(InvalidToken))
    else
      var stored := t.tokens[presented];
      if stored.usedAt.Some? then
        if stored.revokedAt.None? && now - stored.usedAt.value <= REUSE_GRACE_PERIOD then (t, Err(AlreadyRotated))
        else (RevokeFamily(t, stored.family, now), Err(ReuseDetected))
      else if stored.revokedAt.Some? || stored.expiresAt < now then (t, Err(InvalidToken))
      else if next in t.tokens || expiresAt <= now then (t, Err(DatabaseError))
      else if stored.user !in t.users then (t, Err(InvalidToken))
      else (Exchange(t, presented, next, expiresAt, now), Ok(stored.user))
  }

  function SignOut(t: Tables, presented: Hash, now: Time): Tables {
    if presented in t.tokens then RevokeFamily(t, t.tokens[presented].family, now) else t
  }

  // ---- What they say, row by row --------------------------------------------------

  /** The row of a token after the tokens like it were revoked: a token keeps the moment
      it was first revoked. */
  ghost predicate RevokedIf(like: bool, before: Token, after: Token, now: Time) {
    after == if like && before.revokedAt == None
             then Token(before.user, before.family, before.expiresAt, before.usedAt, Some(now)) else before
  }

  /** Signing out revokes exactly the tokens of the session of the token presented, and
      an unknown token none; revoking a user revokes exactly the tokens of the user. */
  lemma RevokingMarksExactly(t: Tables, presented: Hash, user: Uuid, now: Time)
    ensures var out, all := SignOut(t, presented, now), RevokeUser(t, user, now);
      && out.users == all.users == t.users && out.tokens.Keys == all.tokens.Keys == t.tokens.Keys
      && forall h :: h in t.tokens ==>
           && RevokedIf(presented in t.tokens && t.tokens[h].family == t.tokens[presented].family,
                        t.tokens[h], out.tokens[h], now)
           && RevokedIf(t.tokens[h].user == user, t.tokens[h], all.tokens[h], now)
  {
  }

  /** A token is exchanged exactly when it is stored, was neither exchanged nor revoked
      and has not expired, its account is there and the next token can be stored; then
      it is stamped and the next one joins its family. */
  lemma RotationIff(t: Tables, presented: Hash, next: Hash, expiresAt: Time, now: Time)
    ensures var (after, result) := Rotate(t, presented, next, expiresAt, now);
      var good := presented in t.tokens && t.tokens[presented].usedAt == None && t.tokens[presented].revokedAt == None
        && now <= t.tokens[presented].expiresAt;
      && (result.Ok? <==> good && t.tokens[presented].user in t.users && next !in t.tokens && expiresAt > now)
      && (result == Err(DatabaseError) <==> good && (next in t.tokens || expiresAt <= now))
      && (result.Err? && result.error != ReuseDetected ==> after == t)
      && (result.Ok? ==>
           var old_ := t.tokens[presented];
           && result.value == old_.user
           && after == Tables(t.users, t.tokens[presented := Token(old_.user, old_.family, old_.expiresAt, Some(now), None)]
                                              [next := Token(old_.user, old_.family, expiresAt, None, None)]))
  {
  }

  /** A token that was exchanged before is a harmless repeat within fifteen seconds of a
      session that goes on, and otherwise a sign of theft, which revokes its family;
      every other token that cannot be exchanged is merely invalid. */
  lemma ReplaysToldApart(t: Tables, presented: Hash, next: Hash, expiresAt: Time, now: Time)
    ensures var (after, result) := Rotate(t, presented, next, expiresAt, now);
      var spent := presented in t.tokens && t.tokens[presented].usedAt.Some?;
      var repeat_ := spent && t.tokens[presented].revokedAt == None && now - t.tokens[presented].usedAt.value <= 15_000_000_000;
      && (result == Err(AlreadyRotated) <==> repeat_)
      && (result == Err(ReuseDetected) <==> spent && !repeat_)
      && (result.Err? ==> result.error in {AlreadyRotated, ReuseDetected, InvalidToken, DatabaseError})
      && (result == Err(ReuseDetected) ==>
           && after.users == t.users && after.tokens.Keys == t.tokens.Keys
           && forall h :: h in t.tokens ==>
                RevokedIf(t.tokens[h].family == t.tokens[presented].family, t.tokens[h], after.tokens[h], now))
  {
  }

  // ---- The store and the service -------------------------------------------------

  class Store {
    var users: set<Uuid>
    var tokens: map<Hash, Token>

    ghost function Rows(): Tables
      reads this
    {
      Tables(users, tokens)
    }

    constructor ()
      ensures Rows() == Tables({}, map[])
    {
      users, tokens := {}, map[];
    }

    method StoreRefreshToken(user: Uuid, family: Uuid, hash: Hash, expiresAt: Time, now: Time)
      returns (stored: bool)
      modifies this
      ensures stored <==> user in old(users) && hash !in old(tokens) && expiresAt > now
      ensures Rows() == if stored then Tables(old(users), old(tokens)[hash := Token(user, family, expiresAt, None, None)])
                        else old(Rows())
    {
      if user !in users || hash in tokens || expiresAt <= now {
        return false;
      }
      tokens := tokens[hash := Token(user, family, expiresAt, None, None)];
      stored := true;
    }

    method RevokeFamilyTx(family: Uuid, now: Time)
      modifies this
      ensures Rows() == RevokeFamily(old(Rows()), family, now)
    {
      tokens := map h | h in tokens ::
        if tokens[h].family == family && tokens[h].revokedAt.None?
        then tokens[h].(revokedAt := Some(now)) else tokens[h];
    }

    /** One transaction: an early return leaves through the rollback. */
    method RotateRefreshToken(presented: Hash, next: Hash, expiresAt: Time, now: Time)
      returns (result: Result<Uuid, Error>)
      modifies this
      ensures (Rows(), result) == Rotate(old(Rows()), presented, next, expiresAt, now)
    {
      var before := tokens;
      if presented !in tokens {
        return Err(InvalidToken);
      }
      var stored := tokens[presented];
      if stored.usedAt.Some? {
        if stored.revokedAt.None? && now - stored.usedAt.value <= REUSE_GRACE_PERIOD {
          return Err(AlreadyRotated);
        }
        RevokeFamilyTx(stored.family, now);
        return Err(ReuseDetected);
      }
      if stored.revokedAt.Some? || stored.expiresAt < now {
        return Err(InvalidToken);
      }
      tokens := tokens[presented := stored.(usedAt := Some(now))];
      var inserted := next !in tokens && expiresAt > now;
      if inserted {
        tokens := tokens[next := Token(stored.user, stored.family, expiresAt, None, None)];
      }
      if !inserted || stored.user !in users {
        tokens := before;
        return Err(if !inserted then DatabaseError else InvalidToken);
      }
      result := Ok(stored.user);
    }

    method RevokeRefreshToken(presented: Hash, now: Time)
      modifies this
      ensures Rows() == SignOut(old(Rows()), presented, now)
    {
      if presented in tokens {
        RevokeFamilyTx(tokens[presented].family, now);
      }
    }

    method RevokeAllForUser(user: Uuid, now: Time)
      modifies this
      ensures Rows() == RevokeUser(old(Rows()), user, now)
    {
      tokens := map h | h in tokens ::
        if tokens[h].user == user && tokens[h].revokedAt.None?
        then tokens[h].(revokedAt := Some(now)) else tokens[h];
    }

    method DeleteUser(user: Uuid) returns (found: bool)
      modifies this
      ensures found <==> user in old(users)
      ensures Rows() == if found then DropUser(old(Rows()), user) else old(Rows())
      ensures found ==>
        && users == old(users) - {user}
        && tokens == map h | h in old(tokens) && old(tokens)[h].user != user :: old(tokens)[h]
    {
      found := user in users;
      if found {
        users := users - {user};
        tokens := map h | h in tokens && tokens[h].user != user :: tokens[h];
      }
    }

    method DeleteExpiredTokens(now: Time) returns (removed: nat)
      modifies this
      ensures Rows() == DropExpired(old(Rows()), now)
      ensures tokens == map h | h in old(tokens) && old(tokens)[h].expiresAt >= now - 2_592_000_000_000_000 :: old(tokens)[h]
      ensures removed == |old(tokens)| - |tokens|
    {
      var kept := map h | h in tokens && !(tokens[h].expiresAt < now - RETENTION) :: tokens[h];
      assert kept.Keys <= tokens.Keys;
      SubsetIsNoLarger(kept.Keys, tokens.Keys);
      removed := |tokens| - |kept|;
      tokens := kept;
    }

    /** Refresh: a token that is not there is refused before the store is asked. */
    method Refresh(token: string, hash: string -> Hash, fresh': Hash, now: Time) returns (result: Result<Uuid, Error>)
      modifies this
      ensures (Rows(), result)
           == if token == "" then (old(Rows()), Err(InvalidToken))
              else Rotate(old(Rows()), hash(token), fresh', now + 604_800_000_000_000, now)
    {
      if token == "" {
        return Err(InvalidToken);
      }
      result := RotateRefreshToken(hash(token), fresh', now + REFRESH_TOKEN_TTL, now);
    }

    method Logout(token: string, hash: string -> Hash, now: Time)
      modifies this
      ensures Rows() == if token == "" then old(Rows()) else SignOut(old(Rows()), hash(token), now)
    {
      if token != "" {
        RevokeRefreshToken(hash(token), now);
      }
    }

    /** Two transactions: the sessions end, then the account goes. */
    method DeleteAccount(user: Uuid, passwordMatches: bool, now: Time) returns (error: Option<Error>)
      modifies this
      ensures error == if user !in old(users) then Some(UserNotFound)
                       else if !passwordMatches then Some(InvalidCredentials) else None
      ensures Rows() == if error.Some? then old(Rows()) else DropUser(RevokeUser(old(Rows()), user, now), user)
      ensures error.None? ==>
        && users == old(users) - {user}
        && tokens == map h | h in old(tokens) && old(tokens)[h].user != user :: old(tokens)[h]
    {
      if user !in users {
        return Some(UserNotFound);
      }
      if !passwordMatches {
        return Some(InvalidCredentials);
      }
      RevokeAllForUser(user, now);
      var _ := DeleteUser(user);
      error := None;
    }
  }

  // ---- Runs ----------------------------------------------------------------------

  /** A token as it was handed out, and a session as the list of them. */
  datatype Link = Link(hash: Hash, issuedAt: Time, expiresAt: Time)

  datatype Session = Session(owner: Uuid, chain: seq<Link>, ended: bool)

  datatype Place = Place(family: Uuid, index: nat)

  /** The tables and the clock; and as history every session there ever was, by
      family, and where in it each hash ever issued stands. */
  datatype State = State(db: Tables, clock: Time, sessions: map<Uuid, Session>, issued: map<Hash, Place>)

  datatype Step =
    | SignUp(user: Uuid)
    | SignIn(user: Uuid, family: Uuid, hash: Hash)
    | Refresh(presented: Hash, next: Hash)
    | Logout(presented: Hash)
    | RevokeAll(user: Uuid)
    | DeleteUser(user: Uuid)
    | DeleteExpired

  datatype Timed = Timed(now: Time, step: Step)

  /** Time does not run backwards, and what is drawn at random is new. */
  predicate Enabled(s: State, e: Timed) {
    && s.clock <= e.now
    && match e.step
       case SignUp(user) => user !in s.db.users
       case SignIn(_, family, hash) => family !in s.sessions && hash !in s.issued
       case Refresh(_, next) => next !in s.issued
       case _ => true
  }

  function Answer(s: State, e: Timed): (Tables, Result<Uuid, Error>)
    requires e.step.Refresh?
  {
    Rotate(s.db, e.step.presented, e.step.next, e.now + REFRESH_TOKEN_TTL, e.now)
  }

  predicate Exchanges(s: State, e: Timed) {
    e.step.Refresh? && Answer(s, e).1.Ok?
  }

  function End(sessions: map<Uuid, Session>, family: Uuid): map<Uuid, Session> {
    if family in sessions then sessions[family := sessions[family].(ended := true)] else sessions
  }

  function EndOf(sessions: map<Uuid, Session>, user: Uuid): map<Uuid, Session> {
    map f | f in sessions ::
      if sessions[f].owner == user then sessions[f].(ended := true) else sessions[f]
  }

  function Tell(s: State, db: Tables, now: Time): State {
    s.(db := db, clock := now)
  }

  /** A link joins a session: its first when it signs in, the next when a token
      is exchanged. */
  function Join(s: State, owner: Uuid, family: Uuid, link: Link): State {
    var chain := if family in s.sessions then s.sessions[family].chain else [];
    s.(sessions := s.sessions[family := Session(owner, chain + [link], false)],
       issued := s.issued[link.hash := Place(family, |chain|)])
  }

  function Next(s: State, e: Timed): State {
    var now := e.now;
    match e.step
    case SignUp(user) => Tell(s, s.db.(users := s.db.users + {user}), now)
    case SignIn(user, family, hash) =>
      if !CanInsert(s.db, user, hash, now + REFRESH_TOKEN_TTL, now) then Tell(s, s.db, now)
      else Join(Tell(s, Issue(s.db, user, family, hash, now + REFRESH_TOKEN_TTL), now),
                user, family, Link(hash, now, now + REFRESH_TOKEN_TTL))
    case Refresh(presented, next) =>
      var (db, result) := Answer(s, e);
      var s' := Tell(s, db, now);
      if result.Ok? then
        Join(s', result.value, s.db.tokens[presented].family, Link(next, now, now + REFRESH_TOKEN_TTL))
      else if result.error.ReuseDetected? then s'.(sessions := End(s.sessions, s.db.tokens[presented].family))
      else s'
    case Logout(presented) =>
      var s' := Tell(s, SignOut(s.db, presented, now), now);
      if presented in s.db.tokens then s'.(sessions := End(s.sessions, s.db.tokens[presented].family)) else s'
    case RevokeAll(user) => Tell(s, RevokeUser(s.db, user, now), now).(sessions := EndOf(s.sessions, user))
    case DeleteUser(user) => Tell(s, DropUser(s.db, user), now).(sessions := EndOf(s.sessions, user))
    case DeleteExpired => Tell(s, DropExpired(s.db, now), now)
  }

  const START := State(Tables({}, map[]), 0, map[], map[])

  /** A run: any steps in any order, each taken when it is enabled. */
  ghost predicate Behaviour(run: seq<State>, events: seq<Timed>) {
    && |run| == |events| + 1
    && run[0] == START
    && forall i :: 0 <= i < |events| ==> Enabled(run[i], events[i]) && run[i + 1] == Next(run[i], events[i])
  }

  // ---- Every reachable state ------------------------------------------------------

  /** A hash was issued as one link of one session, and every link was issued. */
  ghost predicate ChainsIndexed(s: State) {
    && (forall h :: h in s.issued ==> IndexedAt(s, h))
    && (forall f, i :: f in s.sessions && 0 <= i < |s.sessions[f].chain| ==>
         LinkIssued(s, f, i))
    && (forall f :: f in s.sessions ==> s.sessions[f].chain != [])
  }

  ghost predicate LinkIssued(s: State, f: Uuid, i: nat)
    requires f in s.sessions && i < |s.sessions[f].chain|
  {
    var h := s.sessions[f].chain[i].hash;
    h in s.issued && s.issued[h] == Place(f, i)
  }

  ghost predicate IndexedAt(s: State, h: Hash)
    requires h in s.issued
  {
    var p := s.issued[h];
    && p.family in s.sessions
    && p.index < |s.sessions[p.family].chain|
    && s.sessions[p.family].chain[p.index].hash == h
  }

  /** When the link at a place was exchanged: when the next one was issued. */
  function UsedAt(chain: seq<Link>, i: nat): Option<Time> {
    if i + 1 < |chain| then Some(chain[i + 1].issuedAt) else None
  }

  /** A stored row says what the history says of its link. */
  ghost predicate RowMatches(s: State, h: Hash)
    requires h in s.db.tokens
  {
    var t := s.db.tokens[h];
    && h in s.issued && IndexedAt(s, h)
    && var p, session := s.issued[h], s.sessions[s.issued[h].family];
      && t.family == p.family
      && t.user == session.owner
      && t.expiresAt == session.chain[p.index].expiresAt
      && t.usedAt == UsedAt(session.chain, p.index)
      && (t.revokedAt.Some? <==> session.ended)
      && t.user in s.db.users
  }

  ghost predicate RowsMatch(s: State) {
    forall h :: h in s.db.tokens ==> RowMatches(s, h)
  }

  /** The last token of a session that did not end is stored unless it expired. */
  ghost predicate LastIsStored(s: State, f: Uuid)
    requires f in s.sessions && s.sessions[f].chain != []
  {
    var last := s.sessions[f].chain[|s.sessions[f].chain| - 1];
    s.sessions[f].ended || last.hash in s.db.tokens || last.expiresAt < s.clock
  }

  ghost predicate LastsStored(s: State) {
    forall f :: f in s.sessions && s.sessions[f].chain != [] ==> LastIsStored(s, f)
  }

  ghost predicate Inv(s: State) {
    ChainsIndexed(s) && RowsMatch(s) && LastsStored(s)
  }

  // ---- Steps that change which sessions have ended --------------------------------

  /** Ending sessions moves no link. */
  ghost predicate SameChains(a: map<Uuid, Session>, b: map<Uuid, Session>) {
    && a.Keys == b.Keys
    && forall f :: f in a ==> b[f].owner == a[f].owner && b[f].chain == a[f].chain && (a[f].ended ==> b[f].ended)
  }

  lemma EndingKeepsIndexed(s: State, s': State)
    requires ChainsIndexed(s) && s'.issued == s.issued && SameChains(s.sessions, s'.sessions)
    ensures ChainsIndexed(s')
  {
    forall h | h in s'.issued ensures IndexedAt(s', h) {
      assert IndexedAt(s, h);
    }
    forall f, i | f in s'.sessions && 0 <= i < |s'.sessions[f].chain| ensures LinkIssued(s', f, i) {
      assert LinkIssued(s, f, i);
    }
  }

  /** The last token of a running session goes only after it expired. */
  lemma EndingKeepsLasts(s: State, s': State)
    requires LastsStored(s) && SameChains(s.sessions, s'.sessions) && s.clock <= s'.clock
    requires forall f :: f in s.sessions && s.sessions[f].chain != [] && !s'.sessions[f].ended ==>
      var h := s.sessions[f].chain[|s.sessions[f].chain| - 1].hash;
      h in s.db.tokens ==> h in s'.db.tokens || s.sessions[f].chain[|s.sessions[f].chain| - 1].expiresAt < s'.clock
    ensures LastsStored(s')
  {
    forall f | f in s'.sessions && s'.sessions[f].chain != [] ensures LastIsStored(s', f) {
      assert LastIsStored(s, f);
    }
  }

  /** Ending one session by revoking its family. */
  lemma EndFamilyKeepsInv(s: State, h: Hash, now: Time)
    requires Inv(s) && h in s.db.tokens && s.clock <= now
    ensures var f := s.db.tokens[h].family;
      Inv(Tell(s, RevokeFamily(s.db, f, now), now).(sessions := End(s.sessions, f)))
  {
    var f := s.db.tokens[h].family;
    var s' := Tell(s, RevokeFamily(s.db, f, now), now).(sessions := End(s.sessions, f));
    EndingKeepsIndexed(s, s');
    assert RowMatches(s, h);
    RevokingFamilyKeepsRows(s, s', f, now);
    EndingKeepsLasts(s, s');
  }

  lemma RevokingFamilyKeepsRows(s: State, s': State, family: Uuid, now: Time)
    requires RowsMatch(s) && family in s.sessions
    requires s' == Tell(s, RevokeFamily(s.db, family, now), now).(sessions := End(s.sessions, family))
    ensures RowsMatch(s')
  {
    forall h | h in s'.db.tokens ensures RowMatches(s', h) {
      assert RowMatches(s, h);
    }
  }

  /** Revoking the tokens of a user, or deleting them with the account. */
  lemma EndUserKeepsInv(s: State, user: Uuid, now: Time)
    requires Inv(s) && s.clock <= now
    ensures Inv(Tell(s, RevokeUser(s.db, user, now), now).(sessions := EndOf(s.sessions, user)))
    ensures Inv(Tell(s, DropUser(s.db, user), now).(sessions := EndOf(s.sessions, user)))
  {
    var revoked := Tell(s, RevokeUser(s.db, user, now), now).(sessions := EndOf(s.sessions, user));
    var dropped := Tell(s, DropUser(s.db, user), now).(sessions := EndOf(s.sessions, user));
    EndingKeepsIndexed(s, revoked);
    EndingKeepsIndexed(s, dropped);
    RevokingUserKeepsRows(s, revoked, user, now);
    DroppingUserKeepsRows(s, dropped, user);
    EndingKeepsLasts(s, revoked);
    DroppingUserKeepsLasts(s, dropped, user);
  }

  lemma RevokingUserKeepsRows(s: State, s': State, user: Uuid, now: Time)
    requires RowsMatch(s) && s' == Tell(s, RevokeUser(s.db, user, now), now).(sessions := EndOf(s.sessions, user))
    ensures RowsMatch(s')
  {
    forall h | h in s'.db.tokens ensures RowMatches(s', h) {
      assert RowMatches(s, h);
    }
  }

  lemma DroppingUserKeepsRows(s: State, s': State, user: Uuid)
    requires RowsMatch(s) && s'.issued == s.issued
    requires s'.db == DropUser(s.db, user) && s'.sessions == EndOf(s.sessions, user)
    ensures RowsMatch(s')
  {
    forall h | h in s'.db.tokens ensures RowMatches(s', h) {
      assert RowMatches(s, h);
    }
  }

  lemma DroppingUserKeepsLasts(s: State, s': State, user: Uuid)
    requires ChainsIndexed(s) && RowsMatch(s) && LastsStored(s) && s.clock <= s'.clock
    requires s'.db == DropUser(s.db, user) && s'.sessions == EndOf(s.sessions, user)
    ensures LastsStored(s')
  {
    forall f | f in s'.sessions && s'.sessions[f].chain != [] ensures LastIsStored(s', f) {
      assert LastIsStored(s, f);
      LastRow(s, f);
    }
  }

  /** What the row of the last link says, when it is stored. */
  lemma LastRow(s: State, f: Uuid)
    requires ChainsIndexed(s) && RowsMatch(s) && f in s.sessions
    ensures var last := s.sessions[f].chain[|s.sessions[f].chain| - 1];
      last.hash in s.db.tokens ==>
        && s.db.tokens[last.hash].user == s.sessions[f].owner && s.db.tokens[last.hash].family == f
        && s.db.tokens[last.hash].expiresAt == last.expiresAt && s.db.tokens[last.hash].usedAt.None?
  {
    var n := |s.sessions[f].chain| - 1;
    assert LinkIssued(s, f, n);
    if s.sessions[f].chain[n].hash in s.db.tokens {
      assert RowMatches(s, s.sessions[f].chain[n].hash);
    }
  }

  lemma RetentionKeepsInv(s: State, now: Time)
    requires Inv(s) && s.clock <= now
    ensures Inv(Tell(s, DropExpired(s.db, now), now))
  {
    var s' := Tell(s, DropExpired(s.db, now), now);
    EndingKeepsIndexed(s, s');
    forall h | h in s'.db.tokens ensures RowMatches(s', h) {
      assert RowMatches(s, h);
    }
    forall f | f in s.sessions && s.sessions[f].chain != []
      ensures var last := s.sessions[f].chain[|s.sessions[f].chain| - 1];
        last.hash in s.db.tokens ==> last.hash in s'.db.tokens || last.expiresAt < now
    {
      LastRow(s, f);
    }
    EndingKeepsLasts(s, s');
  }

  // ---- Steps that issue a token ---------------------------------------------------

  lemma JoinKeepsIndexed(s: State, owner: Uuid, family: Uuid, link: Link)
    requires ChainsIndexed(s) && link.hash !in s.issued
    ensures ChainsIndexed(Join(s, owner, family, link))
  {
    var s' := Join(s, owner, family, link);
    forall h | h in s'.issued ensures IndexedAt(s', h) {
      if h != link.hash {
        assert IndexedAt(s, h);
      }
    }
    forall f, i | f in s'.sessions && 0 <= i < |s'.sessions[f].chain| ensures LinkIssued(s', f, i) {
      if f in s.sessions && i < |s.sessions[f].chain| {
        assert LinkIssued(s, f, i);
      }
    }
  }

  lemma SignInKeepsInv(s: State, e: Timed)
    requires Inv(s) && Enabled(s, e) && e.step.SignIn?
    requires CanInsert(s.db, e.step.user, e.step.hash, e.now + REFRESH_TOKEN_TTL, e.now)
    ensures Inv(Next(s, e))
  {
    SignInKeepsIndexed(s, e);
    SignInKeepsRows(s, e);
    SignInKeepsLasts(s, e);
  }

  lemma SignInKeepsIndexed(s: State, e: Timed)
    requires ChainsIndexed(s) && Enabled(s, e) && e.step.SignIn?
    requires CanInsert(s.db, e.step.user, e.step.hash, e.now + REFRESH_TOKEN_TTL, e.now)
    ensures ChainsIndexed(Next(s, e))
  {
    var link := Link(e.step.hash, e.now, e.now + REFRESH_TOKEN_TTL);
    JoinKeepsIndexed(s, e.step.user, e.step.family, link);
    EndingKeepsIndexed(Join(s, e.step.user, e.step.family, link), Next(s, e));
  }

  lemma SignInKeepsRows(s: State, e: Timed)
    requires RowsMatch(s) && Enabled(s, e) && e.step.SignIn?
    requires CanInsert(s.db, e.step.user, e.step.hash, e.now + REFRESH_TOKEN_TTL, e.now)
    ensures RowsMatch(Next(s, e))
  {
    var s' := Next(s, e);
    forall h | h in s'.db.tokens ensures RowMatches(s', h) {
      if h in s.db.tokens {
        assert RowMatches(s, h);
      }
    }
  }

  lemma SignInKeepsLasts(s: State, e: Timed)
    requires LastsStored(s) && Enabled(s, e) && e.step.SignIn?
    requires CanInsert(s.db, e.step.user, e.step.hash, e.now + REFRESH_TOKEN_TTL, e.now)
    ensures LastsStored(Next(s, e))
  {
    var s' := Next(s, e);
    forall f | f in s'.sessions && s'.sessions[f].chain != [] ensures LastIsStored(s', f) {
      if f in s.sessions {
        assert LastIsStored(s, f);
      }
    }
  }

  /** The state after an exchange. */
  lemma Exchanged(s: State, e: Timed)
    requires Inv(s) && Enabled(s, e) && Exchanges(s, e)
    ensures CanContinue(s, e.step.presented, e.now)
    ensures var p, h := s.issued[e.step.presented], e.step.next;
      && Answer(s, e).1 == Ok(s.sessions[p.family].owner)
      && Next(s, e).db == Exchange(s.db, e.step.presented, h, e.now + REFRESH_TOKEN_TTL, e.now)
      && Next(s, e).sessions == s.sessions[p.family := s.sessions[p.family].(
           chain := s.sessions[p.family].chain + [Link(h, e.now, e.now + REFRESH_TOKEN_TTL)])]
      && Next(s, e).issued == s.issued[h := Place(p.family, p.index + 1)]
      && Next(s, e).clock == e.now
  {
    assert RowMatches(s, e.step.presented);
    ExchangeGranted(s, e);
    ExchangeJoins(s, e);
  }

  lemma ExchangeGranted(s: State, e: Timed)
    requires Exchanges(s, e)
    ensures var h := e.step.presented;
      && h in s.db.tokens && s.db.tokens[h].usedAt.None? && s.db.tokens[h].revokedAt.None?
      && e.now <= s.db.tokens[h].expiresAt
      && Answer(s, e) == (Exchange(s.db, h, e.step.next, e.now + REFRESH_TOKEN_TTL, e.now), Ok(s.db.tokens[h].user))
  {
  }

  lemma ExchangeJoins(s: State, e: Timed)
    requires Exchanges(s, e) && e.step.presented in s.db.tokens
    ensures Next(s, e) == Join(Tell(s, Answer(s, e).0, e.now), Answer(s, e).1.value,
                               s.db.tokens[e.step.presented].family, Link(e.step.next, e.now, e.now + REFRESH_TOKEN_TTL))
  {
  }

  /** A session goes on only from its last token, while it has neither ended nor
      expired. */
  ghost predicate CanContinue(s: State, h: Hash, now: Time) {
    && h in s.issued && IndexedAt(s, h)
    && var p, session := s.issued[h], s.sessions[s.issued[h].family];
      && p.index == |session.chain| - 1
      && !session.ended
      && now <= session.chain[p.index].expiresAt
  }

  lemma ExchangeKeepsRows(s: State, e: Timed)
    requires Inv(s) && Enabled(s, e) && Exchanges(s, e)
    ensures RowsMatch(Next(s, e))
  {
    Exchanged(s, e);
    var s', presented := Next(s, e), e.step.presented;
    assert RowMatches(s, presented);
    forall h | h in s'.db.tokens ensures RowMatches(s', h) {
      if h in s.db.tokens {
        assert RowMatches(s, h);
        assert IndexedAt(s, h) && IndexedAt(s, presented);
        if h != presented && s.issued[h].family == s.issued[presented].family {
          assert s.issued[h].index != s.issued[presented].index;
        }
      }
    }
  }

  lemma ExchangeKeepsIndexed(s: State, e: Timed)
    requires Inv(s) && Enabled(s, e) && Exchanges(s, e)
    ensures ChainsIndexed(Next(s, e))
  {
    Exchanged(s, e);
    var p, link := s.issued[e.step.presented], Link(e.step.next, e.now, e.now + REFRESH_TOKEN_TTL);
    JoinKeepsIndexed(s, s.sessions[p.family].owner, p.family, link);
    EndingKeepsIndexed(Join(s, s.sessions[p.family].owner, p.family, link), Next(s, e));
  }

  lemma ExchangeKeepsLasts(s: State, e: Timed)
    requires Inv(s) && Enabled(s, e) && Exchanges(s, e)
    ensures LastsStored(Next(s, e))
  {
    Exchanged(s, e);
    var s' := Next(s, e);
    forall f | f in s'.sessions && s'.sessions[f].chain != [] ensures LastIsStored(s', f) {
      if f != s.issued[e.step.presented].family {
        assert LastIsStored(s, f);
      }
    }
  }

  lemma ExchangeKeepsInv(s: State, e: Timed)
    requires Inv(s) && Enabled(s, e) && Exchanges(s, e)
    ensures Inv(Next(s, e))
  {
    ExchangeKeepsIndexed(s, e);
    ExchangeKeepsRows(s, e);
    ExchangeKeepsLasts(s, e);
  }

  lemma RefreshKeepsInv(s: State, e: Timed)
    requires Inv(s) && Enabled(s, e) && e.step.Refresh?
    ensures Inv(Next(s, e))
  {
    if Exchanges(s, e) {
      ExchangeKeepsInv(s, e);
    } else if Answer(s, e).1.error.ReuseDetected? {
      EndFamilyKeepsInv(s, e.step.presented, e.now);
      ReuseEnds(s, e);
    } else {
      RefusedChangesNothing(s, e);
      IdleKeepsInv(s, s.(clock := e.now));
    }
  }

  lemma RefusedChangesNothing(s: State, e: Timed)
    requires e.step.Refresh? && !Exchanges(s, e) && !Answer(s, e).1.error.ReuseDetected?
    ensures Next(s, e) == s.(clock := e.now)
  {
    assert Answer(s, e).0 == s.db;
  }

  lemma ReuseEnds(s: State, e: Timed)
    requires e.step.Refresh? && Answer(s, e).1 == Err(ReuseDetected)
    ensures e.step.presented in s.db.tokens
    ensures var f := s.db.tokens[e.step.presented].family;
      Next(s, e) == Tell(s, RevokeFamily(s.db, f, e.now), e.now).(sessions := End(s.sessions, f))
  {
    assert Answer(s, e).0 == RevokeFamily(s.db, s.db.tokens[e.step.presented].family, e.now);
  }

  lemma StepKeepsInv(s: State, e: Timed)
    requires Inv(s) && Enabled(s, e)
    ensures Inv(Next(s, e))
  {
    match e.step
    case SignUp(user) => IdleKeepsInv(s, Next(s, e));
    case SignIn(user, _, hash) =>
      if CanInsert(s.db, user, hash, e.now + REFRESH_TOKEN_TTL, e.now) {
        SignInKeepsInv(s, e);
      } else {
        IdleKeepsInv(s, Next(s, e));
      }
    case Refresh(_, _) => RefreshKeepsInv(s, e);
    case Logout(presented) =>
      if presented in s.db.tokens {
        EndFamilyKeepsInv(s, presented, e.now);
      } else {
        IdleKeepsInv(s, Next(s, e));
      }
    case RevokeAll(user) => EndUserKeepsInv(s, user, e.now);
    case DeleteUser(user) => EndUserKeepsInv(s, user, e.now);
    case DeleteExpired => RetentionKeepsInv(s, e.now);
  }

  /** Time passing and accounts coming change no session. */
  lemma IdleKeepsInv(s: State, s': State)
    requires Inv(s) && s'.sessions == s.sessions && s'.issued == s.issued && s.clock <= s'.clock
    requires s'.db.tokens == s.db.tokens && s.db.users <= s'.db.users
    ensures Inv(s')
  {
    EndingKeepsIndexed(s, s');
    forall h | h in s'.db.tokens ensures RowMatches(s', h) {
      assert RowMatches(s, h);
    }
    EndingKeepsLasts(s, s');
  }

  lemma {:induction false} EveryStateIsInv(run: seq<State>, events: seq<Timed>, i: nat)
    requires Behaviour(run, events) && i < |run|
    ensures Inv(run[i])
  {
    if i > 0 {
      EveryStateIsInv(run, events, i - 1);
      StepKeepsInv(run[i - 1], events[i - 1]);
    }
  }

  // ---- What one answer means ------------------------------------------------------

  /** The code looks at one row; what it decides is whether the token is the last
      of a session that may go on. Retention never changes that. */
  lemma ExchangeInState(s: State, e: Timed)
    requires Inv(s) && Enabled(s, e) && e.step.Refresh?
    ensures Exchanges(s, e) <==> CanContinue(s, e.step.presented, e.now)
    ensures Exchanges(s, e) ==> Answer(s, e).1 == Ok(s.sessions[s.issued[e.step.presented].family].owner)
  {
    var h := e.step.presented;
    if Exchanges(s, e) {
      Exchanged(s, e);
    }
    if CanContinue(s, h, e.now) {
      var f := s.issued[h].family;
      assert LastIsStored(s, f);
      assert RowMatches(s, h);
      StoredWereIssued(s);
    }
  }

  lemma StoredWereIssued(s: State)
    requires RowsMatch(s)
    ensures s.db.tokens.Keys <= s.issued.Keys
  {
    forall h | h in s.db.tokens ensures h in s.issued {
      assert RowMatches(s, h);
    }
  }

  /** A token that was exchanged before, and whose row is still there. */
  ghost predicate Spent(s: State, h: Hash) {
    && h in s.issued && h in s.db.tokens && IndexedAt(s, h)
    && s.issued[h].index + 1 < |s.sessions[s.issued[h].family].chain|
  }

  /** Spent no longer ago than the grace period, in a session that goes on. */
  ghost predicate InGrace(s: State, h: Hash, now: Time)
    requires Spent(s, h)
  {
    var session := s.sessions[s.issued[h].family];
    !session.ended && now - session.chain[s.issued[h].index + 1].issuedAt <= REUSE_GRACE_PERIOD
  }

  /** A replay is told apart by what became of the token: inside the grace period
      it changes nothing, later it ends its session. */
  lemma ReplayInState(s: State, e: Timed)
    requires Inv(s) && Enabled(s, e) && e.step.Refresh?
    ensures var h, answer, s' := e.step.presented, Answer(s, e).1, Next(s, e);
      && (answer == Err(AlreadyRotated) <==> Spent(s, h) && InGrace(s, h, e.now))
      && (answer == Err(ReuseDetected) <==> Spent(s, h) && !InGrace(s, h, e.now))
      && (answer.Err? && answer.error != ReuseDetected ==> s' == s.(clock := e.now))
      && (answer == Err(ReuseDetected) ==> s'.sessions[s.issued[h].family].ended)
  {
    if e.step.presented in s.db.tokens {
      assert RowMatches(s, e.step.presented);
    }
  }

  /** The rows of one session. */
  function RowsOf(t: Tables, family: Uuid): map<Hash, Token> {
    map h | h in t.tokens && t.tokens[h].family == family :: t.tokens[h]
  }

  /** Refreshing and signing out touch one session: every other keeps its rows,
      its links and its end. */
  lemma OthersInState(s: State, e: Timed, family: Uuid)
    requires Inv(s) && Enabled(s, e) && (e.step.Refresh? || e.step.Logout?)
    requires family in s.sessions
    requires e.step.presented in s.issued ==> s.issued[e.step.presented].family != family
    ensures RowsOf(Next(s, e).db, family) == RowsOf(s.db, family)
    ensures family in Next(s, e).sessions && Next(s, e).sessions[family] == s.sessions[family]
  {
    var h := e.step.presented;
    if Exchanges(s, e) {
      ExchangeTouchesOne(s, e, family);
    } else if h in s.db.tokens {
      assert RowMatches(s, h);
      RevokingTouchesOne(s.db, s.db.tokens[h].family, e.now, family);
    }
  }

  lemma ExchangeTouchesOne(s: State, e: Timed, family: Uuid)
    requires Inv(s) && Enabled(s, e) && Exchanges(s, e) && family in s.sessions
    requires e.step.presented in s.issued ==> s.issued[e.step.presented].family != family
    ensures RowsOf(Next(s, e).db, family) == RowsOf(s.db, family)
    ensures family in Next(s, e).sessions && Next(s, e).sessions[family] == s.sessions[family]
  {
    Exchanged(s, e);
    assert RowMatches(s, e.step.presented);
    StoredWereIssued(s);
  }

  lemma RevokingTouchesOne(t: Tables, other: Uuid, now: Time, family: Uuid)
    requires other != family
    ensures RowsOf(RevokeFamily(t, other, now), family) == RowsOf(t, family)
  {
    var a, b := RowsOf(RevokeFamily(t, other, now), family), RowsOf(t, family);
    forall h | h in t.tokens ensures h in a <==> h in b {
    }
    assert a.Keys == b.Keys;
  }

  /** Read off the rows alone: a family has one owner and at most one unused
      token, and its tokens are all revoked or none is. */
  lemma RowsInState(s: State, a: Hash, b: Hash)
    requires Inv(s) && a in s.db.tokens && b in s.db.tokens
    requires s.db.tokens[a].family == s.db.tokens[b].family
    ensures s.db.tokens[a].user == s.db.tokens[b].user
    ensures s.db.tokens[a].usedAt.None? && s.db.tokens[b].usedAt.None? ==> a == b
    ensures s.db.tokens[a].revokedAt.Some? <==> s.db.tokens[b].revokedAt.Some?
  {
    assert RowMatches(s, a) && RowMatches(s, b);
    assert IndexedAt(s, a) && IndexedAt(s, b);
  }

  // ---- Whole runs -----------------------------------------------------------------

  /** Sessions only grow at their end, and never once they ended. */
  ghost predicate Grew(s: State, s': State) {
    && (forall h :: h in s.issued ==> h in s'.issued && s'.issued[h] == s.issued[h])
    && forall f :: f in s.sessions ==> GrewAt(s, s', f)
  }

  ghost predicate GrewAt(s: State, s': State, f: Uuid)
    requires f in s.sessions
  {
    && f in s'.sessions
    && s'.sessions[f].owner == s.sessions[f].owner
    && s.sessions[f].chain <= s'.sessions[f].chain
    && (s.sessions[f].ended ==> s'.sessions[f].ended && s'.sessions[f].chain == s.sessions[f].chain)
  }

  lemma EndingGrows(s: State, s': State)
    requires s'.issued == s.issued && SameChains(s.sessions, s'.sessions)
    ensures Grew(s, s')
  {
    forall f | f in s.sessions ensures GrewAt(s, s', f) {
    }
  }

  lemma ExchangeGrows(s: State, e: Timed)
    requires Inv(s) && Enabled(s, e) && Exchanges(s, e)
    ensures Grew(s, Next(s, e))
  {
    Exchanged(s, e);
    forall f | f in s.sessions ensures GrewAt(s, Next(s, e), f) {
    }
  }

  lemma SignInGrows(s: State, e: Timed)
    requires Enabled(s, e) && e.step.SignIn?
    ensures Grew(s, Next(s, e))
  {
    forall f | f in s.sessions ensures GrewAt(s, Next(s, e), f) {
    }
  }

  lemma OthersKeepChains(s: State, e: Timed)
    requires !e.step.SignIn? && !Exchanges(s, e)
    ensures Next(s, e).issued == s.issued && SameChains(s.sessions, Next(s, e).sessions)
  {
  }

  lemma StepGrows(s: State, e: Timed)
    requires Inv(s) && Enabled(s, e)
    ensures Grew(s, Next(s, e))
  {
    if e.step.SignIn? {
      SignInGrows(s, e);
    } else if Exchanges(s, e) {
      ExchangeGrows(s, e);
    } else {
      OthersKeepChains(s, e);
      EndingGrows(s, Next(s, e));
    }
  }

  lemma EventGrows(run: seq<State>, events: seq<Timed>, k: nat)
    requires Behaviour(run, events) && k < |events|
    ensures Grew(run[k], run[k + 1])
  {
    EveryStateIsInv(run, events, k);
    StepGrows(run[k], events[k]);
  }

  lemma GrewByNothing(s: State)
    ensures Grew(s, s)
  {
    forall f | f in s.sessions ensures GrewAt(s, s, f) {
    }
  }

  /** If every state grew out of the one before it, later ones did out of earlier ones. */
  lemma {:induction false} ChainGrows(run: seq<State>, i: nat, j: nat)
    requires i <= j < |run| && forall k :: 0 < k < |run| ==> Grew(run[k - 1], run[k])
    ensures Grew(run[i], run[j])
    decreases j
  {
    if i == j {
      GrewByNothing(run[i]);
    } else {
      ChainGrows(run, i, j - 1);
      GrewTwice(run[i], run[j - 1], run[j]);
    }
  }

  lemma RunGrows(run: seq<State>, events: seq<Timed>, i: nat, j: nat)
    requires Behaviour(run, events) && i <= j < |run|
    ensures Grew(run[i], run[j])
  {
    forall k | 0 < k < |run| ensures Grew(run[k - 1], run[k]) {
      EventGrows(run, events, k - 1);
    }
    ChainGrows(run, i, j);
  }

  lemma GrewTwice(a: State, b: State, c: State)
    requires Grew(a, b) && Grew(b, c)
    ensures Grew(a, c)
  {
    forall f | f in a.sessions ensures GrewAt(a, c, f) {
      assert GrewAt(a, b, f) && GrewAt(b, c, f);
    }
  }

  /** Event k exchanges a token of this session. */
  ghost predicate ContinuesAt(run: seq<State>, events: seq<Timed>, k: nat, family: Uuid)
    requires |run| == |events| + 1 && k < |events|
  {
    && Exchanges(run[k], events[k])
    && events[k].step.presented in run[k].issued
    && run[k].issued[events[k].step.presented].family == family
  }

  /** An ended session never goes on. */
  lemma EndedForGood(run: seq<State>, events: seq<Timed>, i: nat, k: nat, family: Uuid)
    requires Behaviour(run, events) && i <= k < |events|
    requires family in run[i].sessions && run[i].sessions[family].ended
    ensures !ContinuesAt(run, events, k, family)
  {
    RunGrows(run, events, i, k);
    assert GrewAt(run[i], run[k], family);
    EveryStateIsInv(run, events, k);
    if ContinuesAt(run, events, k, family) {
      ExchangeInState(run[k], events[k]);
    }
  }

  /** A token is exchanged at most once in a whole run. */
  lemma ExchangedAtMostOnce(run: seq<State>, events: seq<Timed>, i: nat, k: nat)
    requires Behaviour(run, events) && i < k < |events|
    requires Exchanges(run[i], events[i]) && events[k].step.Refresh?
    requires events[k].step.presented == events[i].step.presented
    ensures !Exchanges(run[k], events[k])
  {
    var h := events[i].step.presented;
    ExchangeIsKept(run, events, i, k);
    EveryStateIsInv(run, events, k);
    ExchangeInState(run[k], events[k]);
  }

  /** After an exchange its token is never the last of its session again, and the
      session remembers when it happened. */
  lemma ExchangeIsKept(run: seq<State>, events: seq<Timed>, i: nat, k: nat)
    requires Behaviour(run, events) && i < k < |run| && Exchanges(run[i], events[i])
    ensures var h := events[i].step.presented;
      && h in run[i].issued && h in run[k].issued && run[k].issued[h] == run[i].issued[h]
      && var p := run[k].issued[h];
        && p.family in run[k].sessions
        && p.index + 1 < |run[k].sessions[p.family].chain|
        && run[k].sessions[p.family].chain[p.index + 1].issuedAt == events[i].now
  {
    EveryStateIsInv(run, events, i);
    Exchanged(run[i], events[i]);
    var p := run[i].issued[events[i].step.presented];
    RunGrows(run, events, i + 1, k);
    assert events[i].step.presented in run[i + 1].issued;
    assert GrewAt(run[i + 1], run[k], p.family);
    assert run[i + 1].sessions[p.family].chain[p.index + 1] == run[k].sessions[p.family].chain[p.index + 1];
  }

  /** A token that comes back more than the grace period after it was exchanged,
      while its row is still stored, ends its session: nobody continues it. */
  lemma LateReplayEndsTheSession(run: seq<State>, events: seq<Timed>, i: nat, j: nat, k: nat)
    requires Behaviour(run, events) && i < j < k < |events| && Exchanges(run[i], events[i])
    requires events[j].step.Refresh? && events[j].step.presented == events[i].step.presented
    requires events[j].step.presented in run[j].db.tokens
    requires events[j].now - events[i].now > REUSE_GRACE_PERIOD
    ensures events[i].step.presented in run[i].issued
    ensures !ContinuesAt(run, events, k, run[i].issued[events[i].step.presented].family)
  {
    ExchangeIsKept(run, events, i, j);
    EveryStateIsInv(run, events, j);
    assert RowMatches(run[j], events[j].step.presented);
    ReplayInState(run[j], events[j]);
    EveryStateIsInv(run, events, j + 1);
    EndedForGood(run, events, j + 1, k, run[i].issued[events[i].step.presented].family);
  }

  /** Signing out with any stored token of a session ends it for good. */
  lemma LogoutEndsTheSession(run: seq<State>, events: seq<Timed>, j: nat, k: nat)
    requires Behaviour(run, events) && j < k < |events|
    requires events[j].step.Logout? && events[j].step.presented in run[j].db.tokens
    ensures !ContinuesAt(run, events, k, run[j].db.tokens[events[j].step.presented].family)
  {
    EveryStateIsInv(run, events, j);
    assert RowMatches(run[j], events[j].step.presented);
    EndedForGood(run, events, j + 1, k, run[j].db.tokens[events[j].step.presented].family);
  }

  // ---- The same, for the states of a run ---------------------------------------------

  /** In every run a token is exchanged exactly when it is the last of a session
      that neither ended nor expired, whatever retention removed; and then the
      session is its owner's still. */
  lemma ExchangeIff(run: seq<State>, events: seq<Timed>, k: nat)
    requires Behaviour(run, events) && k < |events| && events[k].step.Refresh?
    ensures var s, e := run[k], events[k];
      && (Exchanges(s, e) <==> CanContinue(s, e.step.presented, e.now))
      && (Exchanges(s, e) ==> Answer(s, e).1 == Ok(s.sessions[s.issued[e.step.presented].family].owner))
  {
    EveryStateIsInv(run, events, k);
    ExchangeInState(run[k], events[k]);
  }

  /** In every run a token that was spent and comes back is told apart by when:
      inside the grace period of a running session it changes nothing, and
      otherwise it ends its session. */
  lemma ReplayIff(run: seq<State>, events: seq<Timed>, k: nat)
    requires Behaviour(run, events) && k < |events| && events[k].step.Refresh?
    ensures var s, e := run[k], events[k];
      var h, answer := e.step.presented, Answer(s, e).1;
      && (answer == Err(AlreadyRotated) <==> Spent(s, h) && InGrace(s, h, e.now))
      && (answer == Err(ReuseDetected) <==> Spent(s, h) && !InGrace(s, h, e.now))
      && (answer.Err? && answer.error != ReuseDetected ==> run[k + 1] == s.(clock := e.now))
      && (answer == Err(ReuseDetected) ==> run[k + 1].sessions[s.issued[h].family].ended)
  {
    EveryStateIsInv(run, events, k);
    ReplayInState(run[k], events[k]);
  }

  /** In every run refreshing and signing out touch one session: every other keeps
      its rows, its links and its end. */
  lemma OthersUntouched(run: seq<State>, events: seq<Timed>, k: nat, family: Uuid)
    requires Behaviour(run, events) && k < |events| && (events[k].step.Refresh? || events[k].step.Logout?)
    requires family in run[k].sessions
    requires events[k].step.presented in run[k].issued ==> run[k].issued[events[k].step.presented].family != family
    ensures RowsOf(run[k + 1].db, family) == RowsOf(run[k].db, family)
    ensures family in run[k + 1].sessions && run[k + 1].sessions[family] == run[k].sessions[family]
  {
    EveryStateIsInv(run, events, k);
    OthersInState(run[k], events[k], family);
  }

  /** In every reachable state, read off the rows alone: a family has one owner and
      at most one unused token, and its tokens are all revoked or none is. */
  lemma RowsOfOneFamilyAgree(run: seq<State>, events: seq<Timed>, k: nat, a: Hash, b: Hash)
    requires Behaviour(run, events) && k < |run| && a in run[k].db.tokens && b in run[k].db.tokens
    requires run[k].db.tokens[a].family == run[k].db.tokens[b].family
    ensures var x, y := run[k].db.tokens[a], run[k].db.tokens[b];
      && x.user == y.user
      && (x.usedAt.None? && y.usedAt.None? ==> a == b)
      && (x.revokedAt.Some? <==> y.revokedAt.Some?)
  {
    EveryStateIsInv(run, events, k);
    RowsInState(run[k], a, b);
  }
}
