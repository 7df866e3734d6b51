/** Logging in and out while other requests run between the statements of a call. */
module LoginLogout {
  import opened Wrappers
  import opened SessionModel
  import opened SessionInvariant
  import opened SessionRuns
  import opened SessionCalls

  // ------------------------------------------------------------------- login

  datatype LoginEnd = Issued(id: ConnId, issuedAt: int, session: nat) | NoFreeId

  function LoginAnswer(o: LoginEnd, user: UserId, secret: nat): Option<(Token, ConnId)> {
    match o
    case Issued(id, issuedAt, _) => Some((GenerateSessionToken(user, id, issuedAt, secret), id))
    case NoFreeId => None
  }

  /** The login loop from attempt a on; each attempt is one insertion. */
  ghost function Logins(
    db: Db, user: UserId, drawn: seq<ConnId>, a: nat, secret: nat, now: int, env: seq<seq<Step>>): Call<LoginEnd>
    requires a <= |drawn|
    decreases |drawn| - a
  {
    if a == |drawn| then Call(db, a, [], NoFreeId)
    else
      var found := Run(db, Batch(env, a));
      var step := Login(drawn[a], user, now + a * SECOND, secret);
      if drawn[a] in found.used then Logins(found, user, drawn, a + 1, secret, now, env)
      else Call(Run(found, [step]), a + 1, [step], Issued(drawn[a], now + a * SECOND, found.logins))
  }

  /** A login opens one new session and changes no other row; it fails only after drawing
      nothing but ids used before. */
  ghost predicate LoggedIn(db: Db, found: Db, call: Call<LoginEnd>, user: UserId, secret: nat) {
    match call.outcome
    case Issued(id, _, session) =>
      && session == found.logins >= db.logins && id !in found.used && db.used <= found.used
      && Serves(call.db, user, session, secret, LoginAnswer(call.outcome, user, secret).value)
      && call.db.active == found.active[id := call.db.active[id]] && id !in found.active
    case NoFreeId => call.db == found
  }

  lemma {:induction false} LoginsEnd(
    db: Db, user: UserId, drawn: seq<ConnId>, a: nat, secret: nat, now: int, env: seq<seq<Step>>)
    requires Inv(db) && a <= |drawn|
    ensures var call := Logins(db, user, drawn, a, secret, now, env);
            && call.made >= a && Inv(call.db) && Pinned(db, env, a, call)
            && LoggedIn(db, Run(db, Batches(env, a, call.made)), call, user, secret)
            && (call.outcome.Issued? ==> call.outcome.id in drawn)
            && (call.outcome.NoFreeId? ==> forall b :: a <= b < |drawn| ==> drawn[b] in call.db.used)
    decreases |drawn| - a
  {
    hide Inv, Extends, Pinned, LoggedIn, Logins, Run, Apply, CanInsert;
    var call := Logins(db, user, drawn, a, secret, now, env);
    if a == |drawn| {
      LoginsOver(db, user, drawn, secret, now, env);
      NothingIssued(db, env, call, user, secret);
    } else {
      var found := Run(db, Batch(env, a));
      LoginTurn(db, user, drawn, a, secret, now, env);
      if drawn[a] in found.used {
        LoginsEnd(found, user, drawn, a + 1, secret, now, env);
        PinnedExtends(found, env, a + 1, call);
      } else {
        FreshLogin(found, drawn[a], user, now + a * SECOND, secret, env, call);
      }
      LoggedInEarlier(db, env, a, call, user, secret);
      PinnedEarlier(db, env, a, call);
    }
  }

  /** One turn of the loop. */
  lemma LoginTurn(db: Db, user: UserId, drawn: seq<ConnId>, a: nat, secret: nat, now: int, env: seq<seq<Step>>)
    requires Inv(db) && a < |drawn|
    ensures var found := Run(db, Batch(env, a));
            var step := Login(drawn[a], user, now + a * SECOND, secret);
            && Inv(found)
            && (CanInsert(found, drawn[a], user, Sha256(GenerateSessionToken(user, drawn[a], now + a * SECOND, secret)))
                <==> drawn[a] !in found.used)
            && if drawn[a] in found.used
               then Apply(found, step) == found &&
                    Logins(db, user, drawn, a, secret, now, env) == Logins(found, user, drawn, a + 1, secret, now, env)
               else Logins(db, user, drawn, a, secret, now, env) ==
                    Call(Apply(found, step), a + 1, [step], Issued(drawn[a], now + a * SECOND, found.logins))
  {
    var found := Run(db, Batch(env, a));
    RunKeeps(db, Batch(env, a));
    hide Inv;
    OnlyRepeatedIdsCollide(found, drawn[a], user, now + a * SECOND, secret);
    RunOne(found, Login(drawn[a], user, now + a * SECOND, secret));
  }

  lemma LoginsOver(db: Db, user: UserId, drawn: seq<ConnId>, secret: nat, now: int, env: seq<seq<Step>>)
    ensures Logins(db, user, drawn, |drawn|, secret, now, env) == Call(db, |drawn|, [], NoFreeId)
  {
  }

  lemma NothingIssued(db: Db, env: seq<seq<Step>>, call: Call<LoginEnd>, user: UserId, secret: nat)
    requires call.db == db && call.own == [] && call.outcome.NoFreeId?
    ensures Pinned(db, env, call.made, call)
    ensures LoggedIn(db, Run(db, Batches(env, call.made, call.made)), call, user, secret)
  {
    PinnedEnd(db, env, call);
  }

  lemma FreshLogin(
    found: Db, id: ConnId, user: UserId, issuedAt: int, secret: nat, env: seq<seq<Step>>, call: Call<LoginEnd>)
    requires Inv(found) && id !in found.used
    requires var step := Login(id, user, issuedAt, secret);
             call == Call(Apply(found, step), call.made, [step], Issued(id, issuedAt, found.logins))
    ensures Inv(call.db) && LoggedIn(found, Run(found, Batches(env, call.made, call.made)), call, user, secret)
    ensures Pinned(found, env, call.made, call)
  {
    var step := Login(id, user, issuedAt, secret);
    RunOne(found, step);
    PinnedEnd(found, env, call);
    ApplyKeeps(found, step);
    OnlyRepeatedIdsCollide(found, id, user, issuedAt, secret);
    hide Inv, Pinned;
  }

  lemma LoggedInEarlier(db: Db, env: seq<seq<Step>>, k: nat, call: Call<LoginEnd>, user: UserId, secret: nat)
    requires Inv(db) && call.made > k
    requires var found := Run(db, Batch(env, k));
             LoggedIn(found, Run(found, Batches(env, k + 1, call.made)), call, user, secret)
    ensures LoggedIn(db, Run(db, Batches(env, k, call.made)), call, user, secret)
  {
    RunExtends(db, Batch(env, k));
    RunAppend(db, Batch(env, k), Batches(env, k + 1, call.made));
  }

  /** Left alone, a login adds one row, the first of a new session: with the first id drawn
      that is new, at the present time plus a second for each id drawn before, and with the
      hash of the very token in the answer. Nothing else changes. */
  lemma {:induction false} QuietLoginAddsOne(
    db: Db, user: UserId, drawn: seq<ConnId>, a: nat, k: nat, secret: nat, now: int)
    requires Inv(db) && a <= k < |drawn| && drawn[k] !in db.used && forall b :: a <= b < k ==> drawn[b] in db.used
    ensures var call := Logins(db, user, drawn, a, secret, now, []);
            var issuedAt := now + k * 1_000_000;
            var token := Session(user, drawn[k], issuedAt / 1_000_000, secret);
            && LoginAnswer(call.outcome, user, secret) == Some((token, drawn[k]))
            && call.db == db.(
                 used := db.used + {drawn[k]}, logins := db.logins + 1,
                 active := db.active[drawn[k] := Connection(drawn[k], user, Sha256(token), issuedAt, db.clock,
                                                            None, None, db.logins, 0)])
    decreases k - a
  {
    hide Inv, Logins;
    LoginTurn(db, user, drawn, a, secret, now, []);
    if a < k {
      QuietLoginAddsOne(db, user, drawn, a + 1, k, secret, now);
    }
  }

  // ------------------------------------------------------------------ logout

  datatype LogoutEnd =
    | Unrecognised             // unknown or revoked token: nothing to do
    | Violation                // a rotated token outside its grace window
    | AlreadyReplaced(seen: Connection)
    | Revoked(seen: Connection)
    | LookupFailed             // storage.ErrNotFound from the second lookup
    | RevokeFailed(seen: Connection) // storage.ErrNotFound from the revocation

  predicate LogoutSucceeds(o: LogoutEnd) {
    !o.LookupFailed? && !o.RevokeFailed?
  }

  /** What the session check accepts in the active table: a live row, or one rotated within
      the grace period. */
  predicate Accepts(conn: Connection, now: int) {
    conn.Live() || (conn.replacedBy.Some? && now - conn.replacedAt.value <= REFRESH_GRACE_PERIOD)
  }

  /** A whole logout: the session check (one lookup, or two when the first finds nothing),
      and then what its verdict asks for. */
  ghost function LogoutCall(db: Db, user: UserId, token: Token, now: int, env: seq<seq<Step>>): Call<LogoutEnd> {
    var start := Run(db, Batch(env, 0));
    match FindByHash(start.active, user, Sha256(token))
    case None => LogoutArchived(Run(start, Batch(env, 1)), user, token, env)
    case Some(first) =>
      var again := Run(start, Batch(env, 1));
      if Accepts(first, now) then LogoutAccepted(again, user, token, env)
      else if first.replacedBy.None? then Call(start, 1, [], Unrecognised)
      else Call(Run(again, [HandleReuse(user)]), 2, [HandleReuse(user)], Violation)
  }

  ghost function LogoutArchived(found: Db, user: UserId, token: Token, env: seq<seq<Step>>): Call<LogoutEnd> {
    var row := FindByHash(found.history, user, Sha256(token));
    if row.Some? && row.value.replacedBy.Some?
    then Call(Run(Run(found, Batch(env, 2)), [HandleReuse(user)]), 3, [HandleReuse(user)], Violation)
    else Call(found, 2, [], Unrecognised)
  }

  ghost function LogoutAccepted(again: Db, user: UserId, token: Token, env: seq<seq<Step>>): Call<LogoutEnd> {
    match FindByHash(again.active, user, Sha256(token))
    case None => Call(again, 2, [], LookupFailed)
    case Some(seen) =>
      if !seen.Live() then Call(again, 2, [], AlreadyReplaced(seen))
      else
        var last := Run(again, Batch(env, 2));
        Call(Run(last, [Revoke(user, seen.id)]), 3, [Revoke(user, seen.id)],
             if StillLive(last, seen) then Revoked(seen) else RevokeFailed(seen))
  }

  lemma LogoutRuns(db: Db, user: UserId, token: Token, now: int, env: seq<seq<Step>>)
    requires Inv(db)
    ensures var call := LogoutCall(db, user, token, now, env);
            Inv(call.db) && call.db == Run(db, Trace(call, env))
  {
    hide Inv, Pinned, FindByHash;
    var call := LogoutCall(db, user, token, now, env);
    var start := Run(db, Batch(env, 0));
    var again := Run(start, Batch(env, 1));
    if call.made == 1 {
      PinnedEnd(start, env, call);
    } else {
      if call.made == 2 {
        PinnedEnd(again, env, call);
      } else {
        PinnedEnd(Run(again, Batch(env, 2)), env, call);
        PinnedEarlier(again, env, 2, call);
      }
      PinnedEarlier(start, env, 1, call);
    }
    PinnedEarlier(db, env, 0, call);
    PinnedIsTrace(db, env, call);
  }

  lemma PinnedIsTrace<O>(db: Db, env: seq<seq<Step>>, call: Call<O>)
    requires Inv(db) && Pinned(db, env, 0, call)
    ensures Inv(call.db) && call.db == Run(db, Trace(call, env))
  {
    RunKeeps(db, Trace(call, env));
  }

  /** What each end of a logout says about the tables it leaves; `found` is the row of the
      first lookup. */
  ghost predicate LoggedOut(db: Db, user: UserId, token: Token, found: Option<Connection>, o: LogoutEnd) {
    match o
    case Unrecognised => found.Some? ==> !Alive(db, user, found.value.session)
    case Violation => LiveIds(db.active, {user}) == {}
    case AlreadyReplaced(seen) =>
      && found.Some? && seen.session == found.value.session && seen.user == user && seen.hash == Sha256(token)
      && seen.id in db.active && db.active[seen.id] == seen && seen.replacedAt.Some?
    case Revoked(seen) => found.Some? && seen.session == found.value.session && !Alive(db, user, seen.session)
    case LookupFailed => found.Some? && found.value.id !in db.active
    case RevokeFailed(seen) => found.Some? && seen.id == found.value.id && !StillLive(db, seen)
  }

  lemma RevokingEnds(db: Db, user: UserId, token: Token, found: Option<Connection>, seen: Connection)
    requires Inv(db) && Seen(db, seen) && StillLive(db, seen) && seen.user == user
    requires found.Some? && seen.session == found.value.session
    ensures LoggedOut(Run(db, [Revoke(user, seen.id)]), user, token, found, Revoked(seen))
  {
    RunOne(db, Revoke(user, seen.id));
    var after := ApplyRevoke(db, user, seen.id);
    forall i | i in after.active && after.active[i].session == seen.session && after.active[i].Live() ensures false {
      assert Peers(db.active, i, seen.id) && Peers(db.active, seen.id, i);
    }
  }

  lemma FailingEnds(db: Db, user: UserId, token: Token, found: Option<Connection>, seen: Connection)
    requires Inv(db) && !StillLive(db, seen) && found.Some? && seen.id == found.value.id
    ensures LoggedOut(Run(db, [Revoke(user, seen.id)]), user, token, found, RevokeFailed(seen))
  {
    RunOne(db, Revoke(user, seen.id));
  }

  lemma ViolationEnds(db: Db, user: UserId, token: Token, found: Option<Connection>)
    ensures LoggedOut(Run(db, [HandleReuse(user)]), user, token, found, Violation)
  {
    RunOne(db, HandleReuse(user));
  }

  lemma UnrecognisedEnds(db: Db, user: UserId, token: Token, found: Option<Connection>)
    requires Inv(db)
    requires found.Some? ==>
               && found.value.user == user && found.value.replacedAt.Some? && found.value.replacedBy.None?
               && found.value.id in db.active && db.active[found.value.id] == found.value
    ensures LoggedOut(db, user, token, found, Unrecognised)
  {
    if found.Some? {
      TerminalMeansDead(db, found.value);
    }
  }

  lemma AcceptedEnds(db: Db, user: UserId, token: Token, first: Connection, env: seq<seq<Step>>)
    requires Inv(db) && Seen(db, first) && NamesRow(first) && HasHash(first, user, Sha256(token))
    ensures var call := LogoutAccepted(db, user, token, env);
            LoggedOut(call.db, user, token, Some(first), call.outcome)
  {
    hide Inv, LoggedOut, FindByHash, NamesRow;
    SeenIsFound(db, first);
    if first.id in db.active {
      var seen := db.active[first.id];
      if seen.Live() {
        RowIsSeen(db, first.id);
        var last := Run(db, Batch(env, 2));
        AfterBatch(db, seen, Batch(env, 2));
        if StillLive(last, seen) {
          RevokingEnds(last, user, token, Some(first), seen);
        } else {
          FailingEnds(last, user, token, Some(first), seen);
        }
      } else {
        RowIsSeen(db, first.id);
        SecondLookupEnds(db, user, token, first);
      }
    } else {
      SecondLookupEnds(db, user, token, first);
    }
  }

  lemma SecondLookupEnds(db: Db, user: UserId, token: Token, first: Connection)
    requires Seen(db, first) && HasHash(first, user, Sha256(token))
    ensures first.id !in db.active ==> LoggedOut(db, user, token, Some(first), LookupFailed)
    ensures first.id in db.active && db.active[first.id].id == first.id && !db.active[first.id].Live() ==>
              LoggedOut(db, user, token, Some(first), AlreadyReplaced(db.active[first.id]))
  {
  }

  lemma LogoutEnds(db: Db, user: UserId, token: Token, now: int, env: seq<seq<Step>>)
    requires Inv(db)
    ensures var call := LogoutCall(db, user, token, now, env);
            LoggedOut(call.db, user, token, FirstLookup(db, user, token, env), call.outcome)
  {
    hide Inv, LoggedOut, LogoutAccepted, NamesRow, FindByHash;
    LookupIsSeen(db, user, token, env);
    var start := Run(db, Batch(env, 0));
    var found := FirstLookup(db, user, token, env);
    var again := Run(start, Batch(env, 1));
    assert found == FindByHash(start.active, user, Sha256(token));
    if found.None? {
      RunKeeps(start, Batch(env, 1));
      ViolationEnds(Run(again, Batch(env, 2)), user, token, found);
      UnrecognisedEnds(again, user, token, found);
    } else {
      var first := found.value;
      AfterBatch(start, first, Batch(env, 1));
      AcceptedEnds(again, user, token, first, env);
      ViolationEnds(again, user, token, found);
      if !first.Live() && first.replacedBy.None? {
        UnrecognisedEnds(start, user, token, found);
      }
    }
  }

  /** A logout reports success and leaves the session of its token alive exactly when the
      session check accepts the row of its first lookup, and the second lookup finds that row
      replaced while the session is alive. */
  lemma SessionSurvivesLogout(db: Db, user: UserId, token: Token, now: int, env: seq<seq<Step>>)
    requires Inv(db) && FirstLookup(db, user, token, env).Some?
    ensures var call := LogoutCall(db, user, token, now, env);
            var first := FirstLookup(db, user, token, env).value;
            var again := Run(Run(db, Batch(env, 0)), Batch(env, 1));
            (LogoutSucceeds(call.outcome) && Alive(call.db, user, first.session))
            <==> Accepts(first, now)
                 && first.id in again.active && again.active[first.id].replacedAt.Some?
                 && Alive(again, user, first.session)
  {
    hide Inv, LogoutAccepted, FindByHash, NamesRow, Alive, Seen;
    LogoutEnds(db, user, token, now, env);
    LookupIsSeen(db, user, token, env);
    var first := FirstLookup(db, user, token, env).value;
    var start := Run(db, Batch(env, 0));
    var again := Run(start, Batch(env, 1));
    AfterBatch(start, first, Batch(env, 1));
    assert FindByHash(start.active, user, Sha256(token)) == Some(first);
    AliveHasLive(LogoutCall(db, user, token, now, env).db, user, first.session);
    if Accepts(first, now) {
      SecondLookup(again, user, token, first, env);
    }
  }

  /** An accepted token's logout from its second lookup on. */
  lemma SecondLookup(again: Db, user: UserId, token: Token, first: Connection, env: seq<seq<Step>>)
    requires Inv(again) && Seen(again, first) && NamesRow(first) && HasHash(first, user, Sha256(token))
    ensures var call := LogoutAccepted(again, user, token, env);
            && (call.outcome.AlreadyReplaced? <==>
                  first.id in again.active && again.active[first.id].replacedAt.Some?)
            && (call.outcome.AlreadyReplaced? ==> call.db == again)
            && !call.outcome.Violation? && !call.outcome.Unrecognised?
  {
    hide Inv, Seen, NamesRow, FindByHash;
    SeenIsFound(again, first);
  }

  lemma AliveHasLive(db: Db, user: UserId, session: nat)
    ensures Alive(db, user, session) ==> LiveIds(db.active, {user}) != {}
  {
    if Alive(db, user, session) {
      var i :| i in db.active && db.active[i].user == user && db.active[i].Live();
      assert i in LiveIds(db.active, {user});
    }
  }

  /** Left alone, a logout does what the session check's verdict asks for. */
  lemma QuietLogout(db: Db, user: UserId, token: Token, now: int)
    requires Inv(db)
    ensures var found := FindByHash(db.active, user, Sha256(token));
            LogoutCall(db, user, token, now, []).db ==
              match CheckUserConnection(db, user, Sha256(token), now)
              case Unknown => db
              case Reused => Apply(db, HandleReuse(user))
              case Accepted => if found.value.Live() then Apply(db, Revoke(user, found.value.id)) else db
  {
    FindByHashExact(db, user, Sha256(token));
    RunOne(db, HandleReuse(user));
    var found := FindByHash(db.active, user, Sha256(token));
    if found.Some? {
      RunOne(db, Revoke(user, found.value.id));
    }
  }

  /** Left alone, a logout with the token of a live row replaces that row, at the present
      time and without a successor, and touches no other: the user has one live row less. */
  lemma QuietLogoutRevokesOne(db: Db, user: UserId, token: Token, now: int, id: ConnId)
    requires Inv(db) && id in db.active && HasHash(db.active[id], user, Sha256(token)) && db.active[id].replacedAt.None?
    ensures var call := LogoutCall(db, user, token, now, []);
            && call.outcome == Revoked(db.active[id])
            && call.db == db.(active := db.active[id := db.active[id].(replacedAt := Some(db.clock))])
            && |LiveIds(call.db.active, {user})| == |LiveIds(db.active, {user})| - 1
            && forall u :: u != user ==> LiveIds(call.db.active, {u}) == LiveIds(db.active, {u})
  {
    FindByHashExact(db, user, Sha256(token));
    RunOne(db, Revoke(user, id));
    var after := LogoutCall(db, user, token, now, []).db;
    assert after.active == db.active[id := db.active[id].(replacedAt := Some(db.clock))];
    assert LiveIds(after.active, {user}) == LiveIds(db.active, {user}) - {id};
  }

  /** The verdicts, on the row that holds the hash: a live token is accepted, and so is one
      rotated no more than a minute ago; one rotated longer ago or archived is a reuse; one
      revoked, and one nobody holds, is unknown. */
  lemma CheckMeaning(db: Db, user: UserId, hash: TokenHash, now: int, conn: Connection)
    requires Inv(db) && HasHash(conn, user, hash)
    ensures conn.id in db.active && db.active[conn.id] == conn ==>
              CheckUserConnection(db, user, hash, now) ==
                if conn.replacedAt.None? then Accepted
                else if conn.replacedBy.None? then Unknown
                else if now <= conn.replacedAt.value + 60_000_000 then Accepted else Reused
    ensures conn.id in db.history && db.history[conn.id] == conn
            && (forall i :: i in db.active ==> !HasHash(db.active[i], user, hash)) ==>
              CheckUserConnection(db, user, hash, now) == if conn.replacedBy.Some? then Reused else Unknown
    ensures (forall i :: i in db.active ==> !HasHash(db.active[i], user, hash))
            && (forall i :: i in db.history ==> !HasHash(db.history[i], user, hash)) ==>
              CheckUserConnection(db, user, hash, now) == Unknown
  {
    FindByHashExact(db, user, hash);
  }

  lemma LoggedInServes(db: Db, found: Db, call: Call<LoginEnd>, user: UserId, secret: nat)
    requires LoggedIn(db, found, call, user, secret)
    ensures call.outcome.Issued? ==>
              Serves(call.db, user, call.outcome.session, secret, LoginAnswer(call.outcome, user, secret).value)
  {
  }

  /** The revocation of a row read before finds it by its id, live or not. */
  lemma RevokeSees(db: Db, user: UserId, hash: TokenHash, steps: seq<Step>)
    requires Inv(db) && FindByHash(db.active, user, hash).Some?
    ensures var seen := FindByHash(db.active, user, hash).value;
            var last := Run(db, steps);
            StillLive(last, seen) <==>
              seen.id in last.active && last.active[seen.id].user == user && last.active[seen.id].Live()
  {
    FindByHashExact(db, user, hash);
    var seen := FindByHash(db.active, user, hash).value;
    RowIsSeen(db, seen.id);
    AfterBatch(db, seen, steps);
  }
}
