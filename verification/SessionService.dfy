/** The storage operations and the session services built on them. Other requests run
    between the statements of a service: `env[k]` is what they do just before its k-th
    statement. */
module SessionService {
  import opened Wrappers
  import opened SessionModel
  import opened SessionInvariant
  import opened SessionRuns
  import opened SessionCalls
  import opened LoginLogout

  datatype DropTarget = All | Malformed | One(id: ConnId)

  datatype DropError = InvalidConnection | NoSuchConnection

  /** One row more, dated now, which `current` names as its successor; every other row is as
      it was. */
  predicate OneReplaced(
    before: map<ConnId, Connection>, after: map<ConnId, Connection>, current: Connection, newId: ConnId, now: int)
  {
    && after.Keys == before.Keys + {newId} && current.id in before
    && after[current.id] == current.(replacedAt := Some(now), replacedBy := Some(newId))
    && after[newId].createdAt == now
    && forall i :: i in before && i != current.id ==> after[i] == before[i]
  }

  class SessionStore {
    var active: map<ConnId, Connection>
    var history: map<ConnId, Connection>
    var accounts: map<UserId, Account>
    var resets: map<ResetHash, ResetToken>
    var clock: int
    var used: set<ConnId>
    var logins: nat

    ghost function State(): Db
      reads this
    {
      Db(active, history, accounts, resets, clock, used, logins)
    }

    constructor (users: map<UserId, Account>, now: int)
      ensures Inv(State())
      ensures State() == Db(map[], map[], users, map[], now, {}, 0)
    {
      active, history, accounts, resets, clock, used, logins := map[], map[], users, map[], now, {}, 0;
    }

    // ------------------------------------------------------------- storage

    method GetUserConnectionByHash(user: UserId, hash: TokenHash) returns (conn: Option<Connection>)
      requires Inv(State())
      ensures conn == FindByHash(active, user, hash)
      ensures conn.Some? ==> conn.value.id in active && active[conn.value.id] == conn.value
    {
      conn := None;
      if i :| i in active && HasHash(active[i], user, hash) {
        conn := Some(active[i]);
        FindByHashExact(State(), user, hash);
      }
    }

    method GetUserConnectionHistory(user: UserId, hash: TokenHash) returns (conn: Option<Connection>)
      requires Inv(State())
      ensures conn == FindByHash(history, user, hash)
    {
      conn := None;
      if i :| i in history && HasHash(history[i], user, hash) {
        conn := Some(history[i]);
        FindByHashExact(State(), user, hash);
      }
    }

    method GetUserConnectionByID(id: ConnId) returns (conn: Option<Connection>)
      ensures conn == if id in active then Some(active[id]) else None
    {
      conn := if id in active then Some(active[id]) else None;
    }

    method CreateUserConnection(id: ConnId, user: UserId, hash: TokenHash, issuedAt: int, ghost secret: nat)
      returns (conn: Option<Connection>)
      requires Inv(State())
      requires hash == Sha256(GenerateSessionToken(user, id, issuedAt, secret))
      modifies this
      ensures Inv(State())
      ensures State() == Apply(old(State()), Login(id, user, issuedAt, secret))
      ensures conn.Some? <==> old(CanInsert(State(), id, user, hash))
      ensures conn.Some? ==>
                && conn == Some(Connection(id, user, hash, issuedAt, clock, None, None, old(logins), 0))
                && id !in old(active) && active == old(active)[id := conn.value]
                && used == old(used) + {id} && logins == old(logins) + 1
      ensures conn.None? ==> State() == old(State()) && id in used
      ensures unchanged(`history, `accounts, `resets, `clock)
    {
      ApplyKeeps(State(), Login(id, user, issuedAt, secret));
      if id !in used && forall i :: i in active ==> !HasHash(active[i], user, hash) {
        var row := Connection(id, user, hash, issuedAt, clock, None, None, logins, 0);
        active, used, logins := active[id := row], used + {id}, logins + 1;
        conn := Some(row);
      } else {
        conn := None;
      }
    }

    method RotateUserConnection(
      user: UserId, oldHash: TokenHash, newId: ConnId, newHash: TokenHash, issuedAt: int, ghost secret: nat)
      returns (conn: Option<Connection>)
      requires Inv(State())
      requires newHash == Sha256(GenerateSessionToken(user, newId, issuedAt, secret))
      modifies `active, `used
      ensures Inv(State())
      ensures State() == Apply(old(State()), Rotate(user, oldHash, newId, issuedAt, secret))
      ensures conn.None? ==> State() == old(State())
      ensures conn.None? ==> newId in used || FindByHash(active, user, oldHash).None? ||
                             !FindByHash(active, user, oldHash).value.Live()
      ensures conn.Some? ==> var current := old(FindByHash(active, user, oldHash));
                             && current.Some?
                             && newId in active && active[newId] == conn.value && conn.value.Live()
                             && conn.value.user == user && conn.value.hash == newHash
                             && conn.value.issuedAt == issuedAt
                             && conn.value.session == current.value.session
                             && current.value.Live() && newId !in old(used)
      // Of the other rows none changes, and the old row only names its time and successor.
      ensures conn.Some? ==>
                && used == old(used) + {newId}
                && OneReplaced(old(active), active, old(FindByHash(active, user, oldHash)).value, newId, clock)
    {
      hide Named, Timed, Linked, Ordered;
      ApplyKeeps(State(), Rotate(user, oldHash, newId, issuedAt, secret));
      OnlyRepeatedIdsCollide(State(), newId, user, issuedAt, secret);
      ghost var before := State();
      var current := GetUserConnectionByHash(user, oldHash);
      if current.None? || !current.value.Live() {
        return None; // the UPDATE matched no row: ErrConnectionReplaced
      }
      if newId in used || exists i :: i in active && HasHash(active[i], user, newHash) {
        return None; // unique violation: the transaction rolls back
      }
      var successor := Connection(newId, user, newHash, issuedAt, clock, None, None,
                                  current.value.session, current.value.generation + 1);
      var replaced := current.value.(replacedAt := Some(clock), replacedBy := Some(newId));
      active := active[current.value.id := replaced][newId := successor];
      used := used + {newId};
      conn := Some(successor);
      assert State() == ApplyRotate(before, user, oldHash, newId, issuedAt, secret);
    }

    method RevokeUserConnection(user: UserId, id: ConnId) returns (ok: bool)
      requires Inv(State())
      modifies `active
      ensures Inv(State())
      ensures State() == Apply(old(State()), Revoke(user, id))
      ensures ok <==> id in old(active) && old(active[id]).user == user && old(active[id]).replacedAt.None?
      ensures active.Keys == old(active.Keys)
      ensures forall i :: i in active ==>
                active[i] == if ok && i == id then old(active)[i].(replacedAt := Some(clock)) else old(active)[i]
    {
      ApplyKeeps(State(), Revoke(user, id));
      ok := id in active && active[id].user == user && active[id].Live();
      if ok {
        active := StampReplaced(active, {id}, clock);
      }
    }

    method RevokeAllUserConnections(users: set<UserId>) returns (n: nat)
      requires Inv(State())
      modifies `active
      ensures Inv(State())
      ensures State() == Apply(old(State()), RevokeUsers(users))
      ensures n == |old(LiveIds(active, users))| && LiveIds(active, users) == {}
      ensures active.Keys == old(active.Keys)
      ensures forall i :: i in active ==>
                var row := old(active)[i];
                active[i] == if row.user in users && row.replacedAt.None? then row.(replacedAt := Some(clock)) else row
    {
      ApplyKeeps(State(), RevokeUsers(users));
      var ids := LiveIds(active, users);
      active := StampReplaced(active, ids, clock);
      n := |ids|;
    }

    method HandleConnectionReuse(user: UserId) returns (n: nat)
      requires Inv(State())
      modifies `active, `accounts
      ensures Inv(State())
      ensures State() == Apply(old(State()), HandleReuse(user))
      ensures n == |old(LiveIds(active, {user}))|
      ensures active.Keys == old(active.Keys) && accounts.Keys == old(accounts.Keys)
      ensures forall i :: i in active ==>
                var row := old(active)[i];
                active[i] == if row.user == user && row.replacedAt.None? then row.(replacedAt := Some(clock)) else row
      ensures forall u :: u in accounts ==>
                accounts[u] == if u == user then old(accounts)[u].(connectionViolation := true) else old(accounts)[u]
    {
      ApplyKeeps(State(), HandleReuse(user));
      n := |LiveIds(active, {user})|;
      active := StampReplaced(active, LiveIds(active, {user}), clock);
      if user in accounts {
        accounts := accounts[user := accounts[user].(connectionViolation := true)];
      }
    }

    method UpdateUserPassword(user: UserId, passwordHash: nat) returns (ok: bool)
      requires Inv(State())
      modifies `active, `accounts
      ensures Inv(State())
      ensures State() == Apply(old(State()), ChangePassword(user, passwordHash))
      ensures ok <==> user in old(accounts)
      ensures active.Keys == old(active.Keys) && accounts.Keys == old(accounts.Keys)
      ensures forall i :: i in active ==>
                var row := old(active)[i];
                active[i] ==
                  if ok && row.user == user && row.replacedAt.None? then row.(replacedAt := Some(clock)) else row
      ensures forall u :: u in accounts ==>
                accounts[u] == if u == user then Account(passwordHash, false, false) else old(accounts)[u]
    {
      ApplyKeeps(State(), ChangePassword(user, passwordHash));
      ok := user in accounts;
      if ok {
        accounts := WithPassword(accounts, user, passwordHash);
        active := StampReplaced(active, LiveIds(active, {user}), clock);
      }
    }

    method CreatePasswordResetToken(user: UserId, hash: ResetHash, expiresAt: int) returns (ok: bool)
      requires Inv(State())
      modifies `resets
      ensures Inv(State())
      ensures State() == Apply(old(State()), CreateReset(user, hash, expiresAt))
      ensures ok <==> hash !in old(resets) && user in old(accounts)
      ensures resets.Keys == old(resets.Keys) + if ok then {hash} else {}
      ensures ok ==> resets[hash] == ResetToken(user, expiresAt, None)
      ensures forall h :: h in old(resets) ==>
                var row := old(resets)[h];
                resets[h] == if ok && row.user == user && row.usedAt.None? then row.(usedAt := Some(clock)) else row
      ensures ok ==> forall h :: h in resets && resets[h].user == user && resets[h].usedAt.None? ==> h == hash
    {
      ApplyKeeps(State(), CreateReset(user, hash, expiresAt));
      ok := hash !in resets && user in accounts;
      if ok {
        resets := Spend(resets, user, clock)[hash := ResetToken(user, expiresAt, None)];
      }
    }

    /** The whole transaction; `None` is ErrNotFound, with everything rolled back. */
    method ConsumePasswordResetToken(hash: ResetHash, passwordHash: nat) returns (user: Option<UserId>)
      requires Inv(State())
      modifies `active, `accounts, `resets
      ensures Inv(State())
      ensures State() == Apply(old(State()), ConsumeReset(hash, passwordHash))
      ensures user.Some? <==>
                hash in old(resets) && old(resets)[hash].usedAt.None? && old(resets)[hash].expiresAt > clock
                              && old(resets)[hash].user in old(accounts)
      ensures active.Keys == old(active.Keys) && accounts.Keys == old(accounts.Keys) && resets.Keys == old(resets.Keys)
      ensures forall i :: i in active ==>
                var row := old(active)[i];
                active[i] ==
                  if user == Some(row.user) && row.replacedAt.None? then row.(replacedAt := Some(clock)) else row
      ensures forall u :: u in accounts ==>
                accounts[u] == if user == Some(u) then Account(passwordHash, false, false) else old(accounts)[u]
      ensures forall h :: h in resets ==>
                var row := old(resets)[h];
                resets[h] == if user == Some(row.user) && row.usedAt.None? then row.(usedAt := Some(clock)) else row
      ensures user == if old(Consumable(State(), hash)) then Some(old(resets[hash]).user) else None
      ensures user.Some? ==>
                && LiveIds(active, {user.value}) == {}
                && (forall h :: h in resets && resets[h].user == user.value ==> resets[h].usedAt.Some?)
                && user.value in accounts && accounts[user.value] == Account(passwordHash, false, false)
    {
      ApplyKeeps(State(), ConsumeReset(hash, passwordHash));
      if hash !in resets || resets[hash].usedAt.Some? || resets[hash].expiresAt <= clock {
        return None;
      }
      var owner := resets[hash].user;
      if owner !in accounts {
        return None;
      }
      accounts := WithPassword(accounts, owner, passwordHash);
      active := StampReplaced(active, LiveIds(active, {owner}), clock);
      resets := Spend(resets, owner, clock);
      user := Some(owner);
    }

    method MoveUserConnectionsToHistory(cutoff: int) returns (moved: nat)
      requires Inv(State())
      modifies `active, `history
      ensures Inv(State())
      ensures State() == Apply(old(State()), Archive(cutoff))
      ensures forall i :: i in active <==>
                i in old(active) && (old(active)[i].replacedAt.None? || old(active)[i].replacedAt.value >= cutoff)
      ensures forall i :: i in history <==> i in old(history) || (i in old(active) && i !in active)
      ensures forall i :: i in old(active) ==> old(active)[i] == if i in active then active[i] else history[i]
      ensures forall i :: i in old(history) ==> history[i] == old(history)[i]
      ensures moved == |old(Archivable(active, cutoff))|
      ensures State() == old(State()).(active := old(Except(active, Archivable(active, cutoff))),
                                       history := old(history + Only(active, Archivable(active, cutoff))))
    {
      hide Inv, Archivable, Unlinked, ApplyArchive, Only, Except;
      ApplyKeeps(State(), Archive(cutoff));
      ArchiveResult(State(), cutoff);
      ArchiveRows(State(), cutoff);
      var ids := Archivable(active, cutoff);
      history := history + Only(active, ids);
      active := Unlinked(active, ids);
      moved := |ids|;
    }

    method PurgeUserConnectionHistory(cutoff: int)
      requires Inv(State())
      modifies `history
      ensures Inv(State())
      ensures State() == Apply(old(State()), PurgeHistory(cutoff))
      ensures forall i :: i in history <==>
                i in old(history) && (old(history)[i].replacedAt.None? || old(history)[i].replacedAt.value >= cutoff)
      ensures forall i :: i in history ==> history[i] == old(history)[i]
    {
      ApplyKeeps(State(), PurgeHistory(cutoff));
      history := map i | i in history && !(history[i].replacedAt.Some? && history[i].replacedAt.value < cutoff)
                      :: history[i];
    }

    method AdvanceClock(to: int)
      requires Inv(State())
      modifies `clock
      ensures Inv(State())
      ensures State() == Apply(old(State()), Tick(to))
      ensures clock == if to > old(clock) then to else old(clock)
    {
      ApplyKeeps(State(), Tick(to));
      if to > clock {
        clock := to;
      }
    }

    /** One statement or transaction of another request. */
    method Perform(step: Step)
      requires Inv(State())
      modifies this
      ensures Inv(State())
      ensures State() == Apply(old(State()), step)
    {
      match step
      case Login(id, user, issuedAt, secret) =>
        var hash := Sha256(GenerateSessionToken(user, id, issuedAt, secret));
        var _ := CreateUserConnection(id, user, hash, issuedAt, secret);
      case Rotate(user, oldHash, newId, issuedAt, secret) =>
        var hash := Sha256(GenerateSessionToken(user, newId, issuedAt, secret));
        var _ := RotateUserConnection(user, oldHash, newId, hash, issuedAt, secret);
      case Revoke(user, id) => var _ := RevokeUserConnection(user, id);
      case RevokeUsers(users) => var _ := RevokeAllUserConnections(users);
      case HandleReuse(user) => var _ := HandleConnectionReuse(user);
      case ChangePassword(user, passwordHash) => var _ := UpdateUserPassword(user, passwordHash);
      case CreateReset(user, hash, expiresAt) => var _ := CreatePasswordResetToken(user, hash, expiresAt);
      case ConsumeReset(hash, passwordHash) => var _ := ConsumePasswordResetToken(hash, passwordHash);
      case Archive(cutoff) => var _ := MoveUserConnectionsToHistory(cutoff);
      case PurgeHistory(cutoff) => PurgeUserConnectionHistory(cutoff);
      case Tick(to) => AdvanceClock(to);
    }

    method Interfere(steps: seq<Step>)
      requires Inv(State())
      modifies this
      ensures Inv(State())
      ensures State() == Run(old(State()), steps)
    {
      ghost var start := State();
      assert steps[..0] == [];
      for n := 0 to |steps|
        invariant Inv(State())
        invariant State() == Run(start, steps[..n])
      {
        RunAppend(start, steps[..n], [steps[n]]);
        assert steps[..n + 1] == steps[..n] + [steps[n]];
        Perform(steps[n]);
        assert Run(old(State()), [steps[n]]) == Run(Apply(old(State()), steps[n]), []);
      }
      assert steps[..|steps|] == steps;
    }

    // ------------------------------------------------------------ services

    /** The maintenance routine: rows replaced twelve hours ago go to the history, and those
        of the history replaced twenty-five hours ago go for good. `later` is the time at
        which its second statement is made, and `others` is what comes between the two. */
    method ArchiveUserConnections(now: int, later: int, others: seq<Step>)
      requires Inv(State())
      modifies this
      ensures Inv(State())
      ensures State() ==
              Run(old(State()), [Archive(now - 43_200_000_000)] + others + [PurgeHistory(later - 90_000_000_000)])
      ensures others == [] ==>
                forall i :: i in active <==>
                  i in old(active) &&
                  (old(active)[i].replacedAt.None? || old(active)[i].replacedAt.value >= now - 43_200_000_000)
      ensures others == [] ==>
                forall i :: i in history <==>
                  || (i in old(history) && (old(history)[i].replacedAt.None? ||
                                            old(history)[i].replacedAt.value >= later - 90_000_000_000))
                  || (i in old(active) && i !in active && old(active)[i].replacedAt.value >= later - 90_000_000_000)
    {
      hide Inv, Apply, Except, Archivable;
      ghost var start, move, purge := State(), Archive(now - 43_200_000_000), PurgeHistory(later - 90_000_000_000);
      RunOne(start, move);
      var _ := MoveUserConnectionsToHistory(now - CONNECTION_ARCHIVE_DELAY);
      assert others == [] ==> Run(State(), others) == State();
      RunAppend(start, [move], others);
      Interfere(others);
      RunOne(State(), purge);
      RunAppend(start, [move] + others, [purge]);
      PurgeUserConnectionHistory(later - CONNECTION_HISTORY_RETENTION);
    }

    /** Login. `drawn` are the connection ids generated, one an attempt. */
    method CreateSessionConnection(user: UserId, secret: nat, now: int, drawn: seq<ConnId>, env: seq<seq<Step>>)
      returns (answer: Option<(Token, ConnId)>, ghost call: Call<LoginEnd>)
      requires Inv(State()) && |drawn| == 5
      modifies this
      ensures Inv(State())
      ensures call == Logins(old(State()), user, drawn, 0, secret, now, env)
      ensures State() == call.db && answer == LoginAnswer(call.outcome, user, secret)
      ensures State() == Run(old(State()), Trace(call, env))
      ensures LoggedIn(old(State()), Run(old(State()), Batches(env, 0, call.made)), call, user, secret)
      ensures answer.Some? ==>
                Serves(State(), user, call.outcome.session, secret, answer.value) && answer.value.1 in drawn
      ensures answer.None? ==> forall a :: 0 <= a < |drawn| ==> drawn[a] in used
    {
      hide Inv, LoggedIn, Pinned, Serves, Logins, Run, Apply, CanInsert, Trace, Batches, Batch;
      ghost var start := State();
      call := Logins(start, user, drawn, 0, secret, now, env);
      LoginsEnd(start, user, drawn, 0, secret, now, env);
      PinnedIsTrace(start, env, call);
      LoggedInServes(start, Run(start, Batches(env, 0, call.made)), call, user, secret);
      var attempt := 0;
      while attempt < MAX_SESSION_TOKEN_ATTEMPTS
        invariant 0 <= attempt <= |drawn|
        invariant Inv(State()) && call == Logins(State(), user, drawn, attempt, secret, now, env)
      {
        LoginTurn(State(), user, drawn, attempt, secret, now, env);
        Interfere(Batch(env, attempt));
        var issuedAt := now + attempt * SECOND;
        var token := GenerateSessionToken(user, drawn[attempt], issuedAt, secret);
        var conn := CreateUserConnection(drawn[attempt], user, Sha256(token), issuedAt, secret);
        if conn.Some? {
          return Some((token, drawn[attempt])), call;
        }
        attempt := attempt + 1;
      }
      LoginsOver(State(), user, drawn, secret, now, env);
      answer := None;
    }

    /** Follow the chain of `seen`, a replaced connection, one lookup a statement. */
    method TipConnection(seen: Connection, secret: nat, env: seq<seq<Step>>, from0: nat)
      returns (r: Result<(Token, ConnId), RefreshError>, ghost call: Call<Outcome>)
      requires Inv(State()) && Seen(State(), seen)
      requires seen.id in active && active[seen.id] == seen && seen.replacedAt.Some?
      modifies this
      ensures Inv(State())
      ensures call == Walk(old(State()), seen, env, from0)
      ensures State() == call.db && r == Answer(call.outcome, secret)
      ensures Seen(State(), seen) && Ended(State(), seen, secret, call.outcome)
      ensures State() == Run(old(State()), Batches(env, from0, call.made))
    {
      hide Inv, Seen, Ended, Pinned, Behind;
      ghost var start := State();
      call := Walk(start, seen, env, from0);
      WalkRuns(start, seen, env, from0);
      PinnedQuietly(start, env, from0, call);
      BehindItself(start, seen);
      WalkEnds(start, seen, seen, env, from0, secret);
      var conn := seen;
      var k: nat := from0;
      while conn.replacedAt.Some? && conn.replacedBy.Some?
        invariant Inv(State()) && Seen(State(), conn)
        invariant call == Walk(State(), conn, env, k)
        decreases Left(env, k), Newer(active, conn.generation)
      {
        ghost var before := State();
        AfterBatch(before, conn, Batch(env, k));
        Interfere(Batch(env, k));
        var next := GetUserConnectionByID(conn.replacedBy.value);
        if next.None? {
          return Err(ConnectionNotFound), call;
        }
        WalkShrinks(State(), conn);
        assert k >= |env| ==> State() == before;
        conn, k := next.value, k + 1;
      }
      if conn.replacedAt.Some? {
        return Err(ConnectionNotFound), call;
      }
      var token := GenerateSessionToken(conn.user, conn.id, conn.issuedAt, secret);
      if Sha256(token) != conn.hash {
        return Err(HashMismatch), call;
      }
      r := Ok((token, conn.id));
    }

    /** Rotate the session token. Every other request may run between any two statements. */
    method RefreshConnection(
      user: UserId, oldToken: Token, secret: nat, now: int, drawn: seq<ConnId>, env: seq<seq<Step>>)
      returns (r: Result<(Token, ConnId), RefreshError>, ghost call: Call<Outcome>)
      requires Inv(State()) && |drawn| == 5
      modifies this
      ensures Inv(State())
      ensures call == Refresh(old(State()), user, oldToken, secret, now, drawn, env)
      ensures State() == call.db && r == Answer(call.outcome, secret)
      // The other requests' batches ran in order, each once, then at most one own rotation.
      ensures State() == Run(old(State()), Trace(call, env)) && call.own == Own(call.outcome, secret)
      // Every end has its cause.
      ensures var found := old(FirstLookup(State(), user, oldToken, env));
              if found.None? then call.outcome == NoRow
              else Ended(State(), found.value, secret, call.outcome) && Explained(State(), found.value, secret, r)
      ensures r == Err(TooManyCollisions) ==> forall a :: 0 <= a < |drawn| ==> drawn[a] in used
      // A session that was served was alive at every step of the call.
      ensures r.Ok? ==> AliveDuring(old(State()), Trace(call, env), |Batch(env, 0)|, user,
                                    old(FirstLookup(State(), user, oldToken, env)).value.session)
    {
      hide Inv, Seen, Ended, Explained, Attempts, Lost, Walk, NamesRow, AliveDuring, Wins, Run, Apply, Refresh,
        FindByHash, FirstLookup, Trace, Batches, Batch, Own, CanInsert, OneReplaced;
      ghost var start := State();
      call := Refresh(start, user, oldToken, secret, now, drawn, env);
      RefreshRuns(start, user, oldToken, secret, now, drawn, env);
      RefreshEnds(start, user, oldToken, secret, now, drawn, env);
      ServedWasAlive(start, user, oldToken, secret, now, drawn, env);
      RefreshUnfolds(start, user, oldToken, secret, now, drawn, env);

      Interfere(Batch(env, 0));
      var conn := GetUserConnectionByHash(user, Sha256(oldToken));
      if conn.None? {
        return Err(ConnectionNotFound), call;
      }
      var first := conn.value;
      if first.replacedAt.Some? {
        r, call := TipConnection(first, secret, env, 1);
        return r, call;
      }

      var attempt := 0;
      while attempt < MAX_SESSION_TOKEN_ATTEMPTS
        invariant 0 <= attempt <= |drawn|
        invariant Inv(State()) && Seen(State(), first) && NamesRow(first)
        invariant call == Attempts(State(), first, drawn, attempt, secret, now, env)
      {
        AfterBatch(State(), first, Batch(env, 1 + 2 * attempt));
        AttemptUnfolds(State(), first, drawn, attempt, secret, now, env);
        Interfere(Batch(env, 1 + 2 * attempt));
        var issuedAt := now + attempt * SECOND;
        var newToken := GenerateSessionToken(user, drawn[attempt], issuedAt, secret);
        SwapOutcome(State(), first, drawn[attempt], issuedAt, secret);
        var newConn :=
          RotateUserConnection(user, Sha256(oldToken), drawn[attempt], Sha256(newToken), issuedAt, secret);
        if newConn.Some? {
          return Ok((newToken, drawn[attempt])), call;
        }

        AfterBatch(State(), first, Batch(env, 2 + 2 * attempt));
        LostUnfolds(State(), first, drawn, attempt, secret, now, env);
        Interfere(Batch(env, 2 + 2 * attempt));
        SeenIsFound(State(), first);
        var latest := GetUserConnectionByHash(user, Sha256(oldToken));
        if latest.None? {
          return Err(RowNotFound), call;
        }
        if latest.value.replacedAt.Some? {
          r, call := TipConnection(latest.value, secret, env, 3 + 2 * attempt);
          return r, call;
        }
        attempt := attempt + 1;
      }
      AttemptsOver(State(), first, drawn, secret, now, env);
      r := Err(TooManyCollisions);
    }

    /** Log out with a token; `ok` is a nil error. */
    method Logout(user: UserId, token: Token, now: int, env: seq<seq<Step>>)
      returns (ok: bool, ghost call: Call<LogoutEnd>)
      requires Inv(State())
      modifies this
      ensures Inv(State())
      ensures call == LogoutCall(old(State()), user, token, now, env)
      ensures State() == call.db && ok == LogoutSucceeds(call.outcome)
      ensures State() == Run(old(State()), Trace(call, env))
      ensures LoggedOut(State(), user, token, old(FirstLookup(State(), user, token, env)), call.outcome)
    {
      hide Inv, LoggedOut;
      ghost var start := State();
      call := LogoutCall(start, user, token, now, env);
      LogoutRuns(start, user, token, now, env);
      LogoutEnds(start, user, token, now, env);
      var hash := Sha256(token);
      Interfere(Batch(env, 0));
      var conn := GetUserConnectionByHash(user, hash);
      if conn.Some? && !conn.value.Live() && conn.value.replacedBy.None? {
        return true, call;
      }
      Interfere(Batch(env, 1));
      if conn.None? {
        var archived := GetUserConnectionHistory(user, hash);
        if archived.Some? && archived.value.replacedBy.Some? {
          Interfere(Batch(env, 2));
          RunOne(State(), HandleReuse(user));
          var _ := HandleConnectionReuse(user);
        }
        return true, call;
      }
      if conn.value.replacedAt.Some? && now - conn.value.replacedAt.value > REFRESH_GRACE_PERIOD {
        RunOne(State(), HandleReuse(user));
        var _ := HandleConnectionReuse(user);
        return true, call;
      }
      var seen := GetUserConnectionByHash(user, hash);
      if seen.None? {
        return false, call;
      }
      if seen.value.replacedAt.Some? {
        return true, call;
      }
      RevokeSees(State(), user, hash, Batch(env, 2));
      Interfere(Batch(env, 2));
      RunOne(State(), Revoke(user, seen.value.id));
      ok := RevokeUserConnection(user, seen.value.id);
    }

    /** Drop one connection or all of them; the count of revoked connections. */
    method DropConnection(user: UserId, target: DropTarget) returns (r: Result<nat, DropError>)
      requires Inv(State())
      modifies this
      ensures Inv(State())
      ensures target.All? ==> State() == Apply(old(State()), RevokeUsers({user})) &&
                              r == Ok(|old(LiveIds(active, {user}))|)
      ensures target.Malformed? ==> State() == old(State()) && r == Err(InvalidConnection)
      ensures active.Keys == old(active.Keys)
      ensures forall i :: i in active ==>
                var row := old(active)[i];
                active[i] == if row.user == user && row.replacedAt.None? && (target.All? || target == One(i))
                             then row.(replacedAt := Some(clock)) else row
      ensures unchanged(`history, `accounts, `resets, `clock, `used, `logins)
      ensures target.One? ==> State() == Apply(old(State()), Revoke(user, target.id)) &&
                              r == (if target.id in old(LiveIds(active, {user})) then Ok(1) else Err(NoSuchConnection))
    {
      match target
      case All =>
        var n := RevokeAllUserConnections({user});
        r := Ok(n);
      case Malformed => r := Err(InvalidConnection);
      case One(id) =>
        var ok := RevokeUserConnection(user, id);
        r := if ok then Ok(1) else Err(NoSuchConnection);
    }
  }
}
