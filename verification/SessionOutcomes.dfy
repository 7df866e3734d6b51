/** What a refresh comes to against password resets, the grace window and archiving. */
module SessionOutcomes {
  import opened Wrappers
  import opened SessionModel
  import opened SessionInvariant
  import opened SessionRuns
  import opened SessionCalls
  import opened SessionWalks

  // ------------------------------------------------------------- password resets

  lemma {:induction false} LoginsGrow(db: Db, a: seq<Step>, b: seq<Step>)
    requires Inv(db)
    ensures Inv(Run(db, a)) && Run(db, a).logins <= Run(db, a + b).logins
  {
    RunKeeps(db, a);
    RunAppend(db, a, b);
    RunExtends(Run(db, a), b);
  }

  /** After a reset the sessions from before it are dead at the end of any run through it. */
  lemma ResetInRun(
    db: Db, before: seq<Step>, later: seq<Step>, resetHash: ResetHash, passwordHash: nat, session: nat)
    requires Inv(db) && Consumable(Run(db, before), resetHash) && session < Run(db, before).logins
    ensures !Alive(Run(db, before + [ConsumeReset(resetHash, passwordHash)] + later),
                   Run(db, before).resets[resetHash].user, session)
  {
    var mid := Run(db, before);
    var step := ConsumeReset(resetHash, passwordHash);
    var user := mid.resets[resetHash].user;
    RunKeeps(db, before);
    RunAppend(db, before + [step], later);
    RunAppend(db, before, [step]);
    RunOne(mid, step);
    ApplyKeeps(mid, step);
    ApplyExtends(mid, step);
    assert !Alive(Apply(mid, step), user, session);
    DeadSessionsStayDead(Apply(mid, step), later, user, session);
  }

  lemma SplitInside<T>(a: seq<T>, b: seq<T>, c: seq<T>, d: seq<T>, q: nat)
    requires q < |b|
    ensures a + (b + c) + d == a + b[..q] + [b[q]] + (b[q + 1..] + c + d)
  {
    assert b == b[..q] + [b[q]] + b[q + 1..];
  }

  lemma {:induction false} BatchInTrace<O>(env: seq<seq<Step>>, call: Call<O>, b: nat, q: nat)
    requires b < call.made && q < |Batch(env, b)|
    ensures Trace(call, env) ==
            Batches(env, 0, b) + Batch(env, b)[..q] + [Batch(env, b)[q]]
            + (Batch(env, b)[q + 1..] + Batches(env, b + 1, call.made) + call.own)
  {
    BatchesSplit(env, 0, b, call.made);
    assert Batches(env, b, call.made) == Batch(env, b) + Batches(env, b + 1, call.made);
    SplitInside(Batches(env, 0, b), Batch(env, b), Batches(env, b + 1, call.made), call.own, q);
  }

  /** However the steps of a refresh and a password reset interleave: when the reset can be
      consumed as its turn comes, the q-th step before the b-th statement of the call, the
      refresh of a session of that user from before it is not served. */
  lemma ResetRefusesRefresh(
    db: Db, user: UserId, token: Token, secret: nat, now: int, drawn: seq<ConnId>, env: seq<seq<Step>>,
    b: nat, q: nat, resetHash: ResetHash, passwordHash: nat)
    requires Inv(db) && drawn != []
    requires b < Refresh(db, user, token, secret, now, drawn, env).made && q < |Batch(env, b)|
    requires Batch(env, b)[q] == ConsumeReset(resetHash, passwordHash)
    requires var mid := Run(db, Batches(env, 0, b) + Batch(env, b)[..q]);
             var found := FirstLookup(db, user, token, env);
             && Consumable(mid, resetHash) && mid.resets[resetHash].user == user
             && (b == 0 && found.Some? ==> found.value.session < mid.logins)
    ensures var call := Refresh(db, user, token, secret, now, drawn, env);
            var r := Answer(call.outcome, secret);
            && !r.Ok?
            && (r == Err(ConnectionNotFound) ||
                (r == Err(RowNotFound) && FirstLookup(db, user, token, env).value.id !in call.db.active))
  {
    hide Inv, Seen, Ended, Explained, Refresh, FirstLookup, Consumable, Answer;
    var call := Refresh(db, user, token, secret, now, drawn, env);
    var found := FirstLookup(db, user, token, env);
    var before := Batches(env, 0, b) + Batch(env, b)[..q];
    RefreshRuns(db, user, token, secret, now, drawn, env);
    RefreshEnds(db, user, token, secret, now, drawn, env);
    LookupIsSeen(db, user, token, env);
    if found.None? {
      NoRowAnswer(secret);
    } else {
      var first := found.value;
      SeenLogin(Run(db, Batch(env, 0)), first);
      if b > 0 {
        var more := Batches(env, 1, b) + Batch(env, b)[..q];
        assert before == Batch(env, 0) + more;
        LoginsGrow(db, Batch(env, 0), more);
      }
      BatchInTrace(env, call, b, q);
      ResetInRun(db, before, Batch(env, b)[q + 1..] + Batches(env, b + 1, call.made) + call.own,
                 resetHash, passwordHash, first.session);
      DeadIsRefused(call.db, first, secret, Answer(call.outcome, secret));
    }
  }

  lemma NoRowAnswer(secret: nat)
    ensures Answer(NoRow, secret) == Err(ConnectionNotFound)
  {
  }

  lemma DeadIsRefused(db: Db, first: Connection, secret: nat, r: Result<(Token, ConnId), RefreshError>)
    requires Explained(db, first, secret, r) && Seen(db, first) && !Alive(db, first.user, first.session)
    ensures r == Err(ConnectionNotFound) || (r == Err(RowNotFound) && first.id !in db.active)
  {
  }

  /** A refresh of a live row makes its compare-and-swap: what is done before it counts. */
  lemma LiveRowIsSwapped(
    db: Db, user: UserId, token: Token, secret: nat, now: int, drawn: seq<ConnId>, env: seq<seq<Step>>)
    requires Inv(db) && drawn != []
    requires var found := FirstLookup(db, user, token, env); found.Some? && found.value.Live()
    ensures Refresh(db, user, token, secret, now, drawn, env).made >= 2
  {
    hide Inv, Seen, NamesRow, Walk, Attempts, Lost, FirstLookup, Refresh, Wins;
    RefreshUnfolds(db, user, token, secret, now, drawn, env);
    var start := Run(db, Batch(env, 0));
    var first := FirstLookup(db, user, token, env).value;
    AttemptUnfolds(start, first, drawn, 0, secret, now, env);
    LostRuns(Run(start, Batch(env, 1)), first, drawn, 0, secret, now, env);
  }

  /** So a reset that commits between the lookup and the compare-and-swap is in time. */
  lemma ResetBeforeSwap(
    db: Db, user: UserId, token: Token, secret: nat, now: int, drawn: seq<ConnId>, env: seq<seq<Step>>,
    resetHash: ResetHash, passwordHash: nat)
    requires Inv(db) && drawn != [] && env == [[], [ConsumeReset(resetHash, passwordHash)]]
    requires Consumable(db, resetHash) && db.resets[resetHash].user == user
    requires var found := FirstLookup(db, user, token, env); found.Some? && found.value.Live()
    ensures !Answer(Refresh(db, user, token, secret, now, drawn, env).outcome, secret).Ok?
  {
    hide Inv, FirstLookup, Refresh;
    LiveRowIsSwapped(db, user, token, secret, now, drawn, env);
    assert Batches(env, 0, 1) + Batch(env, 1)[..0] == [];
    ResetRefusesRefresh(db, user, token, secret, now, drawn, env, 1, 0, resetHash, passwordHash);
  }

  // ---------------------------------------------------------------- grace window

  /** A token replaced already is served exactly when its session is alive and the walk does
      not break: the grace window plays no part. So a token the session check refuses is
      served exactly when moreover its row was rotated longer ago than the window, or has
      been archived meanwhile. */
  lemma GraceWindowIsNotChecked(
    db: Db, user: UserId, token: Token, secret: nat, now: int, drawn: seq<ConnId>, env: seq<seq<Step>>)
    requires Inv(db) && drawn != []
    requires var found := FirstLookup(db, user, token, env);
             && found.Some? && found.value.replacedAt.Some?
             && !OtherSecret(Refresh(db, user, token, secret, now, drawn, env).db, user, found.value.session, secret)
    ensures var call := Refresh(db, user, token, secret, now, drawn, env);
            var first := FirstLookup(db, user, token, env).value;
            var r := Answer(call.outcome, secret);
            var broken := Broken(Run(db, Batch(env, 0)), first, env, 1, false);
            && (r.Ok? <==> Alive(call.db, user, first.session) && !broken)
            && (r.Ok? && CheckUserConnection(call.db, user, Sha256(token), now) != Accepted <==>
                  Alive(call.db, user, first.session) && !broken &&
                  (first.id !in call.db.active || now - first.replacedAt.value > REFRESH_GRACE_PERIOD))
  {
    hide Inv, Seen, Ended, Explained, Refresh, FirstLookup, FindByHash, NamesRow, CheckUserConnection, OtherSecret,
      Broken, Walk, Attempts, Alive;
    var start := Run(db, Batch(env, 0));
    var call := Refresh(db, user, token, secret, now, drawn, env);
    var first := FirstLookup(db, user, token, env).value;
    RefreshEnds(db, user, token, secret, now, drawn, env);
    RefreshUnfolds(db, user, token, secret, now, drawn, env);
    WalkVanishesExactly(start, first, env, 1);
    WalkRuns(start, first, env, 1);
    WalkedAnswer(call.db, first, secret, call.outcome);
    ReplacedCheck(call.db, first, now);
    UnlinkedIsDead(call.db, first);
  }

  /** A revoked row still in the table: its session is dead. */
  lemma UnlinkedIsDead(db: Db, first: Connection)
    requires Inv(db) && Seen(db, first) && first.replacedAt.Some?
    ensures first.id in db.active && first.replacedBy.None? ==> !Alive(db, first.user, first.session)
  {
    if first.id in db.active && first.replacedBy.None? {
      TerminalMeansDead(db, first);
    }
  }

  lemma WalkedAnswer(db: Db, first: Connection, secret: nat, o: Outcome)
    requires (o.Reached? || o.Vanished?) && Ended(db, first, secret, o)
    requires !OtherSecret(db, first.user, first.session, secret)
    ensures Answer(o, secret).Ok? <==> Alive(db, first.user, first.session) && !o.Vanished?
  {
  }

  /** The session check on a row seen replaced: its verdict, or a refusal once it is archived. */
  lemma ReplacedCheck(db: Db, first: Connection, now: int)
    requires Inv(db) && Seen(db, first) && NamesRow(first) && first.replacedAt.Some?
    ensures CheckUserConnection(db, first.user, first.hash, now) == Accepted
            <==> first.id in db.active && first.replacedBy.Some? && now - first.replacedAt.value <= REFRESH_GRACE_PERIOD
    ensures first.id in db.active && first.replacedBy.Some? && now - first.replacedAt.value > REFRESH_GRACE_PERIOD ==>
              CheckUserConnection(db, first.user, first.hash, now) == Reused
  {
    SeenIsFound(db, first);
  }

  // ------------------------------------------------------------- prompt refreshes

  /** The earliest time at which the presented row can have been replaced. */
  ghost function ReplacedNoEarlierThan(start: Db, first: Connection): int {
    if first.replacedAt.Some? then first.replacedAt.value else start.clock
  }

  ghost predicate ArchivesOnlyBefore(trace: seq<Step>, bound: int) {
    forall step :: step in trace && step.Archive? ==> step.cutoff <= bound
  }

  lemma {:induction false} YoungRowStays(db: Db, trace: seq<Step>, i: ConnId, bound: int)
    requires Inv(db) && i in db.active && ArchivesOnlyBefore(trace, bound)
    requires db.active[i].replacedAt.None? ==> bound <= db.clock
    requires db.active[i].replacedAt.Some? ==> bound <= db.active[i].replacedAt.value
    ensures i in Run(db, trace).active
    decreases |trace|
  {
    if trace != [] {
      ApplyKeeps(db, trace[0]);
      ApplyExtends(db, trace[0]);
      RowFate(db, trace[0], i);
      YoungRowStays(Apply(db, trace[0]), trace[1..], i, bound);
    }
  }

  /** Every maintenance run of `trace` archives only what its delay allows at that time. */
  ghost predicate RespectsDelay(db: Db, trace: seq<Step>)
    decreases |trace|
  {
    trace == [] ||
    ((trace[0].Archive? ==> trace[0].cutoff <= db.clock - CONNECTION_ARCHIVE_DELAY) &&
     RespectsDelay(Apply(db, trace[0]), trace[1..]))
  }

  lemma {:induction false} DelayBoundsCutoffs(db: Db, trace: seq<Step>)
    requires Inv(db) && RespectsDelay(db, trace)
    ensures ArchivesOnlyBefore(trace, Run(db, trace).clock - CONNECTION_ARCHIVE_DELAY)
    decreases |trace|
  {
    if trace != [] {
      ApplyKeeps(db, trace[0]);
      RunExtends(db, trace);
      DelayBoundsCutoffs(Apply(db, trace[0]), trace[1..]);
      forall step | step in trace && step.Archive?
        ensures step.cutoff <= Run(db, trace).clock - CONNECTION_ARCHIVE_DELAY
      {
        assert step == trace[0] || step in trace[1..];
      }
    }
  }

  /** A refresh that ends within the archiving delay of its row's replacement, or of its
      first lookup when the row was live, is exact: it is refused for want of a session
      exactly when the session is dead, and the lookup after a lost race finds its row. */
  lemma PromptRefreshIsExact(
    db: Db, user: UserId, token: Token, secret: nat, now: int, drawn: seq<ConnId>, env: seq<seq<Step>>)
    requires Inv(db) && drawn != [] && FirstLookup(db, user, token, env).Some?
    requires var call := Refresh(db, user, token, secret, now, drawn, env);
             var start := Run(db, Batch(env, 0));
             && RespectsDelay(start, Batches(env, 1, call.made) + call.own)
             && call.db.clock <= ReplacedNoEarlierThan(start, FirstLookup(db, user, token, env).value)
                                 + CONNECTION_ARCHIVE_DELAY
    ensures var call := Refresh(db, user, token, secret, now, drawn, env);
            var first := FirstLookup(db, user, token, env).value;
            var r := Answer(call.outcome, secret);
            && first.id in call.db.active
            && (r == Err(ConnectionNotFound) <==> !Alive(call.db, user, first.session))
            && r != Err(RowNotFound)
  {
    hide Inv, Seen, Ended, Explained, Refresh, FirstLookup, RespectsDelay, NamesRow, ArchivesOnlyBefore;
    var call := Refresh(db, user, token, secret, now, drawn, env);
    var first := FirstLookup(db, user, token, env).value;
    var start := Run(db, Batch(env, 0));
    var later := Batches(env, 1, call.made) + call.own;
    RefreshRuns(db, user, token, secret, now, drawn, env);
    RefreshEnds(db, user, token, secret, now, drawn, env);
    LookupIsSeen(db, user, token, env);
    assert Trace(call, env) == Batch(env, 0) + later;
    RunAppend(db, Batch(env, 0), later);
    DelayBoundsCutoffs(start, later);
    YoungRowStays(start, later, first.id, call.db.clock - CONNECTION_ARCHIVE_DELAY);
    PresentRowAnswer(call.db, first, secret, Answer(call.outcome, secret));
  }

  lemma PresentRowAnswer(db: Db, first: Connection, secret: nat, r: Result<(Token, ConnId), RefreshError>)
    requires Explained(db, first, secret, r) && Seen(db, first) && first.id in db.active
    ensures r == Err(ConnectionNotFound) <==> !Alive(db, first.user, first.session)
    ensures r != Err(RowNotFound)
  {
    if r.Ok? {
      assert db.active[r.value.1].Live();
    }
  }

  /** What a refresh serves is the tip of the chain of the presented row. */
  lemma ServedIsTheTip(
    db: Db, user: UserId, token: Token, secret: nat, now: int, drawn: seq<ConnId>, env: seq<seq<Step>>)
    requires Inv(db) && drawn != []
    ensures var call := Refresh(db, user, token, secret, now, drawn, env);
            var found := FirstLookup(db, user, token, env);
            var r := Answer(call.outcome, secret);
            Inv(call.db) &&
            (r.Ok? ==> found.Some? && (found.value.id in call.db.active ==> Tip(call.db, found.value.id) == r.value.1))
  {
    hide Inv, Seen, Ended, Explained, Refresh, FirstLookup, Answer;
    RefreshEnds(db, user, token, secret, now, drawn, env);
    NoRowAnswer(secret);
    var call := Refresh(db, user, token, secret, now, drawn, env);
    var found := FirstLookup(db, user, token, env);
    var r := Answer(call.outcome, secret);
    if r.Ok? && found.value.id in call.db.active {
      LiveRowIsTip(call.db, found.value, secret, r);
    }
  }

  lemma LiveRowIsTip(db: Db, first: Connection, secret: nat, r: Result<(Token, ConnId), RefreshError>)
    requires Inv(db) && Seen(db, first) && first.id in db.active && r.Ok? && Explained(db, first, secret, r)
    ensures Tip(db, first.id) == r.value.1
  {
    TipServesLiveSession(db, first.id);
    assert db.active[r.value.1].Live();
    assert Peers(db.active, Tip(db, first.id), r.value.1) && Peers(db.active, r.value.1, Tip(db, first.id));
  }

  lemma {:induction false} NoBatches(i: nat, j: nat)
    ensures Batches([], i, j) == []
    decreases j - i
  {
    if i < j {
      NoBatches(i + 1, j);
    }
  }

  /** Left alone, a refresh leaves every user's number of live connections as it was. */
  lemma QuietRefreshConserves(
    db: Db, user: UserId, token: Token, secret: nat, now: int, drawn: seq<ConnId>, u: UserId)
    requires Inv(db)
    ensures |LiveIds(Refresh(db, user, token, secret, now, drawn, []).db.active, {u})| == |LiveIds(db.active, {u})|
  {
    hide Inv, Refresh, ApplyRotate;
    var call := Refresh(db, user, token, secret, now, drawn, []);
    RefreshRuns(db, user, token, secret, now, drawn, []);
    NoBatches(0, call.made);
    assert Trace(call, []) == call.own;
    match call.outcome
    case Rotated(first, id, issuedAt) =>
      RunOne(db, call.own[0]);
      RotateConservesLiveConnections(db, first.user, first.hash, id, issuedAt, secret, u);
    case _ => assert call.db == db;
  }

  lemma {:induction false} QuietAttempts(
    db: Db, first: Connection, drawn: seq<ConnId>, a: nat, k: nat, secret: nat, now: int)
    requires Inv(db) && Seen(db, first) && NamesRow(first) && first.Live()
    requires first.id in db.active && db.active[first.id] == first
    requires a <= k < |drawn| && drawn[k] !in db.used && forall b :: a <= b < k ==> drawn[b] in db.used
    ensures var won := Rotated(first, drawn[k], now + k * 1_000_000);
            Attempts(db, first, drawn, a, secret, now, []) ==
              Call(Run(db, Own(won, secret)), 2 + 2 * k, Own(won, secret), won)
    decreases k - a
  {
    hide Inv, Seen, NamesRow, Attempts, Lost, Own;
    AttemptUnfolds(db, first, drawn, a, secret, now, []);
    if a < k {
      LostUnfolds(db, first, drawn, a, secret, now, []);
      QuietAttempts(db, first, drawn, a + 1, k, secret, now);
    }
  }

  /** Left alone, a refresh with the token of a live row rotates it: with the first id drawn
      that is new, at the present time plus a second for each id drawn before. The old row
      is replaced by a row of the same user and login, and the token in the answer is that
      row's. Nothing else changes. */
  lemma QuietRefreshAnswers(
    db: Db, user: UserId, token: Token, secret: nat, now: int, drawn: seq<ConnId>, first: Connection, k: nat)
    requires Inv(db) && first.id in db.active && db.active[first.id] == first && first.replacedAt.None?
    requires HasHash(first, user, Sha256(token))
    requires k < |drawn| && drawn[k] !in db.used && forall b :: 0 <= b < k ==> drawn[b] in db.used
    ensures var call := Refresh(db, user, token, secret, now, drawn, []);
            var issuedAt := now + k * 1_000_000;
            var renewed := Session(user, drawn[k], issuedAt / 1_000_000, secret);
            && call.outcome == Rotated(first, drawn[k], issuedAt)
            && Answer(call.outcome, secret) == Ok((renewed, drawn[k]))
            && call.db == db.(
                 used := db.used + {drawn[k]},
                 active := db.active[first.id := first.(replacedAt := Some(db.clock), replacedBy := Some(drawn[k]))]
                                    [drawn[k] := Connection(drawn[k], user, Sha256(renewed), issuedAt, db.clock,
                                                            None, None, first.session, first.generation + 1)])
  {
    hide Inv, Seen, NamesRow, Attempts, Walk;
    RowIsSeen(db, first.id);
    FindByHashExact(db, user, Sha256(token));
    RefreshUnfolds(db, user, token, secret, now, drawn, []);
    QuietAttempts(db, first, drawn, 0, k, secret, now);
    SwapOutcome(db, first, drawn[k], now + k * 1_000_000, secret);
    OnlyRepeatedIdsCollide(db, drawn[k], user, now + k * 1_000_000, secret);
  }
}
