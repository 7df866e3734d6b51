/** Refreshes that archiving overtakes: exactly when the lookup after a lost race finds no
    row, and when a live session is not found. */
module SessionRaces {
  import opened Wrappers
  import opened SessionModel
  import opened SessionInvariant
  import opened SessionRuns
  import opened SessionCalls
  import opened SessionOutcomes
  import opened SessionWalks

  // ------------------------------------------------ when the second lookup fails

  /** The tables just before the b-th compare-and-swap of a refresh that found `start`, and
      just before the lookup after it, while the call has done nothing itself. */
  ghost function AtSwap(start: Db, env: seq<seq<Step>>, b: nat): Db {
    Run(start, Batches(env, 1, 2 + 2 * b))
  }

  ghost function AtLookup(start: Db, env: seq<seq<Step>>, b: nat): Db {
    Run(start, Batches(env, 1, 3 + 2 * b))
  }

  /** Attempt b loses its race, and each attempt from a up to it loses to a repeated id. */
  ghost predicate LostUpTo(start: Db, first: Connection, drawn: seq<ConnId>, env: seq<seq<Step>>, a: nat, b: nat) {
    && a <= b < |drawn|
    && (forall c :: a <= c <= b ==> !Wins(AtSwap(start, env, c), first, drawn[c]))
    && (forall c :: a <= c < b ==> StillLive(AtLookup(start, env, c), first))
  }

  /** After it the row is gone. */
  ghost predicate GoneAt(start: Db, first: Connection, drawn: seq<ConnId>, env: seq<seq<Step>>, a: nat, b: nat) {
    LostUpTo(start, first, drawn, env, a, b) && first.id !in AtLookup(start, env, b).active
  }

  /** After it the row is replaced, and the walk from it breaks. */
  ghost predicate BreaksAt(
    start: Db, first: Connection, drawn: seq<ConnId>, env: seq<seq<Step>>, a: nat, b: nat, living: bool)
  {
    && LostUpTo(start, first, drawn, env, a, b)
    && first.id in AtLookup(start, env, b).active
    && var row := AtLookup(start, env, b).active[first.id];
       row.replacedAt.Some? && Broken(AtLookup(start, env, b), row, env, 3 + 2 * b, living)
  }

  ghost predicate LosesRow(start: Db, first: Connection, drawn: seq<ConnId>, env: seq<seq<Step>>, a: nat) {
    exists b :: GoneAt(start, first, drawn, env, a, b)
  }

  ghost predicate LosesSuccessor(
    start: Db, first: Connection, drawn: seq<ConnId>, env: seq<seq<Step>>, a: nat, living: bool)
  {
    exists b :: BreaksAt(start, first, drawn, env, a, b, living)
  }

  lemma {:induction false} NextTables(start: Db, env: seq<seq<Step>>, a: nat)
    ensures AtSwap(start, env, a) == Run(Run(start, Batches(env, 1, 1 + 2 * a)), Batch(env, 1 + 2 * a))
    ensures AtLookup(start, env, a) == Run(AtSwap(start, env, a), Batch(env, 2 + 2 * a))
  {
    hide Run, Batches, Batch;
    LastBatch(start, env, 1 + 2 * a);
    LastBatch(start, env, 2 + 2 * a);
  }

  lemma {:induction false} LastBatch(start: Db, env: seq<seq<Step>>, k: nat)
    requires k >= 1
    ensures Run(start, Batches(env, 1, k + 1)) == Run(Run(start, Batches(env, 1, k)), Batch(env, k))
  {
    BatchesSplit(env, 1, k, k + 1);
    assert Batches(env, k, k + 1) == Batch(env, k) + Batches(env, k + 1, k + 1);
    assert Batches(env, k + 1, k + 1) == [] && Batch(env, k) + [] == Batch(env, k);
    RunAppend(start, Batches(env, 1, k), Batch(env, k));
  }

  lemma {:induction false} AttemptsLoseRow(
    start: Db, first: Connection, drawn: seq<ConnId>, a: nat, secret: nat, now: int, env: seq<seq<Step>>)
    requires var db := Run(start, Batches(env, 1, 1 + 2 * a));
             Inv(db) && Seen(db, first) && NamesRow(first) && a <= |drawn|
    ensures Attempts(Run(start, Batches(env, 1, 1 + 2 * a)), first, drawn, a, secret, now, env).outcome.RowGone?
            <==> LosesRow(start, first, drawn, env, a)
    decreases |drawn| - a
  {
    hide Inv, Seen, NamesRow, Wins, Attempts, Lost, Walk, AtSwap, AtLookup, Run;
    var db := Run(start, Batches(env, 1, 1 + 2 * a));
    if a == |drawn| {
      AttemptsOver(db, first, drawn, secret, now, env);
    } else {
      var swap, lookup := AtSwap(start, env, a), AtLookup(start, env, a);
      NextTables(start, env, a);
      AttemptUnfolds(db, first, drawn, a, secret, now, env);
      LostUnfolds(swap, first, drawn, a, secret, now, env);
      if Wins(swap, first, drawn[a]) {
      } else if first.id !in lookup.active {
        assert GoneAt(start, first, drawn, env, a, a);
      } else if lookup.active[first.id].Live() {
        AtLookupIs(start, env, a);
        AttemptsLoseRow(start, first, drawn, a + 1, secret, now, env);
        LaterLoses(start, first, drawn, env, a, false);
      } else {
        WalkRuns(lookup, lookup.active[first.id], env, 3 + 2 * a);
      }
    }
  }

  lemma AtLookupIs(start: Db, env: seq<seq<Step>>, a: nat)
    ensures AtLookup(start, env, a) == Run(start, Batches(env, 1, 1 + 2 * (a + 1)))
  {
  }

  /** What later attempts come to does not depend on a turn lost to a repeated id. */
  lemma LaterLoses(start: Db, first: Connection, drawn: seq<ConnId>, env: seq<seq<Step>>, a: nat, living: bool)
    requires a < |drawn| && !Wins(AtSwap(start, env, a), first, drawn[a]) && StillLive(AtLookup(start, env, a), first)
    ensures LosesRow(start, first, drawn, env, a) <==> LosesRow(start, first, drawn, env, a + 1)
    ensures LosesSuccessor(start, first, drawn, env, a, living) <==>
            LosesSuccessor(start, first, drawn, env, a + 1, living)
  {
    hide Wins, AtSwap, AtLookup, Broken;
    var next: nat := a + 1;
    forall b ensures GoneAt(start, first, drawn, env, a, b) <==> GoneAt(start, first, drawn, env, next, b) {
      LostLater(start, first, drawn, env, a, b);
    }
    forall b ensures BreaksAt(start, first, drawn, env, a, b, living) <==>
                     BreaksAt(start, first, drawn, env, next, b, living) {
      LostLater(start, first, drawn, env, a, b);
    }
  }

  lemma LostLater(start: Db, first: Connection, drawn: seq<ConnId>, env: seq<seq<Step>>, a: nat, b: nat)
    requires a < |drawn| && !Wins(AtSwap(start, env, a), first, drawn[a]) && StillLive(AtLookup(start, env, a), first)
    ensures b != a ==>
              (LostUpTo(start, first, drawn, env, a, b) <==> LostUpTo(start, first, drawn, env, a + 1, b))
  {
    hide Wins, AtSwap, AtLookup, StillLive;
  }

  /** A refresh ends in the bare lookup error exactly when its row was live at first, lost
      some compare-and-swap (all before it only to repeated ids), and had left the table at
      the lookup after it. */
  lemma RowNotFoundExactly(
    db: Db, user: UserId, token: Token, secret: nat, now: int, drawn: seq<ConnId>, env: seq<seq<Step>>)
    requires Inv(db) && FirstLookup(db, user, token, env).Some?
    ensures var start := Run(db, Batch(env, 0));
            var first := FirstLookup(db, user, token, env).value;
            Answer(Refresh(db, user, token, secret, now, drawn, env).outcome, secret) == Err(RowNotFound)
            <==> first.Live() && LosesRow(start, first, drawn, env, 0)
  {
    hide Inv, Seen, NamesRow, Attempts, Walk, FirstLookup, Refresh, LosesRow, Run;
    var start := Run(db, Batch(env, 0));
    var first := FirstLookup(db, user, token, env).value;
    RefreshUnfolds(db, user, token, secret, now, drawn, env);
    if first.Live() {
      NoStatementsYet(start, env);
      AttemptsLoseRow(start, first, drawn, 0, secret, now, env);
    } else {
      WalkRuns(start, first, env, 1);
    }
  }

  lemma NoStatementsYet(start: Db, env: seq<seq<Step>>)
    ensures Run(start, Batches(env, 1, 1)) == start
  {
  }

  lemma {:induction false} AttemptsLoseSuccessor(
    start: Db, first: Connection, drawn: seq<ConnId>, a: nat, secret: nat, now: int, env: seq<seq<Step>>, living: bool)
    requires var db := Run(start, Batches(env, 1, 1 + 2 * a));
             Inv(db) && Seen(db, first) && NamesRow(first) && a <= |drawn|
    ensures var call := Attempts(Run(start, Batches(env, 1, 1 + 2 * a)), first, drawn, a, secret, now, env);
            (call.outcome.Vanished? && (living ==> Alive(call.db, first.user, first.session)))
            <==> LosesSuccessor(start, first, drawn, env, a, living)
    decreases |drawn| - a
  {
    hide Inv, Seen, NamesRow, Wins, Attempts, Lost, Walk, AtSwap, AtLookup, Run, Broken, Alive;
    var db := Run(start, Batches(env, 1, 1 + 2 * a));
    if a == |drawn| {
      AttemptsOver(db, first, drawn, secret, now, env);
    } else {
      var swap, lookup := AtSwap(start, env, a), AtLookup(start, env, a);
      NextTables(start, env, a);
      AttemptUnfolds(db, first, drawn, a, secret, now, env);
      LostUnfolds(swap, first, drawn, a, secret, now, env);
      if Wins(swap, first, drawn[a]) {
      } else if first.id !in lookup.active {
      } else if lookup.active[first.id].Live() {
        AtLookupIs(start, env, a);
        AttemptsLoseSuccessor(start, first, drawn, a + 1, secret, now, env, living);
        LaterLoses(start, first, drawn, env, a, living);
      } else {
        var row := lookup.active[first.id];
        LookedUpAgain(lookup, first);
        WalkVanishesExactly(lookup, row, env, 3 + 2 * a);
        OnlyThisAttempt(start, first, drawn, env, a, living);
      }
    }
  }

  /** A row found replaced ends the attempts. */
  lemma OnlyThisAttempt(start: Db, first: Connection, drawn: seq<ConnId>, env: seq<seq<Step>>, a: nat, living: bool)
    requires a < |drawn| && !Wins(AtSwap(start, env, a), first, drawn[a])
    requires first.id in AtLookup(start, env, a).active && !AtLookup(start, env, a).active[first.id].Live()
    ensures LosesSuccessor(start, first, drawn, env, a, living) <==>
            Broken(AtLookup(start, env, a), AtLookup(start, env, a).active[first.id], env, 3 + 2 * a, living)
  {
    hide Wins, AtSwap, AtLookup, Broken;
    forall b: nat | BreaksAt(start, first, drawn, env, a, b, living) ensures b == a {
      assert b > a ==> StillLive(AtLookup(start, env, a), first);
    }
    assert BreaksAt(start, first, drawn, env, a, a, living) <==>
           Broken(AtLookup(start, env, a), AtLookup(start, env, a).active[first.id], env, 3 + 2 * a, living);
  }

  /** The walk of a refresh breaks: from the presented row, or from that row as the lookup
      after a lost race found it. With `living`, it does so while the session is alive. */
  ghost predicate RefreshBreaks(
    start: Db, first: Connection, drawn: seq<ConnId>, env: seq<seq<Step>>, living: bool)
  {
    if first.replacedAt.Some? then Broken(start, first, env, 1, living)
    else LosesSuccessor(start, first, drawn, env, 0, living)
  }

  /** A refresh finds a successor gone exactly when its walk breaks, and is answered
      ErrConnectionNotFound for a live session exactly when it breaks while that is alive. */
  lemma NotFoundAliveExactly(
    db: Db, user: UserId, token: Token, secret: nat, now: int, drawn: seq<ConnId>, env: seq<seq<Step>>)
    requires Inv(db) && drawn != [] && FirstLookup(db, user, token, env).Some?
    ensures var start := Run(db, Batch(env, 0));
            var first := FirstLookup(db, user, token, env).value;
            var call := Refresh(db, user, token, secret, now, drawn, env);
            && (call.outcome.Vanished? <==> RefreshBreaks(start, first, drawn, env, false))
            && (Answer(call.outcome, secret) == Err(ConnectionNotFound) && Alive(call.db, user, first.session)
                <==> RefreshBreaks(start, first, drawn, env, true))
  {
    hide Inv, Seen, NamesRow, Attempts, Walk, FirstLookup, Refresh, LosesSuccessor, Broken, Run, Alive, Ended,
      Explained;
    var start := Run(db, Batch(env, 0));
    var first := FirstLookup(db, user, token, env).value;
    var call := Refresh(db, user, token, secret, now, drawn, env);
    RefreshUnfolds(db, user, token, secret, now, drawn, env);
    RefreshEnds(db, user, token, secret, now, drawn, env);
    NotFoundWhy(call.db, first, secret, call.outcome);
    if first.Live() {
      NoStatementsYet(start, env);
      AttemptsLoseSuccessor(start, first, drawn, 0, secret, now, env, false);
      AttemptsLoseSuccessor(start, first, drawn, 0, secret, now, env, true);
    } else {
      WalkVanishesExactly(start, first, env, 1);
    }
  }

  lemma NotFoundWhy(db: Db, first: Connection, secret: nat, o: Outcome)
    requires Ended(db, first, secret, o)
    ensures Answer(o, secret) == Err(ConnectionNotFound) && Alive(db, first.user, first.session)
            <==> o.Vanished? && Alive(db, first.user, first.session)
  {
  }

  /** With an id never drawn before that is: the row was live when first read, replaced or
      gone at the compare-and-swap, and gone at the second lookup. */
  lemma RowNotFoundPlainly(
    db: Db, user: UserId, token: Token, secret: nat, now: int, drawn: seq<ConnId>, env: seq<seq<Step>>)
    requires Inv(db) && FirstLookup(db, user, token, env).Some?
    requires drawn != [] && drawn[0] !in AtSwap(Run(db, Batch(env, 0)), env, 0).used
    ensures var start := Run(db, Batch(env, 0));
            var first := FirstLookup(db, user, token, env).value;
            Answer(Refresh(db, user, token, secret, now, drawn, env).outcome, secret) == Err(RowNotFound)
            <==> first.Live() && !StillLive(AtSwap(start, env, 0), first) && first.id !in AtLookup(start, env, 0).active
  {
    hide Inv, Seen, NamesRow, FirstLookup, Refresh, AtSwap, AtLookup, Answer;
    var start := Run(db, Batch(env, 0));
    var first := FirstLookup(db, user, token, env).value;
    RowNotFoundExactly(db, user, token, secret, now, drawn, env);
    LookupIsSeen(db, user, token, env);
    if !StillLive(AtSwap(start, env, 0), first) {
      LostStaysLost(start, env, first);
      forall b | GoneAt(start, first, drawn, env, 0, b) ensures b == 0 {
      }
      if first.id !in AtLookup(start, env, 0).active {
        assert GoneAt(start, first, drawn, env, 0, 0);
      }
    }
  }

  lemma LostStaysLost(start: Db, env: seq<seq<Step>>, first: Connection)
    requires Inv(start) && Seen(start, first) && !StillLive(AtSwap(start, env, 0), first)
    ensures !StillLive(AtLookup(start, env, 0), first)
  {
    hide Inv, Seen, Extends, StillLive, Run;
    NextTables(start, env, 0);
    AfterBatch(start, first, Batches(env, 1, 2));
    RunExtends(AtSwap(start, env, 0), Batch(env, 2));
    NeverLiveAgain(AtSwap(start, env, 0), AtLookup(start, env, 0), first);
  }

  lemma NeverLiveAgain(db: Db, db': Db, seen: Connection)
    requires Seen(db, seen) && Extends(db, db') && !StillLive(db, seen)
    ensures !StillLive(db', seen)
  {
  }

  // -------------------------------------------------- when archiving overtakes

  /** A rotation of `conn`, more than twelve hours, and a maintenance run. */
  function RotateThenArchive(conn: Connection, clock: int, newId: ConnId): seq<Step> {
    var later := clock + CONNECTION_ARCHIVE_DELAY + 1;
    [Rotate(conn.user, conn.hash, newId, 0, 0), Tick(later), Archive(later - CONNECTION_ARCHIVE_DELAY)]
  }

  lemma RotatingALiveRow(db: Db, i: ConnId, newId: ConnId, issuedAt: int, secret: nat)
    requires Inv(db) && i in db.active && db.active[i].Live() && newId !in db.used
    ensures var conn := db.active[i];
            var a := ApplyRotate(db, conn.user, conn.hash, newId, issuedAt, secret);
            var hash := Sha256(GenerateSessionToken(conn.user, newId, issuedAt, secret));
            && Inv(a) && newId != i
            && a == db.(active := db.active[i := conn.(replacedAt := Some(db.clock), replacedBy := Some(newId))]
                                           [newId := Connection(newId, conn.user, hash, issuedAt, db.clock, None, None,
                                                                conn.session, conn.generation + 1)],
                        used := db.used + {newId})
  {
    var conn := db.active[i];
    assert HasHash(conn, conn.user, conn.hash);
    FindByHashExact(db, conn.user, conn.hash);
    OnlyRepeatedIdsCollide(db, newId, conn.user, issuedAt, secret);
    RotateKeeps(db, conn.user, conn.hash, newId, issuedAt, secret);
  }

  lemma RunThree(db: Db, steps: seq<Step>)
    requires |steps| == 3
    ensures Run(db, steps) == Apply(Apply(Apply(db, steps[0]), steps[1]), steps[2])
  {
    hide Apply;
    assert steps[1..][1..] == [steps[2]] && [steps[2]][1..] == [];
    assert Run(db, steps) == Run(Apply(db, steps[0]), steps[1..]);
    assert Run(Apply(db, steps[0]), steps[1..]) == Run(Apply(Apply(db, steps[0]), steps[1]), [steps[2]]);
    RunOne(Apply(Apply(db, steps[0]), steps[1]), steps[2]);
  }

  /** Any live row leaves the table that way, and its session lives on. */
  lemma LiveRowCanLeave(db: Db, i: ConnId, newId: ConnId)
    requires Inv(db) && i in db.active && db.active[i].Live() && newId !in db.used
    ensures var end := Run(db, RotateThenArchive(db.active[i], db.clock, newId));
            i !in end.active && Alive(end, db.active[i].user, db.active[i].session)
  {
    hide Inv, ApplyRotate, ApplyArchive;
    var steps := RotateThenArchive(db.active[i], db.clock, newId);
    RotatingALiveRow(db, i, newId, 0, 0);
    var a := Apply(db, steps[0]);
    var b := Apply(a, steps[1]);
    assert b == a.(clock := steps[1].to);
    ApplyKeeps(a, steps[1]);
    ArchiveResult(b, steps[2].cutoff);
    RunThree(db, steps);
    var end := Apply(b, steps[2]);
    assert i in Archivable(b.active, steps[2].cutoff);
    assert newId in end.active && end.active[newId].Live();
  }

  /** A token held by the row of the first lookup. */
  ghost predicate Presents(db: Db, i: ConnId, user: UserId, token: Token) {
    i in db.active && HasHash(db.active[i], user, Sha256(token))
  }

  lemma PresentedIsFound(db: Db, i: ConnId, user: UserId, token: Token, env: seq<seq<Step>>)
    requires Inv(db) && Presents(db, i, user, token) && Batch(env, 0) == []
    ensures FirstLookup(db, user, token, env) == Some(db.active[i])
    ensures db.active[i].id == i && Seen(db, db.active[i]) && NamesRow(db.active[i])
  {
    FindByHashExact(db, user, Sha256(token));
    RowIsSeen(db, i);
  }

  /** A refresh whose row leaves the table between its lookup and its compare-and-swap ends
      in the bare lookup error although the session is alive. */
  lemma RaceLosesRow(
    db: Db, i: ConnId, user: UserId, token: Token, secret: nat, now: int, drawn: seq<ConnId>, newId: ConnId)
    requires Inv(db) && Presents(db, i, user, token) && db.active[i].Live() && newId !in db.used && drawn != []
    ensures var env := [[], RotateThenArchive(db.active[i], db.clock, newId)];
            var call := Refresh(db, user, token, secret, now, drawn, env);
            && call.outcome == RowGone && Answer(call.outcome, secret) == Err(RowNotFound)
            && Alive(call.db, user, db.active[i].session)
  {
    hide Inv, Seen, NamesRow, Attempts, Lost, FirstLookup, Refresh, RotateThenArchive, Alive;
    var first := db.active[i];
    var env := [[], RotateThenArchive(first, db.clock, newId)];
    PresentedIsFound(db, i, user, token, env);
    RefreshUnfolds(db, user, token, secret, now, drawn, env);
    AttemptUnfolds(db, first, drawn, 0, secret, now, env);
    LiveRowCanLeave(db, i, newId);
    var swap := Run(db, env[1]);
    LostUnfolds(swap, first, drawn, 0, secret, now, env);
    assert Batch(env, 2) == [];
  }

  /** A walk that starts on a row whose successor archiving takes away is told the session
      is gone, although it lives: the rows need no time to pass between two statements. */
  lemma ArchivingTakesSuccessor(
    db: Db, i: ConnId, user: UserId, token: Token, secret: nat, now: int, drawn: seq<ConnId>, cutoff: int)
    requires Inv(db) && Presents(db, i, user, token) && Alive(db, user, db.active[i].session)
    requires var first := db.active[i];
             && first.replacedBy.Some? && first.replacedBy.value in Archivable(db.active, cutoff)
    ensures var call := Refresh(db, user, token, secret, now, drawn, [[], [Archive(cutoff)]]);
            && call.outcome == Vanished(db.active[i]) && Answer(call.outcome, secret) == Err(ConnectionNotFound)
            && Alive(call.db, user, db.active[i].session)
  {
    hide Inv, Seen, NamesRow, Attempts, FirstLookup, Refresh, ApplyArchive;
    var first := db.active[i];
    var env := [[], [Archive(cutoff)]];
    PresentedIsFound(db, i, user, token, env);
    RefreshUnfolds(db, user, token, secret, now, drawn, env);
    assert first.replacedAt.Some? by {
      SeenWasReplaced(db, first);
    }
    RunOne(db, Archive(cutoff));
    ArchiveResult(db, cutoff);
    AfterBatch(db, first, Batch(env, 1));
    var after := Apply(db, Archive(cutoff));
    var live :| live in db.active && db.active[live].user == user && db.active[live].session == first.session &&
                db.active[live].Live();
    assert live in after.active && after.active[live].Live();
  }

  lemma SeenWasReplaced(db: Db, seen: Connection)
    requires Seen(db, seen) && seen.replacedBy.Some?
    ensures seen.replacedAt.Some?
  {
  }

  /** Left alone, a refresh of a live row rotates it. */
  lemma QuietRefreshRotates(
    db: Db, i: ConnId, user: UserId, token: Token, secret: nat, now: int, drawn: seq<ConnId>)
    requires Inv(db) && Presents(db, i, user, token) && db.active[i].Live() && drawn != [] && drawn[0] !in db.used
    ensures var call := Refresh(db, user, token, secret, now, drawn, []);
            var first, id := db.active[i], drawn[0];
            var hash := Sha256(GenerateSessionToken(user, id, now, secret));
            && call.outcome == Rotated(first, id, now) && id != i
            && call.db == db.(active := db.active[i := first.(replacedAt := Some(db.clock), replacedBy := Some(id))]
                                                 [id := Connection(id, user, hash, now, db.clock, None, None,
                                                                   first.session, first.generation + 1)],
                              used := db.used + {id})
  {
    RowIsSeen(db, i);
    hide Inv, Refresh;
    QuietRefreshAnswers(db, user, token, secret, now, drawn, db.active[i], 0);
    RotatingALiveRow(db, i, drawn[0], now, secret);
  }
}
