/** What one call of a session service does while other requests run between its
    statements: `env[k]` is what they do just before its k-th statement. A call is
    described by a function of the tables it finds and of `env`. */
module SessionCalls {
  import opened Wrappers
  import opened SessionModel
  import opened SessionInvariant
  import opened SessionRuns

  datatype RefreshError =
    | ConnectionNotFound   // services.ErrConnectionNotFound
    | RowNotFound          // storage.ErrNotFound from the lookup after a lost race
    | HashMismatch         // the token derived again does not match the stored hash
    | TooManyCollisions

  /** How a refresh ends. The tip walk ends on a row it reached, or finds the successor of
      the row it stands on gone. */
  datatype Outcome =
    | NoRow
    | Rotated(first: Connection, id: ConnId, issuedAt: int)
    | Reached(tip: Connection)
    | Vanished(last: Connection)
    | RowGone
    | Exhausted

  /** The tables a call leaves, the number of statements it made, what it did itself, and
      how it ended. */
  datatype Call<O> = Call(db: Db, made: nat, own: seq<Step>, outcome: O)

  function Answer(o: Outcome, secret: nat): Result<(Token, ConnId), RefreshError> {
    match o
    case NoRow => Err(ConnectionNotFound)
    case Rotated(first, id, issuedAt) => Ok((GenerateSessionToken(first.user, id, issuedAt, secret), id))
    case Reached(tip) =>
      var token := GenerateSessionToken(tip.user, tip.id, tip.issuedAt, secret);
      if tip.replacedAt.Some? then Err(ConnectionNotFound)
      else if Sha256(token) != tip.hash then Err(HashMismatch)
      else Ok((token, tip.id))
    case Vanished(_) => Err(ConnectionNotFound)
    case RowGone => Err(RowNotFound)
    case Exhausted => Err(TooManyCollisions)
  }

  /** What the call itself did to the tables: a rotation, or nothing. */
  function Own(o: Outcome, secret: nat): seq<Step> {
    match o
    case Rotated(first, id, issuedAt) => [Rotate(first.user, first.hash, id, issuedAt, secret)]
    case _ => []
  }

  /** The steps other requests take before the k-th statement. */
  function Batch(env: seq<seq<Step>>, k: nat): seq<Step> {
    if k < |env| then env[k] else []
  }

  /** The steps other requests take before statements i to j - 1, in order. */
  function Batches(env: seq<seq<Step>>, i: nat, j: nat): seq<Step>
    decreases j - i
  {
    if i >= j then [] else Batch(env, i) + Batches(env, i + 1, j)
  }

  function Left(env: seq<seq<Step>>, k: nat): nat {
    if k < |env| then |env| - k else 0
  }

  lemma {:induction false} BatchesSplit(env: seq<seq<Step>>, i: nat, j: nat, k: nat)
    requires i <= j <= k
    ensures Batches(env, i, k) == Batches(env, i, j) + Batches(env, j, k)
    decreases j - i
  {
    if i < j {
      BatchesSplit(env, i + 1, j, k);
    }
  }

  /** `seen`, read earlier from the table, and what has become of its row. */
  ghost predicate Seen(db: Db, seen: Connection) {
    && seen.id in db.used
    && seen.session < db.logins
    && (seen.replacedBy.Some? ==> seen.replacedAt.Some?)
    && (seen.id in db.active ==> Evolved(seen, db.active[seen.id]))
    && (seen.replacedBy.Some? ==>
          && seen.replacedBy.value in db.used
          && (seen.replacedBy.value in db.active ==>
                var n := db.active[seen.replacedBy.value];
                n.user == seen.user && n.session == seen.session && n.generation == seen.generation + 1))
  }

  /** `conn` lies on the chain of `first` and leaves the table no earlier. */
  ghost predicate Behind(db: Db, first: Connection, conn: Connection) {
    && conn.user == first.user
    && conn.session == first.session
    && (first.id in db.active ==>
          && conn.id in db.active
          && (db.active[conn.id].replacedAt.Some? ==>
                first.replacedAt.Some? && first.replacedAt.value <= db.active[conn.id].replacedAt.value))
  }

  lemma FoundIsSeen(db: Db, conn: Connection)
    requires Inv(db) && conn.id in db.active && db.active[conn.id] == conn
    ensures Seen(db, conn) && NamesRow(conn)
  {
    if conn.replacedBy.Some? {
      assert Link(db.active, conn.id, conn.replacedBy.value);
    }
  }

  lemma SeenAfter(db: Db, db': Db, seen: Connection)
    requires Inv(db) && Extends(db, db') && Seen(db, seen)
    ensures Seen(db', seen)
  {
    if seen.replacedBy.Some? && seen.replacedBy.value in db'.active {
      assert Evolved(db.active[seen.replacedBy.value], db'.active[seen.replacedBy.value]);
    }
  }

  /** The row is as it was, or was live and has been replaced at the present time. */
  ghost predicate SameOrReplaced(db: Db, after: Db, i: ConnId)
    requires i in db.active
  {
    && i in after.active
    && (after.active[i] == db.active[i] ||
        (db.active[i].Live() && after.active[i].replacedAt == Some(db.clock)))
  }

  lemma RotateFate(db: Db, step: Step, i: ConnId)
    requires Keyed(db) && i in db.active && step.Rotate?
    ensures SameOrReplaced(db, Apply(db, step), i)
  {
  }

  lemma ArchiveFate(db: Db, cutoff: int, i: ConnId)
    requires Inv(db) && i in db.active
    ensures var after := ApplyArchive(db, cutoff);
            if i in Archivable(db.active, cutoff) then i !in after.active else SameOrReplaced(db, after, i)
  {
    ArchiveResult(db, cutoff);
  }

  /** A row leaves the table only by age, and is replaced only at the present time. */
  lemma RowFate(db: Db, step: Step, i: ConnId)
    requires Inv(db) && i in db.active
    ensures if step.Archive? && i in Archivable(db.active, step.cutoff)
            then i !in Apply(db, step).active
            else SameOrReplaced(db, Apply(db, step), i)
  {
    hide ApplyRotate, ApplyArchive, Archivable, Named, Timed, Linked, Ordered;
    match step
    case Archive(cutoff) => ArchiveFate(db, cutoff, i);
    case Rotate(_, _, _, _, _) => RotateFate(db, step, i);
    case _ =>
  }

  lemma BehindAfterStep(db: Db, step: Step, first: Connection, conn: Connection)
    requires Inv(db) && Seen(db, first) && Seen(db, conn) && Behind(db, first, conn)
    requires first.replacedAt.Some?
    ensures Behind(Apply(db, step), first, conn)
  {
    ApplyExtends(db, step);
    if first.id in Apply(db, step).active {
      RowFate(db, step, first.id);
      RowFate(db, step, conn.id);
    }
  }

  lemma {:induction false} BehindAfterRun(db: Db, steps: seq<Step>, first: Connection, conn: Connection)
    requires Inv(db) && Seen(db, first) && Seen(db, conn) && Behind(db, first, conn)
    requires first.replacedAt.Some?
    ensures Behind(Run(db, steps), first, conn)
    decreases |steps|
  {
    if steps != [] {
      ApplyKeeps(db, steps[0]);
      ApplyExtends(db, steps[0]);
      SeenAfter(db, Apply(db, steps[0]), first);
      SeenAfter(db, Apply(db, steps[0]), conn);
      BehindAfterStep(db, steps[0], first, conn);
      BehindAfterRun(Apply(db, steps[0]), steps[1..], first, conn);
    }
  }

  /** The answer of a refresh names a connection of this session that is live
      now, with the very token whose hash is stored. */
  ghost predicate Serves(db: Db, user: UserId, session: nat, secret: nat, answer: (Token, ConnId)) {
    && answer.1 in db.active
    && var conn := db.active[answer.1];
       conn.Live() && conn.user == user && conn.session == session && conn.hash == Sha256(answer.0) &&
       answer.0 == GenerateSessionToken(user, answer.1, conn.issuedAt, secret)
  }

  /** The session is live, but its token was signed with another secret. */
  ghost predicate OtherSecret(db: Db, user: UserId, session: nat, secret: nat) {
    exists i :: i in db.active && db.active[i].Live() && db.active[i].user == user && db.active[i].session == session &&
                db.active[i].hash != Sha256(GenerateSessionToken(user, i, db.active[i].issuedAt, secret))
  }

  ghost predicate StillLive(db: Db, seen: Connection) {
    seen.id in db.active && db.active[seen.id].Live()
  }

  /** Why a refresh of `first` ended in `r`, in terms of the tables it leaves. */
  ghost predicate Explained(db: Db, first: Connection, secret: nat, r: Result<(Token, ConnId), RefreshError>) {
    match r
    case Ok(answer) => Serves(db, first.user, first.session, secret, answer)
    case Err(ConnectionNotFound) => !Alive(db, first.user, first.session) || first.id !in db.active
    case Err(RowNotFound) => first.id !in db.active
    case Err(HashMismatch) => OtherSecret(db, first.user, first.session, secret)
    case Err(TooManyCollisions) => StillLive(db, first)
  }

  /** A lookup by the hash of a row seen before finds that row, or nothing. */
  lemma SeenIsFound(db: Db, seen: Connection)
    requires Inv(db) && Seen(db, seen) && NamesRow(seen)
    ensures FindByHash(db.active, seen.user, seen.hash) ==
            if seen.id in db.active then Some(db.active[seen.id]) else None
  {
    FindByHashExact(db, seen.user, seen.hash);
  }

  /** The successor of a row still in the table is there too. */
  lemma StepAlong(db: Db, first: Connection, conn: Connection)
    requires Inv(db) && Seen(db, conn) && Behind(db, first, conn) && conn.replacedBy.Some?
    ensures first.id in db.active ==> conn.replacedBy.value in db.active
    ensures conn.replacedBy.value in db.active ==>
              var next := db.active[conn.replacedBy.value];
              && next.id == conn.replacedBy.value
              && Behind(db, first, next)
              && Newer(db.active, next.generation) < Newer(db.active, conn.generation)
  {
    if conn.id in db.active {
      assert Link(db.active, conn.id, conn.replacedBy.value);
    }
    if conn.replacedBy.value in db.active {
      var next := db.active[conn.replacedBy.value];
      assert next.id in Newer(db.active, conn.generation) && next.id !in Newer(db.active, next.generation);
    }
  }

  /** A revoked row without a successor ends its session. */
  lemma TerminalMeansDead(db: Db, conn: Connection)
    requires Inv(db) && conn.id in db.active && db.active[conn.id] == conn
    requires conn.replacedAt.Some? && conn.replacedBy.None?
    ensures !Alive(db, conn.user, conn.session)
  {
    if Alive(db, conn.user, conn.session) {
      var i :| i in db.active && db.active[i].session == conn.session && db.active[i].Live();
      assert Peers(db.active, i, conn.id) && Peers(db.active, conn.id, i);
    }
  }

  lemma RunOne(db: Db, step: Step)
    ensures Run(db, [step]) == Apply(db, step)
  {
    assert Run(db, [step]) == Run(Apply(db, step), []);
  }

  // ---------------------------------------------------------------- the calls

  lemma AfterBatch(db: Db, seen: Connection, steps: seq<Step>)
    requires Inv(db) && Seen(db, seen)
    ensures Inv(Run(db, steps)) && Seen(Run(db, steps), seen)
  {
    RunKeeps(db, steps);
    RunExtends(db, steps);
    SeenAfter(db, Run(db, steps), seen);
  }

  /** The walk from `conn` along its successors, one lookup a statement from the k-th on. */
  ghost function Walk(db: Db, conn: Connection, env: seq<seq<Step>>, k: nat): Call<Outcome>
    requires Inv(db) && Seen(db, conn)
    decreases Left(env, k), Newer(db.active, conn.generation)
  {
    if conn.replacedAt.None? || conn.replacedBy.None? then Call(db, k, [], Reached(conn))
    else
      var after := Run(db, Batch(env, k));
      AfterBatch(db, conn, Batch(env, k));
      var n := conn.replacedBy.value;
      if n !in after.active then Call(after, k + 1, [], Vanished(conn))
      else
        WalkShrinks(after, conn);
        Walk(after, after.active[n], env, k + 1)
  }

  lemma WalkShrinks(db: Db, conn: Connection)
    requires Inv(db) && Seen(db, conn) && conn.replacedBy.Some? && conn.replacedBy.value in db.active
    ensures var next := db.active[conn.replacedBy.value];
            && next.id == conn.replacedBy.value && Seen(db, next) && NamesRow(next)
            && Newer(db.active, next.generation) < Newer(db.active, conn.generation)
  {
    var next := db.active[conn.replacedBy.value];
    FoundIsSeen(db, next);
    assert next.id in Newer(db.active, conn.generation) && next.id !in Newer(db.active, next.generation);
  }

  /** Whether the compare-and-swap succeeds. */
  predicate Wins(db: Db, first: Connection, id: ConnId) {
    first.id in db.active && db.active[first.id].Live() && id !in db.used
  }

  /** The refresh loop from attempt a on: a compare-and-swap, and after a lost one a second
      lookup of the presented row. */
  ghost function Attempts(
    db: Db, first: Connection, drawn: seq<ConnId>, a: nat, secret: nat, now: int, env: seq<seq<Step>>): Call<Outcome>
    requires Inv(db) && Seen(db, first) && NamesRow(first) && a <= |drawn|
    decreases |drawn| - a, 1
  {
    if a == |drawn| then Call(db, 1 + 2 * a, [], Exhausted)
    else
      var swap := Run(db, Batch(env, 1 + 2 * a));
      AfterBatch(db, first, Batch(env, 1 + 2 * a));
      var won := Rotated(first, drawn[a], now + a * SECOND);
      if Wins(swap, first, drawn[a]) then Call(Run(swap, Own(won, secret)), 2 + 2 * a, Own(won, secret), won)
      else Lost(swap, first, drawn, a, secret, now, env)
  }

  /** The rest of attempt a after its compare-and-swap failed. */
  ghost function Lost(
    swap: Db, first: Connection, drawn: seq<ConnId>, a: nat, secret: nat, now: int, env: seq<seq<Step>>): Call<Outcome>
    requires Inv(swap) && Seen(swap, first) && NamesRow(first) && a < |drawn|
    decreases |drawn| - a, 0
  {
    var lookup := Run(swap, Batch(env, 2 + 2 * a));
    AfterBatch(swap, first, Batch(env, 2 + 2 * a));
    if first.id !in lookup.active then Call(lookup, 3 + 2 * a, [], RowGone)
    else if lookup.active[first.id].Live() then Attempts(lookup, first, drawn, a + 1, secret, now, env)
    else
      RowIsSeen(lookup, first.id);
      Walk(lookup, lookup.active[first.id], env, 3 + 2 * a)
  }

  lemma RowIsSeen(db: Db, i: ConnId)
    requires Inv(db) && i in db.active
    ensures Seen(db, db.active[i]) && NamesRow(db.active[i]) && db.active[i].id == i
  {
    FoundIsSeen(db, db.active[i]);
  }

  /** A whole refresh. */
  ghost function Refresh(
    db: Db, user: UserId, token: Token, secret: nat, now: int, drawn: seq<ConnId>, env: seq<seq<Step>>): Call<Outcome>
    requires Inv(db)
  {
    var found := FirstLookup(db, user, token, env);
    LookupIsSeen(db, user, token, env);
    var start := Run(db, Batch(env, 0));
    match found
    case None => Call(start, 1, [], NoRow)
    case Some(first) =>
      if first.replacedAt.Some? then Walk(start, first, env, 1) else Attempts(start, first, drawn, 0, secret, now, env)
  }

  /** The row the presented token names when the call looks it up. */
  ghost function FirstLookup(db: Db, user: UserId, token: Token, env: seq<seq<Step>>): Option<Connection> {
    FindByHash(Run(db, Batch(env, 0)).active, user, Sha256(token))
  }

  lemma LookupIsSeen(db: Db, user: UserId, token: Token, env: seq<seq<Step>>)
    requires Inv(db)
    ensures Inv(Run(db, Batch(env, 0)))
    ensures var found := FirstLookup(db, user, token, env);
            var start := Run(db, Batch(env, 0));
            found.Some? ==>
              && found.value.id in start.active && start.active[found.value.id] == found.value
              && found.value.user == user && found.value.hash == Sha256(token)
              && Seen(start, found.value) && NamesRow(found.value)
  {
    RunKeeps(db, Batch(env, 0));
    var start := Run(db, Batch(env, 0));
    FindByHashExact(start, user, Sha256(token));
    if FirstLookup(db, user, token, env).Some? {
      FoundIsSeen(start, FirstLookup(db, user, token, env).value);
    }
  }

  // ------------------------------------------------------- a call is a pinned run

  /** From `db` on, just before the k-th statement, the call did what other requests had to
      do before each of its remaining statements, each batch once and in order, and then its
      own part. */
  ghost predicate Pinned<O>(db: Db, env: seq<seq<Step>>, k: nat, call: Call<O>) {
    call.made >= k && call.db == Run(db, Batches(env, k, call.made) + call.own)
  }

  lemma PinnedEarlier<O>(db: Db, env: seq<seq<Step>>, k: nat, call: Call<O>)
    requires Pinned(Run(db, Batch(env, k)), env, k + 1, call)
    ensures Pinned(db, env, k, call)
  {
    var rest := Batches(env, k + 1, call.made) + call.own;
    RunAppend(db, Batch(env, k), rest);
    assert Batches(env, k, call.made) + call.own == Batch(env, k) + rest;
  }

  lemma PinnedEnd<O>(db: Db, env: seq<seq<Step>>, call: Call<O>)
    requires call.db == Run(db, call.own)
    ensures Pinned(db, env, call.made, call)
  {
    assert Batches(env, call.made, call.made) + call.own == call.own;
  }

  lemma {:induction false} WalkRuns(db: Db, conn: Connection, env: seq<seq<Step>>, k: nat)
    requires Inv(db) && Seen(db, conn)
    ensures var call := Walk(db, conn, env, k);
            Pinned(db, env, k, call) && call.own == [] && (call.outcome.Reached? || call.outcome.Vanished?)
    decreases Left(env, k), Newer(db.active, conn.generation)
  {
    hide Inv, Seen, Pinned;
    var call := Walk(db, conn, env, k);
    if conn.replacedAt.None? || conn.replacedBy.None? {
      PinnedEnd(db, env, call);
    } else {
      var after := Run(db, Batch(env, k));
      AfterBatch(db, conn, Batch(env, k));
      if conn.replacedBy.value in after.active {
        WalkShrinks(after, conn);
        WalkRuns(after, after.active[conn.replacedBy.value], env, k + 1);
      } else {
        PinnedEnd(after, env, call);
      }
      PinnedEarlier(db, env, k, call);
    }
  }

  lemma {:induction false} AttemptsRun(
    db: Db, first: Connection, drawn: seq<ConnId>, a: nat, secret: nat, now: int, env: seq<seq<Step>>)
    requires Inv(db) && Seen(db, first) && NamesRow(first) && a <= |drawn|
    ensures var call := Attempts(db, first, drawn, a, secret, now, env);
            Pinned(db, env, 1 + 2 * a, call) && call.own == Own(call.outcome, secret) && !call.outcome.NoRow?
    decreases |drawn| - a, 1
  {
    hide Inv, Seen, Wins, Pinned;
    var call := Attempts(db, first, drawn, a, secret, now, env);
    if a == |drawn| {
      PinnedEnd(db, env, call);
    } else {
      var swap := Run(db, Batch(env, 1 + 2 * a));
      AfterBatch(db, first, Batch(env, 1 + 2 * a));
      if Wins(swap, first, drawn[a]) {
        PinnedEnd(swap, env, call);
      } else {
        LostRuns(swap, first, drawn, a, secret, now, env);
      }
      PinnedEarlier(db, env, 1 + 2 * a, call);
    }
  }

  lemma {:induction false} LostRuns(
    swap: Db, first: Connection, drawn: seq<ConnId>, a: nat, secret: nat, now: int, env: seq<seq<Step>>)
    requires Inv(swap) && Seen(swap, first) && NamesRow(first) && a < |drawn|
    ensures var call := Lost(swap, first, drawn, a, secret, now, env);
            Pinned(swap, env, 2 + 2 * a, call) && call.own == Own(call.outcome, secret) && !call.outcome.NoRow?
    decreases |drawn| - a, 0
  {
    hide Inv, Seen, Wins, Pinned;
    var call := Lost(swap, first, drawn, a, secret, now, env);
    var lookup := Run(swap, Batch(env, 2 + 2 * a));
    AfterBatch(swap, first, Batch(env, 2 + 2 * a));
    if first.id !in lookup.active {
      PinnedEnd(lookup, env, call);
    } else if lookup.active[first.id].Live() {
      AttemptsRun(lookup, first, drawn, a + 1, secret, now, env);
    } else {
      RowIsSeen(lookup, first.id);
      WalkRuns(lookup, lookup.active[first.id], env, 3 + 2 * a);
    }
    PinnedEarlier(swap, env, 2 + 2 * a, call);
  }

  /** All that happens to the tables from the start of a call to its end. */
  ghost function Trace<O>(call: Call<O>, env: seq<seq<Step>>): seq<Step> {
    Batches(env, 0, call.made) + call.own
  }

  /** The tables of a refresh are those of the other requests' steps, batch after batch up
      to its last statement, each once, followed by its own rotation if it won one. */
  lemma RefreshRuns(
    db: Db, user: UserId, token: Token, secret: nat, now: int, drawn: seq<ConnId>, env: seq<seq<Step>>)
    requires Inv(db)
    ensures var call := Refresh(db, user, token, secret, now, drawn, env);
            && call.made >= 1 && Inv(call.db)
            && call.db == Run(db, Trace(call, env))
            && call.own == Own(call.outcome, secret)
  {
    var call := Refresh(db, user, token, secret, now, drawn, env);
    var start := Run(db, Batch(env, 0));
    LookupIsSeen(db, user, token, env);
    hide Inv, Seen, Walk, Attempts;
    var found := FirstLookup(db, user, token, env);
    if found.None? {
      PinnedEnd(start, env, call);
    } else if found.value.replacedAt.Some? {
      WalkRuns(start, found.value, env, 1);
    } else {
      AttemptsRun(start, found.value, drawn, 0, secret, now, env);
    }
    PinnedEarlier(db, env, 0, call);
    RunKeeps(db, Trace(call, env));
  }

  // ------------------------------------------------------------ what an end means

  /** What each end of a refresh of `first` says about the tables it leaves. */
  ghost predicate Ended(db: Db, first: Connection, secret: nat, o: Outcome) {
    match o
    case NoRow => false
    case Rotated(seen, id, issuedAt) =>
      && seen == first
      && id in db.active && db.active[id].Live() && db.active[id].issuedAt == issuedAt
      && db.active[id].user == first.user && db.active[id].session == first.session
      && db.active[id].hash == Sha256(GenerateSessionToken(first.user, id, issuedAt, secret))
    case Reached(tip) =>
      && tip.id in db.active && db.active[tip.id] == tip
      && tip.user == first.user && tip.session == first.session
      && (tip.Live() <==> Alive(db, first.user, first.session))
    case Vanished(last) =>
      && last.user == first.user && last.session == first.session
      && last.replacedBy.Some? && last.replacedBy.value !in db.active
      && first.id !in db.active
    case RowGone => first.id !in db.active
    case Exhausted => StillLive(db, first)
  }

  lemma EndedIsExplained(db: Db, first: Connection, secret: nat, o: Outcome)
    requires Ended(db, first, secret, o)
    ensures Explained(db, first, secret, Answer(o, secret))
  {
  }

  lemma {:induction false} WalkEnds(
    db: Db, first: Connection, conn: Connection, env: seq<seq<Step>>, k: nat, secret: nat)
    requires Inv(db) && Seen(db, first) && first.replacedAt.Some? && Behind(db, first, conn)
    requires conn.id in db.active && db.active[conn.id] == conn && Seen(db, conn)
    ensures var call := Walk(db, conn, env, k);
            Inv(call.db) && Seen(call.db, first) && Ended(call.db, first, secret, call.outcome)
    decreases Left(env, k), Newer(db.active, conn.generation)
  {
    hide Inv, Seen, Behind;
    if conn.replacedAt.None? || conn.replacedBy.None? {
      WalkEndsHere(db, first, conn, secret);
    } else {
      var after := Run(db, Batch(env, k));
      AfterBatch(db, conn, Batch(env, k));
      AfterBatch(db, first, Batch(env, k));
      BehindAfterRun(db, Batch(env, k), first, conn);
      StepAlong(after, first, conn);
      if conn.replacedBy.value in after.active {
        WalkShrinks(after, conn);
        WalkEnds(after, first, after.active[conn.replacedBy.value], env, k + 1, secret);
      } else {
        assert conn.user == first.user && conn.session == first.session by {
          BehindSameSession(db, first, conn);
        }
      }
    }
  }

  lemma BehindSameSession(db: Db, first: Connection, conn: Connection)
    requires Behind(db, first, conn)
    ensures conn.user == first.user && conn.session == first.session
  {
  }

  lemma WalkEndsHere(db: Db, first: Connection, conn: Connection, secret: nat)
    requires Inv(db) && Behind(db, first, conn) && conn.id in db.active && db.active[conn.id] == conn
    requires conn.replacedAt.None? || conn.replacedBy.None?
    ensures Ended(db, first, secret, Reached(conn))
  {
    if conn.replacedAt.Some? {
      TerminalMeansDead(db, conn);
    } else {
      assert db.active[conn.id].Live();
    }
  }

  /** A rotation that wins leaves its new row, live and in the session of the old one. */
  lemma WinningEnds(db: Db, first: Connection, id: ConnId, issuedAt: int, secret: nat)
    requires Inv(db) && Seen(db, first) && NamesRow(first) && Wins(db, first, id)
    ensures var won := Rotated(first, id, issuedAt);
            var after := Run(db, Own(won, secret));
            Inv(after) && Seen(after, first) && Ended(after, first, secret, won)
  {
    var step := Rotate(first.user, first.hash, id, issuedAt, secret);
    RunOne(db, step);
    ApplyKeeps(db, step);
    ApplyExtends(db, step);
    SeenAfter(db, Apply(db, step), first);
    SeenIsFound(db, first);
    OnlyRepeatedIdsCollide(db, id, first.user, issuedAt, secret);
  }

  lemma PinnedExtends<O>(db: Db, env: seq<seq<Step>>, k: nat, call: Call<O>)
    requires Inv(db) && Pinned(db, env, k, call)
    ensures Inv(call.db) && Extends(db, call.db) && db.used <= call.db.used
  {
    RunKeeps(db, Batches(env, k, call.made) + call.own);
    RunExtends(db, Batches(env, k, call.made) + call.own);
  }

  /** A swap lost on a row that is live afterwards was lost to a repeated id. */
  lemma LostWhileLive(swap: Db, first: Connection, id: ConnId, steps: seq<Step>)
    requires Inv(swap) && Seen(swap, first) && !Wins(swap, first, id) && StillLive(Run(swap, steps), first)
    ensures id in swap.used && id in Run(swap, steps).used
  {
    RunExtends(swap, steps);
  }

  lemma LookedUpAgain(db: Db, first: Connection)
    requires Inv(db) && Seen(db, first) && first.id in db.active && !db.active[first.id].Live()
    ensures var again := db.active[first.id];
            && again.id == first.id && again.user == first.user && again.session == first.session
            && again.replacedAt.Some? && Behind(db, again, again)
  {
  }

  lemma SameEnd(db: Db, again: Connection, first: Connection, secret: nat, o: Outcome)
    requires again.id == first.id && again.user == first.user && again.session == first.session
    requires (o.Reached? || o.Vanished?) && Ended(db, again, secret, o)
    ensures Ended(db, first, secret, o)
  {
  }

  lemma PlainEnds(db: Db, first: Connection, secret: nat)
    ensures StillLive(db, first) ==> Ended(db, first, secret, Exhausted)
    ensures first.id !in db.active ==> Ended(db, first, secret, RowGone)
  {
  }

  /** The walk from the presented row as a second lookup found it. */
  lemma WalkAgainEnds(db: Db, first: Connection, env: seq<seq<Step>>, k: nat, secret: nat)
    requires Inv(db) && Seen(db, first) && first.id in db.active && !db.active[first.id].Live()
    ensures Seen(db, db.active[first.id])
    ensures var call := Walk(db, db.active[first.id], env, k);
            && Inv(call.db) && Seen(call.db, first) && Ended(call.db, first, secret, call.outcome)
            && (call.outcome.Reached? || call.outcome.Vanished?)
  {
    hide Inv, Seen, Ended, Walk, Pinned, Extends, Behind;
    var again := db.active[first.id];
    RowIsSeen(db, first.id);
    LookedUpAgain(db, first);
    WalkEnds(db, again, again, env, k, secret);
    WalkRuns(db, again, env, k);
    var call := Walk(db, again, env, k);
    PinnedExtends(db, env, k, call);
    SeenAfter(db, call.db, first);
    SameEnd(call.db, again, first, secret, call.outcome);
  }

  lemma {:induction false} AttemptsEnd(
    db: Db, first: Connection, drawn: seq<ConnId>, a: nat, secret: nat, now: int, env: seq<seq<Step>>)
    requires Inv(db) && Seen(db, first) && NamesRow(first) && a <= |drawn|
    requires a == |drawn| ==> StillLive(db, first)
    ensures var call := Attempts(db, first, drawn, a, secret, now, env);
            && Inv(call.db) && Seen(call.db, first) && Ended(call.db, first, secret, call.outcome)
            && (call.outcome.Exhausted? ==> forall b :: a <= b < |drawn| ==> drawn[b] in call.db.used)
    decreases |drawn| - a, 1
  {
    hide Inv, Seen, Wins, Ended, Lost, NamesRow;
    if a == |drawn| {
      PlainEnds(db, first, secret);
    } else {
      var swap := Run(db, Batch(env, 1 + 2 * a));
      AfterBatch(db, first, Batch(env, 1 + 2 * a));
      if Wins(swap, first, drawn[a]) {
        WinningEnds(swap, first, drawn[a], now + a * SECOND, secret);
      } else {
        LostEnds(swap, first, drawn, a, secret, now, env);
      }
    }
  }

  lemma {:induction false} LostEnds(
    swap: Db, first: Connection, drawn: seq<ConnId>, a: nat, secret: nat, now: int, env: seq<seq<Step>>)
    requires Inv(swap) && Seen(swap, first) && NamesRow(first) && a < |drawn| && !Wins(swap, first, drawn[a])
    ensures var call := Lost(swap, first, drawn, a, secret, now, env);
            && Inv(call.db) && Seen(call.db, first) && Ended(call.db, first, secret, call.outcome)
            && (call.outcome.Exhausted? ==> forall b :: a <= b < |drawn| ==> drawn[b] in call.db.used)
    decreases |drawn| - a, 0
  {
    hide Inv, Seen, Wins, Ended, Attempts, Walk, Pinned, Extends, NamesRow;
    var lookup := Run(swap, Batch(env, 2 + 2 * a));
    AfterBatch(swap, first, Batch(env, 2 + 2 * a));
    if first.id !in lookup.active {
      PlainEnds(lookup, first, secret);
    } else if lookup.active[first.id].Live() {
      assert StillLive(lookup, first);
      AttemptsEnd(lookup, first, drawn, a + 1, secret, now, env);
      LostWhileLive(swap, first, drawn[a], Batch(env, 2 + 2 * a));
      AttemptsRun(lookup, first, drawn, a + 1, secret, now, env);
      PinnedExtends(lookup, env, 3 + 2 * a, Attempts(lookup, first, drawn, a + 1, secret, now, env));
    } else {
      WalkAgainEnds(lookup, first, env, 3 + 2 * a, secret);
    }
  }

  /** Every end of a refresh says what it should of the tables it leaves. */
  lemma RefreshEnds(
    db: Db, user: UserId, token: Token, secret: nat, now: int, drawn: seq<ConnId>, env: seq<seq<Step>>)
    requires Inv(db) && drawn != []
    ensures var call := Refresh(db, user, token, secret, now, drawn, env);
            && Inv(call.db)
            && (match FirstLookup(db, user, token, env)
                case None => call == Call(Run(db, Batch(env, 0)), 1, [], NoRow)
                case Some(first) =>
                  && Seen(call.db, first)
                  && Ended(call.db, first, secret, call.outcome)
                  && Explained(call.db, first, secret, Answer(call.outcome, secret)))
            && (call.outcome.Exhausted? ==> forall b :: 0 <= b < |drawn| ==> drawn[b] in call.db.used)
  {
    hide Inv, Seen, Ended, Explained, Walk, Attempts, Behind, Answer;
    var start := Run(db, Batch(env, 0));
    LookupIsSeen(db, user, token, env);
    var found := FirstLookup(db, user, token, env);
    var call := Refresh(db, user, token, secret, now, drawn, env);
    if found.Some? {
      var first := found.value;
      if first.replacedAt.Some? {
        BehindItself(start, first);
        WalkEnds(start, first, first, env, 1, secret);
        WalkRuns(start, first, env, 1);
      } else {
        AttemptsEnd(start, first, drawn, 0, secret, now, env);
      }
      EndedIsExplained(call.db, first, secret, call.outcome);
    }
  }

  lemma BehindItself(db: Db, conn: Connection)
    requires conn.id in db.active && db.active[conn.id] == conn
    ensures Behind(db, conn, conn)
  {
  }

  // ------------------------------------------------------- alive all the way

  lemma AliveThroughout(start: Db, trace: seq<Step>, user: UserId, session: nat, n: nat)
    requires Inv(start) && session < start.logins && n <= |trace|
    requires Alive(Run(start, trace), user, session)
    ensures Alive(Run(start, trace[..n]), user, session)
  {
    hide Inv, Alive, Run;
    RunKeeps(start, trace[..n]);
    RunExtends(start, trace[..n]);
    RunAppend(start, trace[..n], trace[n..]);
    assert trace[..n] + trace[n..] == trace;
    if !Alive(Run(start, trace[..n]), user, session) {
      DeadSessionsStayDead(Run(start, trace[..n]), trace[n..], user, session);
    }
  }

  /** The session is alive at every step of `trace` from its n-th on. */
  ghost predicate AliveDuring(start: Db, trace: seq<Step>, from0: nat, user: UserId, session: nat) {
    forall n :: from0 <= n <= |trace| ==> Alive(Run(start, trace[..n]), user, session)
  }

  lemma AliveToTheEnd(start: Db, before: seq<Step>, later: seq<Step>, user: UserId, session: nat)
    requires Inv(start) && session < Run(start, before).logins
    requires Alive(Run(start, before + later), user, session)
    ensures AliveDuring(start, before + later, |before|, user, session)
  {
    hide Inv, Alive;
    var trace := before + later;
    RunKeeps(start, before);
    RunAppend(start, before, later);
    forall n | |before| <= n <= |trace| ensures Alive(Run(start, trace[..n]), user, session) {
      var m := n - |before|;
      AliveThroughout(Run(start, before), later, user, session, m);
      assert trace[..n] == before + later[..m];
      RunAppend(start, before, later[..m]);
    }
  }

  lemma ServingIsAlive(db: Db, first: Connection, secret: nat, r: Result<(Token, ConnId), RefreshError>)
    requires Explained(db, first, secret, r) && r.Ok?
    ensures Alive(db, first.user, first.session)
  {
    assert db.active[r.value.1].Live();
  }

  /** A refresh that is served was made for a session alive from its first lookup to its end. */
  lemma ServedWasAlive(
    db: Db, user: UserId, token: Token, secret: nat, now: int, drawn: seq<ConnId>, env: seq<seq<Step>>)
    requires Inv(db) && drawn != []
    ensures var call := Refresh(db, user, token, secret, now, drawn, env);
            var found := FirstLookup(db, user, token, env);
            Answer(call.outcome, secret).Ok? ==>
              && found.Some?
              && AliveDuring(db, Trace(call, env), |Batch(env, 0)|, user, found.value.session)
  {
    hide Inv, Seen, Ended, Explained, Refresh, FirstLookup, AliveDuring;
    var call := Refresh(db, user, token, secret, now, drawn, env);
    RefreshRuns(db, user, token, secret, now, drawn, env);
    RefreshEnds(db, user, token, secret, now, drawn, env);
    LookupIsSeen(db, user, token, env);
    var found := FirstLookup(db, user, token, env);
    if Answer(call.outcome, secret).Ok? {
      SeenLogin(Run(db, Batch(env, 0)), found.value);
      ServingIsAlive(call.db, found.value, secret, Answer(call.outcome, secret));
      var later := Batches(env, 1, call.made) + call.own;
      assert Trace(call, env) == Batch(env, 0) + later;
      AliveToTheEnd(db, Batch(env, 0), later, user, found.value.session);
    }
  }

  lemma SeenLogin(db: Db, seen: Connection)
    requires Seen(db, seen)
    ensures seen.session < db.logins
  {
  }

  // ----------------------------------------------- one turn of the loops at a time

  lemma PinnedQuietly<O>(db: Db, env: seq<seq<Step>>, k: nat, call: Call<O>)
    requires Pinned(db, env, k, call) && call.own == []
    ensures call.made >= k && call.db == Run(db, Batches(env, k, call.made))
  {
    assert Batches(env, k, call.made) + [] == Batches(env, k, call.made);
  }

  lemma RefreshUnfolds(
    db: Db, user: UserId, token: Token, secret: nat, now: int, drawn: seq<ConnId>, env: seq<seq<Step>>)
    requires Inv(db)
    ensures var start := Run(db, Batch(env, 0));
            var found := FindByHash(start.active, user, Sha256(token));
            && Inv(start) && found == FirstLookup(db, user, token, env)
            && (found.Some? ==>
                  && found.value.id in start.active && start.active[found.value.id] == found.value
                  && HasHash(found.value, user, Sha256(token))
                  && Seen(start, found.value) && NamesRow(found.value))
            && Refresh(db, user, token, secret, now, drawn, env) ==
                 if found.None? then Call(start, 1, [], NoRow)
                 else if found.value.replacedAt.Some? then Walk(start, found.value, env, 1)
                 else Attempts(start, found.value, drawn, 0, secret, now, env)
  {
    hide Inv, Seen, NamesRow, Walk, Attempts;
    LookupIsSeen(db, user, token, env);
  }

  lemma AttemptUnfolds(
    db: Db, first: Connection, drawn: seq<ConnId>, a: nat, secret: nat, now: int, env: seq<seq<Step>>)
    requires Inv(db) && Seen(db, first) && NamesRow(first) && a < |drawn|
    ensures var swap := Run(db, Batch(env, 1 + 2 * a));
            && Inv(swap) && Seen(swap, first)
            && var won := Rotated(first, drawn[a], now + a * SECOND);
               Attempts(db, first, drawn, a, secret, now, env) ==
                 if Wins(swap, first, drawn[a]) then Call(Run(swap, Own(won, secret)), 2 + 2 * a, Own(won, secret), won)
                 else Lost(swap, first, drawn, a, secret, now, env)
  {
    hide Inv, Seen, NamesRow, Wins, Lost;
    AfterBatch(db, first, Batch(env, 1 + 2 * a));
  }

  lemma LostUnfolds(
    swap: Db, first: Connection, drawn: seq<ConnId>, a: nat, secret: nat, now: int, env: seq<seq<Step>>)
    requires Inv(swap) && Seen(swap, first) && NamesRow(first) && a < |drawn|
    ensures var lookup := Run(swap, Batch(env, 2 + 2 * a));
            && Inv(lookup) && Seen(lookup, first)
            && (first.id in lookup.active ==> Seen(lookup, lookup.active[first.id]))
            && Lost(swap, first, drawn, a, secret, now, env) ==
                 if first.id !in lookup.active then Call(lookup, 3 + 2 * a, [], RowGone)
                 else if lookup.active[first.id].Live() then Attempts(lookup, first, drawn, a + 1, secret, now, env)
                 else Walk(lookup, lookup.active[first.id], env, 3 + 2 * a)
  {
    hide Inv, Seen, NamesRow, Attempts, Walk;
    AfterBatch(swap, first, Batch(env, 2 + 2 * a));
    if first.id in Run(swap, Batch(env, 2 + 2 * a)).active {
      RowIsSeen(Run(swap, Batch(env, 2 + 2 * a)), first.id);
    }
  }

  lemma AttemptsOver(
    db: Db, first: Connection, drawn: seq<ConnId>, secret: nat, now: int, env: seq<seq<Step>>)
    requires Inv(db) && Seen(db, first) && NamesRow(first)
    ensures Attempts(db, first, drawn, |drawn|, secret, now, env) == Call(db, 1 + 2 * |drawn|, [], Exhausted)
  {
  }

  /** The swap finds the presented row, and the rotation is what the call does itself. */
  lemma SwapOutcome(db: Db, first: Connection, id: ConnId, issuedAt: int, secret: nat)
    requires Inv(db) && Seen(db, first) && NamesRow(first)
    ensures var found := FindByHash(db.active, first.user, first.hash);
            Wins(db, first, id) <==> found.Some? && found.value.Live() && id !in db.used
    ensures Run(db, Own(Rotated(first, id, issuedAt), secret)) ==
            Apply(db, Rotate(first.user, first.hash, id, issuedAt, secret))
  {
    SeenIsFound(db, first);
    RunOne(db, Rotate(first.user, first.hash, id, issuedAt, secret));
  }
}
