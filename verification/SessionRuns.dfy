/** Safety of the session protocol over whole runs, for every interleaving of
    logins, rotations, revocations, password resets and maintenance. */
module SessionRuns {
  import opened Wrappers
  import opened SessionModel
  import opened SessionInvariant

  lemma {:induction false} RunKeeps(db: Db, steps: seq<Step>)
    requires Inv(db)
    ensures Inv(Run(db, steps))
    decreases |steps|
  {
    if steps != [] {
      ApplyKeeps(db, steps[0]);
      RunKeeps(Apply(db, steps[0]), steps[1..]);
    }
  }

  // ---------------------------------------------------------------- chains

  /** A walk along replaced_by. */
  ghost predicate Path(active: map<ConnId, Connection>, p: seq<ConnId>) {
    && |p| > 0
    && p[0] in active
    && forall k {:trigger p[k]} :: 0 <= k < |p| - 1 ==> Link(active, p[k], p[k + 1])
  }

  lemma {:induction false} PathClimbs(db: Db, p: seq<ConnId>)
    requires Inv(db) && Path(db.active, p)
    ensures p[|p| - 1] in db.active
    ensures db.active[p[|p| - 1]].session == db.active[p[0]].session
    ensures db.active[p[|p| - 1]].generation == db.active[p[0]].generation + |p| - 1
    ensures db.active[p[0]].replacedAt.Some? && db.active[p[|p| - 1]].replacedAt.Some? ==>
              db.active[p[0]].replacedAt.value <= db.active[p[|p| - 1]].replacedAt.value
    decreases |p|
  {
    if |p| > 1 {
      var q := p[..|p| - 1];
      assert Path(db.active, q) by {
        forall k | 0 <= k < |q| - 1 ensures Link(db.active, q[k], q[k + 1]) {
          assert q[k] == p[k] && q[k + 1] == p[k + 1];
        }
      }
      PathClimbs(db, q);
      assert p[|p| - 2] == q[|q| - 1];
      assert Link(db.active, p[|p| - 2], p[|p| - 1]);
    }
  }

  /** Rotation chains are simple: replaced_by has no cycle, no row succeeds two
      rows, and replaced_at never decreases along a chain. */
  lemma ChainsAreSimple(db: Db, steps: seq<Step>)
    requires Inv(db)
    ensures var active := Run(db, steps).active;
            && (forall p :: Path(active, p) && |p| > 1 ==> p[0] != p[|p| - 1])
            && (forall i, j, n :: Link(active, i, n) && Link(active, j, n) ==> i == j)
            && (forall i, n :: Link(active, i, n) ==>
                  (n in active && active[i].replacedAt.Some? &&
                   (active[n].replacedAt.Some? ==> active[i].replacedAt.value <= active[n].replacedAt.value)))
  {
    RunKeeps(db, steps);
    var end := Run(db, steps);
    forall p | Path(end.active, p) && |p| > 1 ensures p[0] != p[|p| - 1] {
      PathClimbs(end, p);
    }
    forall i, j, n | Link(end.active, i, n) && Link(end.active, j, n) ensures i == j {
      assert Peers(end.active, i, j);
    }
  }

  // ------------------------------------------------------------ the tip walk

  /** Rows of the table newer than `generation`: what a tip walk may still visit. */
  ghost function Newer(active: map<ConnId, Connection>, generation: nat): set<ConnId> {
    set i | i in active && active[i].generation > generation
  }

  /** The row a tip walk ends on when nothing else runs. */
  ghost function Tip(db: Db, i: ConnId): (tip: ConnId)
    requires Inv(db) && i in db.active
    ensures tip in db.active
    decreases Newer(db.active, db.active[i].generation)
  {
    if db.active[i].replacedBy.None? then i
    else
      var n := db.active[i].replacedBy.value;
      assert Link(db.active, i, n);
      assert Newer(db.active, db.active[n].generation) <= Newer(db.active, db.active[i].generation);
      assert n in Newer(db.active, db.active[i].generation) && n !in Newer(db.active, db.active[n].generation);
      Tip(db, n)
  }

  /** The user's session still has a live connection. */
  ghost predicate Alive(db: Db, user: UserId, session: nat) {
    exists i :: i in db.active && db.active[i].user == user && db.active[i].session == session && db.active[i].Live()
  }

  /** On an undisturbed table the walk from any row ends on the newest row of the
      same login, and that row is live exactly when the login still has a live
      connection. */
  lemma {:induction false} TipServesLiveSession(db: Db, i: ConnId)
    requires Inv(db) && i in db.active
    ensures db.active[Tip(db, i)].replacedBy.None?
    ensures db.active[Tip(db, i)].session == db.active[i].session
    ensures db.active[Tip(db, i)].user == db.active[i].user
    ensures db.active[Tip(db, i)].Live() <==> Alive(db, db.active[i].user, db.active[i].session)
    decreases Newer(db.active, db.active[i].generation)
  {
    if db.active[i].replacedBy.None? {
      forall j | j in db.active && db.active[j].session == db.active[i].session && db.active[j].Live()
        ensures j == i
      {
        assert Peers(db.active, i, j) && Peers(db.active, j, i);
      }
    } else {
      var n := db.active[i].replacedBy.value;
      assert Link(db.active, i, n);
      assert Newer(db.active, db.active[n].generation) <= Newer(db.active, db.active[i].generation);
      assert n in Newer(db.active, db.active[i].generation) && n !in Newer(db.active, db.active[n].generation);
      TipServesLiveSession(db, n);
    }
  }

  // ------------------------------------------------------- sessions never fork

  /** However many refreshes race, one login never has two live connections. */
  lemma OneLiveConnectionPerSession(db: Db, steps: seq<Step>, i: ConnId, j: ConnId)
    requires Inv(db)
    requires var active := Run(db, steps).active;
             && i in active && j in active && active[i].Live() && active[j].Live()
             && active[i].session == active[j].session
    ensures i == j
  {
    RunKeeps(db, steps);
    var active := Run(db, steps).active;
    assert Peers(active, i, j) && Peers(active, j, i);
  }

  lemma SwapKeepsSize(a: set<ConnId>, gone: ConnId, come: ConnId)
    requires gone in a && come !in a
    ensures |a - {gone} + {come}| == |a|
  {
    assert |a - {gone}| == |a| - 1;
  }

  /** A rotation leaves every user's number of live connections unchanged. */
  lemma RotateConservesLiveConnections(
    db: Db, user: UserId, oldHash: TokenHash, newId: ConnId, issuedAt: int, secret: nat, u: UserId)
    requires Inv(db)
    ensures |LiveIds(ApplyRotate(db, user, oldHash, newId, issuedAt, secret).active, {u})| == |LiveIds(db.active, {u})|
  {
    var after := ApplyRotate(db, user, oldHash, newId, issuedAt, secret);
    if after != db {
      var o := FindByHash(db.active, user, oldHash).value.id;
      if u == user {
        assert LiveIds(after.active, {u}) == LiveIds(db.active, {u}) - {o} + {newId};
        SwapKeepsSize(LiveIds(db.active, {u}), o, newId);
      } else {
        assert LiveIds(after.active, {u}) == LiveIds(db.active, {u});
      }
    }
  }

  // ----------------------------------------------- what a step may do to a row

  /** A row keeps its identity, and once replaced it never changes again. */
  ghost predicate Evolved(before: Connection, after: Connection) {
    && after == before.(replacedAt := after.replacedAt, replacedBy := after.replacedBy)
    && (before.replacedAt.Some? ==> after == before)
  }

  /** Everything a later state `db'` owes to an earlier one. */
  ghost predicate Extends(db: Db, db': Db) {
    && db.used <= db'.used
    && db.logins <= db'.logins
    && db.clock <= db'.clock
    && db.accounts.Keys <= db'.accounts.Keys
    && (forall i :: i in db.used && i in db'.active ==> i in db.active && Evolved(db.active[i], db'.active[i]))
    && (forall i :: i in db'.active && i !in db.used ==>
          db'.active[i].session < db.logins ==> Alive(db, db'.active[i].user, db'.active[i].session))
    && (forall h :: h in db.resets ==> h in db'.resets && db'.resets[h].user == db.resets[h].user &&
                                       (db.resets[h].usedAt.Some? ==> db'.resets[h] == db.resets[h]))
  }

  lemma StampExtends(db: Db, db': Db, ids: set<ConnId>)
    requires Inv(db)
    requires forall i :: i in ids ==> i in db.active && db.active[i].Live()
    requires db'.active == StampReplaced(db.active, ids, db.clock)
    requires db'.used == db.used && db'.logins == db.logins && db'.clock == db.clock
    requires db.accounts.Keys <= db'.accounts.Keys
    requires db'.resets == db.resets || exists user :: db'.resets == Spend(db.resets, user, db.clock)
    ensures Extends(db, db')
  {
  }

  lemma RotateExtends(db: Db, step: Step)
    requires Inv(db) && step.Rotate?
    ensures Extends(db, Apply(db, step))
  {
    var after := Apply(db, step);
    if after != db {
      var o := FindByHash(db.active, step.user, step.oldHash).value.id;
      assert Alive(db, db.active[o].user, db.active[o].session);
    }
  }

  lemma LoginExtends(db: Db, step: Step)
    requires Inv(db) && step.Login?
    ensures Extends(db, Apply(db, step))
  {
  }

  lemma ArchiveExtends(db: Db, cutoff: int)
    requires Inv(db)
    ensures Extends(db, ApplyArchive(db, cutoff))
  {
    ArchiveResult(db, cutoff);
  }

  lemma OtherTablesExtend(db: Db, db': Db)
    requires Inv(db)
    requires db'.active == db.active && db'.used == db.used && db'.logins == db.logins && db'.clock >= db.clock
    requires db'.accounts == db.accounts
    requires forall h :: h in db.resets ==> h in db'.resets && db'.resets[h].user == db.resets[h].user &&
                                            (db.resets[h].usedAt.Some? ==> db'.resets[h] == db.resets[h])
    ensures Extends(db, db')
  {
  }

  lemma ApplyExtends(db: Db, step: Step)
    requires Inv(db)
    ensures Extends(db, Apply(db, step))
  {
    hide Inv, Extends, ApplyRotate, ApplyArchive;
    match step
    case Login(_, _, _, _) => LoginExtends(db, step);
    case Rotate(_, _, _, _, _) => RotateExtends(db, step);
    case Revoke(user, id) =>
      if ApplyRevoke(db, user, id) != db {
        StampExtends(db, Apply(db, step), {id});
      } else {
        OtherTablesExtend(db, db);
      }
    case RevokeUsers(users) => StampExtends(db, Apply(db, step), LiveIds(db.active, users));
    case HandleReuse(user) => StampExtends(db, Apply(db, step), LiveIds(db.active, {user}));
    case ChangePassword(user, _) =>
      if user in db.accounts {
        StampExtends(db, Apply(db, step), LiveIds(db.active, {user}));
      } else {
        OtherTablesExtend(db, db);
      }
    case CreateReset(_, _, _) => OtherTablesExtend(db, Apply(db, step));
    case ConsumeReset(hash, _) =>
      if Consumable(db, hash) {
        StampExtends(db, Apply(db, step), LiveIds(db.active, {db.resets[hash].user}));
      } else {
        OtherTablesExtend(db, db);
      }
    case Archive(cutoff) => ArchiveExtends(db, cutoff);
    case PurgeHistory(_) => OtherTablesExtend(db, Apply(db, step));
    case Tick(_) => OtherTablesExtend(db, Apply(db, step));
  }

  lemma AliveBackwards(db: Db, db': Db, user: UserId, session: nat)
    requires Extends(db, db') && session < db.logins && Alive(db', user, session)
    ensures Alive(db, user, session)
  {
    var i :| i in db'.active && db'.active[i].user == user && db'.active[i].session == session && db'.active[i].Live();
    if i in db.used {
      assert Evolved(db.active[i], db'.active[i]);
    }
  }

  lemma ExtendsTrans(a: Db, b: Db, c: Db)
    requires Extends(a, b) && Extends(b, c)
    ensures Extends(a, c)
  {
    forall i | i in c.active && i !in a.used && c.active[i].session < a.logins
      ensures Alive(a, c.active[i].user, c.active[i].session)
    {
      if i !in b.used {
        AliveBackwards(a, b, c.active[i].user, c.active[i].session);
      }
    }
  }

  lemma {:induction false} RunExtends(db: Db, steps: seq<Step>)
    requires Inv(db)
    ensures Extends(db, Run(db, steps))
    decreases |steps|
  {
    if steps != [] {
      ApplyExtends(db, steps[0]);
      ApplyKeeps(db, steps[0]);
      RunExtends(Apply(db, steps[0]), steps[1..]);
      ExtendsTrans(db, Apply(db, steps[0]), Run(db, steps));
    }
  }

  /** A login that has lost its live connection never gets one back. */
  lemma DeadSessionsStayDead(db: Db, steps: seq<Step>, user: UserId, session: nat)
    requires Inv(db) && session < db.logins && !Alive(db, user, session)
    ensures !Alive(Run(db, steps), user, session)
  {
    RunExtends(db, steps);
    if Alive(Run(db, steps), user, session) {
      AliveBackwards(db, Run(db, steps), user, session);
    }
  }

  // ---------------------------------------------------------- password resets

  /** From the commit of a reset on, no row of the user that descends from a
      login before it is ever live, and no reset token issued before it is ever
      usable. */
  lemma ResetEndsEverySession(db: Db, hash: ResetHash, passwordHash: nat, later: seq<Step>, i: ConnId, h: ResetHash)
    requires Inv(db) && Consumable(db, hash)
    ensures var user := db.resets[hash].user;
            var end := Run(Apply(db, ConsumeReset(hash, passwordHash)), later);
            && (i in end.active && end.active[i].user == user && end.active[i].session < db.logins ==>
                  !end.active[i].Live())
            && (h in db.resets && db.resets[h].user == user ==> h in end.resets && end.resets[h].usedAt.Some?)
  {
    var user := db.resets[hash].user;
    var mid := Apply(db, ConsumeReset(hash, passwordHash));
    ApplyKeeps(db, ConsumeReset(hash, passwordHash));
    RunExtends(mid, later);
    var end := Run(mid, later);
    if i in end.active && end.active[i].user == user && end.active[i].session < db.logins {
      DeadSessionsStayDead(mid, later, user, end.active[i].session);
    }
  }

  ghost function Consumptions(db: Db, steps: seq<Step>, hash: ResetHash): nat
    decreases |steps|
  {
    if steps == [] then 0
    else
      (if steps[0].ConsumeReset? && steps[0].resetHash == hash && Consumable(db, hash) then 1 else 0)
      + Consumptions(Apply(db, steps[0]), steps[1..], hash)
  }

  lemma {:induction false} UsedTokenIsNeverConsumed(db: Db, steps: seq<Step>, hash: ResetHash)
    requires Inv(db) && hash in db.resets && db.resets[hash].usedAt.Some?
    ensures Consumptions(db, steps, hash) == 0
    decreases |steps|
  {
    if steps != [] {
      ApplyKeeps(db, steps[0]);
      ApplyExtends(db, steps[0]);
      UsedTokenIsNeverConsumed(Apply(db, steps[0]), steps[1..], hash);
    }
  }

  /** Over a whole run a reset token is consumed at most once. */
  lemma {:induction false} ConsumedAtMostOnce(db: Db, steps: seq<Step>, hash: ResetHash)
    requires Inv(db)
    ensures Consumptions(db, steps, hash) <= 1
    decreases |steps|
  {
    if steps != [] {
      var next := Apply(db, steps[0]);
      ApplyKeeps(db, steps[0]);
      if steps[0].ConsumeReset? && steps[0].resetHash == hash && Consumable(db, hash) {
        UsedTokenIsNeverConsumed(next, steps[1..], hash);
      } else {
        ConsumedAtMostOnce(next, steps[1..], hash);
      }
    }
  }

  // ------------------------------------------------------------- maintenance

  /** After archiving, a lookup by hash finds the same row, in the history if the
      row was old enough to move. */
  lemma ArchiveMovesLookup(db: Db, cutoff: int, user: UserId, hash: TokenHash)
    requires Inv(db)
    ensures var after := ApplyArchive(db, cutoff);
            match FindByHash(db.active, user, hash)
            case None => FindByHash(after.active, user, hash).None? &&
                         FindByHash(after.history, user, hash) == FindByHash(db.history, user, hash)
            case Some(conn) =>
              && (conn.replacedBy.Some? ==> conn.replacedAt.Some?)
              && if conn.replacedAt.Some? && conn.replacedAt.value < cutoff
                 then FindByHash(after.active, user, hash).None? && FindByHash(after.history, user, hash) == Some(conn)
                 else FindByHash(after.active, user, hash) == Some(conn)
  {
    var after := ApplyArchive(db, cutoff);
    ArchiveResult(db, cutoff);
    ArchiveKeeps(db, cutoff);
    FindByHashExact(db, user, hash);
    FindByHashExact(after, user, hash);
    hide Keyed, Named, Linked, Ordered, ApplyArchive;
    match FindByHash(db.active, user, hash)
    case None =>
      if exists i :: i in db.history && HasHash(db.history[i], user, hash) {
        var i :| i in db.history && HasHash(db.history[i], user, hash);
        assert HasHash(after.history[i], user, hash);
      }
    case Some(conn) =>
      var i :| i in db.active && HasHash(db.active[i], user, hash) && db.active[i] == conn;
      if i in Archivable(db.active, cutoff) {
        assert HasHash(after.history[i], user, hash);
      } else {
        assert HasHash(after.active[i], user, hash);
      }
  }

  /** Archiving changes the answer of the session check for exactly the rotated
      tokens that are still inside their grace window. */
  lemma ArchiveChangesCheck(db: Db, cutoff: int, user: UserId, hash: TokenHash, now: int)
    requires Inv(db)
    ensures CheckUserConnection(Apply(db, Archive(cutoff)), user, hash, now) != CheckUserConnection(db, user, hash, now)
       <==> match FindByHash(db.active, user, hash)
            case None => false
            case Some(conn) => conn.replacedBy.Some? && conn.replacedAt.Some? && conn.replacedAt.value < cutoff &&
                               now - conn.replacedAt.value <= REFRESH_GRACE_PERIOD
  {
    var after := ApplyArchive(db, cutoff);
    ArchiveMovesLookup(db, cutoff, user, hash);
    hide ApplyArchive, FindByHash, Archivable;
    assert Apply(db, Archive(cutoff)) == after;
  }

  /** With the twelve-hour delay maintenance never changes the answer. */
  lemma ArchiveIsInvisible(db: Db, cutoff: int, user: UserId, hash: TokenHash, now: int)
    requires Inv(db) && cutoff <= now - CONNECTION_ARCHIVE_DELAY
    ensures CheckUserConnection(Apply(db, Archive(cutoff)), user, hash, now) == CheckUserConnection(db, user, hash, now)
  {
    ArchiveChangesCheck(db, cutoff, user, hash, now);
  }
}
