/** What every reachable state of the session tables satisfies, and what a step
    may change in a row. */
module SessionInvariant {
  import opened Wrappers
  import opened SessionModel

  ghost predicate Keyed(db: Db) {
    && (forall i :: i in db.active ==> db.active[i].id == i && i in db.used)
    && (forall i :: i in db.history ==> db.history[i].id == i && i in db.used)
    && (forall i :: i in db.active ==> i !in db.history)
  }

  /** The stored hash is that of a token naming this very row. */
  ghost predicate NamesRow(conn: Connection) {
    && conn.hash.preimage.Session?
    && conn.hash.preimage.user == conn.user
    && conn.hash.preimage.conn == conn.id
    && conn.hash.preimage.issuedAtSecond == conn.issuedAt / SECOND
  }

  ghost predicate Named(db: Db) {
    && (forall i :: i in db.active ==> NamesRow(db.active[i]))
    && (forall i :: i in db.history ==> NamesRow(db.history[i]))
  }

  ghost predicate TimedRow(conn: Connection, clock: int) {
    && conn.createdAt <= clock
    && (conn.replacedAt.Some? ==> conn.createdAt <= conn.replacedAt.value <= clock)
    && (conn.replacedBy.Some? ==> conn.replacedAt.Some?)
  }

  ghost predicate Timed(db: Db) {
    && (forall i :: i in db.active ==> TimedRow(db.active[i], db.clock))
    && (forall i :: i in db.history ==> TimedRow(db.history[i], db.clock) && db.history[i].replacedAt.Some?)
  }

  /** `next` took over from `conn`. */
  ghost predicate Succeeds(next: Connection, conn: Connection) {
    && conn.replacedAt.Some?
    && next.user == conn.user
    && next.session == conn.session
    && next.generation == conn.generation + 1
    && next.createdAt == conn.replacedAt.value
    && (next.replacedAt.Some? ==> conn.replacedAt.value <= next.replacedAt.value)
  }

  ghost predicate Link(active: map<ConnId, Connection>, i: ConnId, n: ConnId) {
    i in active && active[i].replacedBy == Some(n)
  }

  ghost predicate Linked(db: Db) {
    forall i, n {:trigger Link(db.active, i, n)} :: Link(db.active, i, n) ==>
      n in db.active && Succeeds(db.active[n], db.active[i])
  }

  ghost predicate Peers(active: map<ConnId, Connection>, i: ConnId, j: ConnId) {
    i in active && j in active && active[i].session == active[j].session
  }

  /** Two rows of one login: only the newest of a login has no successor. */
  ghost predicate PeerOrder(a: Connection, b: Connection) {
    && a.user == b.user
    && (a.generation == b.generation ==> a.id == b.id)
    && (a.replacedBy.None? ==> b.generation <= a.generation)
  }

  ghost predicate Ordered(db: Db) {
    && (forall i :: i in db.active ==> db.active[i].session < db.logins)
    && (forall i, j {:trigger Peers(db.active, i, j)} :: Peers(db.active, i, j) ==>
          PeerOrder(db.active[i], db.active[j]))
  }

  ghost predicate Inv(db: Db) {
    Keyed(db) && Named(db) && Timed(db) && Linked(db) && Ordered(db)
  }

  /** A lookup by hash is exact: it finds the one row holding that hash, if any. */
  lemma FindByHashExact(db: Db, user: UserId, hash: TokenHash)
    requires Inv(db)
    ensures forall i :: i in db.active && HasHash(db.active[i], user, hash) ==>
              FindByHash(db.active, user, hash) == Some(db.active[i])
    ensures forall i :: i in db.history && HasHash(db.history[i], user, hash) ==>
              FindByHash(db.history, user, hash) == Some(db.history[i])
  {
  }

  /** The connection id inside a token keeps two rows from ever sharing a hash:
      only a repeated id can make an insertion fail. */
  lemma OnlyRepeatedIdsCollide(db: Db, id: ConnId, user: UserId, issuedAt: int, secret: nat)
    requires Inv(db)
    ensures CanInsert(db, id, user, Sha256(GenerateSessionToken(user, id, issuedAt, secret))) <==> id !in db.used
  {
  }

  lemma StampKeeps(db: Db, ids: set<ConnId>)
    requires Inv(db)
    requires forall i :: i in ids ==> i in db.active && db.active[i].Live()
    ensures Inv(db.(active := StampReplaced(db.active, ids, db.clock)))
  {
    var after := db.(active := StampReplaced(db.active, ids, db.clock));
    forall i, n | Link(after.active, i, n)
      ensures n in after.active && Succeeds(after.active[n], after.active[i])
    {
      assert Link(db.active, i, n);
    }
    forall i, j | Peers(after.active, i, j) ensures PeerOrder(after.active[i], after.active[j]) {
      assert Peers(db.active, i, j);
    }
  }

  lemma LoginKeepsRows(db: Db, id: ConnId, user: UserId, issuedAt: int, secret: nat)
    requires Keyed(db) && Named(db) && Timed(db)
    ensures var after := ApplyLogin(db, id, user, issuedAt, secret); Keyed(after) && Named(after) && Timed(after)
  {
  }

  lemma LoginKeepsChains(db: Db, id: ConnId, user: UserId, issuedAt: int, secret: nat)
    requires Keyed(db) && Linked(db) && Ordered(db)
    ensures var after := ApplyLogin(db, id, user, issuedAt, secret); Linked(after) && Ordered(after)
  {
    var after := ApplyLogin(db, id, user, issuedAt, secret);
    forall i, n | Link(after.active, i, n)
      ensures n in after.active && Succeeds(after.active[n], after.active[i])
    {
      assert Link(db.active, i, n);
    }
    forall i, j | Peers(after.active, i, j) ensures PeerOrder(after.active[i], after.active[j]) {
      assert Peers(db.active, i, j) || i == j;
    }
  }

  lemma LoginKeeps(db: Db, id: ConnId, user: UserId, issuedAt: int, secret: nat)
    requires Inv(db)
    ensures Inv(ApplyLogin(db, id, user, issuedAt, secret))
  {
    hide Keyed, Named, Timed, Linked, Ordered, ApplyLogin;
    LoginKeepsRows(db, id, user, issuedAt, secret);
    LoginKeepsChains(db, id, user, issuedAt, secret);
  }

  lemma RotateKeepsRows(db: Db, user: UserId, oldHash: TokenHash, newId: ConnId, issuedAt: int, secret: nat)
    requires Keyed(db) && Named(db) && Timed(db)
    ensures var after := ApplyRotate(db, user, oldHash, newId, issuedAt, secret);
            Keyed(after) && Named(after) && Timed(after)
  {
  }

  lemma RotateKeepsChains(db: Db, user: UserId, oldHash: TokenHash, newId: ConnId, issuedAt: int, secret: nat)
    requires Keyed(db) && Timed(db) && Linked(db) && Ordered(db)
    ensures var after := ApplyRotate(db, user, oldHash, newId, issuedAt, secret); Linked(after) && Ordered(after)
  {
    var after := ApplyRotate(db, user, oldHash, newId, issuedAt, secret);
    if after != db {
      var o := FindByHash(db.active, user, oldHash).value.id;
      assert after.active.Keys == db.active.Keys + {newId};
      forall i, n | Link(after.active, i, n)
        ensures n in after.active && Succeeds(after.active[n], after.active[i])
      {
        if i != o {
          assert Link(db.active, i, n);
        }
      }
      forall i, j | Peers(after.active, i, j) ensures PeerOrder(after.active[i], after.active[j]) {
        var i', j' := if i == newId then o else i, if j == newId then o else j;
        assert Peers(db.active, i', j') && Peers(db.active, j', i');
      }
    }
  }

  lemma RotateKeeps(db: Db, user: UserId, oldHash: TokenHash, newId: ConnId, issuedAt: int, secret: nat)
    requires Inv(db)
    ensures Inv(ApplyRotate(db, user, oldHash, newId, issuedAt, secret))
  {
    hide Keyed, Named, Timed, Linked, Ordered, ApplyRotate;
    RotateKeepsRows(db, user, oldHash, newId, issuedAt, secret);
    RotateKeepsChains(db, user, oldHash, newId, issuedAt, secret);
  }

  /** Moving rows by age never cuts a chain: a moved successor has a moved
      predecessor, so no remaining link is ever set to NULL. */
  lemma ArchiveIsPredecessorClosed(db: Db, cutoff: int, i: ConnId)
    requires Inv(db)
    requires i in db.active && i !in Archivable(db.active, cutoff)
    ensures Unlinked(db.active, Archivable(db.active, cutoff))[i] == db.active[i]
    ensures db.active[i].replacedBy.Some? ==> db.active[i].replacedBy.value !in Archivable(db.active, cutoff)
  {
    if db.active[i].replacedBy.Some? {
      assert Link(db.active, i, db.active[i].replacedBy.value);
    }
  }

  /** The archive statement never fails and rows that stay are untouched. */
  lemma ArchiveResult(db: Db, cutoff: int)
    requires Inv(db)
    ensures var moved := Archivable(db.active, cutoff);
            && moved * db.history.Keys == {}
            && Unlinked(db.active, moved) == Except(db.active, moved)
            && ApplyArchive(db, cutoff) == 
               db.(active := Except(db.active, moved), history := db.history + Only(db.active, moved))
  {
    var moved := Archivable(db.active, cutoff);
    assert moved * db.history.Keys == {};
    forall i | i in db.active && i !in moved ensures Unlinked(db.active, moved)[i] == db.active[i] {
      ArchiveIsPredecessorClosed(db, cutoff, i);
    }
    assert Unlinked(db.active, moved) == Except(db.active, moved);
  }

  /** The same, row by row. */
  lemma ArchiveRows(db: Db, cutoff: int)
    requires Inv(db)
    ensures var moved := Archivable(db.active, cutoff);
            var active, history := Except(db.active, moved), db.history + Only(db.active, moved);
            && (forall i :: i in active <==>
                  i in db.active && (db.active[i].replacedAt.None? || db.active[i].replacedAt.value >= cutoff))
            && (forall i :: i in history <==> i in db.history || (i in db.active && i !in active))
            && (forall i :: i in db.active ==> db.active[i] == if i in active then active[i] else history[i])
            && (forall i :: i in db.history ==> history[i] == db.history[i])
  {
  }

  lemma MovingKeepsRows(db: Db, cutoff: int)
    requires Keyed(db) && Named(db) && Timed(db)
    ensures var moved := Archivable(db.active, cutoff);
            var after := db.(active := Except(db.active, moved), history := db.history + Only(db.active, moved));
            Keyed(after) && Named(after) && Timed(after)
  {
  }

  lemma MovingKeepsChains(db: Db, cutoff: int)
    requires Inv(db)
    ensures var moved := Archivable(db.active, cutoff);
            var after := db.(active := Except(db.active, moved), history := db.history + Only(db.active, moved));
            Linked(after) && Ordered(after)
  {
    var moved := Archivable(db.active, cutoff);
    var after := db.(active := Except(db.active, moved), history := db.history + Only(db.active, moved));
    forall i, n | Link(after.active, i, n)
      ensures n in after.active && Succeeds(after.active[n], after.active[i])
    {
      assert Link(db.active, i, n);
      ArchiveIsPredecessorClosed(db, cutoff, i);
    }
    hide Keyed, Named, Timed, Linked;
    forall i, j | Peers(after.active, i, j) ensures PeerOrder(after.active[i], after.active[j]) {
      assert Peers(db.active, i, j);
    }
  }

  lemma ArchiveKeeps(db: Db, cutoff: int)
    requires Inv(db)
    ensures Inv(ApplyArchive(db, cutoff))
  {
    ArchiveResult(db, cutoff);
    hide Keyed, Named, Timed, Linked, Ordered, ApplyArchive, Archivable, Only, Except;
    MovingKeepsRows(db, cutoff);
    MovingKeepsChains(db, cutoff);
  }

  lemma PurgeKeeps(db: Db, cutoff: int)
    requires Inv(db)
    ensures Inv(ApplyPurge(db, cutoff))
  {
  }

  /** Accounts, reset tokens and a later clock do not matter to the invariant. */
  lemma OtherTablesKeep(db: Db, after: Db)
    requires Inv(db)
    requires after.active == db.active && after.history == db.history
    requires after.used == db.used && after.logins == db.logins && after.clock >= db.clock
    ensures Inv(after)
  {
  }

  /** Every statement and transaction keeps the invariant. */
  lemma ApplyKeeps(db: Db, step: Step)
    requires Inv(db)
    ensures Inv(Apply(db, step))
  {
    hide Inv, StampReplaced;
    match step
    case Login(id, user, issuedAt, secret) => LoginKeeps(db, id, user, issuedAt, secret);
    case Rotate(user, oldHash, newId, issuedAt, secret) =>
      hide ApplyRotate;
      RotateKeeps(db, user, oldHash, newId, issuedAt, secret);
    case Revoke(user, id) =>
      if ApplyRevoke(db, user, id) != db {
        StampKeeps(db, {id});
      }
    case RevokeUsers(users) => StampKeeps(db, LiveIds(db.active, users));
    case HandleReuse(user) =>
      StampKeeps(db, LiveIds(db.active, {user}));
      OtherTablesKeep(db.(active := RevokedFor(db, {user})), Apply(db, step));
    case ChangePassword(user, _) =>
      StampKeeps(db, LiveIds(db.active, {user}));
      if user in db.accounts {
        OtherTablesKeep(db.(active := RevokedFor(db, {user})), Apply(db, step));
      }
    case CreateReset(_, _, _) => OtherTablesKeep(db, Apply(db, step));
    case ConsumeReset(hash, _) =>
      if Consumable(db, hash) {
        var user := db.resets[hash].user;
        StampKeeps(db, LiveIds(db.active, {user}));
        OtherTablesKeep(db.(active := RevokedFor(db, {user})), Apply(db, step));
      }
    case Archive(cutoff) => ArchiveKeeps(db, cutoff);
    case PurgeHistory(cutoff) => PurgeKeeps(db, cutoff);
    case Tick(_) => OtherTablesKeep(db, Apply(db, step));
  }
}
