/** The tables behind hybrid session authentication and password resets, and the
    effect of every statement or transaction on them. One `Step` is one committed
    statement or transaction; `now()` inside it is the database clock. */
module SessionModel {
  import opened Wrappers

  type UserId = nat
  type ConnId = nat
  type ResetHash = nat

  /** Timestamps are microseconds, the resolution of TIMESTAMPTZ. */
  const SECOND: int := 1_000_000
  const REFRESH_GRACE_PERIOD: int := 60 * SECOND
  const CONNECTION_ARCHIVE_DELAY: int := 12 * 3600 * SECOND
  const CONNECTION_HISTORY_RETENTION: int := 25 * 3600 * SECOND
  const MAX_SESSION_TOKEN_ATTEMPTS: nat := 5

  /** A session JWT is a pure function of these four values (iat cut to seconds);
      `Foreign` is any other text a client may present. */
  datatype Token =
    | Session(user: UserId, conn: ConnId, issuedAtSecond: int, secret: nat)
    | Foreign(text: nat)

  /** SHA-256, taken as injective. */
  datatype TokenHash = Sha256(preimage: Token)

  function GenerateSessionToken(user: UserId, conn: ConnId, issuedAt: int, secret: nat): Token {
    Session(user, conn, issuedAt / SECOND, secret)
  }

  /** A row of user_connections. The last two fields are not columns: `session`
      numbers the login the row descends from and `generation` counts the
      rotations since that login. */
  datatype Connection = Connection(
    id: ConnId,
    user: UserId,
    hash: TokenHash,
    issuedAt: int,
    createdAt: int,
    replacedAt: Option<int>,
    replacedBy: Option<ConnId>,
    session: nat,
    generation: nat)
  {
    predicate Live() { replacedAt.None? }
  }

  datatype Account = Account(passwordHash: nat, resetPassword: bool, connectionViolation: bool)

  datatype ResetToken = ResetToken(user: UserId, expiresAt: int, usedAt: Option<int>)

  /** `used` holds every connection id ever inserted and `logins` counts logins;
      neither is stored by the system. */
  datatype Db = Db(
    active: map<ConnId, Connection>,
    history: map<ConnId, Connection>,
    accounts: map<UserId, Account>,
    resets: map<ResetHash, ResetToken>,
    clock: int,
    used: set<ConnId>,
    logins: nat)

  datatype Step =
    | Login(id: ConnId, user: UserId, issuedAt: int, secret: nat)
    | Rotate(user: UserId, oldHash: TokenHash, newId: ConnId, issuedAt: int, secret: nat)
    | Revoke(user: UserId, id: ConnId)
    | RevokeUsers(users: set<UserId>)
    | HandleReuse(user: UserId)
    | ChangePassword(user: UserId, passwordHash: nat)
    | CreateReset(user: UserId, resetHash: ResetHash, expiresAt: int)
    | ConsumeReset(resetHash: ResetHash, passwordHash: nat)
    | Archive(cutoff: int)
    | PurgeHistory(cutoff: int)
    | Tick(to: int)

  /** UPDATE ... SET replaced_at = now() on the given rows. */
  function StampReplaced(active: map<ConnId, Connection>, ids: set<ConnId>, at: int): map<ConnId, Connection> {
    map i | i in active :: if i in ids then active[i].(replacedAt := Some(at)) else active[i]
  }

  function LiveIds(active: map<ConnId, Connection>, users: set<UserId>): set<ConnId> {
    set i | i in active && active[i].Live() && active[i].user in users
  }

  function RevokedFor(db: Db, users: set<UserId>): map<ConnId, Connection> {
    StampReplaced(db.active, LiveIds(db.active, users), db.clock)
  }

  predicate HasHash(conn: Connection, user: UserId, hash: TokenHash) {
    conn.user == user && conn.hash == hash
  }

  /** The row a (user_id, token_hash) lookup reads. */
  ghost function FindByHash(rows: map<ConnId, Connection>, user: UserId, hash: TokenHash): Option<Connection> {
    if exists i :: i in rows && HasHash(rows[i], user, hash)
    then var i :| i in rows && HasHash(rows[i], user, hash); Some(rows[i])
    else None
  }

  /** PRIMARY KEY (id) and UNIQUE (user_id, token_hash). */
  predicate CanInsert(db: Db, id: ConnId, user: UserId, hash: TokenHash) {
    id !in db.used && forall i :: i in db.active ==> !HasHash(db.active[i], user, hash)
  }

  function ApplyLogin(db: Db, id: ConnId, user: UserId, issuedAt: int, secret: nat): Db {
    var hash := Sha256(GenerateSessionToken(user, id, issuedAt, secret));
    if !CanInsert(db, id, user, hash) then db
    else
      var conn := Connection(id, user, hash, issuedAt, db.clock, None, None, db.logins, 0);
      db.(active := db.active[id := conn], used := db.used + {id}, logins := db.logins + 1)
  }

  /** The rotation transaction: replace the old row if it is still live, insert
      its successor, link the two; a lost race or a collision rolls back. */
  ghost function ApplyRotate(
    db: Db, user: UserId, oldHash: TokenHash, newId: ConnId, issuedAt: int, secret: nat): Db
  {
    match FindByHash(db.active, user, oldHash)
    case None => db
    case Some(current) =>
      var hash := Sha256(GenerateSessionToken(user, newId, issuedAt, secret));
      if !current.Live() || !CanInsert(db, newId, user, hash) then db
      else
        var successor := Connection(newId, user, hash, issuedAt, db.clock, None, None,
                                    current.session, current.generation + 1);
        var replaced := current.(replacedAt := Some(db.clock), replacedBy := Some(newId));
        db.(active := db.active[current.id := replaced][newId := successor], used := db.used + {newId})
  }

  function ApplyRevoke(db: Db, user: UserId, id: ConnId): Db {
    if id in db.active && db.active[id].user == user && db.active[id].Live()
    then db.(active := StampReplaced(db.active, {id}, db.clock))
    else db
  }

  function ApplyReuse(db: Db, user: UserId): Db {
    db.(active := RevokedFor(db, {user}),
        accounts := if user in db.accounts
                    then db.accounts[user := db.accounts[user].(connectionViolation := true)]
                    else db.accounts)
  }

  function WithPassword(accounts: map<UserId, Account>, user: UserId, passwordHash: nat): map<UserId, Account> {
    accounts[user := Account(passwordHash, false, false)]
  }

  function ApplyPassword(db: Db, user: UserId, passwordHash: nat): Db {
    if user !in db.accounts then db
    else db.(accounts := WithPassword(db.accounts, user, passwordHash), active := RevokedFor(db, {user}))
  }

  /** Mark every unused reset token of the user as used. */
  function Spend(resets: map<ResetHash, ResetToken>, user: UserId, at: int): map<ResetHash, ResetToken> {
    map h | h in resets ::
      if resets[h].user == user && resets[h].usedAt.None? then resets[h].(usedAt := Some(at)) else resets[h]
  }

  function ApplyCreateReset(db: Db, user: UserId, hash: ResetHash, expiresAt: int): Db {
    if hash in db.resets || user !in db.accounts then db
    else db.(resets := Spend(db.resets, user, db.clock)[hash := ResetToken(user, expiresAt, None)])
  }

  predicate Consumable(db: Db, hash: ResetHash) {
    && hash in db.resets
    && db.resets[hash].usedAt.None?
    && db.resets[hash].expiresAt > db.clock
    && db.resets[hash].user in db.accounts
  }

  function ApplyConsume(db: Db, hash: ResetHash, passwordHash: nat): Db {
    if !Consumable(db, hash) then db
    else
      var user := db.resets[hash].user;
      db.(accounts := WithPassword(db.accounts, user, passwordHash),
          active := RevokedFor(db, {user}),
          resets := Spend(db.resets, user, db.clock))
  }

  function Archivable(active: map<ConnId, Connection>, cutoff: int): set<ConnId> {
    set i | i in active && active[i].replacedAt.Some? && active[i].replacedAt.value < cutoff
  }

  function Only(rows: map<ConnId, Connection>, ids: set<ConnId>): map<ConnId, Connection> {
    map i | i in rows && i in ids :: rows[i]
  }

  function Except(rows: map<ConnId, Connection>, ids: set<ConnId>): map<ConnId, Connection> {
    map i | i in rows && i !in ids :: rows[i]
  }

  /** Remaining rows lose a link to a moved row: replaced_by is declared
      ON DELETE SET NULL. */
  function Unlinked(active: map<ConnId, Connection>, moved: set<ConnId>): map<ConnId, Connection> {
    map i | i in active && i !in moved ::
      if active[i].replacedBy.Some? && active[i].replacedBy.value in moved
      then active[i].(replacedBy := None) else active[i]
  }

  function ApplyArchive(db: Db, cutoff: int): Db {
    var moved := Archivable(db.active, cutoff);
    if moved * db.history.Keys != {} then db // primary key of the history table: rolled back
    else db.(active := Unlinked(db.active, moved),
             history := db.history + Only(db.active, moved))
  }

  function ApplyPurge(db: Db, cutoff: int): Db {
    db.(history := map i | i in db.history &&
                           !(db.history[i].replacedAt.Some? && db.history[i].replacedAt.value < cutoff)
                       :: db.history[i])
  }

  ghost function Apply(db: Db, step: Step): Db {
    match step
    case Login(id, user, issuedAt, secret) => ApplyLogin(db, id, user, issuedAt, secret)
    case Rotate(user, oldHash, newId, issuedAt, secret) => ApplyRotate(db, user, oldHash, newId, issuedAt, secret)
    case Revoke(user, id) => ApplyRevoke(db, user, id)
    case RevokeUsers(users) => db.(active := RevokedFor(db, users))
    case HandleReuse(user) => ApplyReuse(db, user)
    case ChangePassword(user, passwordHash) => ApplyPassword(db, user, passwordHash)
    case CreateReset(user, hash, expiresAt) => ApplyCreateReset(db, user, hash, expiresAt)
    case ConsumeReset(hash, passwordHash) => ApplyConsume(db, hash, passwordHash)
    case Archive(cutoff) => ApplyArchive(db, cutoff)
    case PurgeHistory(cutoff) => ApplyPurge(db, cutoff)
    case Tick(to) => if to > db.clock then db.(clock := to) else db
  }

  ghost function Run(db: Db, steps: seq<Step>): Db
    decreases |steps|
  {
    if steps == [] then db else Run(Apply(db, steps[0]), steps[1..])
  }

  lemma {:induction false} RunAppend(db: Db, a: seq<Step>, b: seq<Step>)
    ensures Run(db, a + b) == Run(Run(db, a), b)
    decreases |a|
  {
    if a == [] {
      assert a + b == b;
    } else {
      assert (a + b)[1..] == a[1..] + b;
      RunAppend(Apply(db, a[0]), a[1..], b);
    }
  }

  /** Answers of the session check made on every authenticated request. */
  datatype Verdict = Accepted | Reused | Unknown

  ghost function CheckUserConnection(db: Db, user: UserId, hash: TokenHash, now: int): Verdict {
    match FindByHash(db.active, user, hash)
    case None =>
      (match FindByHash(db.history, user, hash)
       case None => Unknown
       case Some(conn) => if conn.replacedBy.Some? then Reused else Unknown)
    case Some(conn) =>
      if conn.Live() then Accepted
      else if conn.replacedBy.None? then Unknown
      else if now - conn.replacedAt.value <= REFRESH_GRACE_PERIOD then Accepted
      else Reused
  }
}
