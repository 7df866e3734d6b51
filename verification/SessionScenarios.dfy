/** Runs of the session services: a refresh that loses its row, one that loses a successor,
    one that serves a token from outside the grace window, and a logout that leaves its
    session alive. */
module SessionScenarios {
  import opened Wrappers
  import opened SessionModel
  import opened SessionInvariant
  import opened SessionRuns
  import opened SessionCalls
  import opened SessionOutcomes
  import opened SessionRaces
  import opened SessionService
  import opened LoginLogout

  const IDS: seq<ConnId> := [10, 11, 12, 13, 14]
  const MORE_IDS: seq<ConnId> := [20, 21, 22, 23, 24]
  const LAST_IDS: seq<ConnId> := [30, 31, 32, 33, 34]

  /** A user with one login, and its token. */
  method LogInFirst() returns (store: SessionStore, token: Token)
    ensures fresh(store) && Inv(store.State())
    ensures token == GenerateSessionToken(7, 10, 0, 1)
    ensures store.State() ==
            Db(map[10 := Connection(10, 7, Sha256(token), 0, 0, None, None, 0, 0)], map[], map[], map[], 0, {10}, 1)
  {
    store := new SessionStore(map[], 0);
    ghost var start := store.State();
    var answer, call := store.CreateSessionConnection(7, 1, 0, IDS, []);
    RunOne(start, Login(10, 7, 0, 1));
    token := answer.value.0;
  }

  /** One login, one lost race: the client gets the storage error, its session lives. */
  method RefreshLosesItsRow() returns (store: SessionStore, r: Result<(Token, ConnId), RefreshError>)
    ensures r == Err(RowNotFound)
    ensures Alive(store.State(), 7, 0)
  {
    hide Inv, Refresh, Explained, Ended, RotateThenArchive, AliveDuring, FirstLookup;
    var token;
    store, token := LogInFirst();
    RaceLosesRow(store.State(), 10, 7, token, 1, 0, MORE_IDS, 99);
    var env := [[], RotateThenArchive(store.active[10], store.clock, 99)];
    var answer, _ := store.RefreshConnection(7, token, 1, 0, MORE_IDS, env);
    r := answer;
  }

  /** One login rotated twice; twelve hours later, while the first token is presented, both
      replaced rows are archived: the walk finds no successor, and the session lives. */
  method RefreshLosesItsSuccessor() returns (store: SessionStore, r: Result<(Token, ConnId), RefreshError>)
    ensures r == Err(ConnectionNotFound)
    ensures Alive(store.State(), 7, 0)
  {
    hide Inv, Refresh, Explained, Ended, AliveDuring, FirstLookup, ApplyRotate;
    var token;
    store, token := LogInFirst();
    QuietRefreshRotates(store.State(), 10, 7, token, 1, 0, MORE_IDS);
    var answer, _ := store.RefreshConnection(7, token, 1, 0, MORE_IDS, []);
    QuietRefreshRotates(store.State(), 20, 7, answer.value.0, 1, 0, LAST_IDS);
    var second, _ := store.RefreshConnection(7, answer.value.0, 1, 0, LAST_IDS, []);
    store.AdvanceClock(CONNECTION_ARCHIVE_DELAY + 1);
    assert store.active[30].Live();
    ArchivingTakesSuccessor(store.State(), 10, 7, token, 1, 0, IDS, 1);
    var third, _ := store.RefreshConnection(7, token, 1, 0, IDS, [[], [Archive(1)]]);
    r := third;
  }

  /** One login rotated, and 61 seconds: the session check calls the first token reused, and
      a refresh that presents it is handed the live one. */
  method ServedOutsideTheWindow()
    returns (store: SessionStore, token: Token, r: Result<(Token, ConnId), RefreshError>)
    ensures CheckUserConnection(store.State(), 7, Sha256(token), store.clock) == Reused
    ensures r == Ok((GenerateSessionToken(7, 20, 0, 1), 20)) && 20 in store.active && store.active[20].Live()
  {
    hide Inv, Refresh, Explained, Ended, AliveDuring, FirstLookup, ApplyRotate, FindByHash;
    store, token := LogInFirst();
    QuietRefreshRotates(store.State(), 10, 7, token, 1, 0, MORE_IDS);
    var answer, _ := store.RefreshConnection(7, token, 1, 0, MORE_IDS, []);
    store.AdvanceClock(REFRESH_GRACE_PERIOD + SECOND);
    ReusedIsServed(store.State(), token);
    var again, _ := store.RefreshConnection(7, token, 1, 0, LAST_IDS, []);
    r := again;
  }

  /** One login rotated: a logout with the first token, still in its grace window, reports
      success, and the session lives on. */
  method LogoutLeavesSessionAlive() returns (store: SessionStore, ok: bool)
    ensures ok && Alive(store.State(), 7, 0)
  {
    hide Inv, Refresh, Explained, Ended, AliveDuring, FirstLookup, ApplyRotate, LoggedOut, LogoutCall;
    var token;
    store, token := LogInFirst();
    QuietRefreshRotates(store.State(), 10, 7, token, 1, 0, MORE_IDS);
    var answer, _ := store.RefreshConnection(7, token, 1, 0, MORE_IDS, []);
    assert store.active[20].Live();
    PresentedIsFound(store.State(), 10, 7, token, []);
    SessionSurvivesLogout(store.State(), 7, token, 0, []);
    var done, _ := store.Logout(7, token, 0, []);
    ok := done;
  }

  lemma ReusedIsServed(db: Db, token: Token)
    requires Inv(db) && Presents(db, 10, 7, token) && db.clock == 61 * SECOND
    requires db.active[10].replacedAt == Some(0) && db.active[10].replacedBy == Some(20)
    requires 20 in db.active && db.active[20].Live() && db.active[20].user == 7 && db.active[20].id == 20
    requires db.active[20].issuedAt == 0 && db.active[20].hash == Sha256(GenerateSessionToken(7, 20, 0, 1))
    ensures CheckUserConnection(db, 7, Sha256(token), db.clock) == Reused
    ensures var call := Refresh(db, 7, token, 1, 0, LAST_IDS, []);
            call.outcome == Reached(db.active[20]) && call.db == db
  {
    hide Inv, Refresh, NamesRow, Attempts, FirstLookup;
    PresentedIsFound(db, 10, 7, token, []);
    RefreshUnfolds(db, 7, token, 1, 0, LAST_IDS, []);
    ReplacedCheck(db, db.active[10], db.clock);
    RowIsSeen(db, 20);
    assert Run(db, Batch([], 1)) == db;
  }
}
