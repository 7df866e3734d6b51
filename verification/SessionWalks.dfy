/** Exactly when a walk along the successors of a row finds the next one gone. */
module SessionWalks {
  import opened Wrappers
  import opened SessionModel
  import opened SessionInvariant
  import opened SessionRuns
  import opened SessionCalls

  /** The tables just before the lookup number m, from 0, of a walk whose first lookup is
      the k-th statement and that starts on `db`. */
  ghost function AtStep(db: Db, env: seq<seq<Step>>, k: nat, m: nat): Db {
    Run(db, Batches(env, k, k + m + 1))
  }

  /** Along `p` each successor is still there when its lookup comes, and names the next one,
      but for the last, which has left the table. */
  ghost predicate Breaks(db: Db, conn: Connection, env: seq<seq<Step>>, k: nat, p: seq<ConnId>) {
    && p != [] && conn.replacedBy == Some(p[0])
    && (forall m: nat :: m < |p| - 1 ==> Continues(db, env, k, p, m))
    && p[|p| - 1] !in AtStep(db, env, k, |p| - 1).active
  }

  ghost predicate Continues(db: Db, env: seq<seq<Step>>, k: nat, p: seq<ConnId>, m: nat)
    requires m < |p| - 1
  {
    && p[m] in AtStep(db, env, k, m).active
    && AtStep(db, env, k, m).active[p[m]].replacedBy == Some(p[m + 1])
  }

  /** The walk breaks; with `living`, it does so while its session is alive. */
  ghost predicate Broken(db: Db, conn: Connection, env: seq<seq<Step>>, k: nat, living: bool) {
    exists p :: Breaks(db, conn, env, k, p) &&
                (living ==> Alive(AtStep(db, env, k, |p| - 1), conn.user, conn.session))
  }

  lemma FirstStep(db: Db, env: seq<seq<Step>>, k: nat)
    ensures AtStep(db, env, k, 0) == Run(db, Batch(env, k))
  {
    assert Batches(env, k, k + 1) == Batch(env, k) + Batches(env, k + 1, k + 1);
    assert Batch(env, k) + [] == Batch(env, k);
  }

  lemma NextStep(db: Db, env: seq<seq<Step>>, k: nat, m: nat)
    ensures AtStep(db, env, k, m + 1) == AtStep(Run(db, Batch(env, k)), env, k + 1, m)
  {
    RunAppend(db, Batch(env, k), Batches(env, k + 1, k + m + 2));
  }

  /** A path that breaks from the next row on breaks from this one, and the other way round. */
  lemma LongerPath(db: Db, conn: Connection, next: Connection, env: seq<seq<Step>>, k: nat, q: seq<ConnId>)
    requires var after := Run(db, Batch(env, k));
             && conn.replacedBy.Some? && conn.replacedBy.value in after.active
             && next == after.active[conn.replacedBy.value]
    requires q != []
    ensures Breaks(Run(db, Batch(env, k)), next, env, k + 1, q)
            <==> Breaks(db, conn, env, k, [conn.replacedBy.value] + q)
    ensures AtStep(db, env, k, |q|) == AtStep(Run(db, Batch(env, k)), env, k + 1, |q| - 1)
  {
    hide AtStep;
    var after, p, rest: nat := Run(db, Batch(env, k)), [conn.replacedBy.value] + q, k + 1;
    FirstStep(db, env, k);
    NextStep(db, env, k, |q| - 1);
    forall m: nat | m < |q| - 1 ensures Continues(after, env, rest, q, m) <==> Continues(db, env, k, p, m + 1) {
      NextStep(db, env, k, m);
    }
    if Breaks(after, next, env, rest, q) {
      forall m: nat | m < |p| - 1 ensures Continues(db, env, k, p, m) {
        if m > 0 {
          assert Continues(after, env, rest, q, m - 1);
        }
      }
    }
    if Breaks(db, conn, env, k, p) {
      assert Continues(db, env, k, p, 0);
      forall m: nat | m < |q| - 1 ensures Continues(after, env, rest, q, m) {
        assert Continues(db, env, k, p, m + 1);
      }
    }
  }

  /** A walk that ends on a successor gone followed a path that breaks, to the tables there. */
  lemma {:induction false} VanishedPath(db: Db, conn: Connection, env: seq<seq<Step>>, k: nat) returns (p: seq<ConnId>)
    requires Inv(db) && Seen(db, conn) && Walk(db, conn, env, k).outcome.Vanished?
    ensures Breaks(db, conn, env, k, p) && Walk(db, conn, env, k).db == AtStep(db, env, k, |p| - 1)
    decreases Left(env, k), Newer(db.active, conn.generation)
  {
    hide Inv, Seen, Breaks, AtStep;
    var after, n := Run(db, Batch(env, k)), conn.replacedBy.value;
    AfterBatch(db, conn, Batch(env, k));
    if n !in after.active {
      p := [n];
      BreaksAtOnce(db, conn, env, k);
    } else {
      WalkShrinks(after, conn);
      var q := VanishedPath(after, after.active[n], env, k + 1);
      BreaksSomewhere(after, after.active[n], env, k + 1, q);
      LongerPath(db, conn, after.active[n], env, k, q);
      p := [n] + q;
    }
  }

  lemma BreaksAtOnce(db: Db, conn: Connection, env: seq<seq<Step>>, k: nat)
    requires conn.replacedBy.Some? && conn.replacedBy.value !in Run(db, Batch(env, k)).active
    ensures Breaks(db, conn, env, k, [conn.replacedBy.value]) && AtStep(db, env, k, 0) == Run(db, Batch(env, k))
  {
    FirstStep(db, env, k);
  }

  lemma BreaksSomewhere(db: Db, conn: Connection, env: seq<seq<Step>>, k: nat, p: seq<ConnId>)
    requires Breaks(db, conn, env, k, p)
    ensures p != [] && conn.replacedBy == Some(p[0])
    ensures |p| == 1 ==> p[0] !in Run(db, Batch(env, k)).active
    ensures |p| > 1 ==> var after := Run(db, Batch(env, k));
                        p[0] in after.active && after.active[p[0]].replacedBy == Some(p[1])
  {
    FirstStep(db, env, k);
    if |p| > 1 {
      assert Continues(db, env, k, p, 0);
    }
  }

  /** A walk follows every path that breaks to its end. */
  lemma {:induction false} BrokenPathVanishes(db: Db, conn: Connection, env: seq<seq<Step>>, k: nat, p: seq<ConnId>)
    requires Inv(db) && Seen(db, conn) && Breaks(db, conn, env, k, p)
    ensures Walk(db, conn, env, k).outcome.Vanished? && Walk(db, conn, env, k).db == AtStep(db, env, k, |p| - 1)
    decreases |p|
  {
    hide Inv, Seen, Breaks, AtStep;
    var after := Run(db, Batch(env, k));
    BreaksSomewhere(db, conn, env, k, p);
    AfterBatch(db, conn, Batch(env, k));
    ReplacedWhenLinked(db, conn);
    if |p| == 1 {
      FirstStep(db, env, k);
    } else {
      WalkShrinks(after, conn);
      assert p == [p[0]] + p[1..];
      LongerPath(db, conn, after.active[p[0]], env, k, p[1..]);
      BrokenPathVanishes(after, after.active[p[0]], env, k + 1, p[1..]);
    }
  }

  lemma ReplacedWhenLinked(db: Db, seen: Connection)
    requires Seen(db, seen) && seen.replacedBy.Some?
    ensures seen.replacedAt.Some?
  {
  }

  /** The walk finds a successor gone exactly when it breaks, and the session is alive then
      exactly when it breaks while it is. */
  lemma WalkVanishesExactly(db: Db, conn: Connection, env: seq<seq<Step>>, k: nat)
    requires Inv(db) && Seen(db, conn)
    ensures var call := Walk(db, conn, env, k);
            && (call.outcome.Vanished? <==> Broken(db, conn, env, k, false))
            && (call.outcome.Vanished? && Alive(call.db, conn.user, conn.session) <==> Broken(db, conn, env, k, true))
  {
    hide Inv, Seen, Breaks, AtStep, Alive;
    var call := Walk(db, conn, env, k);
    if call.outcome.Vanished? {
      var p := VanishedPath(db, conn, env, k);
      assert Broken(db, conn, env, k, false);
      assert Alive(call.db, conn.user, conn.session) ==> Broken(db, conn, env, k, true);
    }
    forall p | Breaks(db, conn, env, k, p)
      ensures p != [] && call.outcome.Vanished? && call.db == AtStep(db, env, k, |p| - 1)
    {
      BreaksSomewhere(db, conn, env, k, p);
      BrokenPathVanishes(db, conn, env, k, p);
    }
  }
}
