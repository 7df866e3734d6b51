/** What every step of the moderation machine keeps, and what follows for whole runs. */
module ModerationInvariant {
  import opened ModerationModel

  function One(b: bool): nat {
    if b then 1 else 0
  }

  /** How many parts of the program hold an id: enqueuers, queue slots and the worker. */
  function Owners(s: State, id: Id): nat {
    One(id in s.marking) + One(id in s.refused) + multiset(s.queue)[id] + One(s.worker.Holds(id))
  }

  ghost predicate OneOwner(s: State) {
    && |s.queue| <= s.capacity
    && forall id: Id :: Owners(s, id) == One(id in s.inflight)
  }

  /** A claim ends as a recorded failure, a verdict, or a loss. */
  predicate RowOk(row: Row, held: bool) {
    && row.attempts <= MAX_MODERATION_ATTEMPTS
    && (row.status.Failed? <==> row.attempts == MAX_MODERATION_ATTEMPTS)
    && (!row.image ==> (row.status.Pending? || row.status.Clean?) && row.claims == 0 && !held)
    && (held ==> row.status.Processing?)
    && row.claims == row.attempts + row.lost + One(row.image && row.status.Verdict()) + One(held)
  }

  predicate Held(s: State, id: Id) {
    s.worker.Claimed? && s.worker.id == id
  }

  /** What the worker read agrees with the row as long as the row is there. */
  predicate WorkerOk(s: State) {
    && ((s.worker.HasRead? || s.worker.Claimed?) && s.worker.id in s.rows ==>
          && s.worker.row.attempts == s.rows[s.worker.id].attempts
          && s.worker.row.image == s.rows[s.worker.id].image)
    && (s.worker.Claimed? ==> s.worker.row.image)
    && (!s.worker.Idle? && !s.worker.Taken? && !s.worker.Done? ==> s.worker.id in s.used)
  }

  ghost predicate RowsOk(s: State) {
    && s.rows.Keys <= s.used
    && WorkerOk(s)
    && forall id :: id in s.rows ==> RowOk(s.rows[id], Held(s, id))
  }

  ghost predicate Inv(s: State) {
    OneOwner(s) && RowsOk(s)
  }

  lemma EnqueuerKeepsOwner(s: State, step: Step)
    requires OneOwner(s) && (step.Mark? || step.Send? || step.Forget?)
    ensures OneOwner(Apply(s, step))
  {
    var t := Apply(s, step);
    assert Owners(s, step.id) == One(step.id in s.inflight);
    forall id: Id ensures Owners(t, id) == One(id in t.inflight) {
      assert Owners(s, id) == One(id in s.inflight);
    }
  }

  lemma ReceiveKeepsOwner(s: State)
    requires OneOwner(s)
    ensures OneOwner(Apply(s, Receive))
  {
    var t := Apply(s, Receive);
    if s.worker.Idle? && s.queue != [] {
      assert s.queue == [s.queue[0]] + s.queue[1..];
      forall id: Id ensures Owners(t, id) == One(id in t.inflight) {
        assert Owners(s, id) == One(id in s.inflight);
      }
    }
  }

  lemma ReleaseKeepsOwner(s: State)
    requires OneOwner(s)
    ensures OneOwner(Apply(s, Release))
  {
    forall id: Id ensures var t := Apply(s, Release); Owners(t, id) == One(id in t.inflight) {
      assert Owners(s, id) == One(id in s.inflight);
    }
  }

  /** The owners do not depend on the rows, on the clock or on how far the worker is. */
  lemma SameOwners(s: State, t: State)
    requires OneOwner(s)
    requires t.inflight == s.inflight && t.marking == s.marking && t.refused == s.refused
    requires t.queue == s.queue && t.capacity == s.capacity
    requires if s.worker.Idle? then t.worker.Idle? else !t.worker.Idle? && t.worker.id == s.worker.id
    ensures OneOwner(t)
  {
    forall id: Id ensures Owners(t, id) == One(id in t.inflight) {
      assert Owners(s, id) == One(id in s.inflight);
    }
  }

  lemma CrashKeepsOwner(s: State)
    ensures OneOwner(CrashAt(s))
  {
  }

  lemma ApplyKeepsOwner(s: State, step: Step)
    requires OneOwner(s)
    ensures OneOwner(Apply(s, step))
  {
    hide OneOwner;
    match step
    case Mark(_) => EnqueuerKeepsOwner(s, step);
    case Send(_) => EnqueuerKeepsOwner(s, step);
    case Forget(_) => EnqueuerKeepsOwner(s, step);
    case Receive => ReceiveKeepsOwner(s);
    case Release => ReleaseKeepsOwner(s);
    case Crash => CrashKeepsOwner(s);
    case _ => SameOwners(s, Apply(s, step));
  }

  lemma SettleKeepsRows(s: State, ready: bool, ok: bool)
    requires RowsOk(s) && s.worker.HasRead?
    ensures RowsOk(SettleAt(s, ready, ok))
  {
    var id := s.worker.id;
    if id in s.rows {
      assert RowOk(s.rows[id], false);
    }
  }

  lemma ConcludeKeepsRows(s: State, outcome: Outcome)
    requires RowsOk(s) && s.worker.Claimed?
    ensures RowsOk(ConcludeAt(s, outcome))
  {
    var id := s.worker.id;
    if id in s.rows {
      assert RowOk(s.rows[id], true);
    }
  }

  lemma CrashKeepsRows(s: State)
    requires RowsOk(s)
    ensures RowsOk(CrashAt(s))
  {
  }

  lemma ApplyKeepsRows(s: State, step: Step)
    requires RowsOk(s)
    ensures RowsOk(Apply(s, step))
  {
    match step
    case Settle(ready, ok) =>
      if s.worker.HasRead? {
        SettleKeepsRows(s, ready, ok);
      }
    case Conclude(outcome) =>
      if s.worker.Claimed? {
        ConcludeKeepsRows(s, outcome);
      }
    case Crash => CrashKeepsRows(s);
    case _ =>
      hide SettleAt, ConcludeAt, CrashAt;
      var t := Apply(s, step);
      forall id | id in t.rows ensures RowOk(t.rows[id], Held(t, id)) {
        if id in s.rows {
          assert RowOk(s.rows[id], Held(s, id));
        }
      }
  }

  lemma {:induction false} RunKeeps(s: State, steps: seq<Step>)
    requires Inv(s)
    ensures Inv(Run(s, steps))
    decreases |steps|
  {
    hide OneOwner, RowsOk, Apply;
    if steps != [] {
      ApplyKeepsOwner(s, steps[0]);
      ApplyKeepsRows(s, steps[0]);
      RunKeeps(Apply(s, steps[0]), steps[1..]);
    }
  }

  /** A state some interleaving of enqueuers, worker, crashes, inserts and deletes leads
      to. */
  ghost predicate Reachable(s: State) {
    exists configured: int, steps :: s == Run(Init(configured), steps)
  }

  lemma ReachableInv(s: State)
    requires Reachable(s)
    ensures Inv(s)
  {
    var configured: int, steps :| s == Run(Init(configured), steps);
    assert Inv(Init(configured));
    RunKeeps(Init(configured), steps);
  }

  lemma CountedTwice(queue: seq<Id>, i: nat, j: nat)
    requires i < j < |queue| && queue[i] == queue[j]
    ensures multiset(queue)[queue[i]] >= 2
  {
    assert queue == queue[..i] + [queue[i]] + queue[i + 1..j] + [queue[j]] + queue[j + 1..];
  }

  /** Each in-flight id has exactly one owner and nothing else has any, so the queue holds
      no duplicate, stays within its capacity, and never holds what the worker works on. */
  lemma NothingIsProcessedTwice(s: State)
    requires Reachable(s)
    ensures forall id: Id :: Owners(s, id) == One(id in s.inflight)
    ensures forall i, j :: 0 <= i < j < |s.queue| ==> s.queue[i] != s.queue[j]
    ensures |s.queue| <= s.capacity
    ensures !s.worker.Idle? ==> s.worker.id !in s.queue && s.worker.id !in s.marking && s.worker.id in s.inflight
  {
    hide Reachable, RowsOk;
    ReachableInv(s);
    forall i, j | 0 <= i < j < |s.queue| ensures s.queue[i] != s.queue[j] {
      assert Owners(s, s.queue[i]) <= 1;
      if s.queue[i] == s.queue[j] {
        CountedTwice(s.queue, i, j);
      }
    }
    if !s.worker.Idle? {
      assert Owners(s, s.worker.id) <= 1;
    }
  }

  /** Attempts never exceed three and a row has failed exactly when it used them up. */
  lemma AttemptsAreBounded(s: State, id: Id)
    requires Reachable(s) && id in s.rows
    ensures s.rows[id].attempts <= 3
    ensures s.rows[id].status.Failed? <==> s.rows[id].attempts == 3
  {
    ReachableInv(s);
    assert RowOk(s.rows[id], Held(s, id));
  }

  /** Every claim of a row is accounted for: a recorded failure, a stored verdict, a claim
      in progress, or one whose outcome a crash or a database error lost. */
  lemma ClaimsAreConserved(s: State, id: Id)
    requires Reachable(s) && id in s.rows
    ensures var row := s.rows[id];
            row.claims == row.attempts + row.lost + One(row.image && row.status.Verdict()) + One(Held(s, id))
    ensures s.rows[id].claims <= 3 + s.rows[id].lost
  {
    ReachableInv(s);
    assert RowOk(s.rows[id], Held(s, id));
  }

  lemma StepAbsorbs(s: State, step: Step, id: Id)
    requires RowsOk(s) && id in s.rows && s.rows[id].status.Terminal()
    ensures var t := Apply(s, step); id in t.rows ==> t.rows[id].status == s.rows[id].status
    ensures var t := Apply(s, step); id in t.rows ==> t.rows[id].attempts == s.rows[id].attempts
  {
    assert RowOk(s.rows[id], Held(s, id));
  }

  lemma StepKeepsGone(s: State, step: Step, id: Id)
    requires id in s.used && id !in s.rows
    ensures var t := Apply(s, step); id in t.used && id !in t.rows
  {
  }

  lemma {:induction false} GoneStaysGone(s: State, steps: seq<Step>, id: Id)
    requires id in s.used && id !in s.rows
    ensures id !in Run(s, steps).rows
    decreases |steps|
  {
    hide Apply;
    if steps != [] {
      StepKeepsGone(s, steps[0], id);
      GoneStaysGone(Apply(s, steps[0]), steps[1..], id);
    }
  }

  /** A verdict or a failure is final: whatever happens next, the row keeps it until it
      is deleted. */
  lemma {:induction false} TerminalIsAbsorbing(s: State, steps: seq<Step>, id: Id)
    requires Inv(s) && id in s.rows && s.rows[id].status in {Clean, Sensitive, Blocked, Failed}
    ensures var t := Run(s, steps);
            id in t.rows ==> t.rows[id].status == s.rows[id].status && t.rows[id].attempts == s.rows[id].attempts
    decreases |steps|
  {
    hide OneOwner, Apply;
    if steps != [] {
      var t := Apply(s, steps[0]);
      StepAbsorbs(s, steps[0], id);
      ApplyKeepsOwner(s, steps[0]);
      ApplyKeepsRows(s, steps[0]);
      assert id in t.used by { UsedGrows(s, steps[0]); }
      if id in t.rows {
        TerminalIsAbsorbing(t, steps[1..], id);
      } else {
        GoneStaysGone(t, steps[1..], id);
      }
    }
  }

  lemma UsedGrows(s: State, step: Step)
    ensures s.used <= Apply(s, step).used
  {
  }

  // ------------------------------------------------------ where outcomes come from

  /** Only a stored ruling for the image the worker holds gives that image a verdict. */
  lemma VerdictStep(s: State, step: Step, id: Id)
    requires RowsOk(s) && id in Apply(s, step).rows
    requires var row := Apply(s, step).rows[id];
             row.image && row.status.Verdict() && !(id in s.rows && s.rows[id].status == row.status)
    ensures Held(s, id) && step == Conclude(Ruled(Apply(s, step).rows[id].status, true))
  {
    if id in s.rows {
      assert RowOk(s.rows[id], Held(s, id));
    }
  }

  /** Only the worker, having read a file that is no image, marks it clean. */
  lemma CleanStep(s: State, step: Step, id: Id)
    requires RowsOk(s) && id in Apply(s, step).rows
    requires var row := Apply(s, step).rows[id];
             !row.image && row.status.Clean? && !(id in s.rows && s.rows[id].status == row.status)
    ensures s.worker == HasRead(id, s.worker.row) && step.Settle? && step.ok
  {
    if id in s.rows {
      assert RowOk(s.rows[id], Held(s, id));
    }
  }

  /** The steps before step `k` of a run. */
  function Before(configured: int, steps: seq<Step>, k: nat): State
    requires k <= |steps|
  {
    Run(Init(configured), steps[..k])
  }

  ghost predicate RuledInRun(configured: int, steps: seq<Step>, id: Id, status: Ruling) {
    exists k: nat :: k < |steps| && steps[k] == Conclude(Ruled(status, true)) && Held(Before(configured, steps, k), id)
  }

  ghost predicate SettledInRun(configured: int, steps: seq<Step>, id: Id) {
    exists k: nat :: k < |steps| && steps[k].Settle? && steps[k].ok && Before(configured, steps, k).worker.HasRead? &&
                     Before(configured, steps, k).worker.id == id
  }

  /** In every run, an image whose status is a verdict was held by the worker when that
      very ruling was stored; another file is only ever pending or, once the worker has
      settled it, clean. */
  lemma {:induction false} VerdictsAreRuled(configured: int, steps: seq<Step>, id: Id)
    requires id in Run(Init(configured), steps).rows
    ensures var row := Run(Init(configured), steps).rows[id];
            row.image && row.status.Verdict() ==> RuledInRun(configured, steps, id, row.status)
    ensures var row := Run(Init(configured), steps).rows[id];
            !row.image ==> row.status.Pending? || (row.status.Clean? && SettledInRun(configured, steps, id))
    decreases |steps|
  {
    hide Apply, RowsOk, OneOwner, Run, Held;
    if steps == [] {
      NoRows(configured);
    } else {
      var n := |steps| - 1;
      var s, row := Before(configured, steps, n), Run(Init(configured), steps).rows[id];
      LastStep(configured, steps);
      if id in s.rows && s.rows[id].status == row.status {
        VerdictsAreRuled(configured, steps[..n], id);
        SameImage(s, steps[n], id);
        Longer(configured, steps, id, n);
      } else if row.image && row.status.Verdict() {
        VerdictStep(s, steps[n], id);
      } else if !row.image {
        OtherFiles(Apply(s, steps[n]), id);
        if row.status.Clean? {
          CleanStep(s, steps[n], id);
        }
      }
    }
  }

  lemma NoRows(configured: int)
    ensures Run(Init(configured), []).rows == map[]
  {
  }

  lemma LastStep(configured: int, steps: seq<Step>)
    requires steps != []
    ensures var s := Before(configured, steps, |steps| - 1);
            RowsOk(s) && RowsOk(Apply(s, steps[|steps| - 1])) &&
            Run(Init(configured), steps) == Apply(s, steps[|steps| - 1])
  {
    hide Apply, RowsOk, OneOwner, Run;
    var n := |steps| - 1;
    assert steps == steps[..n] + [steps[n]];
    RunOne(Init(configured), steps[..n], steps[n]);
    ReachableInv(Before(configured, steps, n));
    ApplyKeepsRows(Before(configured, steps, n), steps[n]);
  }

  lemma SameImage(s: State, step: Step, id: Id)
    requires RowsOk(s) && id in s.rows && id in Apply(s, step).rows
    ensures Apply(s, step).rows[id].image == s.rows[id].image
  {
  }

  lemma OtherFiles(s: State, id: Id)
    requires RowsOk(s) && id in s.rows && !s.rows[id].image
    ensures s.rows[id].status.Pending? || s.rows[id].status.Clean?
  {
    assert RowOk(s.rows[id], Held(s, id));
  }

  /** What happened in the first steps of a run happened in the run. */
  lemma Longer(configured: int, steps: seq<Step>, id: Id, n: nat)
    requires n <= |steps|
    ensures forall status: Ruling ::
              RuledInRun(configured, steps[..n], id, status) ==> RuledInRun(configured, steps, id, status)
    ensures SettledInRun(configured, steps[..n], id) ==> SettledInRun(configured, steps, id)
  {
    hide Run;
    assert forall k :: 0 <= k <= n ==> steps[..n][..k] == steps[..k];
  }

  /** How many failures of this image a run stores. */
  function Failures(configured: int, steps: seq<Step>, id: Id): nat {
    if steps == [] then 0
    else
      var n := |steps| - 1;
      Failures(configured, steps[..n], id)
      + One(steps[n] == Conclude(Failure(true)) && Held(Before(configured, steps, n), id))
  }

  lemma AttemptsStep(s: State, step: Step, id: Id)
    requires RowsOk(s)
    ensures var t, failed := Apply(s, step), One(step == Conclude(Failure(true)) && Held(s, id));
            && (id !in s.used ==> failed == 0 && (id in t.rows ==> t.rows[id].attempts == 0))
            && (id in s.rows && id in t.rows ==> t.rows[id].attempts == s.rows[id].attempts + failed)
            && (id in t.rows && id in s.used ==> id in s.rows)
  {
  }

  /** In every run, the attempts of a row are the failures stored while the worker held
      it, and none besides. */
  lemma {:induction false} AttemptsAreStoredFailures(configured: int, steps: seq<Step>, id: Id)
    ensures id in Run(Init(configured), steps).rows ==>
              Run(Init(configured), steps).rows[id].attempts == Failures(configured, steps, id)
    ensures id !in Run(Init(configured), steps).used ==> Failures(configured, steps, id) == 0
    decreases |steps|
  {
    hide Apply, RowsOk, OneOwner, Run, Held;
    if steps == [] {
      NoRows(configured);
    } else {
      var n := |steps| - 1;
      AttemptsAreStoredFailures(configured, steps[..n], id);
      LastStep(configured, steps);
      AttemptsStep(Before(configured, steps, n), steps[n], id);
      UsedGrows(Before(configured, steps, n), steps[n]);
    }
  }

  // -------------------------------------------------- crashes do not use attempts

  /** One round in which the worker claims the attachment and the process dies. */
  function CrashRound(id: Id): seq<Step> {
    [Mark(id), Send(id), Receive, Read(true), Settle(true, true), Crash, Tick(301)]
  }

  predicate Orphan(s: State, id: Id, claims: nat) {
    && s.inflight == {} && s.marking == {} && s.refused == {} && s.queue == [] && s.worker.Idle? && s.capacity > 0
    && id in s.rows && s.rows[id].image && s.rows[id].attempts == 0
    && s.rows[id].claims == claims && Claimable(s.rows[id], s.clock)
  }

  lemma CrashRoundClaims(s: State, id: Id, claims: nat)
    requires Orphan(s, id, claims)
    ensures Orphan(Run(s, CrashRound(id)), id, claims + 1)
  {
    var a := Apply(Apply(s, Mark(id)), Send(id));
    assert a.queue == [id];
    var b := Apply(Apply(a, Receive), Read(true));
    assert b.worker == HasRead(id, s.rows[id]) && b.rows == s.rows && b.clock == s.clock;
    var c := Apply(Apply(Apply(b, Settle(true, true)), Crash), Tick(301));
    assert Orphan(c, id, claims + 1);
    RunSeven(s, Mark(id), Send(id), Receive, Read(true), Settle(true, true), Crash, Tick(301));
  }

  lemma RunSeven(s: State, a: Step, b: Step, c: Step, d: Step, e: Step, f: Step, g: Step)
    ensures Run(s, [a, b, c, d, e, f, g]) ==
            Apply(Apply(Apply(Apply(Apply(Apply(Apply(s, a), b), c), d), e), f), g)
  {
    hide Apply;
    RunThree(s, a, b, c);
    RunThree(Apply(Apply(Apply(s, a), b), c), d, e, f);
    var t := Run(Run(s, [a, b, c]), [d, e, f]);
    RunAppend(s, [a, b, c], [d, e, f]);
    RunAppend(s, [a, b, c] + [d, e, f], [g]);
    assert [a, b, c, d, e, f, g] == [a, b, c] + [d, e, f] + [g];
    assert Run(t, [g]) == Run(Apply(t, g), []);
  }

  lemma RunThree(s: State, a: Step, b: Step, c: Step)
    ensures Run(s, [a, b, c]) == Apply(Apply(Apply(s, a), b), c)
  {
    hide Apply;
    assert [a, b, c][1..] == [b, c] && [b, c][1..] == [c] && [c][1..] == [];
    assert Run(Apply(Apply(s, a), b), [c]) == Run(Apply(Apply(Apply(s, a), b), c), []);
    assert Run(Apply(s, a), [b, c]) == Run(Apply(Apply(s, a), b), [c]);
  }

  /** An attachment whose inference kills the process is claimed without any limit: a
      crash loses the claim and leaves the attempts as they were. */
  lemma {:induction false} ClaimsAreUnbounded(n: nat)
    ensures exists s: State, id: Id ::
              Reachable(s) && id in s.rows && s.rows[id].claims == n && s.rows[id].attempts == 0
  {
    var s := CrashLoop(n);
  }

  lemma {:induction false} CrashLoop(n: nat) returns (s: State)
    ensures Reachable(s) && Orphan(s, 0, n)
  {
    hide Apply;
    if n == 0 {
      var init := Init(1);
      s := Run(init, [Insert(0, true)]);
      assert s == Apply(init, Insert(0, true)) by { assert [Insert(0, true)][1..] == []; }
      FirstOrphan(init, 0);
    } else {
      var before := CrashLoop(n - 1);
      CrashRoundClaims(before, 0, n - 1);
      s := Run(before, CrashRound(0));
      var configured: int, steps :| before == Run(Init(configured), steps);
      RunAppend(Init(configured), steps, CrashRound(0));
    }
  }

  lemma FirstOrphan(init: State, id: Id)
    requires init == Init(1)
    ensures Orphan(Apply(init, Insert(id, true)), id, 0)
  {
  }
}
