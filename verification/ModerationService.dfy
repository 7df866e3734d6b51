/** The moderation service as it runs: each method is a sequence of atomic steps, and the
    other goroutines may act between any two of them. */
module ModerationService {
  import opened Wrappers
  import opened ModerationModel

  /** Steps that do not belong to the worker. */
  predicate NotWorker(steps: seq<Step>) {
    forall k :: 0 <= k < |steps| ==>
      var step := steps[k];
      step.Mark? || step.Send? || step.Forget? || step.Tick? || step.Insert? || step.Delete?
  }

  /** Steps other goroutines may take while an enqueuer owns an id. */
  predicate NotOwner(steps: seq<Step>, id: Id) {
    forall k :: 0 <= k < |steps| ==> steps[k] != Send(id) && steps[k] != Forget(id) && !steps[k].Crash?
  }

  /** What the reconciler's query may return: the oldest claimable rows. */
  ghost predicate PendingPage(s: State, ids: seq<Id>) {
    && |ids| <= RECONCILE_BATCH_SIZE
    && (forall i, j :: 0 <= i < j < |ids| ==> ids[i] != ids[j])
    && (forall i :: 0 <= i < |ids| ==> ids[i] in s.rows && Claimable(s.rows[ids[i]], s.clock))
    && (forall i, j :: 0 <= i < j < |ids| ==> s.rows[ids[i]].createdAt <= s.rows[ids[j]].createdAt)
    && forall id :: id in s.rows && Claimable(s.rows[id], s.clock) && id !in ids ==>
         |ids| == RECONCILE_BATCH_SIZE && s.rows[ids[|ids| - 1]].createdAt <= s.rows[id].createdAt
  }

  function SendSteps(id: Id, beforeSend: seq<Step>): seq<Step> {
    [Mark(id)] + beforeSend + [Send(id)]
  }

  lemma {:induction false} WorkerIsUntouched(s: State, steps: seq<Step>)
    requires NotWorker(steps)
    ensures Run(s, steps).worker == s.worker
    decreases |steps|
  {
    if steps != [] {
      assert Apply(s, steps[0]).worker == s.worker;
      WorkerIsUntouched(Apply(s, steps[0]), steps[1..]);
    }
  }

  lemma {:induction false} OwnershipIsUntouched(s: State, steps: seq<Step>, id: Id)
    requires NotOwner(steps, id)
    ensures id in s.marking ==> id in Run(s, steps).marking
    ensures id in s.refused ==> id in Run(s, steps).refused
    ensures Run(s, steps).capacity == s.capacity
    decreases |steps|
  {
    if steps != [] {
      var t := Apply(s, steps[0]);
      assert (id in s.marking ==> id in t.marking) && (id in s.refused ==> id in t.refused) && t.capacity == s.capacity;
      OwnershipIsUntouched(t, steps[1..], id);
    }
  }

  class Service {
    var rows: map<Id, Row>
    var used: set<Id>
    var clock: int
    var inflight: set<Id>
    var marking: set<Id>
    var refused: set<Id>
    var queue: seq<Id>
    const capacity: nat
    var worker: Phase

    function State(): State
      reads this
    {
      ModerationModel.State(rows, used, clock, inflight, marking, refused, queue, capacity, worker)
    }

    constructor (configured: int)
      ensures State() == Init(configured)
      ensures rows == map[] && queue == [] && inflight == {} && worker.Idle?
      ensures capacity == if configured <= 0 then 256 else configured
    {
      rows, used, clock := map[], {}, 0;
      inflight, marking, refused, queue := {}, {}, {}, [];
      capacity := if configured <= 0 then DEFAULT_QUEUE_SIZE else configured;
      worker := Idle;
    }

    /** The other goroutines run. */
    method Yield(steps: seq<Step>)
      requires Run(State(), steps).capacity == capacity
      modifies this
      ensures State() == Run(old(State()), steps)
    {
      var s := Run(State(), steps);
      rows, used, clock := s.rows, s.used, s.clock;
      inflight, marking, refused, queue, worker := s.inflight, s.marking, s.refused, s.queue, s.worker;
    }

    method ClaimAttachmentForModeration(id: Id) returns (claimed: bool)
      modifies this`rows
      ensures claimed <==> id in old(rows) && Claimable(old(rows)[id], clock)
      ensures claimed <==>
              && id in old(rows)
              && var row := old(rows)[id];
                 row.status.Pending? || (row.status.Processing? && row.updatedAt < clock - 300)
      ensures rows == if claimed then old(rows)[id := Claim(old(rows)[id], clock)] else old(rows)
      ensures claimed ==>
                rows == old(rows)[id := old(rows)[id].(status := Processing, updatedAt := clock,
                                                       claims := old(rows)[id].claims + 1)]
    {
      claimed := false;
      if id in rows {
        var row := rows[id];
        if row.status.Pending? || (row.status.Processing? && row.updatedAt < clock - STALE_PROCESSING) {
          rows := rows[id := row.(status := Processing, updatedAt := clock, claims := row.claims + 1)];
          claimed := true;
        }
      }
    }

    method FinishAttachmentModeration(id: Id, status: Status)
      modifies this`rows
      ensures rows == if id in old(rows) then old(rows)[id := Finish(old(rows)[id], status, clock)] else old(rows)
      ensures id in rows ==> rows[id] == old(rows)[id].(status := status, updatedAt := clock)
    {
      if id in rows {
        rows := rows[id := rows[id].(status := status, updatedAt := clock)];
      }
    }

    method FailAttachmentModeration(id: Id, status: Status)
      modifies this`rows
      ensures rows == if id in old(rows)
                      then old(rows)[id := old(rows)[id].(attempts := old(rows)[id].attempts + 1,
                                                          status := status, updatedAt := clock)]
                      else old(rows)
    {
      if id in rows {
        rows := rows[id := rows[id].(attempts := rows[id].attempts + 1, status := status, updatedAt := clock)];
      }
    }

    method HandleInferenceFailure(id: Id, attachment: Row, stored: bool)
      modifies this`rows
      ensures rows == if id !in old(rows) then old(rows)
                      else old(rows)[id := Concluded(old(rows)[id], attachment, Failure(stored), clock)]
      ensures id in rows && stored ==>
                rows[id] == old(rows)[id].(attempts := old(rows)[id].attempts + 1, updatedAt := clock,
                                           status := if attachment.attempts >= 2 then Failed else Pending)
    {
      var attempt := attachment.attempts + 1;
      var next := Pending;
      if attempt >= MAX_MODERATION_ATTEMPTS {
        next := Failed;
      }
      if stored {
        FailAttachmentModeration(id, next);
      } else if id in rows {
        rows := rows[id := rows[id].(lost := rows[id].lost + 1)];
      }
    }

    /** Non-blocking: an id that does not fit stays pending in the table. */
    method Enqueue(id: Id, beforeSend: seq<Step>, beforeForget: seq<Step>) returns (ghost steps: seq<Step>)
      requires NotOwner(beforeSend, id) && NotOwner(beforeForget, id)
      modifies this
      ensures State() == Run(old(State()), steps)
      ensures id in old(inflight) ==> steps == []
      ensures id !in old(inflight) ==>
                && SendSteps(id, beforeSend) <= steps
                && steps == SendSteps(id, beforeSend) +
                     if |Run(old(State()), [Mark(id)] + beforeSend).queue| < capacity then []
                     else beforeForget + [Forget(id)]
    {
      hide Apply, Run;
      AfterMark(State(), id);
      if id in inflight {
        return [];
      }
      ghost var start := State();
      inflight, marking := inflight + {id}, marking + {id};
      assert State() == Run(start, [Mark(id)]);
      OwnershipIsUntouched(State(), beforeSend, id);
      RunAppend(start, [Mark(id)], beforeSend);
      Yield(beforeSend);
      AfterSend(State(), id);
      RunOne(start, [Mark(id)] + beforeSend, Send(id));
      steps := SendSteps(id, beforeSend);
      if |queue| < capacity {
        marking, queue := marking - {id}, queue + [id];
        return steps;
      }
      marking, refused := marking - {id}, refused + {id};
      assert State() == Run(start, steps);
      OwnershipIsUntouched(State(), beforeForget, id);
      RunAppend(start, steps, beforeForget);
      Yield(beforeForget);
      RunOne(start, steps + beforeForget, Forget(id));
      AfterForget(State(), id);
      refused, inflight := refused - {id}, inflight - {id};
      assert steps + beforeForget + [Forget(id)] == steps + (beforeForget + [Forget(id)]);
      steps := steps + (beforeForget + [Forget(id)]);
    }

    /** Nothing to infer for other files; an image is claimed when the classifier runs. */
    method SettleJob(ready: bool, ok: bool)
      requires worker.HasRead?
      modifies this`rows, this`worker
      ensures State() == SettleAt(old(State()), ready, ok)
      ensures rows.Keys == old(rows).Keys
      ensures forall other :: other in rows - {old(worker).id} ==> rows[other] == old(rows)[other]
      ensures !old(worker).row.image ==> worker == Done(old(worker).id)
      ensures !old(worker).row.image && old(worker).id in rows ==>
                var row := old(rows)[old(worker).id];
                rows[old(worker).id] == if ok then row.(status := Clean, updatedAt := clock) else row
      ensures old(worker).row.image ==>
                (worker.Claimed? <==>
                   && ready && ok && old(worker).id in rows
                   && var row := old(rows)[old(worker).id];
                      row.status.Pending? || (row.status.Processing? && row.updatedAt < clock - 300))
      ensures worker.Claimed? ==>
                && worker == Claimed(old(worker).id, old(worker).row)
                && var row := old(rows)[old(worker).id];
                   rows[old(worker).id] == row.(status := Processing, updatedAt := clock, claims := row.claims + 1)
      ensures old(worker).row.image && !worker.Claimed? ==> rows == old(rows) && worker == Done(old(worker).id)
    {
      var id, attachment, claimed := worker.id, worker.row, false;
      if !attachment.image {
        if ok {
          FinishAttachmentModeration(id, Clean);
        }
      } else if ready && ok {
        claimed := ClaimAttachmentForModeration(id);
      }
      worker := if claimed then Claimed(id, attachment) else Done(id);
    }

    method ConcludeJob(ruling: Option<Ruling>, stored: bool)
      requires worker.Claimed?
      modifies this`rows, this`worker
      ensures State() == ConcludeAt(old(State()), OutcomeOf(ruling, stored))
      ensures worker == Done(old(worker).id) && rows.Keys == old(rows).Keys
      ensures forall other :: other in rows - {old(worker).id} ==> rows[other] == old(rows)[other]
      ensures old(worker).id in rows ==>
                var row := old(rows)[old(worker).id];
                rows[old(worker).id] ==
                  if !stored then row.(lost := row.lost + 1)
                  else if ruling.Some? then row.(status := ruling.value, updatedAt := clock)
                  else row.(attempts := row.attempts + 1, updatedAt := clock,
                            status := if old(worker).row.attempts >= 2 then Failed else Pending)
    {
      var id := worker.id;
      match ruling {
        case None => HandleInferenceFailure(id, worker.row, stored);
        case Some(status) =>
          if stored {
            FinishAttachmentModeration(id, status);
          } else if id in rows {
            rows := rows[id := Lose(rows[id])];
          }
      }
      worker := Done(id);
    }

    /** The worker takes the next job and sees it through; `others` is what the rest of
        the program does before the read, before the claim, before the outcome is stored
        and before the job is forgotten. The four booleans and `ruling` are how the
        database, the supervisor and the classifier answer. */
    method ProcessNext(
      others: seq<seq<Step>>, readOk: bool, ready: bool, claimOk: bool, stored: bool, ruling: Option<Ruling>)
      requires worker.Idle? && queue != []
      requires |others| == 4 && forall k :: 0 <= k < 4 ==> NotWorker(others[k])
      modifies this
      ensures State() == Run(old(State()), JobSteps(others, readOk, ready, claimOk, OutcomeOf(ruling, stored)))
      ensures worker.Idle? && old(queue)[0] !in inflight
    {
      hide Run, Apply, SettleAt, ConcludeAt, NotWorker;
      ghost var start, outcome := State(), OutcomeOf(ruling, stored);
      var id := queue[0];
      AfterReceive(start);
      queue, worker := queue[1..], Taken(id);
      Between(start, [], Receive, others[0]);
      assert [] + [Receive] == [Receive];
      Yield(others[0]);

      AfterRead(State(), readOk);
      Between(start, [Receive] + others[0], Read(readOk), others[1]);
      worker := if readOk && id in rows then HasRead(id, rows[id]) else Done(id);
      assert State() == Run(start, ReadSteps(others, readOk));
      Yield(others[1]);

      AfterSettle(State(), ready, claimOk);
      Between(start, ReadSteps(others, readOk) + others[1], Settle(ready, claimOk), others[2]);
      if worker.HasRead? {
        SettleJob(ready, claimOk);
      }
      assert State() == Run(start, SettleSteps(others, readOk, ready, claimOk));
      Yield(others[2]);

      AfterConclude(State(), outcome);
      Between(start, SettleSteps(others, readOk, ready, claimOk) + others[2], Conclude(outcome), others[3]);
      if worker.Claimed? {
        ConcludeJob(ruling, stored);
      }
      assert State() == Run(start, ConcludeSteps(others, readOk, ready, claimOk, outcome));
      Yield(others[3]);

      AfterRelease(State());
      RunOne(start, ConcludeSteps(others, readOk, ready, claimOk, outcome) + others[3], Release);
      inflight, worker := inflight - {id}, Idle;
    }

    /** One pass of the reconciler over the page its query returned. */
    method Reconcile(ids: seq<Id>)
      requires PendingPage(State(), ids) && capacity > 0
      modifies this
      ensures exists steps :: State() == Run(old(State()), steps)
      ensures rows == old(rows) && worker == old(worker)
      ensures |queue| < capacity ==> forall id :: id in ids ==> id in inflight
      ensures |ids| <= 100
      ensures |queue| < capacity && |ids| < 100 ==>
                forall id :: id in rows && Claimable(rows[id], clock) ==> id in inflight
    {
      ghost var steps: seq<Step> := [];
      for n := 0 to |ids|
        invariant State() == Run(old(State()), steps)
        invariant rows == old(rows) && worker == old(worker) && clock == old(clock) && used == old(used)
        invariant forall k :: 0 <= k < n ==> ids[k] in inflight || |queue| >= capacity
      {
        ghost var before := State();
        ghost var more := Enqueue(ids[n], [], []);
        EnqueueAlone(before, ids[n], more);
        RunAppend(old(State()), steps, more);
        steps := steps + more;
      }
    }
  }

  function OutcomeOf(ruling: Option<Ruling>, stored: bool): Outcome {
    match ruling
    case None => Failure(stored)
    case Some(status) => Ruled(status, stored)
  }

  function ReadSteps(others: seq<seq<Step>>, readOk: bool): seq<Step>
    requires |others| == 4
  {
    [Receive] + others[0] + [Read(readOk)]
  }

  function SettleSteps(others: seq<seq<Step>>, readOk: bool, ready: bool, claimOk: bool): seq<Step>
    requires |others| == 4
  {
    ReadSteps(others, readOk) + others[1] + [Settle(ready, claimOk)]
  }

  function ConcludeSteps(others: seq<seq<Step>>, readOk: bool, ready: bool, claimOk: bool, outcome: Outcome): seq<Step>
    requires |others| == 4
  {
    SettleSteps(others, readOk, ready, claimOk) + others[2] + [Conclude(outcome)]
  }

  function JobSteps(others: seq<seq<Step>>, readOk: bool, ready: bool, claimOk: bool, outcome: Outcome): seq<Step>
    requires |others| == 4
  {
    ConcludeSteps(others, readOk, ready, claimOk, outcome) + others[3] + [Release]
  }

  /** A worker step and what the others do after it. */
  lemma Between(start: State, before: seq<Step>, step: Step, others: seq<Step>)
    requires NotWorker(others)
    ensures var steps := before + [step];
            && Run(start, steps) == Apply(Run(start, before), step)
            && Run(start, steps + others) == Run(Run(start, steps), others)
            && Run(start, steps + others).worker == Run(start, steps).worker
            && Run(start, steps + others).capacity == start.capacity
  {
    var steps := before + [step];
    RunOne(start, before, step);
    RunAppend(start, steps, others);
    WorkerIsUntouched(Run(start, steps), others);
    CapacityIsFixed(start, steps + others);
  }

  lemma {:induction false} CapacityIsFixed(s: State, steps: seq<Step>)
    ensures Run(s, steps).capacity == s.capacity
    decreases |steps|
  {
    if steps != [] {
      assert Apply(s, steps[0]).capacity == s.capacity;
      CapacityIsFixed(Apply(s, steps[0]), steps[1..]);
    }
  }

  lemma AfterReceive(s: State)
    requires s.worker.Idle? && s.queue != []
    ensures Apply(s, Receive) == s.(worker := Taken(s.queue[0]), queue := s.queue[1..])
    ensures Run(s, []) == s
  {
  }

  lemma AfterRead(s: State, ok: bool)
    requires s.worker.Taken?
    ensures Apply(s, Read(ok)) ==
            if ok && s.worker.id in s.rows then s.(worker := HasRead(s.worker.id, s.rows[s.worker.id]))
            else s.(worker := Done(s.worker.id))
  {
  }

  lemma AfterSettle(s: State, ready: bool, ok: bool)
    ensures Apply(s, Settle(ready, ok)) == if s.worker.HasRead? then SettleAt(s, ready, ok) else s
    ensures s.worker.HasRead? ==> var w := SettleAt(s, ready, ok).worker; (w.Claimed? || w.Done?) && w.id == s.worker.id
  {
  }

  lemma AfterConclude(s: State, outcome: Outcome)
    ensures Apply(s, Conclude(outcome)) == if s.worker.Claimed? then ConcludeAt(s, outcome) else s
    ensures s.worker.Claimed? ==> ConcludeAt(s, outcome).worker == Done(s.worker.id)
  {
  }

  lemma AfterRelease(s: State)
    requires s.worker.Done?
    ensures Apply(s, Release) == s.(inflight := s.inflight - {s.worker.id}, worker := Idle)
  {
  }

  /** A job nobody interferes with and in which nothing fails but, perhaps, the classifier:
      an image that may be claimed ends with the ruling as its status, or with one more
      attempt, and nothing else is touched. */
  lemma QuietJob(s: State, ruling: Option<Ruling>)
    requires s.worker.Idle? && s.queue != [] && s.queue[0] in s.rows
    requires var row := s.rows[s.queue[0]];
             row.image && (row.status.Pending? || (row.status.Processing? && row.updatedAt < s.clock - 300))
    ensures var id := s.queue[0];
            var row := s.rows[id].(updatedAt := s.clock, claims := s.rows[id].claims + 1);
            var after :=
              if ruling.Some? then row.(status := ruling.value)
              else row.(attempts := row.attempts + 1, status := if row.attempts >= 2 then Failed else Pending);
            Run(s, JobSteps([[], [], [], []], true, true, true, OutcomeOf(ruling, true))) ==
              s.(queue := s.queue[1..], inflight := s.inflight - {id}, rows := s.rows[id := after])
  {
    hide Apply, Run;
    var quiet: seq<seq<Step>>, outcome := [[], [], [], []], OutcomeOf(ruling, true);
    AfterReceive(s);
    RunOne(s, [], Receive);
    assert [] + [Receive] == [Receive] && [Receive] + [] == [Receive];
    RunOne(s, [Receive], Read(true));
    assert ReadSteps(quiet, true) + [] == ReadSteps(quiet, true);
    RunOne(s, ReadSteps(quiet, true), Settle(true, true));
    assert SettleSteps(quiet, true, true, true) + [] == SettleSteps(quiet, true, true, true);
    RunOne(s, SettleSteps(quiet, true, true, true), Conclude(outcome));
    assert ConcludeSteps(quiet, true, true, true, outcome) + [] == ConcludeSteps(quiet, true, true, true, outcome);
    RunOne(s, ConcludeSteps(quiet, true, true, true, outcome), Release);
    QuietEnd(s, ruling);
  }

  lemma QuietEnd(s: State, ruling: Option<Ruling>)
    requires s.worker.Idle? && s.queue != [] && s.queue[0] in s.rows
    requires var row := s.rows[s.queue[0]];
             row.image && (row.status.Pending? || (row.status.Processing? && row.updatedAt < s.clock - 300))
    ensures var id := s.queue[0];
            var row := s.rows[id].(updatedAt := s.clock, claims := s.rows[id].claims + 1);
            var after :=
              if ruling.Some? then row.(status := ruling.value)
              else row.(attempts := row.attempts + 1, status := if row.attempts >= 2 then Failed else Pending);
            var claimed := Apply(Apply(Apply(s, Receive), Read(true)), Settle(true, true));
            Apply(Apply(claimed, Conclude(OutcomeOf(ruling, true))), Release) ==
              s.(queue := s.queue[1..], inflight := s.inflight - {id}, rows := s.rows[id := after])
  {
    var id := s.queue[0];
    var row := s.rows[id].(status := Processing, updatedAt := s.clock, claims := s.rows[id].claims + 1);
    var claimed := Apply(Apply(Apply(s, Receive), Read(true)), Settle(true, true));
    assert claimed == s.(queue := s.queue[1..], rows := s.rows[id := row], worker := Claimed(id, s.rows[id]));
  }

  /** An enqueue nobody interferes with. */
  lemma EnqueueAlone(s: State, id: Id, steps: seq<Step>)
    requires id in s.inflight ==> steps == []
    requires id !in s.inflight ==>
               steps == SendSteps(id, []) +
                 if |Run(s, [Mark(id)] + []).queue| < s.capacity then [] else [] + [Forget(id)]
    ensures var t := Run(s, steps);
            && t.rows == s.rows && t.worker == s.worker && t.clock == s.clock && t.used == s.used
            && t.capacity == s.capacity
            && (id in t.inflight || |t.queue| >= t.capacity)
            && s.queue <= t.queue
            && (|t.queue| < t.capacity ==> s.inflight <= t.inflight)
  {
    hide Apply, Run;
    AfterMark(s, id);
    if id !in s.inflight {
      var a := s.(inflight := s.inflight + {id}, marking := s.marking + {id});
      assert [Mark(id)] + [] == [Mark(id)];
      AfterSend(a, id);
      RunOne(s, [Mark(id)], Send(id));
      if |a.queue| >= s.capacity {
        AfterForget(Apply(a, Send(id)), id);
        RunOne(s, SendSteps(id, []), Forget(id));
        assert [] + [Forget(id)] == [Forget(id)];
      } else {
        assert SendSteps(id, []) + [] == [Mark(id)] + [Send(id)];
      }
    }
  }

  lemma AfterMark(s: State, id: Id)
    ensures id !in s.inflight ==>
              Run(s, [Mark(id)]) == s.(inflight := s.inflight + {id}, marking := s.marking + {id})
    ensures Run(s, []) == s
  {
    assert Run(s, [Mark(id)]) == Run(Apply(s, Mark(id)), []);
  }

  lemma AfterSend(s: State, id: Id)
    requires id in s.marking
    ensures Apply(s, Send(id)) ==
            if |s.queue| >= s.capacity then s.(marking := s.marking - {id}, refused := s.refused + {id})
            else s.(marking := s.marking - {id}, queue := s.queue + [id])
  {
  }

  lemma AfterForget(s: State, id: Id)
    ensures Apply(s, Forget(id)) ==
            if id in s.refused then s.(refused := s.refused - {id}, inflight := s.inflight - {id}) else s
  {
  }
}
