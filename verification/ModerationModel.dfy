/** The moderation queue, its worker and the attachment rows they update, as a machine
    whose steps are the atomic actions of the program: a critical section, a channel
    operation or one SQL statement. A step that is not enabled changes nothing. */
module ModerationModel {

  type Id(==, !new) = nat

  const MAX_MODERATION_ATTEMPTS: nat := 3
  /** Five minutes, in seconds. */
  const STALE_PROCESSING: int := 300
  const RECONCILE_BATCH_SIZE: nat := 100
  const DEFAULT_QUEUE_SIZE: nat := 256

  datatype Status = Pending | Processing | Clean | Sensitive | Blocked | Failed
  {
    predicate Verdict() { Clean? || Sensitive? || Blocked? }

    predicate Terminal() { Verdict() || Failed? }
  }

  /** A row of attachments. The last two fields are not columns: they count the claims of
      the row and those whose outcome was never stored. */
  datatype Row = Row(
    image: bool,
    status: Status,
    attempts: nat,
    createdAt: int,
    updatedAt: int,
    claims: nat,
    lost: nat)

  /** Where the single worker is: it holds the job from the moment it takes it out of the
      queue until it forgets it. */
  datatype Phase =
    | Idle
    | Taken(id: Id)
    | HasRead(id: Id, row: Row)
    | Claimed(id: Id, row: Row)
    | Done(id: Id)
  {
    predicate Holds(i: Id) { !Idle? && id == i }
  }

  /** `marking` and `refused` hold the ids of enqueuers between marking an id and sending
      it, and between a refused send and forgetting it. `used` remembers every id. */
  datatype State = State(
    rows: map<Id, Row>,
    used: set<Id>,
    clock: int,
    inflight: set<Id>,
    marking: set<Id>,
    refused: set<Id>,
    queue: seq<Id>,
    capacity: nat,
    worker: Phase)

  /** What the policy may answer. */
  type Ruling = s: Status | s.Verdict() witness Clean

  datatype Outcome = Ruled(status: Ruling, stored: bool) | Failure(stored: bool)

  datatype Step =
    | Mark(id: Id)
    | Send(id: Id)
    | Forget(id: Id)
    | Receive
    | Read(ok: bool)
    | Settle(ready: bool, ok: bool)
    | Conclude(outcome: Outcome)
    | Release
    | Crash
    | Tick(seconds: nat)
    | Insert(id: Id, image: bool)
    | Delete(id: Id)

  function QueueSize(configured: int): nat {
    if configured <= 0 then DEFAULT_QUEUE_SIZE else configured
  }

  function Init(configured: int): State {
    State(map[], {}, 0, {}, {}, {}, [], QueueSize(configured), Idle)
  }

  predicate Claimable(row: Row, now: int) {
    row.status.Pending? || (row.status.Processing? && row.updatedAt < now - STALE_PROCESSING)
  }

  function Finish(row: Row, status: Status, now: int): Row {
    row.(status := status, updatedAt := now)
  }

  /** The row's counter grows by one, but the status follows from the attempts the worker
      read before claiming. */
  function Fail(row: Row, read: Row, now: int): Row {
    var status := if read.attempts + 1 >= MAX_MODERATION_ATTEMPTS then Failed else Pending;
    row.(attempts := row.attempts + 1, status := status, updatedAt := now)
  }

  function Claim(row: Row, now: int): Row {
    row.(status := Processing, updatedAt := now, claims := row.claims + 1)
  }

  function Lose(row: Row): Row {
    row.(lost := row.lost + 1)
  }

  function Concluded(row: Row, read: Row, outcome: Outcome, now: int): Row {
    match outcome
    case Ruled(status, stored) => if !stored then Lose(row) else Finish(row, status, now)
    case Failure(stored) => if !stored then Lose(row) else Fail(row, read, now)
  }

  function SettleAt(s: State, ready: bool, ok: bool): State
    requires s.worker.HasRead?
  {
    var id := s.worker.id;
    var done := s.(worker := Done(id));
    if !s.worker.row.image then
      if ok && id in s.rows then done.(rows := s.rows[id := Finish(s.rows[id], Clean, s.clock)]) else done
    else if ready && ok && id in s.rows && Claimable(s.rows[id], s.clock) then
      s.(rows := s.rows[id := Claim(s.rows[id], s.clock)], worker := Claimed(id, s.worker.row))
    else done
  }

  function ConcludeAt(s: State, outcome: Outcome): State
    requires s.worker.Claimed?
  {
    var id := s.worker.id;
    var done := s.(worker := Done(id));
    if id in s.rows then done.(rows := s.rows[id := Concluded(s.rows[id], s.worker.row, outcome, s.clock)]) else done
  }

  /** Queue, in-flight set and worker live in memory; the rows survive. */
  function CrashAt(s: State): State {
    var rows :=
      if s.worker.Claimed? && s.worker.id in s.rows then s.rows[s.worker.id := Lose(s.rows[s.worker.id])] else s.rows;
    s.(rows := rows, inflight := {}, marking := {}, refused := {}, queue := [], worker := Idle)
  }

  function Apply(s: State, step: Step): State {
    match step
    case Mark(id) =>
      if id in s.inflight then s else s.(inflight := s.inflight + {id}, marking := s.marking + {id})
    case Send(id) =>
      if id !in s.marking then s
      else if |s.queue| < s.capacity then s.(marking := s.marking - {id}, queue := s.queue + [id])
      else s.(marking := s.marking - {id}, refused := s.refused + {id})
    case Forget(id) =>
      if id !in s.refused then s else s.(refused := s.refused - {id}, inflight := s.inflight - {id})
    case Receive =>
      if s.worker.Idle? && s.queue != [] then s.(worker := Taken(s.queue[0]), queue := s.queue[1..]) else s
    case Read(ok) =>
      if !s.worker.Taken? then s
      else if ok && s.worker.id in s.rows then s.(worker := HasRead(s.worker.id, s.rows[s.worker.id]))
      else s.(worker := Done(s.worker.id))
    case Settle(ready, ok) => if s.worker.HasRead? then SettleAt(s, ready, ok) else s
    case Conclude(outcome) => if s.worker.Claimed? then ConcludeAt(s, outcome) else s
    case Release =>
      if s.worker.Done? then s.(inflight := s.inflight - {s.worker.id}, worker := Idle) else s
    case Crash => CrashAt(s)
    case Tick(seconds) => s.(clock := s.clock + seconds)
    case Insert(id, image) =>
      if id in s.used then s
      else s.(used := s.used + {id}, rows := s.rows[id := Row(image, Pending, 0, s.clock, s.clock, 0, 0)])
    case Delete(id) => s.(rows := s.rows - {id})
  }

  function Run(s: State, steps: seq<Step>): State
    decreases |steps|
  {
    if steps == [] then s else Run(Apply(s, steps[0]), steps[1..])
  }

  lemma {:induction false} RunAppend(s: State, a: seq<Step>, b: seq<Step>)
    ensures Run(s, a + b) == Run(Run(s, a), b)
    decreases |a|
  {
    hide Apply;
    if a == [] {
      assert a + b == b;
    } else {
      assert (a + b)[1..] == a[1..] + b;
      RunAppend(Apply(s, a[0]), a[1..], b);
    }
  }

  lemma RunOne(s: State, a: seq<Step>, step: Step)
    ensures Run(s, a + [step]) == Apply(Run(s, a), step)
  {
    hide Apply;
    RunAppend(s, a, [step]);
    assert Run(Run(s, a), [step]) == Run(Apply(Run(s, a), step), []);
  }
}
