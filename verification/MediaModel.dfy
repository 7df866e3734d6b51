/** The content-addressed media store: blobs on disk, rows in the media table, rows of
    other tables that refer to them, uploads, and the garbage collector. One `Step` is one
    file-system call or one SQL statement; a step that is not enabled changes nothing. */
module MediaModel {
  /** The keyed hash of a content, which stands for the content itself. */
  type Hash = nat
  type RefId = nat
  type UploadId = nat

  datatype Name = Blob(hash: Hash) | Temp(id: nat)

  /** All the bytes of a content, or some of them. */
  datatype Content = Whole(hash: Hash) | Partial

  datatype File = File(content: Content, modified: int)

  /** A row that refers to a blob: an attachment that belongs to no message, with its
      creation time; a thumbnail of an attachment; or any other. */
  datatype Owner = Unlinked(since: int) | ThumbnailOf(attachment: RefId) | Linked

  datatype Ref = Ref(hash: Hash, owner: Owner)

  /** Where an upload stands. `Ready`: it has seen the blob, or has just renamed its own
      file to it, and has not yet inserted the row. */
  datatype Upload =
    | Missing(hash: Hash)
    | Writing(hash: Hash, temp: nat)
    | Written(hash: Hash, temp: nat)
    | Ready(hash: Hash)
    | Recorded(hash: Hash)

  /** Where the collector stands. `Doomed`: the row is deleted, the file is not yet. */
  datatype Sweep =
    | Resting
    | Statted(hash: Hash, present: bool)
    | Cleared(hash: Hash, present: bool)
    | Doomed(hash: Hash)
    | Scanned(names: set<Name>)
    | Orphans(names: set<Name>)

  datatype State = State(
    rows: map<Hash, int>,
    refs: map<RefId, Ref>,
    files: map<Name, File>,
    uploads: map<UploadId, Upload>,
    sweep: Sweep,
    clock: int,
    temps: set<nat>)

  datatype UploadAction = CreateTemp(temp: nat) | Write | Rename | InsertRow | Refer(ref: RefId, owner: Owner) | Abort

  datatype SweepAction =
    | StatBlob(hash: Hash, cutoff: int)
    | CheckRefs
    | DeleteRow
    | RemoveBlob
    | Scan(cutoff: int)
    | QueryRows
    | RemoveOrphan(name: Name)

  /** An upload of bytes begins by looking for its blob; a streamed one does not. */
  datatype Step =
    | Begin(u: UploadId, hash: Hash, check: bool)
    | Go(u: UploadId, upload: UploadAction)
    | Collect(sweep: SweepAction)
    | DropRef(ref: RefId)
    | Crash
    | Tick(seconds: nat)

  function Init(): State {
    State(map[], map[], map[], map[], Resting, 0, {})
  }

  predicate Referenced(refs: map<RefId, Ref>, h: Hash) {
    exists r :: r in refs && refs[r].hash == h
  }

  predicate HasRow(rows: map<Hash, int>, name: Name) {
    name.Blob? && name.hash in rows
  }

  function Drop(s: State, u: UploadId): State {
    s.(uploads := s.uploads - {u})
  }

  function Move(s: State, u: UploadId, to: Upload): State {
    s.(uploads := s.uploads[u := to])
  }

  /** An unlinked attachment is created now; a thumbnail needs its attachment. */
  predicate CanOwn(s: State, owner: Owner) {
    match owner
    case Unlinked(since) => since == s.clock
    case ThumbnailOf(attachment) => attachment in s.refs && !s.refs[attachment].owner.ThumbnailOf?
    case Linked => true
  }

  /** Every thumbnail belongs to an attachment that is there. */
  predicate HasAttachments(refs: map<RefId, Ref>) {
    forall r :: r in refs && refs[r].owner.ThumbnailOf? ==>
      refs[r].owner.attachment in refs && !refs[refs[r].owner.attachment].owner.ThumbnailOf?
  }

  /** ON DELETE CASCADE: thumbnails go with their attachment. */
  function Cascade(refs: map<RefId, Ref>, gone: set<RefId>): set<RefId> {
    gone + set r | r in refs && refs[r].owner.ThumbnailOf? && refs[r].owner.attachment in gone
  }

  function UploadStep(s: State, u: UploadId, action: UploadAction): State
    requires u in s.uploads
  {
    var up := s.uploads[u];
    match action
    case CreateTemp(t) =>
      if up.Missing? && t !in s.temps then
        Move(s.(files := s.files[Temp(t) := File(Partial, s.clock)], temps := s.temps + {t}), u, Writing(up.hash, t))
      else s
    case Write =>
      if !up.Writing? then s
      else if Temp(up.temp) in s.files then
        Move(s.(files := s.files[Temp(up.temp) := File(Whole(up.hash), s.clock)]), u, Written(up.hash, up.temp))
      else Move(s, u, Written(up.hash, up.temp))
    case Rename =>
      if !up.Written? then s
      else if Temp(up.temp) in s.files then
        Move(s.(files := (s.files - {Temp(up.temp)})[Blob(up.hash) := s.files[Temp(up.temp)]]), u, Ready(up.hash))
      else Drop(s, u)
    case InsertRow =>
      if !up.Ready? then s
      else Move(s.(rows := if up.hash in s.rows then s.rows else s.rows[up.hash := s.clock]), u, Recorded(up.hash))
    case Refer(r, owner) =>
      if !up.Recorded? then s
      else if up.hash in s.rows && r !in s.refs && CanOwn(s, owner) then
        Drop(s.(refs := s.refs[r := Ref(up.hash, owner)]), u)
      else Drop(s, u)
    case Abort =>
      if up.Writing? || up.Written? then Drop(s.(files := s.files - {Temp(up.temp)}), u) else Drop(s, u)
  }

  /** A row that something refers to cannot be deleted: the foreign key makes the
      statement, and the collector's run, fail. */
  function SweepStep(s: State, action: SweepAction): State {
    match action
    case StatBlob(h, cutoff) =>
      if s.sweep.Resting? && h in s.rows && s.rows[h] < cutoff
      then s.(sweep := Statted(h, Blob(h) in s.files)) else s
    case CheckRefs =>
      if !s.sweep.Statted? then s
      else if Referenced(s.refs, s.sweep.hash) then s.(sweep := Resting)
      else s.(sweep := Cleared(s.sweep.hash, s.sweep.present))
    case DeleteRow =>
      if !s.sweep.Cleared? then s
      else if Referenced(s.refs, s.sweep.hash) then s.(sweep := Resting)
      else s.(rows := s.rows - {s.sweep.hash}, sweep := if s.sweep.present then Doomed(s.sweep.hash) else Resting)
    case RemoveBlob =>
      if s.sweep.Doomed? then s.(files := s.files - {Blob(s.sweep.hash)}, sweep := Resting) else s
    case Scan(cutoff) =>
      if s.sweep.Resting?
      then s.(sweep := Scanned(set n | n in s.files && s.files[n].modified < cutoff)) else s
    case QueryRows =>
      if s.sweep.Scanned? then s.(sweep := Orphans(set n | n in s.sweep.names && !HasRow(s.rows, n))) else s
    case RemoveOrphan(name) =>
      if s.sweep.Orphans? && name in s.sweep.names
      then s.(files := s.files - {name}, sweep := Orphans(s.sweep.names - {name}))
      else if s.sweep.Orphans? && s.sweep.names == {} then s.(sweep := Resting)
      else s
  }

  function Apply(s: State, step: Step): State {
    match step
    case Begin(u, h, check) =>
      if u in s.uploads then s else Move(s, u, if check && Blob(h) in s.files then Ready(h) else Missing(h))
    case Go(u, action) => if u in s.uploads then UploadStep(s, u, action) else s
    case Collect(action) => SweepStep(s, action)
    case DropRef(r) => s.(refs := s.refs - Cascade(s.refs, {r}))
    case Crash => s.(uploads := map[], sweep := Resting)
    case Tick(seconds) => s.(clock := s.clock + seconds)
  }

  function Run(s: State, steps: seq<Step>): State
    decreases |steps|
  {
    if steps == [] then s else Run(Apply(s, steps[0]), steps[1..])
  }
}
