/** Crash consistency of the media store at every step of uploads and collection. */
module MediaSafety {
  import opened MediaModel

  /** Every media row has its complete file. */
  ghost predicate Complete(s: State) {
    forall h :: h in s.rows ==> HasBlob(s, h)
  }

  predicate HasBlob(s: State, h: Hash) {
    Blob(h) in s.files && s.files[Blob(h)].content == Whole(h)
  }

  /** A blob is never partial, and references have rows. */
  ghost predicate Sound(s: State) {
    && (forall h :: Blob(h) in s.files ==> HasBlob(s, h))
    && forall r :: r in s.refs ==> s.refs[r].hash in s.rows
  }

  /** A temporary file belongs to one upload, and holds its content once written. */
  ghost predicate Private(s: State) {
    && (forall t :: Temp(t) in s.files ==> t in s.temps)
    && (forall u :: u in s.uploads && (s.uploads[u].Writing? || s.uploads[u].Written?) ==> s.uploads[u].temp in s.temps)
    && (forall u, v :: u in s.uploads && v in s.uploads && u != v ==> !SameTemp(s.uploads[u], s.uploads[v]))
    && forall u :: u in s.uploads && s.uploads[u].Written? && Temp(s.uploads[u].temp) in s.files ==>
         s.files[Temp(s.uploads[u].temp)].content == Whole(s.uploads[u].hash)
  }

  predicate SameTemp(a: Upload, b: Upload) {
    (a.Writing? || a.Written?) && (b.Writing? || b.Written?) && a.temp == b.temp
  }

  /** The collector is about to remove the blob of this hash. */
  predicate Condemned(s: State, h: Hash) {
    (s.sweep.Doomed? && s.sweep.hash == h) || (s.sweep.Orphans? && Blob(h) in s.sweep.names)
  }

  /** No upload stands between seeing its blob and inserting its row while the collector
      stands between giving a row up (or finding it absent) and removing that blob. */
  ghost predicate Exclusive(s: State) {
    forall u :: u in s.uploads && s.uploads[u].Ready? ==> !Condemned(s, s.uploads[u].hash)
  }

  /** What holds besides, as long as uploads and collector exclude each other. */
  ghost predicate Guarded(s: State) {
    && Complete(s)
    && (forall u :: u in s.uploads && s.uploads[u].Ready? ==> HasBlob(s, s.uploads[u].hash))
    && forall h :: h in s.rows ==> !Condemned(s, h)
  }

  lemma UploadKeepsSound(s: State, u: UploadId, action: UploadAction)
    requires Sound(s) && Private(s) && u in s.uploads
    ensures Sound(UploadStep(s, u, action))
  {
    hide SameTemp;
  }

  lemma UploadKeepsTemps(s: State, u: UploadId, action: UploadAction)
    requires Private(s) && u in s.uploads
    ensures var t := UploadStep(s, u, action);
            forall v, w :: v in t.uploads && w in t.uploads && v != w ==> !SameTemp(t.uploads[v], t.uploads[w])
  {
    var t := UploadStep(s, u, action);
    forall v, w | v in t.uploads && w in t.uploads && v != w ensures !SameTemp(t.uploads[v], t.uploads[w]) {
      assert v in s.uploads && w in s.uploads && !SameTemp(s.uploads[v], s.uploads[w]);
    }
  }

  lemma UploadKeepsWritten(s: State, u: UploadId, action: UploadAction)
    requires Private(s) && u in s.uploads
    ensures var t := UploadStep(s, u, action);
            forall v :: v in t.uploads && t.uploads[v].Written? && Temp(t.uploads[v].temp) in t.files ==>
              t.files[Temp(t.uploads[v].temp)].content == Whole(t.uploads[v].hash)
  {
    assert forall v :: v in s.uploads && v != u ==> !SameTemp(s.uploads[v], s.uploads[u]);
  }

  lemma UploadKeepsPrivate(s: State, u: UploadId, action: UploadAction)
    requires Private(s) && u in s.uploads
    ensures Private(UploadStep(s, u, action))
  {
    UploadKeepsTemps(s, u, action);
    UploadKeepsWritten(s, u, action);
    hide SameTemp;
  }

  lemma SweepKeepsSound(s: State, action: SweepAction)
    requires Sound(s)
    ensures Sound(SweepStep(s, action))
  {
    if action.DeleteRow? && s.sweep.Cleared? && !Referenced(s.refs, s.sweep.hash) {
      assert forall r :: r in s.refs ==> s.refs[r].hash != s.sweep.hash;
    }
    hide Referenced, HasRow;
  }

  lemma SweepKeepsPrivate(s: State, action: SweepAction)
    requires Private(s)
    ensures Private(SweepStep(s, action))
  {
    hide Referenced, HasRow, SameTemp;
  }

  lemma StepKeepsSound(s: State, step: Step)
    requires Sound(s) && Private(s)
    ensures Sound(Apply(s, step)) && Private(Apply(s, step))
  {
    match step
    case Go(u, action) =>
      hide Sound, Private, UploadStep;
      if u in s.uploads {
        UploadKeepsSound(s, u, action);
        UploadKeepsPrivate(s, u, action);
      }
    case Collect(action) =>
      hide Sound, Private, SweepStep;
      SweepKeepsSound(s, action);
      SweepKeepsPrivate(s, action);
    case _ =>
  }

  lemma {:induction false} RunKeepsSound(s: State, steps: seq<Step>)
    requires Sound(s) && Private(s)
    ensures Sound(Run(s, steps))
    decreases |steps|
  {
    hide Sound, Private, Apply;
    if steps != [] {
      StepKeepsSound(s, steps[0]);
      RunKeepsSound(Apply(s, steps[0]), steps[1..]);
    }
  }

  lemma UploadKeepsGuarded(s: State, u: UploadId, action: UploadAction)
    requires Sound(s) && Private(s) && Guarded(s) && Exclusive(s) && u in s.uploads
    requires Exclusive(UploadStep(s, u, action))
    ensures Guarded(UploadStep(s, u, action))
  {
    hide SameTemp;
  }

  lemma SweepKeepsGuarded(s: State, action: SweepAction)
    requires Guarded(s) && Exclusive(s) && Exclusive(SweepStep(s, action))
    ensures Guarded(SweepStep(s, action))
  {
    hide Referenced;
  }

  lemma StepKeepsGuarded(s: State, step: Step)
    requires Sound(s) && Private(s) && Guarded(s) && Exclusive(s) && Exclusive(Apply(s, step))
    ensures Guarded(Apply(s, step))
  {
    match step
    case Go(u, action) =>
      hide Sound, Private, Guarded, Exclusive, UploadStep;
      if u in s.uploads {
        UploadKeepsGuarded(s, u, action);
      }
    case Collect(action) =>
      hide Sound, Private, Guarded, Exclusive, SweepStep;
      SweepKeepsGuarded(s, action);
    case _ => hide Private, Exclusive;
  }

  /** No reader ever sees part of a blob, and no reference ever loses its row, whatever is
      interleaved and wherever the process dies. */
  lemma BlobsAreWhole(steps: seq<Step>, h: Hash, r: RefId)
    ensures var s := Run(Init(), steps); Blob(h) in s.files ==> s.files[Blob(h)].content == Whole(h)
    ensures var s := Run(Init(), steps); r in s.refs ==> s.refs[r].hash in s.rows
  {
    RunKeepsSound(Init(), steps);
  }

  ghost predicate ExclusiveThroughout(s: State, steps: seq<Step>)
    decreases |steps|
  {
    Exclusive(s) && (steps != [] ==> ExclusiveThroughout(Apply(s, steps[0]), steps[1..]))
  }

  lemma {:induction false} RunKeepsGuarded(s: State, steps: seq<Step>)
    requires Sound(s) && Private(s) && Guarded(s) && ExclusiveThroughout(s, steps)
    ensures Guarded(Run(s, steps))
    decreases |steps|
  {
    hide Sound, Private, Guarded, Exclusive, Apply;
    if steps != [] {
      assert Exclusive(Apply(s, steps[0]));
      StepKeepsSound(s, steps[0]);
      StepKeepsGuarded(s, steps[0]);
      RunKeepsGuarded(Apply(s, steps[0]), steps[1..]);
    }
  }

  /** Under mutual exclusion every row has its complete file after every step, so at every
      point where the process may die. */
  lemma RowsHaveFiles(steps: seq<Step>)
    requires ExclusiveThroughout(Init(), steps)
    ensures Complete(Run(Init(), steps))
  {
    RunKeepsGuarded(Init(), steps);
  }

  lemma UploadLoses(s: State, u: UploadId, action: UploadAction)
    requires Sound(s) && Private(s) && Complete(s) && u in s.uploads
    ensures Complete(UploadStep(s, u, action)) <==>
            (action.InsertRow? && s.uploads[u].Ready? ==> Blob(s.uploads[u].hash) in s.files)
  {
    hide SameTemp;
    var h := s.uploads[u].hash;
    assert HasBlob(s, h) <==> Blob(h) in s.files;
    if action.InsertRow? && s.uploads[u].Ready? {
      assert HasBlob(UploadStep(s, u, action), h) <==> HasBlob(s, h);
    }
  }

  lemma SweepLoses(s: State, action: SweepAction)
    requires Complete(s)
    ensures Complete(SweepStep(s, action)) <==>
            && (action.RemoveBlob? && s.sweep.Doomed? ==> s.sweep.hash !in s.rows)
            && (action.RemoveOrphan? && s.sweep.Orphans? && action.name in s.sweep.names ==>
                  !HasRow(s.rows, action.name))
  {
    hide Referenced;
    var t := SweepStep(s, action);
    if action.RemoveBlob? && s.sweep.Doomed? {
      assert !HasBlob(t, s.sweep.hash);
    } else if action.RemoveOrphan? && s.sweep.Orphans? && HasRow(s.rows, action.name) {
      assert action.name in s.sweep.names ==> !HasBlob(t, action.name.hash);
    }
  }

  /** Only two things can lose a file: the collector removing a blob whose row is there, and
      an upload inserting a row whose blob is not. */
  lemma OnlyTheseLoseFiles(s: State, step: Step)
    requires Sound(s) && Private(s) && Complete(s)
    ensures Complete(Apply(s, step)) <==>
            match step
            case Go(u, InsertRow) => u in s.uploads && s.uploads[u].Ready? ==> Blob(s.uploads[u].hash) in s.files
            case Collect(RemoveBlob) => s.sweep.Doomed? ==> s.sweep.hash !in s.rows
            case Collect(RemoveOrphan(name)) => s.sweep.Orphans? && name in s.sweep.names ==> !HasRow(s.rows, name)
            case _ => true
  {
    match step
    case Go(u, action) =>
      hide Complete, UploadStep;
      if u in s.uploads {
        UploadLoses(s, u, action);
      }
    case Collect(action) =>
      hide Complete, SweepStep;
      SweepLoses(s, action);
    case _ =>
  }

  // ----------------------------------------------------------- what the steps do

  /** An upload nobody interferes with stores the whole content under its name, gives it a
      row dated now unless it has one, and refers to it; the temporary file is gone. A
      thumbnail needs its attachment. */
  lemma QuietUpload(s: State, u: UploadId, h: Hash, temp: nat, r: RefId, owner: Owner)
    requires u !in s.uploads && temp !in s.temps && Temp(temp) !in s.files && r !in s.refs && Blob(h) !in s.files
    requires match owner
             case Linked => true
             case Unlinked(since) => since == s.clock
             case ThumbnailOf(a) => a in s.refs && !s.refs[a].owner.ThumbnailOf?
    ensures Run(s, [Begin(u, h, true), Go(u, CreateTemp(temp)), Go(u, Write), Go(u, Rename), Go(u, InsertRow),
                    Go(u, Refer(r, owner))]) ==
              s.(files := s.files[Blob(h) := File(Whole(h), s.clock)],
                 rows := if h in s.rows then s.rows else s.rows[h := s.clock],
                 refs := s.refs[r := Ref(h, owner)],
                 temps := s.temps + {temp})
  {
    hide Apply, Run, QuietUploads;
    RunFour(s, Begin(u, h, true), Go(u, CreateTemp(temp)), Go(u, Write), Go(u, Rename));
    var four := Run(s, [Begin(u, h, true), Go(u, CreateTemp(temp)), Go(u, Write), Go(u, Rename)]);
    assert four == s.(files := s.files[Blob(h) := File(Whole(h), s.clock)],
                      uploads := s.uploads[u := Ready(h)], temps := s.temps + {temp}) by {
      StoresBlob(s, u, h, temp);
    }
    RunAppend(s, [Begin(u, h, true), Go(u, CreateTemp(temp)), Go(u, Write), Go(u, Rename)],
              [Go(u, InsertRow), Go(u, Refer(r, owner))]);
    RunTwo(four, Go(u, InsertRow), Go(u, Refer(r, owner)));
    assert [Begin(u, h, true), Go(u, CreateTemp(temp)), Go(u, Write), Go(u, Rename)] +
           [Go(u, InsertRow), Go(u, Refer(r, owner))] ==
           [Begin(u, h, true), Go(u, CreateTemp(temp)), Go(u, Write), Go(u, Rename), Go(u, InsertRow),
            Go(u, Refer(r, owner))];
    RecordsAndRefers(four, u, h, r, owner);
    assert four.uploads - {u} == s.uploads;
  }

  lemma RecordsAndRefers(s: State, u: UploadId, h: Hash, r: RefId, owner: Owner)
    requires u in s.uploads && s.uploads[u] == Ready(h) && r !in s.refs && CanOwn(s, owner)
    ensures Apply(Apply(s, Go(u, InsertRow)), Go(u, Refer(r, owner))) ==
              s.(rows := if h in s.rows then s.rows else s.rows[h := s.clock], refs := s.refs[r := Ref(h, owner)],
                 uploads := s.uploads - {u})
  {
    assert s.uploads[u := Recorded(h)] - {u} == s.uploads - {u};
  }

  lemma StoresBlob(s: State, u: UploadId, h: Hash, temp: nat)
    requires u !in s.uploads && temp !in s.temps && Temp(temp) !in s.files && Blob(h) !in s.files
    ensures Apply(Apply(Apply(Apply(s, Begin(u, h, true)), Go(u, CreateTemp(temp))), Go(u, Write)), Go(u, Rename)) ==
              s.(files := s.files[Blob(h) := File(Whole(h), s.clock)],
                 uploads := s.uploads[u := Ready(h)], temps := s.temps + {temp})
  {
    var made := s.(files := s.files[Temp(temp) := File(Partial, s.clock)],
                   uploads := s.uploads[u := Writing(h, temp)], temps := s.temps + {temp});
    var written := s.(files := s.files[Temp(temp) := File(Whole(h), s.clock)],
                      uploads := s.uploads[u := Written(h, temp)], temps := s.temps + {temp});
    WritesTemp(s, u, h, temp);
    hide UploadStep;
    assert Apply(Apply(made, Go(u, Write)), Go(u, Rename)) == Apply(written, Go(u, Rename));
    RenamesTemp(s, u, h, temp);
  }

  lemma WritesTemp(s: State, u: UploadId, h: Hash, temp: nat)
    requires u !in s.uploads && temp !in s.temps && Blob(h) !in s.files
    ensures var made := s.(files := s.files[Temp(temp) := File(Partial, s.clock)],
                           uploads := s.uploads[u := Writing(h, temp)], temps := s.temps + {temp});
            && Apply(Apply(s, Begin(u, h, true)), Go(u, CreateTemp(temp))) == made
            && Apply(made, Go(u, Write)) == s.(files := s.files[Temp(temp) := File(Whole(h), s.clock)],
                                               uploads := s.uploads[u := Written(h, temp)], temps := s.temps + {temp})
  {
  }

  lemma RenamesTemp(s: State, u: UploadId, h: Hash, temp: nat)
    requires Temp(temp) !in s.files
    ensures var written := s.(files := s.files[Temp(temp) := File(Whole(h), s.clock)],
                              uploads := s.uploads[u := Written(h, temp)], temps := s.temps + {temp});
            Apply(written, Go(u, Rename)) == s.(files := s.files[Blob(h) := File(Whole(h), s.clock)],
                                                uploads := s.uploads[u := Ready(h)], temps := s.temps + {temp})
  {
    assert s.files[Temp(temp) := File(Whole(h), s.clock)] - {Temp(temp)} == s.files;
  }

  lemma RunTwo(s: State, a: Step, b: Step)
    ensures Run(s, [a, b]) == Apply(Apply(s, a), b)
  {
    hide Apply;
    assert Run(Apply(s, a), [b]) == Run(Apply(Apply(s, a), b), []);
  }

  /** One whose blob is there writes nothing. */
  lemma QuietDuplicate(s: State, u: UploadId, h: Hash, r: RefId)
    requires u !in s.uploads && r !in s.refs && Blob(h) in s.files
    ensures Run(s, [Begin(u, h, true), Go(u, InsertRow), Go(u, Refer(r, Linked)), Tick(0)]) ==
              s.(rows := if h in s.rows then s.rows else s.rows[h := s.clock], refs := s.refs[r := Ref(h, Linked)])
  {
    RunFour(s, Begin(u, h, true), Go(u, InsertRow), Go(u, Refer(r, Linked)), Tick(0));
    hide Run;
    assert s.uploads[u := Ready(h)] - {u} == s.uploads;
    assert s.uploads[u := Ready(h)][u := Recorded(h)] - {u} == s.uploads;
  }

  /** A collection nobody interferes with takes the row and the file of an old blob that
      nothing refers to, and spares one that something refers to. */
  lemma QuietCollection(s: State, h: Hash, cutoff: int)
    requires s.sweep.Resting? && h in s.rows && s.rows[h] < cutoff
    ensures Run(s, [Collect(StatBlob(h, cutoff)), Collect(CheckRefs), Collect(DeleteRow), Collect(RemoveBlob)]) ==
              if exists r :: r in s.refs && s.refs[r].hash == h then s
              else s.(rows := s.rows - {h}, files := s.files - {Blob(h)})
  {
    RunFour(s, Collect(StatBlob(h, cutoff)), Collect(CheckRefs), Collect(DeleteRow), Collect(RemoveBlob));
    hide Run;
    assert Blob(h) !in s.files ==> s.files - {Blob(h)} == s.files;
  }

  // --------------------------------------------------------------- the two races

  lemma {:induction false} RunAppend(s: State, a: seq<Step>, b: seq<Step>)
    ensures Run(s, a + b) == Run(Run(s, a), b)
    ensures QuietUploads(s, a) && QuietUploads(Run(s, a), b) ==> QuietUploads(s, a + b)
    decreases |a|
  {
    hide Apply;
    if a == [] {
      assert a + b == b;
    } else {
      assert (a + b)[1..] == a[1..] + b;
      RunAppend(Apply(s, a[0]), a[1..], b);
    }
  }

  /** The collector never moves while an upload stands between seeing its blob and
      inserting its row. */
  ghost predicate QuietUploads(s: State, steps: seq<Step>)
    decreases |steps|
  {
    steps != [] ==>
      && (steps[0].Collect? ==> forall u :: u in s.uploads ==> !s.uploads[u].Ready?)
      && QuietUploads(Apply(s, steps[0]), steps[1..])
  }

  lemma RunFour(s: State, a: Step, b: Step, c: Step, d: Step)
    ensures Run(s, [a, b, c, d]) == Apply(Apply(Apply(Apply(s, a), b), c), d)
    ensures QuietUploads(s, [a, b, c, d]) <==>
            var s1 := Apply(s, a); var s2 := Apply(s1, b); var s3 := Apply(s2, c);
            && (a.Collect? ==> forall u :: u in s.uploads ==> !s.uploads[u].Ready?)
            && (b.Collect? ==> forall u :: u in s1.uploads ==> !s1.uploads[u].Ready?)
            && (c.Collect? ==> forall u :: u in s2.uploads ==> !s2.uploads[u].Ready?)
            && (d.Collect? ==> forall u :: u in s3.uploads ==> !s3.uploads[u].Ready?)
  {
    hide Apply;
    var s1 := Apply(s, a);
    var s2 := Apply(s1, b);
    var s3 := Apply(s2, c);
    assert [a, b, c, d][1..] == [b, c, d] && [b, c, d][1..] == [c, d] && [c, d][1..] == [d] && [d][1..] == [];
    assert Run(s1, [b, c, d]) == Run(s2, [c, d]);
    assert Run(s3, [d]) == Run(Apply(s3, d), []);
    assert QuietUploads(s3, [d]) <==> (d.Collect? ==> forall u :: u in s3.uploads ==> !s3.uploads[u].Ready?);
    assert QuietUploads(s2, [c, d]) <==>
           (c.Collect? ==> forall u :: u in s2.uploads ==> !s2.uploads[u].Ready?) && QuietUploads(s3, [d]);
    assert QuietUploads(s1, [b, c, d]) <==>
           (b.Collect? ==> forall u :: u in s1.uploads ==> !s1.uploads[u].Ready?) && QuietUploads(s2, [c, d]);
  }

  /** An upload stores its blob. */
  lemma StoreBlob() returns (steps: seq<Step>)
    ensures Run(Init(), steps) ==
            State(map[], map[], map[Blob(0) := File(Whole(0), 0)], map[0 := Ready(0)], Resting, 0, {0})
    ensures QuietUploads(Init(), steps)
  {
    steps := [Begin(0, 0, true), Go(0, CreateTemp(0)), Go(0, Write), Go(0, Rename)];
    RunFour(Init(), steps[0], steps[1], steps[2], steps[3]);
    hide Run, QuietUploads;
    var begun := Apply(Init(), steps[0]);
    assert begun == Init().(uploads := map[0 := Missing(0)]);
    var made := Apply(begun, steps[1]);
    assert made == State(map[], map[], map[Temp(0) := File(Partial, 0)], map[0 := Writing(0, 0)], Resting, 0, {0});
    var written := Apply(made, steps[2]);
    assert written == State(map[], map[], map[Temp(0) := File(Whole(0), 0)], map[0 := Written(0, 0)], Resting, 0, {0});
  }

  /** It inserts its row, fails, and an hour goes by. */
  lemma RecordAndAbort(s: State) returns (steps: seq<Step>)
    requires s.uploads == map[0 := Ready(0)] && s.rows == map[] && s.clock == 0
    ensures Run(s, steps) == s.(rows := map[0 := 0], uploads := map[], clock := 3601)
    ensures QuietUploads(s, steps)
  {
    steps := [Go(0, InsertRow), Go(0, Abort), Tick(3601), Tick(0)];
    RunFour(s, steps[0], steps[1], steps[2], steps[3]);
    hide Run, QuietUploads;
    assert Apply(s, steps[0]) == s.(rows := map[0 := 0], uploads := map[0 := Recorded(0)]);
  }

  lemma StoreAndAbort() returns (steps: seq<Step>)
    ensures Run(Init(), steps) ==
            State(map[0 := 0], map[], map[Blob(0) := File(Whole(0), 0)], map[], Resting, 3601, {0})
    ensures QuietUploads(Init(), steps)
  {
    hide Run, QuietUploads, Apply;
    var a := StoreBlob();
    var b := RecordAndAbort(Run(Init(), a));
    RunAppend(Init(), a, b);
    steps := a + b;
  }

  /** The collector deletes the row of an old blob that an upload then sees. */
  lemma RowGoesFirst(s: State) returns (steps: seq<Step>)
    requires s.uploads == map[] && s.refs == map[] && s.sweep.Resting? && s.rows == map[0 := 0] && Blob(0) in s.files
    ensures QuietUploads(s, steps)
    ensures Run(s, steps) == s.(rows := map[], uploads := map[1 := Ready(0)], sweep := Doomed(0))
  {
    steps := [Collect(StatBlob(0, 1)), Collect(CheckRefs), Collect(DeleteRow), Begin(1, 0, true)];
    RunFour(s, steps[0], steps[1], steps[2], steps[3]);
    assert !Referenced(s.refs, 0);
  }

  /** The upload inserts its row, and the collector removes the file. */
  lemma FileGoesLast(s: State) returns (steps: seq<Step>)
    requires s.uploads == map[1 := Ready(0)] && s.rows == map[] && s.sweep == Doomed(0)
    ensures QuietUploads(s, steps)
    ensures 0 in Run(s, steps).rows && Blob(0) !in Run(s, steps).files
  {
    steps := [Go(1, InsertRow), Collect(RemoveBlob), Tick(0), Tick(0)];
    RunFour(s, steps[0], steps[1], steps[2], steps[3]);
  }

  /** Keeping the collector away from the span between an upload's check and its insert is
      not enough: the collector may delete the row before that span and remove the file
      after it. */
  lemma QuietUploadsAreNotEnough()
    ensures exists steps :: QuietUploads(Init(), steps) && !Complete(Run(Init(), steps))
  {
    hide QuietUploads, Run, Apply;
    var steps := StoreAndAbort();
    var s := Run(Init(), steps);
    var a := RowGoesFirst(s);
    var b := FileGoesLast(Run(s, a));
    RunAppend(s, a, b);
    RunAppend(Init(), steps, a + b);
    assert QuietUploads(Init(), steps + (a + b)) && !HasBlob(Run(Init(), steps + (a + b)), 0);
  }
}
