/** One run of the media garbage collector on its own: what it removes, that it reaches a
    fixpoint, and that an interrupted run can be resumed. */
module MediaCleanup {
  import opened Sizes
  import opened MediaModel
  import opened Wrappers

  datatype Store = Store(rows: map<Hash, int>, refs: map<RefId, Ref>, files: map<Name, File>)

  /** Attachments that belong to no message and were created before the cutoff. */
  function Loose(s: Store, cutoff: int): set<RefId> {
    set r | r in s.refs && s.refs[r].owner.Unlinked? && s.refs[r].owner.since < cutoff
  }

  function Stale(s: Store, cutoff: int): set<Hash> {
    set h | h in s.rows && s.rows[h] < cutoff && !Referenced(s.refs, h)
  }

  function OrphanFiles(s: Store, cutoff: int): set<Name> {
    set n | n in s.files && s.files[n].modified < cutoff && !HasRow(s.rows, n)
  }

  function Blobs(hashes: set<Hash>): set<Name> {
    set h | h in hashes :: Blob(h)
  }

  /** Attachments go with their thumbnails. */
  function DropRefs(s: Store, refs: set<RefId>): Store {
    s.(refs := s.refs - Cascade(s.refs, refs))
  }

  /** Rows go with their files. */
  function DropRows(s: Store, hashes: set<Hash>): Store {
    s.(rows := s.rows - hashes, files := s.files - Blobs(hashes))
  }

  function DropRow(s: Store, h: Hash): Store {
    s.(rows := s.rows - {h}, files := s.files - {Blob(h)})
  }

  function DropFiles(s: Store, names: set<Name>): Store {
    s.(files := s.files - names)
  }

  /** A whole run. */
  function Cleaned(s: Store, cutoff: int): Store {
    var a := DropRefs(s, Loose(s, cutoff));
    var b := DropRows(a, Stale(a, cutoff));
    DropFiles(b, OrphanFiles(b, cutoff))
  }

  class MediaStore {
    var rows: map<Hash, int>
    var refs: map<RefId, Ref>
    var files: map<Name, File>

    function State(): Store
      reads this
    {
      Store(rows, refs, files)
    }

    constructor ()
      ensures State() == Store(map[], map[], map[])
    {
      rows, refs, files := map[], map[], map[];
    }

    method DeleteOrphanAttachments(cutoff: int) returns (removed: nat)
      modifies this`refs
      ensures State() == DropRefs(old(State()), Loose(old(State()), cutoff))
      ensures removed == |Loose(old(State()), cutoff)|
      ensures removed == |set r | r in old(refs) && old(refs)[r].owner.Unlinked? && old(refs)[r].owner.since < cutoff|
      ensures forall r :: r in refs ==> r in old(refs) && refs[r] == old(refs)[r]
      ensures forall r :: r in old(refs) ==>
                (r in refs <==>
                   match old(refs)[r].owner
                   case Linked => true
                   case Unlinked(since) => cutoff <= since
                   case ThumbnailOf(a) =>
                     !(a in old(refs) && old(refs)[a].owner.Unlinked? && old(refs)[a].owner.since < cutoff))
    {
      var loose := set r | r in refs && refs[r].owner.Unlinked? && refs[r].owner.since < cutoff;
      removed := |loose|;
      assert loose == set r | r in old(refs) && old(refs)[r].owner.Unlinked? && old(refs)[r].owner.since < cutoff;
      refs := refs - Cascade(refs, loose);
    }

    method RemoveStale(hash: Hash) returns (fileExists: bool)
      requires hash in rows
      modifies this`rows, this`files
      ensures State() == DropRow(old(State()), hash)
      ensures |rows| == |old(rows)| - 1 && |files| == |old(files)| - if fileExists then 1 else 0
    {
      fileExists := Blob(hash) in files;
      DropOne(rows, hash);
      rows := rows - {hash};
      if fileExists {
        DropOne(files, Blob(hash));
        files := files - {Blob(hash)};
      } else {
        assert files - {Blob(hash)} == files;
      }
    }

    /** `deadline` is how many rows are looked at before the context ends the run. */
    method CleanupStaleMedia(cutoff: int, deadline: Option<nat>)
      returns (deletedRows: nat, deletedFiles: nat, finished: bool, ghost dropped: set<Hash>)
      modifies this`rows, this`files
      ensures dropped <= Stale(old(State()), cutoff)
      ensures finished ==> dropped == Stale(old(State()), cutoff)
      ensures State() == DropRows(old(State()), dropped)
      ensures deletedRows == |old(rows)| - |rows| && deletedFiles == |old(files)| - |files|
      ensures deadline.None? ==> finished
    {
      hide Referenced, Stale, DropRow, DropRows, Progress;
      ghost var start, stale := State(), Stale(State(), cutoff);
      var hashes := set h | h in rows && rows[h] < cutoff;
      StaleAmong(start, cutoff, hashes);
      ProgressStarts(stale, hashes);
      var looked := 0;
      deletedRows, deletedFiles, dropped := 0, 0, {};
      DropNoRows(start);
      while hashes != {}
        invariant Progress(stale, dropped, hashes) && refs == start.refs
        invariant forall h :: h in hashes ==> h in start.rows && start.rows[h] < cutoff
        invariant State() == DropRows(start, dropped)
        invariant deletedRows == |start.rows| - |rows| && deletedFiles == |start.files| - |files|
        decreases hashes
      {
        if deadline == Some(looked) {
          ProgressSubset(stale, dropped, hashes);
          return deletedRows, deletedFiles, false, dropped;
        }
        var hash :| hash in hashes;
        ProgressSteps(stale, dropped, hashes, hash);
        StaleWhen(start, cutoff, hash);
        hashes, looked := hashes - {hash}, looked + 1;
        if !Referenced(refs, hash) {
          DropOneMore(start, dropped, hash);
          var fileExists := RemoveStale(hash);
          deletedRows := deletedRows + 1;
          if fileExists {
            deletedFiles := deletedFiles + 1;
          }
          dropped := dropped + {hash};
        }
      }
      ProgressEnds(stale, dropped);
      finished := true;
    }

    method RemoveFile(name: Name)
      requires name in files
      modifies this`files
      ensures State() == DropFiles(old(State()), {name}) && |files| == |old(files)| - 1
    {
      DropOne(files, name);
      files := files - {name};
    }

    method CleanupOrphanMediaFiles(cutoff: int, deadline: Option<nat>)
      returns (deleted: nat, finished: bool, ghost dropped: set<Name>)
      modifies this`files
      ensures dropped <= OrphanFiles(old(State()), cutoff)
      ensures finished ==> dropped == OrphanFiles(old(State()), cutoff)
      ensures State() == DropFiles(old(State()), dropped)
      ensures deleted == |old(files)| - |files|
      ensures deadline.None? ==> finished
    {
      hide HasRow, OrphanFiles, DropFiles, Progress;
      ghost var start, orphans := State(), OrphanFiles(State(), cutoff);
      var candidates := set n | n in files && files[n].modified < cutoff;
      var existing := set n | n in candidates && HasRow(rows, n);
      OrphansAmong(start, cutoff, candidates, existing);
      ProgressStarts(orphans, candidates);
      var looked := 0;
      deleted, dropped := 0, {};
      DropNoFiles(start);
      while candidates != {}
        invariant Progress(orphans, dropped, candidates) && candidates <= start.files.Keys
        invariant forall n :: n in candidates ==> (n in orphans <==> n !in existing)
        invariant State() == DropFiles(start, dropped)
        invariant deleted == |start.files| - |files|
        decreases candidates
      {
        if deadline == Some(looked) {
          ProgressSubset(orphans, dropped, candidates);
          return deleted, false, dropped;
        }
        var name :| name in candidates;
        ProgressSteps(orphans, dropped, candidates, name);
        candidates, looked := candidates - {name}, looked + 1;
        if name !in existing {
          DropOneFileMore(start, dropped, name);
          RemoveFile(name);
          deleted := deleted + 1;
          dropped := dropped + {name};
        }
      }
      ProgressEnds(orphans, dropped);
      finished := true;
    }

    /** The run of the maintenance routine. */
    method CleanupMedia(cutoff: int, deadline: Option<nat>) returns (removed: nat, finished: bool)
      modifies this
      ensures finished ==> State() == Cleaned(old(State()), cutoff)
      ensures Cleaned(State(), cutoff) == Cleaned(old(State()), cutoff)
      ensures removed == |old(Loose(State(), cutoff))| + |old(rows)| - |rows| + |old(files)| - |files|
      ensures removed == 0 <==> State() == old(State())
      ensures deadline.None? ==> finished
    {
      hide Loose, Stale, OrphanFiles, Cleaned, Blobs;
      ghost var s := State();
      var attachments := DeleteOrphanAttachments(cutoff);
      ghost var a := State();
      RefsAreDone(s, cutoff);
      var staleRows, staleFiles, done, rowsGone := CleanupStaleMedia(cutoff, deadline);
      ghost var b := State();
      ResumeRows(a, rowsGone, cutoff);
      NothingCascades(s, cutoff);
      DropSome(s.rows, rowsGone);
      DropSome(s.files, Blobs(rowsGone));
      removed := attachments + staleRows + staleFiles;
      if !done {
        return removed, false;
      }
      var orphans, all, filesGone := CleanupOrphanMediaFiles(cutoff, deadline);
      ResumeFiles(b, filesGone, cutoff);
      DropSome(b.files, filesGone);
      removed, finished := removed + orphans, all;
    }
  }

  /** A loop that works through `left` has dealt with the rest of its targets. */
  predicate Progress<T>(targets: set<T>, done: set<T>, left: set<T>) {
    done <= targets <= done + left && done !! left
  }

  lemma ProgressStarts<T>(targets: set<T>, left: set<T>)
    requires targets <= left
    ensures Progress(targets, {}, left)
  {
  }

  lemma ProgressSteps<T>(targets: set<T>, done: set<T>, left: set<T>, x: T)
    requires Progress(targets, done, left) && x in left
    ensures Progress(targets, if x in targets then done + {x} else done, left - {x})
    ensures x !in done && done <= targets
  {
  }

  lemma ProgressSubset<T>(targets: set<T>, done: set<T>, left: set<T>)
    requires Progress(targets, done, left)
    ensures done <= targets
  {
  }

  lemma ProgressEnds<T>(targets: set<T>, done: set<T>)
    requires Progress(targets, done, {})
    ensures done == targets
  {
  }

  lemma StaleWhen(s: Store, cutoff: int, h: Hash)
    requires h in s.rows && s.rows[h] < cutoff
    ensures h in Stale(s, cutoff) <==> !Referenced(s.refs, h)
  {
  }

  lemma StaleAmong(s: Store, cutoff: int, hashes: set<Hash>)
    requires hashes == set h | h in s.rows && s.rows[h] < cutoff
    ensures Stale(s, cutoff) <= hashes
  {
  }

  lemma OrphansAmong(s: Store, cutoff: int, candidates: set<Name>, existing: set<Name>)
    requires candidates == set n | n in s.files && s.files[n].modified < cutoff
    requires existing == set n | n in candidates && HasRow(s.rows, n)
    ensures OrphanFiles(s, cutoff) <= candidates
    ensures forall n :: n in candidates ==> (n in OrphanFiles(s, cutoff) <==> n !in existing)
  {
  }

  lemma DropNoRows(s: Store)
    ensures DropRows(s, {}) == s
  {
    assert Blobs({}) == {};
    assert s.files - {} == s.files && s.rows - {} == s.rows;
  }

  lemma DropOneMore(s: Store, dropped: set<Hash>, h: Hash)
    ensures DropRows(s, dropped + {h}) == DropRow(DropRows(s, dropped), h)
    ensures h in s.rows && h !in dropped ==> h in DropRows(s, dropped).rows
  {
    assert Blobs(dropped + {h}) == Blobs(dropped) + {Blob(h)};
    DropMore(s.files, Blobs(dropped), Blob(h));
    DropMore(s.rows, dropped, h);
  }

  lemma DropNoFiles(s: Store)
    ensures DropFiles(s, {}) == s
  {
    assert s.files - {} == s.files;
  }

  lemma DropOneFileMore(s: Store, dropped: set<Name>, name: Name)
    ensures DropFiles(s, dropped + {name}) == DropFiles(DropFiles(s, dropped), {name})
    ensures name in s.files && name !in dropped ==> name in DropFiles(s, dropped).files
  {
    DropMore(s.files, dropped, name);
  }

  /** Nothing a run with this cutoff would remove. */
  predicate Tidy(s: Store, cutoff: int) {
    && (forall r :: r in s.refs && s.refs[r].owner.Unlinked? ==> cutoff <= s.refs[r].owner.since)
    && (forall h :: h in s.rows && s.rows[h] < cutoff ==> Referenced(s.refs, h))
    && forall n :: n in s.files && s.files[n].modified < cutoff ==> HasRow(s.rows, n)
  }

  /** No loose attachment means no reference goes. */
  lemma NothingCascades(s: Store, cutoff: int)
    ensures DropRefs(s, {}) == s
    ensures |Loose(s, cutoff)| == 0 ==> DropRefs(s, Loose(s, cutoff)) == s
    ensures Loose(s, cutoff) != {} ==> DropRefs(s, Loose(s, cutoff)) != s
  {
    assert Cascade(s.refs, {}) == {};
    assert s.refs - {} == s.refs;
    if Loose(s, cutoff) != {} {
      var r :| r in Loose(s, cutoff);
      assert r in s.refs && r !in DropRefs(s, Loose(s, cutoff)).refs;
    }
  }

  lemma RefsAreDone(s: Store, cutoff: int)
    ensures var a := DropRefs(s, Loose(s, cutoff)); Loose(a, cutoff) == {} && Cleaned(a, cutoff) == Cleaned(s, cutoff)
  {
    var a := DropRefs(s, Loose(s, cutoff));
    assert Loose(a, cutoff) == {};
    NothingCascades(a, cutoff);
  }

  /** Removing part of the stale rows first changes nothing in the end. */
  lemma ResumeRows(a: Store, gone: set<Hash>, cutoff: int)
    requires Loose(a, cutoff) == {} && gone <= Stale(a, cutoff)
    ensures var p := DropRows(a, gone);
            && Loose(p, cutoff) == {} && Cleaned(p, cutoff) == Cleaned(a, cutoff)
            && (gone == Stale(a, cutoff) ==> Stale(p, cutoff) == {})
  {
    hide OrphanFiles, DropFiles;
    var p := DropRows(a, gone);
    assert Loose(p, cutoff) == {};
    NothingCascades(p, cutoff);
    NothingCascades(a, cutoff);
    assert Stale(p, cutoff) == Stale(a, cutoff) - gone;
    DropRowsTwice(a, gone, Stale(p, cutoff));
    assert gone + Stale(p, cutoff) == Stale(a, cutoff);
  }

  lemma DropRowsTwice(s: Store, a: set<Hash>, b: set<Hash>)
    ensures DropRows(DropRows(s, a), b) == DropRows(s, a + b)
  {
    assert Blobs(a + b) == Blobs(a) + Blobs(b);
    assert s.files - Blobs(a) - Blobs(b) == s.files - (Blobs(a) + Blobs(b));
    assert s.rows - a - b == s.rows - (a + b);
  }

  /** Nor does removing part of the orphan files. */
  lemma ResumeFiles(b: Store, gone: set<Name>, cutoff: int)
    requires Loose(b, cutoff) == {} && Stale(b, cutoff) == {} && gone <= OrphanFiles(b, cutoff)
    ensures var p := DropFiles(b, gone);
            && Cleaned(p, cutoff) == Cleaned(b, cutoff) == DropFiles(b, OrphanFiles(b, cutoff))
  {
    var p := DropFiles(b, gone);
    NothingLoose(b, cutoff);
    NothingLoose(p, cutoff);
    assert OrphanFiles(p, cutoff) == OrphanFiles(b, cutoff) - gone;
    assert p.files - OrphanFiles(p, cutoff) == b.files - OrphanFiles(b, cutoff);
  }

  lemma NothingLoose(b: Store, cutoff: int)
    requires Loose(b, cutoff) == {} && Stale(b, cutoff) == {}
    ensures Cleaned(b, cutoff) == DropFiles(b, OrphanFiles(b, cutoff))
  {
    hide OrphanFiles, DropRows;
    NothingCascades(b, cutoff);
    DropNoRows(b);
  }

  lemma TidyOrNot(s: Store, cutoff: int)
    ensures Tidy(s, cutoff) <==> Loose(s, cutoff) == {} && Stale(s, cutoff) == {} && OrphanFiles(s, cutoff) == {}
  {
    hide Referenced, HasRow;
    if Loose(s, cutoff) == {} && Stale(s, cutoff) == {} && OrphanFiles(s, cutoff) == {} {
      forall r | r in s.refs && s.refs[r].owner.Unlinked? ensures cutoff <= s.refs[r].owner.since {
        assert r !in Loose(s, cutoff);
      }
      forall h | h in s.rows && s.rows[h] < cutoff ensures Referenced(s.refs, h) {
        assert h !in Stale(s, cutoff);
      }
      forall n | n in s.files && s.files[n].modified < cutoff ensures HasRow(s.rows, n) {
        assert n !in OrphanFiles(s, cutoff);
      }
    }
  }

  /** One run is a fixpoint: a second one with the same cutoff finds nothing, and the stores
      a run leaves alone are exactly the tidy ones. */
  lemma CleanupReachesFixpoint(s: Store, cutoff: int)
    ensures Tidy(Cleaned(s, cutoff), cutoff)
    ensures Cleaned(Cleaned(s, cutoff), cutoff) == Cleaned(s, cutoff)
    ensures Cleaned(s, cutoff) == s <==> Tidy(s, cutoff)
  {
    hide Loose, Stale, OrphanFiles, DropRefs, DropRows, DropFiles, Cleaned, Tidy, Blobs;
    TidyAfter(s, cutoff);
    TidyIsKept(Cleaned(s, cutoff), cutoff);
    if Tidy(s, cutoff) {
      TidyIsKept(s, cutoff);
    }
  }

  lemma TidyIsKept(s: Store, cutoff: int)
    requires Tidy(s, cutoff)
    ensures Cleaned(s, cutoff) == s
  {
    hide Tidy;
    TidyOrNot(s, cutoff);
    NothingLoose(s, cutoff);
    assert DropFiles(s, {}) == s;
  }

  lemma TidyAfter(s: Store, cutoff: int)
    ensures Tidy(Cleaned(s, cutoff), cutoff)
  {
    hide Tidy, Referenced, HasRow;
    RefsAreDone(s, cutoff);
    var a := DropRefs(s, Loose(s, cutoff));
    ResumeRows(a, Stale(a, cutoff), cutoff);
    var b := DropRows(a, Stale(a, cutoff));
    var c := DropFiles(b, OrphanFiles(b, cutoff));
    assert Loose(c, cutoff) == {} && Stale(c, cutoff) == {} && OrphanFiles(c, cutoff) == {};
    TidyOrNot(c, cutoff);
  }

  /** What something still refers to after the run keeps its row and its file, however old;
      what is younger than the cutoff keeps its row; foreign keys stay satisfied. */
  lemma NothingInUseIsRemoved(s: Store, cutoff: int, h: Hash)
    requires h in s.rows
    ensures var t := Cleaned(s, cutoff);
            && (h in t.rows <==> Referenced(t.refs, h) || cutoff <= s.rows[h])
            && (h in t.rows ==> t.rows[h] == s.rows[h])
            && (h in t.rows && Blob(h) in s.files ==> Blob(h) in t.files && t.files[Blob(h)] == s.files[Blob(h)])
    ensures (forall r :: r in s.refs ==> s.refs[r].hash in s.rows) ==>
              var t := Cleaned(s, cutoff); forall r :: r in t.refs ==> t.refs[r].hash in t.rows
    ensures HasAttachments(s.refs) ==> HasAttachments(Cleaned(s, cutoff).refs)
  {
    var t := Cleaned(s, cutoff);
    forall r | r in t.refs ensures Referenced(t.refs, t.refs[r].hash) {
    }
  }

  /** What is left is untouched, and exactly this is left: the references that are no old
      loose attachment and no thumbnail of one; the rows that one of these refers to or that
      are young; the blobs that had a row, if it is left, and of the other files the young. */
  lemma CleanedExactly(s: Store, cutoff: int)
    ensures var t := Cleaned(s, cutoff);
            && (forall r :: r in t.refs ==> r in s.refs && t.refs[r] == s.refs[r])
            && (forall h :: h in t.rows ==> h in s.rows && t.rows[h] == s.rows[h])
            && (forall n :: n in t.files ==> n in s.files && t.files[n] == s.files[n])
    ensures var t := Cleaned(s, cutoff);
            forall r :: r in s.refs ==>
              (r in t.refs <==>
                 match s.refs[r].owner
                 case Linked => true
                 case Unlinked(since) => cutoff <= since
                 case ThumbnailOf(a) => !(a in s.refs && s.refs[a].owner.Unlinked? && s.refs[a].owner.since < cutoff))
    ensures var t := Cleaned(s, cutoff);
            forall h :: h in s.rows ==>
              (h in t.rows <==> cutoff <= s.rows[h] || exists r :: r in t.refs && t.refs[r].hash == h)
    ensures var t := Cleaned(s, cutoff);
            forall n :: n in s.files ==>
              (n in t.files <==> if n.Blob? && n.hash in s.rows then n.hash in t.rows
                                 else cutoff <= s.files[n].modified)
  {
    var a := DropRefs(s, Loose(s, cutoff));
    assert forall h :: h in Stale(a, cutoff) <==> h in s.rows && s.rows[h] < cutoff && !Referenced(a.refs, h);
  }
}
