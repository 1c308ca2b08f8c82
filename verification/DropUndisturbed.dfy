/** The small steps of DropCrash and the operations of DropState are the same code: a request that nothing disturbs
    leaves, step by step, the tables and the files that the operation leaves at once. */
module DropUndisturbed {
  import opened Prelude
  import opened DropState
  import opened DropRuns
  import opened DropStore
  import opened DropCrash
  import opened DropOrphan

  // ---------------------------------------------------------------- Delete

  /** The steps of one Delete. */
  predicate OfDelete(step: Step, j: Id) {
    && (step.StageOne? || step.SkipOne? || step.GiveUpDelete? || step.FailDeleteCommit? || step.RestoreOne?
        || step.CommitDelete?
        || step.RemoveOne? || step.Finish?)
    && step.job == j
  }

  /** Delete j of the item is the only request in flight, and has nothing forgotten of the item's files. */
  ghost predicate Alone(m: Disk, n: Disk, j: Id, item: Id, committed: bool) {
    && !n.torn && n.jobs.Keys <= {j} && n.contents == m.contents
    && n.tables == (if committed then Without(m.tables, item) else m.tables)
    && (forall x :: Upload(x) in n.files <==> Upload(x) in m.files)
    && (forall x :: Upload(x) in m.files ==> n.files[Upload(x)] == m.files[Upload(x)])
    && (j in n.jobs ==> n.jobs[j].Staging? || n.jobs[j].Restoring? || n.jobs[j].Removing?)
    && (j in n.jobs && !n.jobs[j].Removing? ==> !committed && n.jobs[j].item == item)
    && (j in n.jobs && n.jobs[j].Staging? ==>
          forall a :: a in n.tables.attachments && n.tables.attachments[a].itemId == item ==>
            a in n.jobs[j].todo || (a in n.aside && n.aside[a].job == j))
  }

  /** A staging loop that is alone finds every file. */
  lemma NothingMissing(m: Disk, n: Disk, j: Id, item: Id, committed: bool, a: Id)
    requires Safe(n) && Alone(m, n, j, item, committed)
    ensures !CanStep(n, SkipOne(j, a))
  {
    hide Safe;
    At(n, a);
    JobAt(n, j);
  }

  lemma StageStaysAlone(m: Disk, n: Disk, j: Id, item: Id, committed: bool, a: Id, temp: Id)
    requires Alone(m, n, j, item, committed) && CanStep(n, StageOne(j, a, temp))
    ensures Alone(m, Do(n, StageOne(j, a, temp)), j, item, committed)
  {
  }

  lemma CommitStaysAlone(m: Disk, n: Disk, j: Id, item: Id, committed: bool)
    requires Alone(m, n, j, item, committed) && CanStep(n, CommitDelete(j))
    ensures Alone(m, Do(n, CommitDelete(j)), j, item, true)
  {
    hide TempsOf, Unlocked, AsideWithout, Without;
    assert HoldsAll(n.tables.attachments, n.aside, j, item);
  }

  lemma RestStaysAlone(m: Disk, n: Disk, j: Id, item: Id, committed: bool, step: Step)
    requires Alone(m, n, j, item, committed) && CanStep(n, step) && OfDelete(step, j)
    requires !step.StageOne? && !step.CommitDelete? && !step.SkipOne?
    ensures Alone(m, Do(n, step), j, item, committed)
  {
    hide Unlocked, Without;
  }

  lemma StepStaysAlone(m: Disk, n: Disk, j: Id, item: Id, committed: bool, step: Step)
    requires Safe(n) && Alone(m, n, j, item, committed) && CanStep(n, step) && OfDelete(step, j)
    ensures Alone(m, Do(n, step), j, item, committed || step.CommitDelete?)
  {
    hide Safe, CanStep, Do, Alone;
    match step {
      case StageOne(_, a, temp) => StageStaysAlone(m, n, j, item, committed, a, temp);
      case SkipOne(_, a) => NothingMissing(m, n, j, item, committed, a);
      case CommitDelete(_) => CommitStaysAlone(m, n, j, item, committed);
      case _ => RestStaysAlone(m, n, j, item, committed, step);
    }
  }

  /** Its steps commit it. */
  predicate Commits(steps: seq<Step>) { exists i :: 0 <= i < |steps| && steps[i].CommitDelete? }

  lemma {:induction false} RunStaysAlone(m: Disk, n: Disk, j: Id, item: Id, committed: bool, steps: seq<Step>)
    requires Safe(n) && Alone(m, n, j, item, committed) && ValidSteps(n, steps)
    requires forall i :: 0 <= i < |steps| ==> OfDelete(steps[i], j)
    ensures Safe(RunSteps(n, steps)) && Alone(m, RunSteps(n, steps), j, item, committed || Commits(steps))
    decreases |steps|
  {
    hide Safe, CanStep, Do, Alone, OfDelete;
    if steps != [] {
      StepKeepsSafe(n, steps[0]);
      StepStaysAlone(m, n, j, item, committed, steps[0]);
      RunStaysAlone(m, Do(n, steps[0]), j, item, committed || steps[0].CommitDelete?, steps[1..]);
      CommitsFirst(steps);
    }
  }

  lemma CommitsFirst(steps: seq<Step>)
    requires steps != []
    ensures Commits(steps) <==> steps[0].CommitDelete? || Commits(steps[1..])
  {
    if Commits(steps) {
      var i :| 0 <= i < |steps| && steps[i].CommitDelete?;
      if i > 0 { assert steps[1..][i - 1].CommitDelete?; }
    }
    if Commits(steps[1..]) {
      var i :| 0 <= i < |steps[1..]| && steps[1..][i].CommitDelete?;
      assert steps[i + 1].CommitDelete?;
    }
  }

  lemma BeginsAlone(m: Disk, j: Id, item: Id)
    requires Safe(m) && !m.torn && m.jobs == map[] && CanStep(m, BeginDelete(j, item))
    ensures Alone(m, Do(m, BeginDelete(j, item)), j, item, false)
  {
    hide Safe;
  }

  /** Two quiet disks with the same rows for a name, and the same committed bytes, have the same blob under it. */
  lemma SameBlob(m: Disk, n: Disk, x: Id)
    requires Safe(m) && Safe(n) && !m.torn && !n.torn && m.jobs == map[] && n.jobs == map[] && m.contents == n.contents
    requires forall a :: a in n.tables.attachments ==>
               a in m.tables.attachments && n.tables.attachments[a] == m.tables.attachments[a]
    ensures Blob(x) in n.files <==> Named(n.tables.attachments, x)
    ensures Blob(x) in m.files <==> Named(m.tables.attachments, x)
    ensures Blob(x) in n.files ==> Blob(x) in m.files && n.files[Blob(x)] == m.files[Blob(x)]
    ensures Staged(x) !in n.files && Staged(x) !in m.files
  {
    hide Safe;
    QuietAgrees(m);
    QuietAgrees(n);
    if Named(n.tables.attachments, x) {
      var a :| a in n.tables.attachments && n.tables.attachments[a].storageName == x;
      assert m.tables.attachments[a].storageName == x;
      assert BytesSafe(n, a, x) && BytesSafe(m, a, x);
    }
  }

  /** Storage names are not shared. */
  lemma OneRow(m: Disk, a: Id, b: Id)
    requires Safe(m) && a in m.tables.attachments && b in m.tables.attachments
    requires m.tables.attachments[a].storageName == m.tables.attachments[b].storageName
    ensures a == b
  {
    hide Safe;
    At(m, a);
    At(m, b);
  }

  lemma NamesWithout(m: Disk, item: Id, x: Id)
    requires Safe(m)
    ensures Named(Without(m.tables, item).attachments, x) <==>
              Named(m.tables.attachments, x) && x !in StorageNames(m.tables, item)
  {
    hide Safe;
    var rows, rest := m.tables.attachments, Without(m.tables, item).attachments;
    if Named(rows, x) && x !in StorageNames(m.tables, item) {
      var a :| a in rows && rows[a].storageName == x;
      assert a in rest;
    }
    if Named(rest, x) {
      var a :| a in rest && rest[a].storageName == x;
      assert rows[a].storageName == x;
      if x in StorageNames(m.tables, item) {
        var b :| b in rows && rows[b].itemId == item && rows[b].storageName == x;
        OneRow(m, a, b);
      }
    }
  }

  /** A Delete that runs alone, from a state in which nothing is in flight to the next such state, does to tables and
      files what the operation does: removes the item with all its files if it commits, and otherwise nothing. */
  lemma UndisturbedDelete(m: Disk, j: Id, item: Id, steps: seq<Step>, s: State, now: Instant, staged: set<Id>)
    requires Safe(m) && !m.torn && m.jobs == map[] && CanStep(m, BeginDelete(j, item))
    requires ValidSteps(Do(m, BeginDelete(j, item)), steps) && forall i :: 0 <= i < |steps| ==> OfDelete(steps[i], j)
    requires RunSteps(Do(m, BeginDelete(j, item)), steps).jobs == map[]
    requires s.tables == m.tables && s.files == m.files
    ensures var n, u := RunSteps(Do(m, BeginDelete(j, item)), steps),
                        DeleteSpec(s, item, now, staged, if Commits(steps) then DeleteOk else DeleteFailCommit).0;
            n.tables == u.tables && n.files == u.files
  {
    hide Safe, ValidSteps, RunSteps, Do, Without, Commits;
    StepKeepsSafe(m, BeginDelete(j, item));
    BeginsAlone(m, j, item);
    RunStaysAlone(m, Do(m, BeginDelete(j, item)), j, item, false, steps);
    var n := RunSteps(Do(m, BeginDelete(j, item)), steps);
    SameFiles(m, n, j, item, Commits(steps));
  }

  lemma SameFiles(m: Disk, n: Disk, j: Id, item: Id, committed: bool)
    requires Safe(m) && Safe(n) && !m.torn && m.jobs == map[] && n.jobs == map[] && Alone(m, n, j, item, committed)
    ensures n.files == if committed then m.files - BlobPaths(StorageNames(m.tables, item)) else m.files
  {
    hide Safe, StorageNames;
    var files := if committed then m.files - BlobPaths(StorageNames(m.tables, item)) else m.files;
    forall p: Path ensures (p in n.files <==> p in files) && (p in files ==> n.files[p] == files[p]) {
      SameBlob(m, n, p.name);
      NamesWithout(m, item, p.name);
    }
  }

  // ---------------------------------------------------------------- Create

  function MoveOf(input: CreateInput, draw: Draw, now: Instant, k: nat): Step
    requires k < |input.attachments| == |draw.attachments| == |draw.blobs| && AllStaged(input.attachments)
  {
    var p := input.attachments[k];
    MoveOne(draw.item, p.tempPath.value, draw.attachments[k], draw.blobs[k], p, now)
  }

  /** What Create still has to do after k renames. */
  ghost function CreateFrom(input: CreateInput, draw: Draw, now: Instant, k: nat): seq<Step>
    requires k <= |input.attachments| == |draw.attachments| == |draw.blobs| && AllStaged(input.attachments)
    decreases |input.attachments| - k
  {
    if k == |input.attachments| then [CommitCreate(draw.item, now, |input.text| + Sizes(input.attachments))]
    else [MoveOf(input, draw, now, k)] + CreateFrom(input, draw, now, k + 1)
  }

  /** Nothing is in flight, and the identifiers that the Create draws are new. */
  ghost predicate Unused(m: Disk, input: CreateInput, draw: Draw) {
    && |draw.attachments| == |draw.blobs| == |input.attachments|
    && Distinct(draw.attachments) && Distinct(draw.blobs) && draw.item !in m.drawn && m.jobs == map[]
    && m.loose == map[]
    && (forall i :: 0 <= i < |input.attachments| ==>
          NewName(m, draw, draw.attachments[i]) && NewName(m, draw, draw.blobs[i]))
    && (forall i, k :: 0 <= i < |input.attachments| && 0 <= k < |input.attachments| ==>
          draw.attachments[i] != draw.blobs[k])
  }

  /** Besides, the renames of this Create can all be done. */
  ghost predicate Ready(m: Disk, input: CreateInput, draw: Draw) {
    && Unused(m, input, draw) && AllStaged(input.attachments)
    && (forall i :: 0 <= i < |input.attachments| ==> Renames(m.files, input.attachments, NoFault, i))
  }

  ghost predicate NewName(m: Disk, draw: Draw, x: Id) { x !in m.drawn && x != draw.item }

  /** After k renames. */
  ghost predicate AfterMoves(m: Disk, n: Disk, input: CreateInput, draw: Draw, now: Instant, k: nat)
    requires Ready(m, input, draw) && k <= |input.attachments|
  {
    && n.tables == m.tables && draw.item in n.jobs && n.jobs[draw.item] == Creating(input)
    && (forall i :: 0 <= i < |input.attachments| ==> TempOf(input.attachments[i]) in m.files)
    && n.files == MovedFiles(m.files, input.attachments, draw.blobs, k)
    && RowsOf(n.loose, draw.item) == NewRows(input.attachments, draw, now, k)
    && (forall i :: k <= i < |input.attachments| ==> draw.attachments[i] !in n.drawn && draw.blobs[i] !in n.drawn)
  }

  lemma NoRows(j: Id)
    ensures RowsOf(map[], j) == map[]
  {
  }

  lemma Begun(m: Disk, j: Id, input: CreateInput)
    requires j !in m.drawn
    ensures CanStep(m, BeginCreate(j, input))
    ensures Do(m, BeginCreate(j, input)) == m.(drawn := m.drawn[j := j], jobs := m.jobs[j := Creating(input)])
  {
  }

  lemma BeginsReady(m: Disk, input: CreateInput, draw: Draw, now: Instant)
    requires Ready(m, input, draw)
    ensures CanStep(m, BeginCreate(draw.item, input))
    ensures AfterMoves(m, Do(m, BeginCreate(draw.item, input)), input, draw, now, 0)
  {
    hide CanStep, Do, MovedFiles, RowsOf, Temps;
    Begun(m, draw.item, input);
    NoRows(draw.item);
    forall i | 0 <= i < |input.attachments|
      ensures TempOf(input.attachments[i]) in m.files && NewName(m, draw, draw.attachments[i])
      ensures NewName(m, draw, draw.blobs[i])
    {
      assert Renames(m.files, input.attachments, NoFault, i);
    }
    MoveNothing(m.files, input.attachments, draw.blobs);
  }

  lemma LooseGrows(loose: map<Id, Loose>, a: Id, x: Loose, j: Id)
    requires x.row.itemId == j
    ensures RowsOf(loose[a := x], j) == RowsOf(loose, j)[a := x.row]
  {
  }

  lemma MovesOn(m: Disk, n: Disk, input: CreateInput, draw: Draw, now: Instant, k: nat)
    requires Ready(m, input, draw) && k < |input.attachments| && AfterMoves(m, n, input, draw, now, k)
    ensures CanStep(n, MoveOf(input, draw, now, k))
    ensures AfterMoves(m, Do(n, MoveOf(input, draw, now, k)), input, draw, now, k + 1)
  {
    hide MovedFiles, RowsOf, Placed, Temps;
    assert Renames(m.files, input.attachments, NoFault, k);
    MoveStep(m.files, input.attachments, draw.blobs, k);
    var source := TempOf(input.attachments[k]);
    assert source in n.files;
    LooseGrows(n.loose, draw.attachments[k],
               Loose(n.files[source], RowFor(input.attachments[k], draw.item, draw.blobs[k], now)), draw.item);
  }

  /** What the commit of this Create leaves. */
  ghost predicate Done(m: Disk, n: Disk, input: CreateInput, draw: Draw, now: Instant)
    requires Ready(m, input, draw) && forall i :: 0 <= i < |input.attachments| ==>
               TempOf(input.attachments[i]) in m.files
  {
    && n.tables == Inserted(m.tables, input, draw, now, |input.text| + Sizes(input.attachments))
    && n.files == MovedFiles(m.files, input.attachments, draw.blobs, |input.attachments|)
  }

  lemma CommitsDone(m: Disk, n: Disk, input: CreateInput, draw: Draw, now: Instant)
    requires Ready(m, input, draw) && AfterMoves(m, n, input, draw, now, |input.attachments|)
    ensures var commit := CommitCreate(draw.item, now, |input.text| + Sizes(input.attachments));
            CanStep(n, commit) && Done(m, Do(n, commit), input, draw, now)
  {
    hide MovedFiles, RowsOf, BytesOf, LooseWithout, NewRows, NewItem, Sizes, Renames;
  }

  lemma {:induction false} CreateRuns(m: Disk, n: Disk, input: CreateInput, draw: Draw, now: Instant, k: nat)
    requires Ready(m, input, draw) && k <= |input.attachments| && AfterMoves(m, n, input, draw, now, k)
    ensures ValidSteps(n, CreateFrom(input, draw, now, k))
    ensures Done(m, RunSteps(n, CreateFrom(input, draw, now, k)), input, draw, now)
    decreases |input.attachments| - k
  {
    hide CanStep, Do, MovedFiles, RowsOf, NewRows, Renames, Done;
    if k == |input.attachments| {
      CommitsDone(m, n, input, draw, now);
    } else {
      MovesOn(m, n, input, draw, now, k);
      CreateRuns(m, Do(n, MoveOf(input, draw, now, k)), input, draw, now, k + 1);
      assert CreateFrom(input, draw, now, k)[1..] == CreateFrom(input, draw, now, k + 1);
    }
  }

  /** A Create that runs alone can be taken step by step whenever the operation succeeds, and leaves the same tables and
      the same files. */
  lemma UndisturbedCreate(m: Disk, input: CreateInput, draw: Draw, now: Instant, s: State)
    requires Unused(m, input, draw) && s.tables == m.tables && s.files == m.files
    requires !Replays(s, input) && CreateSpec(s, input, now, draw, NoFault).1.Ok?
    ensures AllStaged(input.attachments)
    ensures var steps := [BeginCreate(draw.item, input)] + CreateFrom(input, draw, now, 0);
            var u := CreateSpec(s, input, now, draw, NoFault).0;
            ValidSteps(m, steps) && RunSteps(m, steps).tables == u.tables && RunSteps(m, steps).files == u.files
  {
    hide CanStep, Do, CreateFrom, CreateSpec, Renames, Placed, Inserted, Temps, Sizes, BlobContents, CreatedItem,
         ActiveSizes, Sum, NewName;
    GoesThrough(s, input, now, draw);
    var begin := BeginCreate(draw.item, input);
    BeginsReady(m, input, draw, now);
    CreateRuns(m, Do(m, begin), input, draw, now, 0);
    var steps := [begin] + CreateFrom(input, draw, now, 0);
    assert steps[1..] == CreateFrom(input, draw, now, 0);
    CreateCommits(s, input, now, draw, NoFault);
    assert input.attachments[..|input.attachments|] == input.attachments;
  }

  /** The steps of a Create that commits nothing. */
  predicate OfFailedCreate(step: Step, j: Id) {
    (step.MoveOne? || step.GiveUpCreate? || step.UndoOne? || step.Finish?) && step.job == j
  }

  /** Create j is the only request in flight, and has so far only moved uploads. */
  ghost predicate Failing(m: Disk, n: Disk, j: Id) {
    && !n.torn && n.jobs.Keys <= {j} && n.contents == m.contents && n.tables == m.tables
    && (forall x :: Upload(x) in n.files ==> Upload(x) in m.files && n.files[Upload(x)] == m.files[Upload(x)])
  }

  lemma StepStaysFailing(m: Disk, n: Disk, j: Id, step: Step)
    requires Failing(m, n, j) && CanStep(n, step) && OfFailedCreate(step, j)
    ensures Failing(m, Do(n, step), j)
  {
    hide Unlocked;
  }

  lemma {:induction false} RunStaysFailing(m: Disk, n: Disk, j: Id, steps: seq<Step>)
    requires Safe(n) && Failing(m, n, j) && ValidSteps(n, steps)
    requires forall i :: 0 <= i < |steps| ==> OfFailedCreate(steps[i], j)
    ensures Safe(RunSteps(n, steps)) && Failing(m, RunSteps(n, steps), j)
    decreases |steps|
  {
    hide Safe, CanStep, Do, Failing, OfFailedCreate;
    if steps != [] {
      StepKeepsSafe(n, steps[0]);
      StepStaysFailing(m, n, j, steps[0]);
      RunStaysFailing(m, Do(n, steps[0]), j, steps[1..]);
    }
  }

  /** A Create that runs alone and gives up, wherever it does, leaves the tables and the blobs as they were and no
      upload that was not there: what a failing operation leaves. */
  lemma UndisturbedFailure(m: Disk, j: Id, input: CreateInput, steps: seq<Step>, s: State)
    requires Safe(m) && !m.torn && m.jobs == map[] && CanStep(m, BeginCreate(j, input))
    requires ValidSteps(Do(m, BeginCreate(j, input)), steps)
    requires forall i :: 0 <= i < |steps| ==> OfFailedCreate(steps[i], j)
    requires RunSteps(Do(m, BeginCreate(j, input)), steps).jobs == map[] && s.files == m.files
    ensures var n := RunSteps(Do(m, BeginCreate(j, input)), steps);
            n.tables == m.tables && SameButUploads(s, s.(files := n.files))
  {
    hide Safe, ValidSteps, RunSteps;
    StepKeepsSafe(m, BeginCreate(j, input));
    RunStaysFailing(m, Do(m, BeginCreate(j, input)), j, steps);
    var n := RunSteps(Do(m, BeginCreate(j, input)), steps);
    forall p: Path
      ensures !p.Upload? ==> (p in n.files <==> p in m.files) && (p in m.files ==> n.files[p] == m.files[p])
      ensures p in n.files ==> p in m.files
    {
      SameBlob(m, n, p.name);
    }
  }
}
