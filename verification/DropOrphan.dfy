/** When the database and the directory of Drop disagree, over whole runs: exactly after a crash with a file in
    flight, or a Delete that committed without holding all files of its item; and then for ever. */
module DropOrphan {
  import opened Prelude
  import opened DropState
  import opened DropRuns
  import opened DropCrash

  // ---------------------------------------------------------------- a file that nothing accounts for

  /** A file of an attachment that has no row and is in no request's hands: at its blob path, or held by a Delete that
      will at most put it back there. */
  ghost predicate Orphan(m: Disk, a: Id, n: Id) {
    && a in m.drawn && DrawnFor(m, n, a) && a !in m.tables.attachments && a !in m.loose
    && if a in m.aside then m.aside[a].name == n else Blob(n) in m.files
  }

  /** A delete-* file that no request will restore or remove. */
  ghost predicate Leftover(m: Disk, d: Id) {
    && Staged(d) in m.files && d in m.drawn && d !in m.dead
    && (m.drawn[d] in m.aside && m.aside[m.drawn[d]].temp == d ==> m.aside[m.drawn[d]].job !in m.jobs)
  }

  ghost predicate Unaccounted(m: Disk, x: Id, n: Id) { Orphan(m, x, n) || Leftover(m, n) }

  /** A commit inserts no row for it, and takes nothing out of the hands of another request. */
  lemma CommitsKeepOrphan(m: Disk, step: Step, a: Id, n: Id)
    requires CanStep(m, step) && Safe(m) && Orphan(m, a, n) && (step.CommitCreate? || step.CommitDelete?)
    ensures Orphan(Do(m, step), a, n)
  {
    hide Safe, RowsFor, HoldsAll, NameOk, Accounted, TodoOk, BytesOf, TempsOf, Unlocked;
    At(m, a);
    JobAt(m, step.job);
  }

  lemma MovesKeepOrphan(m: Disk, step: Step, a: Id, n: Id)
    requires CanStep(m, step) && Safe(m) && Orphan(m, a, n) && (step.UndoOne? || step.StageOne? || step.RestoreOne?)
    ensures Orphan(Do(m, step), a, n)
  {
    hide Safe, RowsFor, NameOk, Accounted, TodoOk, JobOk;
    At(m, a);
    At(m, step.rowId);
  }

  /** The steps that only change what is in flight. */
  predicate OnlyPhases(step: Step) {
    step.GiveUpCreate? || step.SkipOne? || step.GiveUpDelete? || step.FailDeleteCommit? || step.Finish? || step.Crash?
    || step.BeginDelete?
  }

  /** What a step of that kind leaves. */
  lemma PhasesOnly(m: Disk, step: Step)
    requires CanStep(m, step) && OnlyPhases(step)
    ensures var n := Do(m, step);
            && n.tables == m.tables && n.files == m.files && n.aside == m.aside
            && (n.loose == m.loose || n.loose == map[]) && (n.dead == m.dead || n.dead == map[])
            && (if step.BeginDelete? then step.job !in m.drawn && n.drawn == m.drawn[step.job := step.job]
                else n.drawn == m.drawn)
            && forall j :: j in n.jobs ==> j in m.jobs || (step.BeginDelete? && j == step.job)
  {
    hide RowsFor, Unlocked, NothingInFlight;
  }

  lemma FilesKeepOrphan(m: Disk, step: Step, a: Id, n: Id)
    requires CanStep(m, step) && Safe(m) && Orphan(m, a, n)
    requires step.Receive? || step.BeginCreate? || step.MoveOne? || step.RemoveOne?
    ensures Orphan(Do(m, step), a, n)
  {
    hide Safe, RowsFor, HoldsAll, NameOk, Accounted, TodoOk, RowOk, LooseOk, JobOk;
    At(m, a);
  }

  /** Such a file is there to stay. */
  lemma StepKeepsOrphan(m: Disk, step: Step, a: Id, n: Id)
    requires CanStep(m, step) && Safe(m) && Orphan(m, a, n)
    ensures Orphan(Do(m, step), a, n)
  {
    hide CanStep, Do, Safe;
    if OnlyPhases(step) {
      PhasesOnly(m, step);
    } else if step.CommitCreate? || step.CommitDelete? {
      CommitsKeepOrphan(m, step, a, n);
    } else if step.UndoOne? || step.StageOne? || step.RestoreOne? {
      MovesKeepOrphan(m, step, a, n);
    } else {
      FilesKeepOrphan(m, step, a, n);
    }
  }

  lemma CommitsKeepLeftover(m: Disk, step: Step, d: Id)
    requires CanStep(m, step) && Safe(m) && Leftover(m, d) && (step.CommitCreate? || step.CommitDelete?)
    ensures Leftover(Do(m, step), d)
  {
    hide Safe, RowsFor, HoldsAll, NameOk, Accounted, TodoOk, RowOk, LooseOk, JobOk, RowsOf, BytesOf, TempsOf,
         LooseWithout, Unlocked, Without;
    HolderOf(m, step.job, d);
  }

  lemma MovesKeepLeftover(m: Disk, step: Step, d: Id)
    requires CanStep(m, step) && Safe(m) && Leftover(m, d) && (step.UndoOne? || step.StageOne? || step.RestoreOne?)
    ensures Leftover(Do(m, step), d)
  {
    hide Safe, RowsFor, NameOk, Accounted, TodoOk, RowOk, LooseOk, JobOk;
    At(m, step.rowId);
  }

  lemma FilesKeepLeftover(m: Disk, step: Step, d: Id)
    requires CanStep(m, step) && Safe(m) && Leftover(m, d)
    requires step.Receive? || step.BeginCreate? || step.MoveOne? || step.RemoveOne?
    ensures Leftover(Do(m, step), d)
  {
    hide Safe, RowsFor, HoldsAll, NameOk, Accounted, TodoOk, RowOk, LooseOk, JobOk;
    At(m, m.drawn[d]);
  }

  lemma StepKeepsLeftover(m: Disk, step: Step, d: Id)
    requires CanStep(m, step) && Safe(m) && Leftover(m, d)
    ensures Leftover(Do(m, step), d)
  {
    hide CanStep, Do, Safe, RowOk, LooseOk;
    if OnlyPhases(step) {
      PhasesOnly(m, step);
      At(m, m.drawn[d]);
    } else if step.CommitCreate? || step.CommitDelete? {
      CommitsKeepLeftover(m, step, d);
    } else if step.UndoOne? || step.StageOne? || step.RestoreOne? {
      MovesKeepLeftover(m, step, d);
    } else {
      FilesKeepLeftover(m, step, d);
    }
  }

  lemma UnaccountedDisagrees(m: Disk, x: Id, n: Id)
    requires Safe(m) && Unaccounted(m, x, n)
    ensures !Agrees(m)
  {
    hide Safe;
    if Orphan(m, x, n) {
      At(m, x);
      if Named(m.tables.attachments, n) {
        var b :| b in m.tables.attachments && m.tables.attachments[b].storageName == n;
        At(m, b);
      }
    }
  }

  // ---------------------------------------------------------------- where one comes from

  /** The steps after which a file is unaccounted for. */
  ghost predicate Tears(m: Disk, step: Step)
    requires CanStep(m, step)
  {
    || (step.Crash? && !NothingInFlight(m))
    || (step.CommitDelete? && !HoldsAll(m.tables.attachments, m.aside, step.job, m.jobs[step.job].item))
  }

  lemma CommitLeaves(m: Disk, j: Id) returns (x: Id, n: Id)
    requires Safe(m) && CanStep(m, CommitDelete(j)) && Tears(m, CommitDelete(j))
    ensures Unaccounted(Do(m, CommitDelete(j)), x, n)
  {
    hide Safe, RowsFor;
    x :| x in m.tables.attachments && m.tables.attachments[x].itemId == m.jobs[j].item
         && !(x in m.aside && m.aside[x].job == j);
    At(m, x);
    n := m.tables.attachments[x].storageName;
    assert Orphan(Do(m, CommitDelete(j)), x, n);
  }

  lemma CrashLeaves(m: Disk) returns (x: Id, n: Id)
    requires Safe(m) && Tears(m, Crash)
    ensures Unaccounted(Do(m, Crash), x, n)
  {
    hide Safe;
    if m.loose != map[] {
      x :| x in m.loose;
      At(m, x);
      n := m.loose[x].row.storageName;
    } else if m.aside != map[] {
      x :| x in m.aside;
      At(m, x);
      n := m.aside[x].temp;
    } else {
      n :| n in m.dead;
      x := n;
      NameAt(m, n);
    }
  }

  ghost predicate TornBy(m: Disk, steps: seq<Step>)
    requires ValidSteps(m, steps)
    decreases |steps|
  {
    steps != [] && (Tears(m, steps[0]) || TornBy(Do(m, steps[0]), steps[1..]))
  }

  lemma {:induction false} UnaccountedForEver(m: Disk, steps: seq<Step>, x: Id, n: Id)
    requires Safe(m) && ValidSteps(m, steps) && Unaccounted(m, x, n)
    ensures Unaccounted(RunSteps(m, steps), x, n)
    decreases |steps|
  {
    hide Safe, Do, CanStep, Orphan, Leftover;
    if steps != [] {
      StepKeepsSafe(m, steps[0]);
      if Orphan(m, x, n) { StepKeepsOrphan(m, steps[0], x, n); } else { StepKeepsLeftover(m, steps[0], n); }
      UnaccountedForEver(Do(m, steps[0]), steps[1..], x, n);
    }
  }

  lemma {:induction false} TornDisagrees(m: Disk, steps: seq<Step>)
    requires Safe(m) && ValidSteps(m, steps) && TornBy(m, steps)
    ensures !Agrees(RunSteps(m, steps))
    decreases |steps|
  {
    hide Safe, Do, CanStep, Tears, Unaccounted, Agrees;
    StepKeepsSafe(m, steps[0]);
    var t := Do(m, steps[0]);
    if Tears(m, steps[0]) {
      var x, n := TearLeaves(m, steps[0]);
      UnaccountedForEver(t, steps[1..], x, n);
      StepsKeepSafe(t, steps[1..]);
      UnaccountedDisagrees(RunSteps(t, steps[1..]), x, n);
    } else {
      TornDisagrees(t, steps[1..]);
    }
  }

  lemma TearLeaves(m: Disk, step: Step) returns (x: Id, n: Id)
    requires Safe(m) && CanStep(m, step) && Tears(m, step)
    ensures Unaccounted(Do(m, step), x, n)
  {
    hide Safe, Do, CanStep, Unaccounted, NothingInFlight, HoldsAll;
    if step.Crash? { x, n := CrashLeaves(m); } else { x, n := CommitLeaves(m, step.job); }
  }

  lemma TornByStep(m: Disk, step: Step)
    requires CanStep(m, step)
    ensures Do(m, step).torn <==> m.torn || Tears(m, step)
  {
    hide HoldsAll, NothingInFlight, TempsOf, AsideWithout, Unlocked, Without, RowsOf, BytesOf, LooseWithout, Renamed,
         RowsFor;
  }

  /** The torn flag tells whether that has happened. */
  lemma {:induction false} TornMeans(m: Disk, steps: seq<Step>)
    requires ValidSteps(m, steps)
    ensures RunSteps(m, steps).torn <==> m.torn || TornBy(m, steps)
    decreases |steps|
  {
    hide CanStep, Do, Tears;
    if steps != [] {
      TornByStep(m, steps[0]);
      TornMeans(Do(m, steps[0]), steps[1..]);
    }
  }

  /** From a fresh disk, by any interleaving of requests, failures and crashes, to a state with no request in flight:
      the files in blobs are exactly the names in the rows, and no delete-* file is left, if and only if no crash ever
      hit a file in flight and no Delete ever committed without holding all files of its item. */
  lemma AgreesExactlyWhen(steps: seq<Step>)
    requires ValidSteps(FRESH_DISK, steps) && RunSteps(FRESH_DISK, steps).jobs == map[]
    ensures Agrees(RunSteps(FRESH_DISK, steps)) <==> !TornBy(FRESH_DISK, steps)
  {
    hide *;
    FreshDiskSafe();
    TornMeans(FRESH_DISK, steps);
    StepsKeepSafe(FRESH_DISK, steps);
    NotTorn();
    if TornBy(FRESH_DISK, steps) {
      TornDisagrees(FRESH_DISK, steps);
    } else {
      QuietAgrees(RunSteps(FRESH_DISK, steps));
    }
  }

  lemma NotTorn()
    ensures !FRESH_DISK.torn
  {
  }

  /** From a fresh disk, whatever crashes and fails: each attachment that is committed has the bytes committed for it
      in one file, at its blob path or under a delete-* name. */
  lemma FreshDiskLosesNothing(steps: seq<Step>, a: Id)
    requires ValidSteps(FRESH_DISK, steps) && a in RunSteps(FRESH_DISK, steps).tables.attachments
    ensures var n := RunSteps(FRESH_DISK, steps);
            && a in n.contents && Home(n, a) in n.files && n.files[Home(n, a)] == n.contents[a]
            && (Home(n, a) == Blob(n.tables.attachments[a].storageName) || Home(n, a).Staged?)
  {
    hide Safe, ValidSteps, RunSteps;
    FreshDiskSafe();
    StepsKeepSafe(FRESH_DISK, steps);
    At(RunSteps(FRESH_DISK, steps), a);
  }

  // ---------------------------------------------------------------- a run without a crash that leaves an orphan

  // One step at a time: item 1 has the attachment 2, whose blob is 3; 4 and 6 are Deletes, 5 a delete-* name.

  ghost function Received(bytes: Bytes): Disk { FRESH_DISK.(files := map[Upload(0) := bytes], drawn := map[0 := 0]) }

  ghost function Moved(bytes: Bytes, input: CreateInput, row: AttachmentRow): Disk {
    FRESH_DISK.(files := map[Blob(3) := bytes], drawn := map[0 := 0, 1 := 1, 2 := 2, 3 := 2],
                jobs := map[1 := Creating(input)],
                loose := map[2 := Loose(bytes, row)])
  }

  /** One committed item with one attachment. */
  ghost function Committed(bytes: Bytes, item: ItemRow, row: AttachmentRow, keys: map<KeyHash, Id>): Disk {
    FRESH_DISK.(tables := Tables(map[1 := item], map[2 := row], keys), files := map[Blob(3) := bytes],
                contents := map[2 := bytes],
                drawn := map[0 := 0, 1 := 1, 2 := 2, 3 := 2])
  }

  lemma ReceiveIt(bytes: Bytes)
    ensures CanStep(FRESH_DISK, Receive(0, bytes)) && Do(FRESH_DISK, Receive(0, bytes)) == Received(bytes)
  {
  }

  lemma MoveIt(bytes: Bytes, input: CreateInput, pending: Pending, now: Instant)
    ensures CanStep(Received(bytes), BeginCreate(1, input))
    ensures var m := Do(Received(bytes), BeginCreate(1, input));
            CanStep(m, MoveOne(1, 0, 2, 3, pending, now))
            && Do(m, MoveOne(1, 0, 2, 3, pending, now)) == Moved(bytes, input, RowFor(pending, 1, 3, now))
  {
    var m := Do(Received(bytes), BeginCreate(1, input));
    assert m.files - {Upload(0)} == map[];
  }

  lemma LooseRow(bytes: Bytes, row: AttachmentRow)
    requires row.itemId == 1
    ensures RowsOf(map[2 := Loose(bytes, row)], 1) == map[2 := row]
  {
  }

  lemma LooseBytes(bytes: Bytes, row: AttachmentRow)
    requires row.itemId == 1
    ensures BytesOf(map[2 := Loose(bytes, row)], 1) == map[2 := bytes]
  {
  }

  lemma NoneLoose(bytes: Bytes, row: AttachmentRow)
    requires row.itemId == 1
    ensures LooseWithout(map[2 := Loose(bytes, row)], 1) == map[]
  {
  }

  lemma CommitIt(bytes: Bytes, input: CreateInput, row: AttachmentRow, now: Instant, total: int)
    requires row.itemId == 1
    ensures CanStep(Moved(bytes, input, row), CommitCreate(1, now, total))
    ensures Do(Moved(bytes, input, row), CommitCreate(1, now, total))
         == Committed(bytes, NewItem(input, now, total), row,
                      if input.key.Key? then map[input.key.hash := 1] else map[])
  {
    hide RowsOf, BytesOf, LooseWithout, NewItem;
    LooseRow(bytes, row);
    LooseBytes(bytes, row);
    NoneLoose(bytes, row);
    assert map[1 := Creating(input)] - {1} == map[];
    assert map[] + map[2 := row] == map[2 := row] && map[] + map[2 := bytes] == map[2 := bytes];
  }

  /** The first Delete holds the file; its commit has failed, so its lock is gone. */
  ghost function Failed(bytes: Bytes, item: ItemRow, row: AttachmentRow, keys: map<KeyHash, Id>): Disk {
    Committed(bytes, item, row, keys).(
      files := map[Staged(5) := bytes], drawn := map[0 := 0, 1 := 1, 2 := 2, 3 := 2, 4 := 4, 5 := 2],
      jobs := map[4 := Restoring(1)], aside := map[2 := Held(4, 3, 5)])
  }

  /** The second Delete has committed. */
  ghost function Gone(bytes: Bytes): Disk {
    Disk(Tables(map[], map[], map[]), map[Staged(5) := bytes], map[2 := bytes],
         map[0 := 0, 1 := 1, 2 := 2, 3 := 2, 4 := 4, 5 := 2, 6 := 6],
         map[4 := Restoring(1), 6 := Removing], map[], map[], map[2 := Held(4, 3, 5)], map[], true)
  }

  ghost function Race(bytes: Bytes, item: ItemRow, row: AttachmentRow, keys: map<KeyHash, Id>, second: Phase): Disk {
    Failed(bytes, item, row, keys).(
      drawn := map[0 := 0, 1 := 1, 2 := 2, 3 := 2, 4 := 4, 5 := 2, 6 := 6], jobs := map[4 := Restoring(1), 6 := second],
      locks := map[1 := 6])
  }

  ghost function Held1(bytes: Bytes, item: ItemRow, row: AttachmentRow, keys: map<KeyHash, Id>): Disk {
    Failed(bytes, item, row, keys).(jobs := map[4 := Staging(1, {})], locks := map[1 := 4])
  }

  ghost function Locked(bytes: Bytes, item: ItemRow, row: AttachmentRow, keys: map<KeyHash, Id>): Disk {
    Committed(bytes, item, row, keys).(
      drawn := map[0 := 0, 1 := 1, 2 := 2, 3 := 2, 4 := 4], jobs := map[4 := Staging(1, {2})], locks := map[1 := 4])
  }

  lemma LockIt(bytes: Bytes, item: ItemRow, row: AttachmentRow, keys: map<KeyHash, Id>)
    requires row.itemId == 1
    ensures var m := Committed(bytes, item, row, keys);
            CanStep(m, BeginDelete(4, 1)) && Do(m, BeginDelete(4, 1)) == Locked(bytes, item, row, keys)
  {
    assert RowsFor(map[2 := row], 1) == {2};
  }

  lemma HoldIt(bytes: Bytes, item: ItemRow, row: AttachmentRow, keys: map<KeyHash, Id>)
    requires row.itemId == 1 && row.storageName == 3
    ensures var m := Locked(bytes, item, row, keys);
            CanStep(m, StageOne(4, 2, 5)) && Do(m, StageOne(4, 2, 5)) == Held1(bytes, item, row, keys)
  {
    assert map[Blob(3) := bytes] - {Blob(3)} == map[];
    assert {2} - {2} == {};
  }

  lemma FailIt(bytes: Bytes, item: ItemRow, row: AttachmentRow, keys: map<KeyHash, Id>)
    ensures var m := Held1(bytes, item, row, keys);
            CanStep(m, FailDeleteCommit(4)) && Do(m, FailDeleteCommit(4)) == Failed(bytes, item, row, keys)
  {
    hide Unlocked;
    NoLocks(4);
  }

  lemma RaceIt(bytes: Bytes, item: ItemRow, row: AttachmentRow, keys: map<KeyHash, Id>)
    requires row.itemId == 1
    ensures var m := Failed(bytes, item, row, keys);
            CanStep(m, BeginDelete(6, 1)) && Do(m, BeginDelete(6, 1)) == Race(bytes, item, row, keys, Staging(1, {2}))
  {
    assert RowsFor(map[2 := row], 1) == {2};
  }

  lemma SkipIt(bytes: Bytes, item: ItemRow, row: AttachmentRow, keys: map<KeyHash, Id>)
    requires row.storageName == 3
    ensures var m := Race(bytes, item, row, keys, Staging(1, {2}));
            CanStep(m, SkipOne(6, 2)) && Do(m, SkipOne(6, 2)) == Race(bytes, item, row, keys, Staging(1, {}))
  {
    assert {2} - {2} == {};
  }

  lemma NoLocks(j: Id)
    ensures Unlocked(map[1 := j], j) == map[] && Unlocked(map[], j) == map[]
  {
  }

  lemma NoTemps()
    ensures TempsOf(map[2 := Held(4, 3, 5)], 6) == map[]
  {
  }

  lemma AsideStays()
    ensures AsideWithout(map[2 := Held(4, 3, 5)], 6) == map[2 := Held(4, 3, 5)]
  {
  }

  lemma NoTables(item: ItemRow, row: AttachmentRow, keys: map<KeyHash, Id>)
    requires row.itemId == 1 && forall k :: k in keys ==> keys[k] == 1
    ensures Without(Tables(map[1 := item], map[2 := row], keys), 1) == Tables(map[], map[], map[])
  {
  }

  lemma HeldByOther(row: AttachmentRow)
    requires row.itemId == 1
    ensures !HoldsAll(map[2 := row], map[2 := Held(4, 3, 5)], 6, 1)
  {
    assert 2 in map[2 := row];
  }

  lemma EraseIt(bytes: Bytes, item: ItemRow, row: AttachmentRow, keys: map<KeyHash, Id>)
    requires row.itemId == 1 && forall k :: k in keys ==> keys[k] == 1
    ensures var m := Race(bytes, item, row, keys, Staging(1, {}));
            CanStep(m, CommitDelete(6)) && Do(m, CommitDelete(6)) == Gone(bytes)
  {
    hide Unlocked, TempsOf, AsideWithout, Without, HoldsAll, RowsFor;
    NoLocks(6);
    NoTemps();
    AsideStays();
    NoTables(item, row, keys);
    HeldByOther(row);
  }

  ghost function Restored(bytes: Bytes, jobs: map<Id,
                          Phase>): Disk { Gone(bytes).(files := map[Blob(3) := bytes], jobs := jobs, aside := map[]) }

  lemma RestoreIt(bytes: Bytes)
    ensures CanStep(Gone(bytes), RestoreOne(4, 2))
    ensures Do(Gone(bytes), RestoreOne(4, 2)) == Restored(bytes, map[4 := Restoring(1), 6 := Removing])
  {
    assert map[Staged(5) := bytes] - {Staged(5)} == map[] && map[2 := Held(4, 3, 5)] - {2} == map[];
  }

  lemma FinishFirst(bytes: Bytes)
    ensures var m := Restored(bytes, map[4 := Restoring(1), 6 := Removing]);
            CanStep(m, Finish(4)) && Do(m, Finish(4)) == Restored(bytes, map[6 := Removing])
  {
    hide Unlocked;
    NoLocks(4);
    assert map[4 := Restoring(1), 6 := Removing] - {4} == map[6 := Removing];
  }

  lemma FinishSecond(bytes: Bytes)
    ensures var m := Restored(bytes, map[6 := Removing]);
            CanStep(m, Finish(6)) && Do(m, Finish(6)) == Restored(bytes, map[])
  {
    hide Unlocked;
    NoLocks(6);
    assert map[6 := Removing] - {6} == map[];
  }

  lemma AtEnd(bytes: Bytes)
    ensures var m := Restored(bytes, map[]);
            && ValidSteps(m, []) && RunSteps(m, []) == m && !Agrees(m)
            && m.jobs == map[] && m.tables.attachments == map[] && m.files == map[Blob(3) := bytes]
  {
    assert Blob(3) in map[Blob(3) := bytes];
  }

  lemma UploadRun(bytes: Bytes, input: CreateInput, pending: Pending, now: Instant, total: int, rest: seq<Step>)
    returns (steps: seq<Step>)
    requires Crash !in rest
    requires ValidSteps(Committed(bytes, NewItem(input, now, total), RowFor(pending, 1, 3, now),
                                  if input.key.Key? then map[input.key.hash := 1] else map[]), rest)
    ensures ValidSteps(FRESH_DISK, steps) && Crash !in steps
    ensures RunSteps(FRESH_DISK, steps)
         == RunSteps(Committed(bytes, NewItem(input, now, total), RowFor(pending, 1, 3, now),
                               if input.key.Key? then map[input.key.hash := 1] else map[]), rest)
  {
    hide *;
    var row, item := RowFor(pending, 1, 3, now), NewItem(input, now, total);
    RowIs(pending, now);
    ReceiveIt(bytes);
    MoveIt(bytes, input, pending, now);
    CommitIt(bytes, input, row, now, total);
    steps := Prepend(Moved(bytes, input, row), CommitCreate(1, now, total), rest);
    steps := Prepend(Do(Received(bytes), BeginCreate(1, input)), MoveOne(1, 0, 2, 3, pending, now), steps);
    steps := Prepend(Received(bytes), BeginCreate(1, input), steps);
    steps := Prepend(FRESH_DISK, Receive(0, bytes), steps);
  }

  lemma Prepend(m: Disk, step: Step, rest: seq<Step>) returns (steps: seq<Step>)
    requires CanStep(m, step) && ValidSteps(Do(m, step), rest) && step != Crash && Crash !in rest
    ensures ValidSteps(m, steps) && RunSteps(m, steps) == RunSteps(Do(m, step), rest) && Crash !in steps
  {
    hide CanStep, Do;
    steps := [step] + rest;
    assert steps[1..] == rest;
  }

  lemma SecondDelete(bytes: Bytes, item: ItemRow, row: AttachmentRow, keys: map<KeyHash, Id>) returns (steps: seq<Step>)
    requires row.itemId == 1 && row.storageName == 3 && forall k :: k in keys ==> keys[k] == 1
    ensures ValidSteps(Failed(bytes, item, row, keys), steps) && Crash !in steps
    ensures RunSteps(Failed(bytes, item, row, keys), steps) == Restored(bytes, map[])
  {
    hide *;
    RaceIt(bytes, item, row, keys);
    SkipIt(bytes, item, row, keys);
    EraseIt(bytes, item, row, keys);
    RestoreIt(bytes);
    FinishFirst(bytes);
    FinishSecond(bytes);
    AtEnd(bytes);
    steps := Prepend(Restored(bytes, map[6 := Removing]), Finish(6), []);
    steps := Prepend(Restored(bytes, map[4 := Restoring(1), 6 := Removing]), Finish(4), steps);
    steps := Prepend(Gone(bytes), RestoreOne(4, 2), steps);
    steps := Prepend(Race(bytes, item, row, keys, Staging(1, {})), CommitDelete(6), steps);
    steps := Prepend(Race(bytes, item, row, keys, Staging(1, {2})), SkipOne(6, 2), steps);
    steps := Prepend(Failed(bytes, item, row, keys), BeginDelete(6, 1), steps);
  }

  lemma FirstDelete(bytes: Bytes, item: ItemRow, row: AttachmentRow, keys: map<KeyHash, Id>) returns (steps: seq<Step>)
    requires row.itemId == 1 && row.storageName == 3 && forall k :: k in keys ==> keys[k] == 1
    ensures ValidSteps(Committed(bytes, item, row, keys), steps) && Crash !in steps
    ensures RunSteps(Committed(bytes, item, row, keys), steps) == Restored(bytes, map[])
  {
    hide *;
    LockIt(bytes, item, row, keys);
    HoldIt(bytes, item, row, keys);
    FailIt(bytes, item, row, keys);
    steps := SecondDelete(bytes, item, row, keys);
    steps := Prepend(Held1(bytes, item, row, keys), FailDeleteCommit(4), steps);
    steps := Prepend(Locked(bytes, item, row, keys), StageOne(4, 2, 5), steps);
    steps := Prepend(Committed(bytes, item, row, keys), BeginDelete(4, 1), steps);
  }

  /** A Delete whose commit fails gives up its lock before it restores; a second Delete of the item that runs in between
      commits, and the first then restores a file that has no row any more. No crash is needed, and nothing is left in
      flight that could remove the file. */
  lemma OrphanWithoutCrash(bytes: Bytes, input: CreateInput, pending: Pending, now: Instant, total: int)
    returns (steps: seq<Step>)
    ensures ValidSteps(FRESH_DISK, steps) && Crash !in steps
    ensures var n := RunSteps(FRESH_DISK, steps);
            n.jobs == map[] && n.tables.attachments == map[] && n.files == map[Blob(3) := bytes] && !Agrees(n)
  {
    hide *;
    RowIs(pending, now);
    AtEnd(bytes);
    var keys := if input.key.Key? then map[input.key.hash := 1] else map[];
    steps := FirstDelete(bytes, NewItem(input, now, total), RowFor(pending, 1, 3, now), keys);
    steps := UploadRun(bytes, input, pending, now, total, steps);
  }

  lemma RowIs(pending: Pending, now: Instant)
    ensures RowFor(pending, 1, 3, now).itemId == 1 && RowFor(pending, 1, 3, now).storageName == 3
  {
  }
}
