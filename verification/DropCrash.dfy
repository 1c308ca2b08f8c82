/** Create and Delete in single renames, removals and commits, any number of them
    in flight and interleaved, with a crash possible after every step. */
module DropCrash {
  import opened Prelude
  import opened DropState
  import opened DropRuns

  /** Where a request in flight stands. A Create is known by its item's identifier.
      todo: the attachments that a Delete's staging loop has not reached. */
  datatype Phase =
    | Creating(input: CreateInput)
    | Undoing
    | Staging(item: Id, todo: set<Id>)
    | Restoring(item: Id)
    | Removing

  /** A blob that a Create has moved, and the row it will insert for it. */
  datatype Loose = Loose(bytes: Bytes, row: AttachmentRow)

  /** An attachment's file in the hands of a Delete: its storage name, and the delete-* name that holds it. */
  datatype Held = Held(job: Id, name: Id, temp: Id)

  type Rows = map<Id, AttachmentRow>

  /** The database, the directory, and what is in flight. contents: the bytes committed for each attachment.
      drawn: every identifier drawn, with the attachment a file name was drawn for. locks: the Delete that has
      locked an item's row. dead: delete-* files of committed Deletes. torn: a crash interrupted a request, or
      a Delete committed without holding all of its item's files. */
  datatype Disk =
    Disk(tables: Tables, files: Files, contents: map<Id, Bytes>, drawn: map<Id, Id>, jobs: map<Id, Phase>,
         locks: map<Id, Id>, loose: map<Id, Loose>, aside: map<Id, Held>, dead: map<Id, Id>, torn: bool)

  datatype Step =
    | Receive(name: Id, bytes: Bytes)
    | BeginCreate(job: Id, input: CreateInput)
    | MoveOne(job: Id, source: Id, rowId: Id, blob: Id, pending: Pending, now: Instant)
    | GiveUpCreate(job: Id)
    | UndoOne(job: Id, rowId: Id)
    | CommitCreate(job: Id, now: Instant, total: int)
    | BeginDelete(job: Id, item: Id)
    | StageOne(job: Id, rowId: Id, temp: Id)
    | SkipOne(job: Id, rowId: Id)
    | GiveUpDelete(job: Id)
    | FailDeleteCommit(job: Id)
    | RestoreOne(job: Id, rowId: Id)
    | CommitDelete(job: Id)
    | RemoveOne(job: Id, temp: Id)
    | Finish(job: Id)
    | Crash

  /** A step that the code can take next. A Delete waits for the lock on its item's row. */
  ghost predicate CanStep(m: Disk, step: Step) {
    match step
    case Receive(name, _) => name !in m.drawn
    case BeginCreate(j, _) => j !in m.drawn
    case MoveOne(j, source, a, blob, _, _) =>
      && j in m.jobs && m.jobs[j].Creating? && Upload(source) in m.files
      && a !in m.drawn && blob !in m.drawn && a != blob
    case GiveUpCreate(j) => j in m.jobs && m.jobs[j].Creating?
    case UndoOne(j, a) => j in m.jobs && m.jobs[j].Undoing? && a in m.loose && m.loose[a].row.itemId == j
    case CommitCreate(j, _, _) => j in m.jobs && m.jobs[j].Creating?
    case BeginDelete(j, item) => j !in m.drawn && item in m.tables.items && item !in m.locks
    case StageOne(j, a, temp) =>
      && j in m.jobs && m.jobs[j].Staging? && a in m.jobs[j].todo && a in m.tables.attachments && temp !in m.drawn
      && Blob(m.tables.attachments[a].storageName) in m.files
    case SkipOne(j, a) =>
      && j in m.jobs && m.jobs[j].Staging? && a in m.jobs[j].todo && a in m.tables.attachments
      && Blob(m.tables.attachments[a].storageName) !in m.files
    case GiveUpDelete(j) => j in m.jobs && m.jobs[j].Staging?
    case FailDeleteCommit(j) => j in m.jobs && m.jobs[j].Staging? && m.jobs[j].todo == {}
    case RestoreOne(j, a) => j in m.jobs && m.jobs[j].Restoring? && a in m.aside && m.aside[a].job == j
    case CommitDelete(j) => j in m.jobs && m.jobs[j].Staging? && m.jobs[j].todo == {}
    case RemoveOne(j, temp) => j in m.jobs && m.jobs[j].Removing? && temp in m.dead && m.dead[temp] == j
    case Finish(j) =>
      && j in m.jobs && (m.jobs[j].Undoing? || m.jobs[j].Restoring? || m.jobs[j].Removing?)
      && (forall a :: a in m.loose ==> m.loose[a].row.itemId != j)
      && (forall a :: a in m.aside ==> m.aside[a].job != j)
      && (forall d :: d in m.dead ==> m.dead[d] != j)
    case Crash => true
  }

  /** os.Rename, with its error ignored when the source is missing. */
  function Renamed(files: Files, from: Path, to: Path): Files {
    if from in files then (files - {from})[to := files[from]] else files
  }

  ghost function RowsOf(loose: map<Id, Loose>, j: Id): Rows {
    map a | a in loose && loose[a].row.itemId == j :: loose[a].row
  }

  ghost function BytesOf(loose: map<Id, Loose>, j: Id): map<Id, Bytes> {
    map a | a in loose && loose[a].row.itemId == j :: loose[a].bytes
  }

  ghost function LooseWithout(loose: map<Id, Loose>, j: Id): map<Id, Loose> {
    map a | a in loose && loose[a].row.itemId != j :: loose[a]
  }

  ghost function TempsOf(aside: map<Id, Held>, j: Id): map<Id, Id> {
    map a | a in aside && aside[a].job == j :: aside[a].temp := j
  }

  ghost function AsideWithout(aside: map<Id, Held>, j: Id): map<Id, Held> {
    map a | a in aside && aside[a].job != j :: aside[a]
  }

  ghost function Unlocked(locks: map<Id, Id>, j: Id): map<Id, Id> {
    map i | i in locks && locks[i] != j :: locks[i]
  }

  ghost function RowsFor(rows: Rows, item: Id): set<Id> {
    set a | a in rows && rows[a].itemId == item
  }

  /** Delete j has every file of the item in its hands. */
  ghost predicate HoldsAll(rows: Rows, aside: map<Id, Held>, j: Id, item: Id) {
    forall a :: a in rows && rows[a].itemId == item ==> a in aside && aside[a].job == j
  }

  ghost predicate NothingInFlight(m: Disk) { m.loose == map[] && m.aside == map[] && m.dead == map[] }

  ghost function Do(m: Disk, step: Step): Disk
    requires CanStep(m, step)
  {
    match step
    case Receive(name, bytes) => m.(files := m.files[Upload(name) := bytes], drawn := m.drawn[name := name])
    case BeginCreate(j, input) => m.(drawn := m.drawn[j := j], jobs := m.jobs[j := Creating(input)])
    case MoveOne(j, source, a, blob, pending, now) =>
      m.(files := Renamed(m.files, Upload(source), Blob(blob)), drawn := m.drawn[a := a][blob := a],
         loose := m.loose[a := Loose(m.files[Upload(source)], RowFor(pending, j, blob, now))])
    case GiveUpCreate(j) => m.(jobs := m.jobs[j := Undoing])
    case UndoOne(j, a) => m.(files := m.files - {Blob(m.loose[a].row.storageName)}, loose := m.loose - {a})
    case CommitCreate(j, now, total) =>
      var input := m.jobs[j].input;
      m.(tables := Tables(m.tables.items[j := NewItem(input, now, total)], m.tables.attachments + RowsOf(m.loose, j),
                          if input.key.Key? then m.tables.keys[input.key.hash := j] else m.tables.keys),
         contents := m.contents + BytesOf(m.loose, j), jobs := m.jobs - {j}, loose := LooseWithout(m.loose, j))
    case BeginDelete(j, item) =>
      m.(drawn := m.drawn[j := j], jobs := m.jobs[j := Staging(item, RowsFor(m.tables.attachments, item))],
         locks := m.locks[item := j])
    case StageOne(j, a, temp) =>
      var name := m.tables.attachments[a].storageName;
      m.(files := Renamed(m.files, Blob(name), Staged(temp)), drawn := m.drawn[temp := a],
         jobs := m.jobs[j := Staging(m.jobs[j].item, m.jobs[j].todo - {a})], aside := m.aside[a := Held(j, name, temp)])
    case SkipOne(j, a) => m.(jobs := m.jobs[j := Staging(m.jobs[j].item, m.jobs[j].todo - {a})])
    case GiveUpDelete(j) => m.(jobs := m.jobs[j := Restoring(m.jobs[j].item)])
    case FailDeleteCommit(j) => m.(jobs := m.jobs[j := Restoring(m.jobs[j].item)], locks := Unlocked(m.locks, j))
    case RestoreOne(j, a) =>
      m.(files := Renamed(m.files, Staged(m.aside[a].temp), Blob(m.aside[a].name)), aside := m.aside - {a})
    case CommitDelete(j) =>
      var item := m.jobs[j].item;
      m.(tables := Without(m.tables, item), jobs := m.jobs[j := Removing], locks := Unlocked(m.locks, j),
         aside := AsideWithout(m.aside, j), dead := m.dead + TempsOf(m.aside, j),
         torn := m.torn || !HoldsAll(m.tables.attachments, m.aside, j, item))
    case RemoveOne(j, temp) => m.(files := m.files - {Staged(temp)}, dead := m.dead - {temp})
    case Finish(j) => m.(jobs := m.jobs - {j}, locks := Unlocked(m.locks, j))
    case Crash =>
      m.(jobs := map[], locks := map[], loose := map[], dead := map[], torn := m.torn || !NothingInFlight(m))
  }

  // ---------------------------------------------------------------- the invariant

  /** A committed attachment's bytes are in one piece: at the blob path, or under a delete-* name. */
  ghost predicate BytesSafe(m: Disk, a: Id, name: Id) {
    && a in m.contents
    && (if a in m.aside then
          m.aside[a].name == name && Staged(m.aside[a].temp) in m.files
          && m.files[Staged(m.aside[a].temp)] == m.contents[a]
        else Blob(name) in m.files && m.files[Blob(name)] == m.contents[a])
  }

  /** A name drawn for attachment a. */
  ghost predicate DrawnFor(m: Disk, name: Id, a: Id) { name in m.drawn && m.drawn[name] == a }

  ghost predicate HoldsLock(m: Disk, j: Id, item: Id) { item in m.locks && m.locks[item] == j }

  /** A committed attachment. */
  ghost predicate RowOk(m: Disk, a: Id) {
    a in m.tables.attachments ==>
      var row := m.tables.attachments[a];
      a in m.drawn && DrawnFor(m, row.storageName, a) && row.itemId in m.tables.items
      && BytesSafe(m, a, row.storageName)
  }

  /** A moved, uncommitted attachment. */
  ghost predicate LooseOk(m: Disk, a: Id) {
    a in m.loose ==>
      var row := m.loose[a].row;
      && a in m.drawn && a !in m.contents && a !in m.tables.attachments && a !in m.aside
      && DrawnFor(m, row.storageName, a)
      && Blob(row.storageName) in m.files && m.files[Blob(row.storageName)] == m.loose[a].bytes
      && row.itemId in m.jobs && (m.jobs[row.itemId].Creating? || m.jobs[row.itemId].Undoing?)
  }

  /** An attachment in the hands of a Delete. One that still has its lock holds only files of its own item. */
  ghost predicate HeldOk(m: Disk, a: Id) {
    a in m.aside ==>
      var held := m.aside[a];
      && a in m.drawn && DrawnFor(m, held.temp, a) && DrawnFor(m, held.name, a)
      && held.temp !in m.dead && Staged(held.temp) in m.files && Blob(held.name) !in m.files && held.job in m.drawn
      && (!m.torn ==> held.job in m.jobs)
      && (held.job in m.jobs ==> (m.jobs[held.job].Staging? || m.jobs[held.job].Restoring?))
      && (held.job in m.jobs && HoldsLock(m, held.job, m.jobs[held.job].item) ==>
            a in m.tables.attachments && m.tables.attachments[a].itemId == m.jobs[held.job].item)
  }

  /** Every blob is a committed row's or a moved one. */
  ghost predicate BlobOwned(m: Disk, n: Id, a: Id) {
    || (a in m.tables.attachments && m.tables.attachments[a].storageName == n)
    || (a in m.loose && m.loose[a].row.storageName == n)
  }

  /** Every delete-* file holds a committed attachment, or is about to be removed. */
  ghost predicate StagedOwned(m: Disk, d: Id, a: Id) {
    d in m.dead || (a in m.tables.attachments && a in m.aside && m.aside[a].temp == d)
  }

  /** A file name was drawn; a dead one holds nothing that is committed. */
  ghost predicate NameOk(m: Disk, n: Id) {
    && (Blob(n) in m.files || Staged(n) in m.files || Upload(n) in m.files || n in m.dead || n in m.contents ==>
          n in m.drawn)
    && (n in m.dead ==>
          && m.drawn[n] in m.drawn && m.drawn[n] !in m.tables.attachments && m.drawn[n] !in m.loose
          && Staged(n) in m.files && m.dead[n] in m.jobs && m.jobs[m.dead[n]].Removing?)
  }

  ghost predicate Owned(m: Disk, n: Id) {
    && (Blob(n) in m.files ==> n in m.drawn && BlobOwned(m, n, m.drawn[n]))
    && (Staged(n) in m.files ==> n in m.drawn && StagedOwned(m, n, m.drawn[n]))
  }

  /** As long as nothing is torn, every file is accounted for. */
  ghost predicate Accounted(m: Disk, n: Id) { !m.torn ==> Owned(m, n) }

  /** What holds of an item, of its row lock, and of a request in flight. */
  ghost predicate JobOk(m: Disk, j: Id) {
    && (j in m.tables.items || j in m.jobs ==> j in m.drawn)
    && (j in m.locks ==>
          && j in m.tables.items && m.locks[j] in m.jobs
          && (m.jobs[m.locks[j]].Staging? || m.jobs[m.locks[j]].Restoring?) && m.jobs[m.locks[j]].item == j)
    && (j in m.jobs && m.jobs[j].Creating? ==> j !in m.tables.items)
    && (j in m.jobs && m.jobs[j].Staging? ==> HoldsLock(m, j, m.jobs[j].item))
  }

  /** What a staging loop has still to reach is of its own item. */
  ghost predicate TodoOk(m: Disk, j: Id) {
    j in m.jobs && m.jobs[j].Staging? ==>
      forall a :: a in m.jobs[j].todo ==>
        && a in m.tables.attachments && m.tables.attachments[a].itemId == m.jobs[j].item
        && (a in m.aside ==> m.aside[a].job != j)
  }

  ghost predicate AttachmentsOk(m: Disk) { forall x :: RowOk(m, x) && LooseOk(m, x) && HeldOk(m, x) }

  ghost predicate NamesOk(m: Disk) { forall x :: NameOk(m, x) && Accounted(m, x) }

  ghost predicate JobsOk(m: Disk) { forall x :: JobOk(m, x) && TodoOk(m, x) }

  /** Any identifier may be an attachment's, a file's name, an item's or a request's. */
  ghost predicate Safe(m: Disk) {
    forall x {:trigger RowOk(m, x)} {:trigger LooseOk(m, x)} {:trigger HeldOk(m, x)} {:trigger NameOk(m, x)}
      {:trigger Accounted(m, x)} {:trigger JobOk(m, x)} {:trigger TodoOk(m, x)} ::
      RowOk(m, x) && LooseOk(m, x) && HeldOk(m, x) && NameOk(m, x) && Accounted(m, x) && JobOk(m, x) && TodoOk(m, x)
  }

  lemma At(m: Disk, x: Id)
    requires Safe(m)
    ensures RowOk(m, x) && LooseOk(m, x) && HeldOk(m, x)
  {
  }

  lemma NameAt(m: Disk, x: Id)
    requires Safe(m)
    ensures NameOk(m, x) && Accounted(m, x)
  {
  }

  lemma JobAt(m: Disk, x: Id)
    requires Safe(m)
    ensures JobOk(m, x) && TodoOk(m, x)
  {
  }

  /** Everything about x: as an attachment, as a name and the attachment it was drawn for, as an item, lock or job. */
  lemma AllAt(m: Disk, x: Id)
    requires Safe(m)
    ensures RowOk(m, x) && LooseOk(m, x) && HeldOk(m, x) && NameOk(m, x) && Accounted(m, x) && JobOk(m, x)
    ensures TodoOk(m, x)
    ensures x in m.drawn ==> RowOk(m, m.drawn[x]) && LooseOk(m, m.drawn[x]) && HeldOk(m, m.drawn[x])
    ensures x in m.locks ==> JobOk(m, m.locks[x])
    ensures x in m.dead ==> JobOk(m, m.dead[x])
    ensures x in m.loose ==> JobOk(m, m.loose[x].row.itemId)
  {
  }

  /** Whatever a committed Delete is about to remove, it held under that name. */
  lemma HolderOf(m: Disk, j: Id, temp: Id)
    requires Safe(m)
    ensures temp in TempsOf(m.aside, j) <==>
            temp in m.drawn && m.drawn[temp] in m.aside && m.aside[m.drawn[temp]].job == j
            && m.aside[m.drawn[temp]].temp == temp
  {
    if temp in TempsOf(m.aside, j) {
      var a :| a in m.aside && m.aside[a].job == j && m.aside[a].temp == temp;
      At(m, a);
    }
  }

  // ---------------------------------------------------------------- kept by every step

  /** What a Delete has still to stage is no uncommitted attachment. */
  lemma TodoCommitted(m: Disk, x: Id)
    requires Safe(m)
    ensures x in m.jobs && m.jobs[x].Staging? ==> forall a :: a in m.jobs[x].todo ==> a !in m.loose
  {
    if x in m.jobs && m.jobs[x].Staging? {
      JobAt(m, x);
      forall a | a in m.jobs[x].todo ensures a !in m.loose { At(m, a); }
    }
  }

  lemma ReceiveIs(m: Disk, name: Id, bytes: Bytes)
    requires CanStep(m, Receive(name, bytes))
    ensures name !in m.drawn
    ensures Do(m, Receive(name, bytes)) == m.(files := m.files[Upload(name) := bytes], drawn := m.drawn[name := name])
  {
  }

  lemma ReceiveKeepsAttachments(m: Disk, name: Id, bytes: Bytes)
    requires CanStep(m, Receive(name, bytes)) && Safe(m)
    ensures AttachmentsOk(Do(m, Receive(name, bytes)))
  {
    hide CanStep, Do;
    ReceiveIs(m, name, bytes);
    var n := Do(m, Receive(name, bytes));
    forall x ensures RowOk(n, x) && LooseOk(n, x) && HeldOk(n, x) {
      hide Safe;
      AllAt(m, x);
    }
  }

  lemma ReceiveKeepsRest(m: Disk, name: Id, bytes: Bytes)
    requires CanStep(m, Receive(name, bytes)) && Safe(m)
    ensures NamesOk(Do(m, Receive(name, bytes))) && JobsOk(Do(m, Receive(name, bytes)))
  {
    hide CanStep, Do;
    ReceiveIs(m, name, bytes);
    var n := Do(m, Receive(name, bytes));
    forall x ensures NameOk(n, x) && Accounted(n, x) && JobOk(n, x) && TodoOk(n, x) {
      hide Safe;
      AllAt(m, x);
    }
  }

  lemma BeginCreateIs(m: Disk, j: Id, input: CreateInput)
    requires CanStep(m, BeginCreate(j, input))
    ensures j !in m.drawn
    ensures Do(m, BeginCreate(j, input))
         == m.(drawn := m.drawn[j := j], jobs := m.jobs[j := Creating(input)])
  {
  }

  lemma BeginCreateKeepsAttachments(m: Disk, j: Id, input: CreateInput)
    requires CanStep(m, BeginCreate(j, input)) && Safe(m)
    ensures AttachmentsOk(Do(m, BeginCreate(j, input)))
  {
    hide CanStep, Do;
    BeginCreateIs(m, j, input);
    var n := Do(m, BeginCreate(j, input));
    forall x ensures RowOk(n, x) && LooseOk(n, x) && HeldOk(n, x) {
      hide Safe;
      AllAt(m, x);
    }
  }

  lemma BeginCreateKeepsRest(m: Disk, j: Id, input: CreateInput)
    requires CanStep(m, BeginCreate(j, input)) && Safe(m)
    ensures NamesOk(Do(m, BeginCreate(j, input)))
    ensures JobsOk(Do(m, BeginCreate(j, input)))
  {
    hide CanStep, Do;
    BeginCreateIs(m, j, input);
    var n := Do(m, BeginCreate(j, input));
    forall x ensures NameOk(n, x) && Accounted(n, x) && JobOk(n, x) && TodoOk(n, x) {
      hide Safe;
      AllAt(m, x);
    }
  }

  /** What a rename into the blobs changes. */
  lemma MoveIs(m: Disk, j: Id, source: Id, a: Id, blob: Id, pending: Pending, now: Instant)
    requires CanStep(m, MoveOne(j, source, a, blob, pending, now))
    ensures j in m.jobs && m.jobs[j].Creating? && Upload(source) in m.files
    ensures a !in m.drawn && blob !in m.drawn && a != blob
    ensures Do(m, MoveOne(j, source, a, blob, pending, now))
         == m.(files := (m.files - {Upload(source)})[Blob(blob) := m.files[Upload(source)]],
               drawn := m.drawn[a := a][blob := a],
               loose := m.loose[a := Loose(m.files[Upload(source)], RowFor(pending, j, blob, now))])
  {
  }

  lemma MoveOneKeepsAttachments(m: Disk, j: Id, source: Id, a: Id, blob: Id, pending: Pending, now: Instant)
    requires CanStep(m, MoveOne(j, source, a, blob, pending, now)) && Safe(m)
    ensures AttachmentsOk(Do(m, MoveOne(j, source, a, blob, pending, now)))
  {
    hide CanStep, Do;
    MoveIs(m, j, source, a, blob, pending, now);
    var n := Do(m, MoveOne(j, source, a, blob, pending, now));
    forall x ensures RowOk(n, x) && LooseOk(n, x) && HeldOk(n, x) {
      hide Safe;
      AllAt(m, x);
      At(m, a);
      JobAt(m, j);
    }
  }

  lemma MoveOneKeepsRest(m: Disk, j: Id, source: Id, a: Id, blob: Id, pending: Pending, now: Instant)
    requires CanStep(m, MoveOne(j, source, a, blob, pending, now)) && Safe(m)
    ensures NamesOk(Do(m, MoveOne(j, source, a, blob, pending, now)))
    ensures JobsOk(Do(m, MoveOne(j, source, a, blob, pending, now)))
  {
    hide CanStep, Do;
    MoveIs(m, j, source, a, blob, pending, now);
    var n := Do(m, MoveOne(j, source, a, blob, pending, now));
    forall x ensures NameOk(n, x) && Accounted(n, x) && JobOk(n, x) && TodoOk(n, x) {
      hide Safe;
      AllAt(m, x);
      At(m, a);
      JobAt(m, j);
    }
  }

  lemma GiveUpCreateKeeps(m: Disk, j: Id)
    requires CanStep(m, GiveUpCreate(j)) && Safe(m)
    ensures Safe(Do(m, GiveUpCreate(j)))
  {
    hide RowsFor, RowsOf, BytesOf, LooseWithout, TempsOf, AsideWithout, HoldsAll, NothingInFlight, Without, Unlocked,
         Renamed;
    var n := Do(m, GiveUpCreate(j));
    forall x
      ensures RowOk(n, x) && LooseOk(n, x) && HeldOk(n, x) && NameOk(n, x) && Accounted(n, x) && JobOk(n, x)
              && TodoOk(n, x)
    {
      hide Safe;
      AllAt(m, x);
    }
  }

  lemma UndoOneKeeps(m: Disk, j: Id, a: Id)
    requires CanStep(m, UndoOne(j, a)) && Safe(m)
    ensures Safe(Do(m, UndoOne(j, a)))
  {
    hide RowsFor, RowsOf, BytesOf, LooseWithout, TempsOf, AsideWithout, HoldsAll, NothingInFlight, Without, Unlocked,
         Renamed;
    var n := Do(m, UndoOne(j, a));
    forall x
      ensures RowOk(n, x) && LooseOk(n, x) && HeldOk(n, x) && NameOk(n, x) && Accounted(n, x) && JobOk(n, x)
              && TodoOk(n, x)
    {
      hide Safe;
      AllAt(m, x);
      At(m, a);
    }
  }

  lemma CommitCreateIs(m: Disk, j: Id, now: Instant, total: int)
    requires CanStep(m, CommitCreate(j, now, total))
    ensures j in m.jobs && m.jobs[j].Creating?
    ensures var input, n := m.jobs[j].input, Do(m, CommitCreate(j, now, total));
            n == m.(tables := Tables(m.tables.items[j := NewItem(input, now, total)],
                                     m.tables.attachments + RowsOf(m.loose, j), n.tables.keys),
                    contents := m.contents + BytesOf(m.loose, j), jobs := m.jobs - {j},
                    loose := LooseWithout(m.loose, j))
  {
    hide RowsFor, RowsOf, BytesOf, LooseWithout, TempsOf, AsideWithout, HoldsAll, NothingInFlight, Without, Unlocked;
  }

  lemma CommitCreateKeepsAttachment(m: Disk, j: Id, now: Instant, total: int)
    requires CanStep(m, CommitCreate(j, now, total)) && Safe(m)
    ensures var n := Do(m, CommitCreate(j, now, total)); AttachmentsOk(n)
  {
    hide CanStep, Do, NameOk, Accounted, TodoOk, NewItem;
    CommitCreateIs(m, j, now, total);
    var n := Do(m, CommitCreate(j, now, total));
    forall x ensures RowOk(n, x) && LooseOk(n, x) && HeldOk(n, x) {
      hide Safe;
      At(m, x);
      JobAt(m, j);
    }
  }

  lemma CommitCreateKeepsName(m: Disk, j: Id, now: Instant, total: int)
    requires CanStep(m, CommitCreate(j, now, total)) && Safe(m)
    ensures var n := Do(m, CommitCreate(j, now, total)); NamesOk(n)
  {
    hide CanStep, Do, NewItem;
    CommitCreateIs(m, j, now, total);
    var n := Do(m, CommitCreate(j, now, total));
    forall x ensures NameOk(n, x) && Accounted(n, x) {
      hide Safe;
      AllAt(m, x);
    }
  }

  lemma CommitCreateKeepsRest(m: Disk, j: Id, now: Instant, total: int)
    requires CanStep(m, CommitCreate(j, now, total)) && Safe(m)
    ensures var n := Do(m, CommitCreate(j, now, total)); JobsOk(n)
  {
    hide CanStep, Do, NewItem;
    CommitCreateIs(m, j, now, total);
    var n := Do(m, CommitCreate(j, now, total));
    forall x ensures JobOk(n, x) && TodoOk(n, x) {
      hide Safe;
      AllAt(m, x);
      JobAt(m, j);
      TodoCommitted(m, x);
    }
  }

  /** A new request with a lock of its own leaves every attachment as it was. */
  lemma AttachmentUntouched(m: Disk, n: Disk, j: Id, item: Id, todo: set<Id>, x: Id)
    requires RowOk(m, x) && LooseOk(m, x) && HeldOk(m, x) && (x in m.loose ==> JobOk(m, m.loose[x].row.itemId))
    requires j !in m.drawn && item !in m.locks
    requires n == m.(drawn := m.drawn[j := j], jobs := m.jobs[j := Staging(item, todo)], locks := m.locks[item := j])
    ensures RowOk(n, x) && LooseOk(n, x) && HeldOk(n, x)
  {
  }

  lemma BeginDeleteKeepsAttachment(m: Disk, j: Id, item: Id)
    requires CanStep(m, BeginDelete(j, item)) && Safe(m)
    ensures var n := Do(m, BeginDelete(j, item)); AttachmentsOk(n)
  {
    hide RowsFor, RowOk, LooseOk, HeldOk, NameOk, Accounted, JobOk, TodoOk;
    var n := Do(m, BeginDelete(j, item));
    forall x ensures RowOk(n, x) && LooseOk(n, x) && HeldOk(n, x) {
      hide Safe;
      At(m, x);
      if x in m.loose { JobAt(m, m.loose[x].row.itemId); }
      AttachmentUntouched(m, Do(m, BeginDelete(j, item)), j, item, RowsFor(m.tables.attachments, item), x);
    }
  }

  lemma BeginDeleteKeepsName(m: Disk, j: Id, item: Id)
    requires CanStep(m, BeginDelete(j, item)) && Safe(m)
    ensures var n := Do(m, BeginDelete(j, item)); NamesOk(n)
  {
    hide RowsFor, TodoOk;
    var n := Do(m, BeginDelete(j, item));
    forall x ensures NameOk(n, x) && Accounted(n, x) {
      hide Safe;
      NameAt(m, x);
      if x in m.drawn { At(m, m.drawn[x]); }
      if x in m.dead { JobAt(m, m.dead[x]); }
    }
  }

  /** Taking a free lock for a new request disturbs no other. */
  lemma LockTaken(m: Disk, n: Disk, j: Id, item: Id, todo: set<Id>, x: Id)
    requires JobOk(m, x) && (x in m.locks ==> JobOk(m, m.locks[x]))
    requires j !in m.drawn && item in m.tables.items && item !in m.locks
    requires n.tables == m.tables && n.drawn == m.drawn[j := j] && n.locks == m.locks[item := j]
    requires n.jobs == m.jobs[j := Staging(item, todo)]
    ensures JobOk(n, x)
  {
  }

  lemma BeginDeleteKeepsJob(m: Disk, j: Id, item: Id)
    requires CanStep(m, BeginDelete(j, item)) && Safe(m)
    ensures forall x :: JobOk(Do(m, BeginDelete(j, item)), x)
  {
    forall x ensures JobOk(Do(m, BeginDelete(j, item)), x) {
      hide Safe, RowsFor, JobOk, TodoOk;
      JobAt(m, x);
      if x in m.locks { JobAt(m, m.locks[x]); }
      LockTaken(m, Do(m, BeginDelete(j, item)), j, item, RowsFor(m.tables.attachments, item), x);
    }
  }

  lemma BeginDeleteKeepsTodo(m: Disk, j: Id, item: Id)
    requires CanStep(m, BeginDelete(j, item)) && Safe(m)
    ensures forall x :: TodoOk(Do(m, BeginDelete(j, item)), x)
  {
    forall x ensures TodoOk(Do(m, BeginDelete(j, item)), x) {
      hide Safe;
      JobAt(m, x);
      forall a | a in RowsFor(m.tables.attachments, item) ensures a in m.aside ==> m.aside[a].job != j { At(m, a); }
    }
  }

  lemma StageOneIs(m: Disk, j: Id, a: Id, temp: Id)
    requires CanStep(m, StageOne(j, a, temp))
    ensures j in m.jobs && m.jobs[j].Staging? && a in m.jobs[j].todo && a in m.tables.attachments && temp !in m.drawn
    ensures Blob(m.tables.attachments[a].storageName) in m.files
    ensures Do(m, StageOne(j, a, temp))
         == var name := m.tables.attachments[a].storageName;
            m.(files := (m.files - {Blob(name)})[Staged(temp) := m.files[Blob(name)]], drawn := m.drawn[temp := a],
               jobs := m.jobs[j := Staging(m.jobs[j].item, m.jobs[j].todo - {a})],
               aside := m.aside[a := Held(j, name, temp)])
  {
  }

  lemma StageOneKeepsAttachment(m: Disk, j: Id, a: Id, temp: Id)
    requires CanStep(m, StageOne(j, a, temp)) && Safe(m)
    ensures var n := Do(m, StageOne(j, a, temp)); AttachmentsOk(n)
  {
    hide CanStep, Do, Accounted, TodoOk;
    var n := Do(m, StageOne(j, a, temp));
    forall x ensures RowOk(n, x) && LooseOk(n, x) && HeldOk(n, x) {
      hide Safe;
      StageOneIs(m, j, a, temp);
      At(m, x);
      At(m, a);
      NameAt(m, temp);
      JobAt(m, j);
    }
  }

  lemma StageOneKeepsRest(m: Disk, j: Id, a: Id, temp: Id)
    requires CanStep(m, StageOne(j, a, temp)) && Safe(m)
    ensures var n := Do(m, StageOne(j, a, temp)); NamesOk(n) && JobsOk(n)
  {
    hide CanStep, Do;
    var n := Do(m, StageOne(j, a, temp));
    forall x ensures NameOk(n, x) && Accounted(n, x) && JobOk(n, x) && TodoOk(n, x) {
      hide Safe;
      StageOneIs(m, j, a, temp);
      AllAt(m, x);
      At(m, a);
      NameAt(m, temp);
      JobAt(m, j);
    }
  }

  lemma SkipOneIs(m: Disk, j: Id, a: Id)
    requires CanStep(m, SkipOne(j, a))
    ensures j in m.jobs && m.jobs[j].Staging?
    ensures Do(m, SkipOne(j, a))
         == m.(jobs := m.jobs[j := Staging(m.jobs[j].item, m.jobs[j].todo - {a})])
  {
  }

  lemma SkipOneKeeps(m: Disk, j: Id, a: Id)
    requires CanStep(m, SkipOne(j, a)) && Safe(m)
    ensures Safe(Do(m, SkipOne(j, a)))
  {
    hide CanStep, Do;
    SkipOneIs(m, j, a);
    var n := Do(m, SkipOne(j, a));
    forall x
      ensures RowOk(n, x) && LooseOk(n, x) && HeldOk(n, x) && NameOk(n, x) && Accounted(n, x) && JobOk(n, x)
              && TodoOk(n, x)
    {
      hide Safe;
      AllAt(m, x);
    }
  }

  lemma GiveUpDeleteIs(m: Disk, j: Id)
    requires CanStep(m, GiveUpDelete(j))
    ensures j in m.jobs && m.jobs[j].Staging?
    ensures Do(m, GiveUpDelete(j))
         == m.(jobs := m.jobs[j := Restoring(m.jobs[j].item)])
  {
  }

  lemma GiveUpDeleteKeeps(m: Disk, j: Id)
    requires CanStep(m, GiveUpDelete(j)) && Safe(m)
    ensures Safe(Do(m, GiveUpDelete(j)))
  {
    hide CanStep, Do;
    GiveUpDeleteIs(m, j);
    var n := Do(m, GiveUpDelete(j));
    forall x
      ensures RowOk(n, x) && LooseOk(n, x) && HeldOk(n, x) && NameOk(n, x) && Accounted(n, x) && JobOk(n, x)
              && TodoOk(n, x)
    {
      hide Safe;
      AllAt(m, x);
    }
  }

  lemma FailDeleteCommitIs(m: Disk, j: Id)
    requires CanStep(m, FailDeleteCommit(j))
    ensures j in m.jobs && m.jobs[j].Staging?
    ensures Do(m, FailDeleteCommit(j)) ==
            m.(jobs := m.jobs[j := Restoring(m.jobs[j].item)], locks := Unlocked(m.locks, j))
  {
  }

  lemma FailDeleteCommitKeeps(m: Disk, j: Id)
    requires CanStep(m, FailDeleteCommit(j)) && Safe(m)
    ensures Safe(Do(m, FailDeleteCommit(j)))
  {
    hide CanStep, Do;
    FailDeleteCommitIs(m, j);
    var n := Do(m, FailDeleteCommit(j));
    forall x
      ensures RowOk(n, x) && LooseOk(n, x) && HeldOk(n, x) && NameOk(n, x) && Accounted(n, x) && JobOk(n, x)
              && TodoOk(n, x)
    {
      hide Safe;
      AllAt(m, x);
    }
  }

  lemma RestoreOneIs(m: Disk, j: Id, a: Id)
    requires CanStep(m, RestoreOne(j, a))
    ensures j in m.jobs && m.jobs[j].Restoring? && a in m.aside && m.aside[a].job == j
    ensures Do(m, RestoreOne(j, a))
         == m.(files := Renamed(m.files, Staged(m.aside[a].temp), Blob(m.aside[a].name)), aside := m.aside - {a})
  {
  }

  lemma RestoreOneKeeps(m: Disk, j: Id, a: Id)
    requires CanStep(m, RestoreOne(j, a)) && Safe(m)
    ensures Safe(Do(m, RestoreOne(j, a)))
  {
    hide CanStep, Do;
    RestoreOneIs(m, j, a);
    var n := Do(m, RestoreOne(j, a));
    forall x
      ensures RowOk(n, x) && LooseOk(n, x) && HeldOk(n, x) && NameOk(n, x) && Accounted(n, x) && JobOk(n, x)
              && TodoOk(n, x)
    {
      hide Safe;
      AllAt(m, x);
      At(m, a);
      NameAt(m, m.aside[a].temp);
    }
  }

  lemma CommitDeleteIs(m: Disk, j: Id)
    requires CanStep(m, CommitDelete(j))
    ensures j in m.jobs && m.jobs[j].Staging?
    ensures Do(m, CommitDelete(j))
         == m.(tables := Without(m.tables, m.jobs[j].item), jobs := m.jobs[j := Removing],
               locks := Unlocked(m.locks, j), aside := AsideWithout(m.aside, j), dead := m.dead + TempsOf(m.aside, j),
               torn := m.torn || !HoldsAll(m.tables.attachments, m.aside, j, m.jobs[j].item))
  {
  }

  lemma CommitDeleteKeepsAttachment(m: Disk, j: Id)
    requires CanStep(m, CommitDelete(j)) && Safe(m)
    ensures AttachmentsOk(Do(m, CommitDelete(j)))
  {
    hide CanStep, Do, HoldsAll, NameOk, Accounted, TodoOk;
    CommitDeleteIs(m, j);
    var n := Do(m, CommitDelete(j));
    forall x ensures RowOk(n, x) && LooseOk(n, x) && HeldOk(n, x) {
      hide Safe;
      At(m, x);
      JobAt(m, j);
      if x in m.aside { HolderOf(m, j, m.aside[x].temp); }
    }
  }

  lemma CommitDeleteKeepsName(m: Disk, j: Id)
    requires CanStep(m, CommitDelete(j)) && Safe(m)
    ensures forall x :: NameOk(Do(m, CommitDelete(j)), x)
  {
    hide CanStep, Do;
    CommitDeleteIs(m, j);
    forall x ensures NameOk(Do(m, CommitDelete(j)), x) {
      hide Safe, HoldsAll;
      AllAt(m, x);
      JobAt(m, j);
      HolderOf(m, j, x);
    }
  }

  lemma CommitDeleteKeepsAccounted(m: Disk, j: Id)
    requires CanStep(m, CommitDelete(j)) && Safe(m)
    ensures forall x :: Accounted(Do(m, CommitDelete(j)), x)
  {
    hide CanStep, Do;
    CommitDeleteIs(m, j);
    forall x ensures Accounted(Do(m, CommitDelete(j)), x) {
      hide Safe, NameOk, TodoOk, JobOk;
      NameAt(m, x);
      if x in m.drawn { At(m, m.drawn[x]); }
      HolderOf(m, j, x);
    }
  }

  /** Releasing a request's lock, and its item's row with it, disturbs no other. */
  lemma LockReleased(m: Disk, n: Disk, j: Id, x: Id)
    requires j in m.jobs && m.jobs[j].Staging? && JobOk(m, j) && JobOk(m, x) && (x in m.locks ==> JobOk(m, m.locks[x]))
    requires n.tables.items == m.tables.items - {m.jobs[j].item} && n.drawn == m.drawn
    requires n.locks == Unlocked(m.locks, j) && n.jobs == m.jobs[j := Removing]
    ensures JobOk(n, x)
  {
  }

  lemma CommitDeleteKeepsJob(m: Disk, j: Id)
    requires CanStep(m, CommitDelete(j)) && Safe(m)
    ensures forall x :: JobOk(Do(m, CommitDelete(j)), x)
  {
    hide CanStep, Do;
    CommitDeleteIs(m, j);
    forall x ensures JobOk(Do(m, CommitDelete(j)), x) {
      hide Safe, TempsOf, AsideWithout, Unlocked, HoldsAll, JobOk, TodoOk;
      JobAt(m, x);
      JobAt(m, j);
      if x in m.locks { JobAt(m, m.locks[x]); }
      LockReleased(m, Do(m, CommitDelete(j)), j, x);
    }
  }

  lemma CommitDeleteKeepsTodo(m: Disk, j: Id)
    requires CanStep(m, CommitDelete(j)) && Safe(m)
    ensures forall x :: TodoOk(Do(m, CommitDelete(j)), x)
  {
    hide CanStep, Do;
    CommitDeleteIs(m, j);
    forall x ensures TodoOk(Do(m, CommitDelete(j)), x) {
      hide Safe, TempsOf, HoldsAll;
      JobAt(m, x);
      JobAt(m, j);
    }
  }

  lemma RemoveOneIs(m: Disk, j: Id, temp: Id)
    requires CanStep(m, RemoveOne(j, temp))
    ensures temp in m.dead && m.dead[temp] == j
    ensures Do(m, RemoveOne(j, temp)) == m.(files := m.files - {Staged(temp)}, dead := m.dead - {temp})
  {
  }

  lemma RemoveOneKeeps(m: Disk, j: Id, temp: Id)
    requires CanStep(m, RemoveOne(j, temp)) && Safe(m)
    ensures Safe(Do(m, RemoveOne(j, temp)))
  {
    hide CanStep, Do;
    RemoveOneIs(m, j, temp);
    var n := Do(m, RemoveOne(j, temp));
    forall x
      ensures RowOk(n, x) && LooseOk(n, x) && HeldOk(n, x) && NameOk(n, x) && Accounted(n, x) && JobOk(n, x)
              && TodoOk(n, x)
    {
      hide Safe;
      AllAt(m, x);
      NameAt(m, temp);
    }
  }

  lemma FinishIs(m: Disk, j: Id)
    requires CanStep(m, Finish(j))
    ensures j in m.jobs && !m.jobs[j].Creating? && !m.jobs[j].Staging?
    ensures forall a :: a in m.loose ==> m.loose[a].row.itemId != j
    ensures forall a :: a in m.aside ==> m.aside[a].job != j
    ensures forall d :: d in m.dead ==> m.dead[d] != j
    ensures Do(m, Finish(j)) == m.(jobs := m.jobs - {j}, locks := Unlocked(m.locks, j))
  {
  }

  lemma FinishKeeps(m: Disk, j: Id)
    requires CanStep(m, Finish(j)) && Safe(m)
    ensures Safe(Do(m, Finish(j)))
  {
    hide CanStep, Do;
    FinishIs(m, j);
    var n := Do(m, Finish(j));
    forall x
      ensures RowOk(n, x) && LooseOk(n, x) && HeldOk(n, x) && NameOk(n, x) && Accounted(n, x) && JobOk(n, x)
              && TodoOk(n, x)
    {
      hide Safe;
      AllAt(m, x);
    }
  }

  lemma CrashKeeps(m: Disk)
    requires CanStep(m, Crash) && Safe(m)
    ensures Safe(Do(m, Crash))
  {
    hide RowsFor;
    var n := Do(m, Crash);
    forall x
      ensures RowOk(n, x) && LooseOk(n, x) && HeldOk(n, x) && NameOk(n, x) && Accounted(n, x) && JobOk(n, x)
              && TodoOk(n, x)
    {
      hide Safe;
      AllAt(m, x);
    }
  }

  lemma StepKeepsSafe(m: Disk, step: Step)
    requires CanStep(m, step) && Safe(m)
    ensures Safe(Do(m, step))
  {
    hide CanStep, Do, RowOk, LooseOk, HeldOk, NameOk, Accounted, JobOk, TodoOk;
    match step {
      case Receive(name, bytes) =>
        ReceiveKeepsAttachments(m, name, bytes);
        ReceiveKeepsRest(m, name, bytes);
      case BeginCreate(j, input) =>
        BeginCreateKeepsAttachments(m, j, input);
        BeginCreateKeepsRest(m, j, input);
      case MoveOne(j, source, a, blob, pending, now) =>
        MoveOneKeepsAttachments(m, j, source, a, blob, pending, now);
        MoveOneKeepsRest(m, j, source, a, blob, pending, now);
      case GiveUpCreate(j) => GiveUpCreateKeeps(m, j);
      case UndoOne(j, a) => UndoOneKeeps(m, j, a);
      case CommitCreate(j, now, total) =>
        CommitCreateKeepsAttachment(m, j, now, total);
        CommitCreateKeepsName(m, j, now, total);
        CommitCreateKeepsRest(m, j, now, total);
      case BeginDelete(j, item) =>
        BeginDeleteKeepsAttachment(m, j, item);
        BeginDeleteKeepsName(m, j, item);
        BeginDeleteKeepsJob(m, j, item);
        BeginDeleteKeepsTodo(m, j, item);
      case StageOne(j, a, temp) =>
        StageOneKeepsAttachment(m, j, a, temp);
        StageOneKeepsRest(m, j, a, temp);
      case SkipOne(j, a) => SkipOneKeeps(m, j, a);
      case GiveUpDelete(j) => GiveUpDeleteKeeps(m, j);
      case FailDeleteCommit(j) => FailDeleteCommitKeeps(m, j);
      case RestoreOne(j, a) => RestoreOneKeeps(m, j, a);
      case CommitDelete(j) =>
        CommitDeleteKeepsAttachment(m, j);
        CommitDeleteKeepsName(m, j);
        CommitDeleteKeepsAccounted(m, j);
        CommitDeleteKeepsJob(m, j);
        CommitDeleteKeepsTodo(m, j);
      case RemoveOne(j, temp) => RemoveOneKeeps(m, j, temp);
      case Finish(j) => FinishKeeps(m, j);
      case Crash => CrashKeeps(m);
    }
  }

  // ---------------------------------------------------------------- runs

  ghost predicate ValidSteps(m: Disk, steps: seq<Step>)
    decreases |steps|
  {
    steps == [] || (CanStep(m, steps[0]) && ValidSteps(Do(m, steps[0]), steps[1..]))
  }

  ghost function RunSteps(m: Disk, steps: seq<Step>): Disk
    requires ValidSteps(m, steps)
    decreases |steps|
  {
    if steps == [] then m else RunSteps(Do(m, steps[0]), steps[1..])
  }

  const FRESH_DISK := Disk(Tables(map[], map[], map[]), map[], map[], map[], map[], map[], map[], map[], map[], false)

  lemma FreshDiskSafe()
    ensures Safe(FRESH_DISK)
  {
  }

  lemma {:induction false} StepsKeepSafe(m: Disk, steps: seq<Step>)
    requires Safe(m) && ValidSteps(m, steps)
    ensures Safe(RunSteps(m, steps))
    decreases |steps|
  {
    hide Safe, Do, CanStep;
    if steps != [] {
      StepKeepsSafe(m, steps[0]);
      StepsKeepSafe(Do(m, steps[0]), steps[1..]);
    }
  }

  /** Where a committed attachment's bytes are. */
  ghost function Home(m: Disk, a: Id): Path
    requires a in m.tables.attachments
  {
    if a in m.aside then Staged(m.aside[a].temp) else Blob(m.tables.attachments[a].storageName)
  }

  /** Only commits touch the tables and what is committed. */
  lemma OnlyCommitsWrite(m: Disk, step: Step)
    requires CanStep(m, step)
    ensures !step.CommitCreate? ==> Do(m, step).contents == m.contents
    ensures step.CommitDelete? ==>
              m.jobs[step.job].Staging? && Do(m, step).tables == Without(m.tables, m.jobs[step.job].item)
    ensures !step.CommitCreate? && !step.CommitDelete? ==> Do(m, step).tables == m.tables
  {
    hide RowFor, RowsFor, RowsOf, BytesOf, LooseWithout, TempsOf, AsideWithout, HoldsAll, NothingInFlight, Without,
         Unlocked, Renamed, NewItem;
  }

  /** A commit's bytes are never rewritten, and neither is its row while it exists. */
  lemma StepKeepsContents(m: Disk, step: Step, a: Id)
    requires CanStep(m, step) && Safe(m)
    ensures a in m.contents ==> a in Do(m, step).contents && Do(m, step).contents[a] == m.contents[a]
    ensures a in m.tables.attachments && a in Do(m, step).tables.attachments ==>
              Do(m, step).tables.attachments[a] == m.tables.attachments[a]
    ensures a in m.contents && a !in m.tables.attachments ==> a !in Do(m, step).tables.attachments
  {
    hide CanStep, Do, Safe, HeldOk, NameOk, Accounted, NewItem;
    At(m, a);
    OnlyCommitsWrite(m, step);
    if step.CommitCreate? { CommitCreateIs(m, step.job, step.now, step.total); }
  }

  lemma {:induction false} RunKeepsContents(m: Disk, steps: seq<Step>, a: Id)
    requires Safe(m) && ValidSteps(m, steps) && a in m.contents
    ensures var n := RunSteps(m, steps); a in n.contents && n.contents[a] == m.contents[a]
    ensures var n := RunSteps(m, steps);
            a in n.tables.attachments ==>
              a in m.tables.attachments && n.tables.attachments[a] == m.tables.attachments[a]
    decreases |steps|
  {
    hide Safe, Do, CanStep;
    if steps != [] {
      StepKeepsContents(m, steps[0], a);
      StepKeepsSafe(m, steps[0]);
      RunKeepsContents(Do(m, steps[0]), steps[1..], a);
    }
  }

  /** No crash point loses committed bytes: after any steps from any point on, crashes and failures included,
      an attachment that is still committed has its row unchanged, and the bytes committed for it are in one
      file, at its blob path or under a delete-* name. */
  lemma NoCommittedBytesLost(m: Disk, steps: seq<Step>, a: Id)
    requires Safe(m) && ValidSteps(m, steps) && a in m.tables.attachments
    ensures a in m.contents
    ensures var n := RunSteps(m, steps);
            a in n.tables.attachments ==>
              && n.tables.attachments[a] == m.tables.attachments[a]
              && Home(n, a) in n.files && n.files[Home(n, a)] == m.contents[a]
              && (Home(n, a) == Blob(m.tables.attachments[a].storageName) || Home(n, a).Staged?)
  {
    At(m, a);
    StepsKeepSafe(m, steps);
    RunKeepsContents(m, steps, a);
    At(RunSteps(m, steps), a);
  }

  /** A file that an undo or a removal erases is no committed attachment's. */
  lemma ErasedIsNobodys(m: Disk, step: Step, p: Path, a: Id)
    requires CanStep(m, step) && Safe(m) && (step.UndoOne? || step.RemoveOne?)
    requires p in m.files && p !in Do(m, step).files && a in m.tables.attachments
    ensures Home(m, a) != p
  {
    hide Safe, RowsFor, RowsOf, BytesOf, LooseWithout, TempsOf, AsideWithout, HoldsAll, NothingInFlight, Without,
         Unlocked;
    At(m, a);
    if step.UndoOne? { At(m, step.rowId); } else { NameAt(m, step.temp); }
  }

  lemma RenamesCarry(m: Disk, step: Step, p: Path)
    requires CanStep(m, step) && p in m.files && p !in Do(m, step).files && !step.UndoOne? && !step.RemoveOne?
    ensures exists q :: q in Do(m, step).files && Do(m, step).files[q] == m.files[p]
  {
    hide RowsFor, RowsOf, BytesOf, LooseWithout, TempsOf, AsideWithout, HoldsAll, NothingInFlight, Without, Unlocked;
    match step {
      case MoveOne(_, _, _, blob, _, _) => assert Do(m, step).files[Blob(blob)] == m.files[p];
      case StageOne(_, _, temp) => assert Do(m, step).files[Staged(temp)] == m.files[p];
      case RestoreOne(_, b) => assert Do(m, step).files[Blob(m.aside[b].name)] == m.files[p];
      case _ =>
    }
  }

  /** A file disappears only by a rename that carries its bytes along, or when no committed row lives in it. */
  lemma ErasedOnlyUnnamed(m: Disk, step: Step, p: Path)
    requires CanStep(m, step) && Safe(m)
    requires p in m.files && p !in Do(m, step).files
    ensures step.UndoOne? || step.RemoveOne? || exists q :: q in Do(m, step).files && Do(m, step).files[q] == m.files[p]
    ensures step.UndoOne? || step.RemoveOne? ==> forall a :: a in m.tables.attachments ==> Home(m, a) != p
  {
    hide Safe, CanStep, Do, Home;
    if step.UndoOne? || step.RemoveOne? {
      forall a | a in m.tables.attachments ensures Home(m, a) != p { ErasedIsNobodys(m, step, p, a); }
    } else {
      RenamesCarry(m, step, p);
    }
  }

  // ---------------------------------------------------------------- when nothing is in flight

  /** The files in blobs are exactly the storage names in the rows, and nothing is left under a delete-* name. */
  ghost predicate Agrees(m: Disk) {
    && (forall n :: Blob(n) in m.files <==> Named(m.tables.attachments, n))
    && (forall n :: Staged(n) !in m.files)
  }

  lemma OwnedAgrees(m: Disk)
    requires Safe(m) && NothingInFlight(m) && forall x :: Owned(m, x)
    ensures Agrees(m)
    ensures forall a :: a in m.tables.attachments ==>
              BytesSafe(m, a, m.tables.attachments[a].storageName) && a !in m.aside
  {
    hide Safe;
    forall n ensures Blob(n) in m.files <==> Named(m.tables.attachments, n) {
      assert Owned(m, n);
      if Named(m.tables.attachments, n) {
        var a :| a in m.tables.attachments && m.tables.attachments[a].storageName == n;
        At(m, a);
      }
    }
    forall n ensures Staged(n) !in m.files { assert Owned(m, n); }
    forall a | a in m.tables.attachments ensures BytesSafe(m, a, m.tables.attachments[a].storageName) { At(m, a); }
  }

  /** Whenever nothing is in flight and nothing was ever torn, tables and blobs agree. */
  lemma QuietAgrees(m: Disk)
    requires Safe(m) && !m.torn && m.jobs == map[]
    ensures Agrees(m)
    ensures forall a :: a in m.tables.attachments ==>
              BytesSafe(m, a, m.tables.attachments[a].storageName) && a !in m.aside
  {
    hide Safe, Agrees;
    forall a ensures a !in m.loose && a !in m.aside { At(m, a); }
    forall d ensures d !in m.dead { NameAt(m, d); }
    assert m.loose == map[] && m.aside == map[] && m.dead == map[];
    forall x ensures Owned(m, x) { NameAt(m, x); }
    OwnedAgrees(m);
  }

  /** A crash leaves tables and blobs in agreement exactly when no file is in flight; the code has no recovery. */
  lemma CrashAgreesIff(m: Disk)
    requires Safe(m) && !m.torn
    ensures Agrees(Do(m, Crash)) <==> NothingInFlight(m)
  {
    hide Safe;
    var n := Do(m, Crash);
    StepKeepsSafe(m, Crash);
    if NothingInFlight(m) {
      forall x ensures Owned(n, x) { NameAt(n, x); }
      OwnedAgrees(n);
    } else if m.loose != map[] {
      var a :| a in m.loose;
      At(m, a);
      var name := m.loose[a].row.storageName;
      if Named(m.tables.attachments, name) {
        var b :| b in m.tables.attachments && m.tables.attachments[b].storageName == name;
        At(m, b);
      }
    } else if m.aside != map[] {
      var a :| a in m.aside;
      At(m, a);
    } else {
      var d :| d in m.dead;
      NameAt(m, d);
    }
  }

  // ---------------------------------------------------------------- the race that leaves an orphan

  /** Without crashes, a staging loop finds a file missing only while another Delete of the same item,
      whose commit failed and which has thereby lost its lock, is still restoring it. */
  lemma MissingMeansRace(m: Disk, j: Id, a: Id)
    requires Safe(m) && !m.torn && CanStep(m, SkipOne(j, a))
    ensures a in m.aside && m.aside[a].job != j
    ensures m.aside[a].job in m.jobs && m.jobs[m.aside[a].job].Restoring?
    ensures !HoldsLock(m, m.aside[a].job, m.jobs[m.aside[a].job].item)
  {
    At(m, a);
    JobAt(m, j);
    JobAt(m, m.aside[a].job);
  }

  /** A Delete's commit leaves every file accounted for exactly when that Delete itself holds all files of the item. */
  lemma CommitOwnedIff(m: Disk, j: Id)
    requires Safe(m) && !m.torn && CanStep(m, CommitDelete(j))
    ensures (forall x :: Owned(Do(m, CommitDelete(j)), x)) <==>
              HoldsAll(m.tables.attachments, m.aside, j, m.jobs[j].item)
  {
    hide Safe;
    var n := Do(m, CommitDelete(j));
    StepKeepsSafe(m, CommitDelete(j));
    if HoldsAll(m.tables.attachments, m.aside, j, m.jobs[j].item) {
      forall x ensures Owned(n, x) { NameAt(n, x); }
    } else {
      var a :| a in m.tables.attachments && m.tables.attachments[a].itemId == m.jobs[j].item
               && !(a in m.aside && m.aside[a].job == j);
      At(m, a);
      if a in m.aside {
        var temp := m.aside[a].temp;
        HolderOf(m, j, temp);
        assert !Owned(n, temp);
      } else {
        assert !Owned(n, m.tables.attachments[a].storageName);
      }
    }
  }
}
