/** The store as an object: two tables and a directory kept in step by moving
    files first and undoing the moves when the transaction does not commit. Each
    method is proved to do exactly what DropState's function says. */
module DropStore {
  import opened Prelude
  import opened DropState
  import opened DropRuns
  import opened DropCleanup
  import opened DropHistory
  import opened DropListing
  import opened DropPaging

  ghost function BlobsOf(names: seq<Id>): set<Path> {
    set i | 0 <= i < |names| :: Blob(names[i])
  }

  class Store {
    var tables: Tables
    var files: Files
    var clock: Instant
    const quotaBytes: int64
    ghost var minted: set<Id>
    ghost var contents: map<Id, Bytes>

    ghost function View(): State
      reads this
    {
      State(tables, files, clock, quotaBytes as int, minted, contents)
    }

    /** Open on an empty database and data directory. */
    constructor (quota: int64, now: Instant)
      requires 0 < quota
      ensures View() == Empty(quota as int, now) && Inv(View())
    {
      tables, files, clock, quotaBytes := Tables(map[], map[], map[]), map[], now, quota;
      minted, contents := {}, map[];
      new;
      EmptyInv(quota as int, now);
    }

    /** The SUM query. It never leaves int64 because active items fit the quota. */
    method UsedBytes() returns (used: int64)
      requires forall id :: id in tables.items ==> tables.items[id].totalSize >= 0
      requires Used(View()) <= quotaBytes as int
      ensures used as int == Used(View())
    {
      ghost var active := ActiveSizes(tables.items, clock);
      used := 0;
      var rest := tables.items.Keys;
      ghost var done: map<Id, int> := map[];
      while rest != {}
        invariant rest <= tables.items.Keys
        invariant done == map id | id in active && id !in rest :: active[id]
        invariant used as int == Sum(done)
        decreases rest
      {
        hide Sum;
        var id :| id in rest;
        rest := rest - {id};
        if Active(tables.items[id], clock) {
          ghost var more := done[id := active[id]];
          SumInsert(done, id, active[id]);
          SumSubmap(done, active);
          SumSubmap(more, active);
          used := used + tables.items[id].totalSize as int64;
          done := more;
        }
        assert done == map j | j in active && j !in rest :: active[j];
      }
      assert done == active;
    }

    /** Get: an item is found exactly until it expires, with exactly its own attachment rows. */
    method Get(id: Id) returns (r: Result<Item>)
      ensures r == GetSpec(tables, clock, id)
      ensures r.Ok? <==> id in tables.items && clock < tables.items[id].expiresAt
      ensures r.Ok? ==> r.value.id == id && r.value.row == tables.items[id]
      ensures r.Ok? ==> forall x :: x in r.value.attachments <==>
                x.id in tables.attachments && tables.attachments[x.id] == x.row && x.row.itemId == id
      ensures r.Ok? ==> forall i, j :: 0 <= i < j < |r.value.attachments| ==>
                var (x, y) := (r.value.attachments[i], r.value.attachments[j]);
                x.row.createdAt < y.row.createdAt || (x.row.createdAt == y.row.createdAt && x.id < y.id)
    {
      hide AttachmentsOf;
      forall i, j | 0 <= i < j < |AttachmentsOf(tables, id)|
        ensures var (x, y) := (AttachmentsOf(tables, id)[i], AttachmentsOf(tables, id)[j]);
                x.row.createdAt < y.row.createdAt || (x.row.createdAt == y.row.createdAt && x.id < y.id)
      {
        AttachmentsAscend(tables, id, i, j);
      }
      forall x ensures x in AttachmentsOf(tables, id) <==>
                x.id in tables.attachments && tables.attachments[x.id] == x.row && x.row.itemId == id
      {
        AttachmentsOfAre(tables, id, x);
      }
      if id !in tables.items || !Active(tables.items[id], clock) {
        return Err(NotFound);
      }
      r := Ok(Item(id, tables.items[id], AttachmentsOf(tables, id)));
    }

    // ------------------------------------------------------------ List

    /** The first loop of loadAttachments: positions by id, and empty lists. */
    method IndexItems(items: array<Item>) returns (index: map<Id, nat>)
      requires forall i, j :: 0 <= i < j < items.Length ==> items[i].id != items[j].id
      modifies items
      ensures forall i :: 0 <= i < items.Length ==> items[i] == old(items[i]).(attachments := [])
      ensures forall i :: 0 <= i < items.Length ==> items[i].id in index && index[items[i].id] == i
      ensures forall id :: id in index ==> index[id] < items.Length && items[index[id]].id == id
    {
      index := map[];
      var p := 0;
      while p < items.Length
        invariant 0 <= p <= items.Length
        invariant forall i :: 0 <= i < p ==> items[i] == old(items[i]).(attachments := [])
        invariant forall i :: p <= i < items.Length ==> items[i] == old(items[i])
        invariant forall i :: 0 <= i < p ==> items[i].id in index && index[items[i].id] == i
        invariant forall id :: id in index ==> index[id] < p && items[index[id]].id == id
      {
        index := index[items[p].id := p];
        items[p] := items[p].(attachments := []);
        p := p + 1;
      }
    }

    /** Fills every item's attachment list from one sorted query. */
    method LoadAttachments(items: array<Item>)
      requires forall i, j :: 0 <= i < j < items.Length ==> items[i].id != items[j].id
      modifies items
      ensures forall i :: 0 <= i < items.Length ==>
                items[i] == old(items[i]).(attachments := AttachmentsOf(tables, old(items[i].id)))
    {
      hide AttachmentsOf, Ascending, StampsOfAll;
      var index := IndexItems(items);
      ghost var empty := items[..];
      var rows := Ascending(StampsOfAll(tables, index.Keys));
      RowsFromTable(tables, index.Keys);
      var r := 0;
      while r < |rows|
        invariant 0 <= r <= |rows| && FromTable(tables, rows[..r])
        invariant forall i :: 0 <= i < items.Length ==>
                    items[i] == empty[i].(attachments := Appended(tables, rows[..r], empty[i].id))
      {
        var row := tables.attachments[rows[r].id];
        AppendedStep(tables, rows, r);
        if row.itemId in index {
          var position := index[row.itemId];
          var more := items[position].attachments + [Attachment(rows[r].id, row)];
          items[position] := items[position].(attachments := more);
        }
        r := r + 1;
      }
      assert rows[..r] == rows;
      forall i | 0 <= i < items.Length
        ensures Appended(tables, rows, empty[i].id) == AttachmentsOf(tables, empty[i].id)
      {
        ScanServesEachItem(tables, index.Keys, empty[i].id);
      }
    }

    /** One page of active items, newest first, each with its attachments. */
    method List(limit: int, before: Option<Stamp>) returns (r: seq<Item>)
      ensures var page := Page(ActiveStamps(tables, clock), before, ListLimit(limit));
              && |r| == |page|
              && forall i :: 0 <= i < |r| ==>
                   page[i].id in tables.items
                   && r[i] == Item(page[i].id, tables.items[page[i].id], AttachmentsOf(tables, page[i].id))
      ensures |r| <= if 1 <= limit <= 100 then limit else 50
      ensures forall i :: 0 <= i < |r| ==>
                && r[i].id in tables.items && r[i].row == tables.items[r[i].id] && clock < r[i].row.expiresAt
                && (before.Some? ==> Earlier(r[i].row.createdAt, r[i].id, before.value.at, before.value.id))
      ensures forall i, j :: 0 <= i < j < |r| ==>
                r[j].row.createdAt < r[i].row.createdAt
                || (r[j].row.createdAt == r[i].row.createdAt && r[j].id < r[i].id)
      ensures forall id | id in tables.items && clock < tables.items[id].expiresAt
                          && (before.Some? ==>
                                Earlier(tables.items[id].createdAt, id, before.value.at, before.value.id)) ::
                  || (exists i :: 0 <= i < |r| && r[i].id == id)
                  || (|r| == (if 1 <= limit <= 100 then limit else 50)
                      && Earlier(tables.items[id].createdAt, id, r[|r| - 1].row.createdAt, r[|r| - 1].id))
    {
      hide Page, ActiveStamps, AttachmentsOf;
      var page := Page(ActiveStamps(tables, clock), before, ListLimit(limit));
      PageMeans(tables, clock, before, ListLimit(limit));
      var items := new Item[|page|](i requires 0 <= i < |page| && page[i].id in tables.items reads this =>
        Item(page[i].id, tables.items[page[i].id], []));
      LoadAttachments(items);
      r := items[..];
    }

    /** Stats: what the quota check of Create sees, and how many items and attachments are active. */
    method Stats() returns (used: int64, itemCount: nat, attachmentCount: nat)
      requires Inv(View())
      ensures used as int == Used(View()) && used <= quotaBytes
      ensures used as int == Sum(TotalSizes(tables.items, Unexpired(tables.items, clock)))
      ensures itemCount == |Unexpired(tables.items, clock)|
      ensures attachmentCount == |set a | a in tables.attachments && tables.attachments[a].itemId in tables.items
                                          && clock < tables.items[tables.attachments[a].itemId].expiresAt|
    {
      hide Inv, Sum, ActiveStamps, ActiveSizes;
      StampsCount(tables, clock);
      SizesFit(View());
      ActiveSizesAre(tables.items, clock);
      used := UsedBytes();
      itemCount := |ActiveStamps(tables, clock)|;
      attachmentCount := |set a | a in tables.attachments && tables.attachments[a].itemId in tables.items
                                  && clock < tables.items[tables.attachments[a].itemId].expiresAt|;
    }

    // ------------------------------------------------------------ Create

    /** The rename loop: moves uploads into blobs until the first failure. */
    method MoveUploads(attachments: seq<Pending>, blobs: seq<Id>, fault: Fault) returns (moved: seq<Id>)
      requires AllStaged(attachments) && |blobs| == |attachments| && Distinct(blobs)
      requires forall i :: 0 <= i < |blobs| ==> Blob(blobs[i]) !in files
      modifies this`files
      ensures |moved| == Movable(old(files), attachments, fault, 0) && moved == blobs[..|moved|]
      ensures forall i :: 0 <= i < |moved| ==> TempOf(attachments[i]) in old(files)
      ensures files == MovedFiles(old(files), attachments, blobs, |moved|)
    {
      hide MovedFiles, Temps, Distinct;
      ghost var before := files;
      moved := [];
      MoveNothing(before, attachments, blobs);
      while |moved| < |attachments|
        invariant |moved| <= |attachments| && moved == blobs[..|moved|]
        invariant Movable(before, attachments, fault, 0) == Movable(before, attachments, fault, |moved|)
        invariant forall i :: 0 <= i < |moved| ==> TempOf(attachments[i]) in before
        invariant files == MovedFiles(before, attachments, blobs, |moved|)
      {
        var i := |moved|;
        var source := TempOf(attachments[i]);
        MoveStep(before, attachments, blobs, i);
        if fault == FailRename(i) || source !in files {
          return;
        }
        files := (files - {source})[Blob(blobs[i]) := files[source]];
        moved := moved + [blobs[i]];
      }
    }

    /** The cleanup closure of Create. */
    method RemoveMoved(moved: seq<Id>)
      modifies this`files
      ensures files == old(files) - BlobsOf(moved)
    {
      var i := 0;
      while i < |moved|
        invariant 0 <= i <= |moved|
        invariant files == old(files) - BlobsOf(moved[..i])
      {
        files := files - {Blob(moved[i])};
        i := i + 1;
        assert BlobsOf(moved[..i]) == BlobsOf(moved[..i - 1]) + {Blob(moved[i - 1])};
      }
      assert moved[..i] == moved;
    }

    /** The INSERT INTO attachments loop, inside the transaction tx. */
    method InsertAttachments(tx: Tables, attachments: seq<Pending>, draw: Draw, now: Instant, fault: Fault)
      returns (ok: bool, out: Tables)
      requires |draw.attachments| == |draw.blobs| == |attachments|
      ensures ok == !(fault.FailInsertAttachment? && fault.k < |attachments|)
      ensures ok ==> out == tx.(attachments := tx.attachments + NewRows(attachments, draw, now, |attachments|))
    {
      out := tx;
      var i := 0;
      while i < |attachments|
        invariant 0 <= i <= |attachments|
        invariant fault.FailInsertAttachment? ==> i <= fault.k
        invariant out == tx.(attachments := tx.attachments + NewRows(attachments, draw, now, i))
      {
        if fault == FailInsertAttachment(i) {
          return false, out;
        }
        var row := RowFor(attachments[i], draw.item, draw.blobs[i], now);
        out := out.(attachments := out.attachments[draw.attachments[i] := row]);
        i := i + 1;
      }
      ok := true;
    }

    /** The admission loop; total never leaves int64. */
    method Total(input: CreateInput) returns (r: Result<int64>)
      requires |input.text| <= MAX_INT64 && 0 < quotaBytes
      ensures var a := Admit(quotaBytes as int, |input.text|, input.attachments);
              if r.Ok? then a == Ok(r.value as int) && r.value >= 0 else a == Err(r.error)
    {
      var total := |input.text| as int64;
      var i := 0;
      while i < |input.attachments|
        invariant 0 <= i <= |input.attachments| && total >= 0
        invariant Admit(quotaBytes as int, |input.text|, input.attachments)
               == Admit(quotaBytes as int, total as int, input.attachments[i..])
      {
        var p := input.attachments[i];
        assert input.attachments[i..][1..] == input.attachments[i + 1..];
        if BadPending(p) {
          return Err(InvalidInput);
        }
        if p.size > quotaBytes - total {
          return Err(QuotaExceeded);
        }
        total := total + p.size;
        i := i + 1;
      }
      r := Ok(total);
    }

    /** Create's file moves, inserts and commit, with the undo on every failing path. */
    method StoreItem(input: CreateInput, draw: Draw, fault: Fault, total: int64) returns (r: Result<Item>)
      requires AllStaged(input.attachments)
      requires |draw.attachments| == |draw.blobs| == |input.attachments|
      requires Distinct(draw.attachments) && Distinct(draw.blobs)
      requires forall i :: 0 <= i < |draw.blobs| ==> Blob(draw.blobs[i]) !in files
      modifies this`files, this`tables, this`contents
      ensures (View(), r) == StoreSpec(old(View()), input, draw, fault, total as int)
      ensures r.Ok? ==>
                && r.value.id == draw.item && draw.item in tables.items && r.value.row == tables.items[draw.item]
                && var row := tables.items[draw.item];
                   && row.text == input.text && row.creator == input.creator && row.actor == input.actor
                   && row.createdAt == clock && row.expiresAt == clock + input.ttl && row.totalSize == total as int
    {
      hide Placed, Movable, BlobContents, CreatedItem, NewItem, Distinct;
      ghost var start := tables;
      ghost var before := files;
      var tx := tables;
      var moved := MoveUploads(input.attachments, draw.blobs, fault);
      if |moved| < |input.attachments| {
        UndoMoves(before, input.attachments, draw.blobs, |moved|);
        RemoveMoved(moved);
        return Err(Internal);
      }
      MovableAll(before, input.attachments, fault, 0);
      UndoMoves(before, input.attachments, draw.blobs, |moved|);
      assert input.attachments[..|moved|] == input.attachments;
      if fault.FailInsertItem? {
        RemoveMoved(moved);
        return Err(Internal);
      }
      tx := tx.(items := tx.items[draw.item := NewItem(input, clock, total as int)]);
      var inserted, withRows := InsertAttachments(tx, input.attachments, draw, clock, fault);
      if !inserted {
        RemoveMoved(moved);
        return Err(Internal);
      }
      tx := withRows;
      if input.key.Key? {
        if fault.FailInsertKey? {
          RemoveMoved(moved);
          return Err(Internal);
        }
        tx := tx.(keys := tx.keys[input.key.hash := draw.item]);
      }
      if fault.FailCommit? {
        RemoveMoved(moved);
        return Err(Internal);
      }
      tables := tx;
      contents := contents + BlobContents(Placed(before, input.attachments, draw.blobs, |input.attachments|));
      Inserts(start, input, draw, clock, total as int);
      r := Ok(CreatedItem(input, draw, clock, total as int));
    }

    method Create(input: CreateInput, now: Instant, draw: Draw, fault: Fault) returns (r: Result<Item>)
      requires Inv(View()) && clock <= now && draw.Fresh(|input.attachments|, minted)
      requires |input.text| <= MAX_INT64
      modifies this
      ensures (View(), r) == CreateSpec(old(View()), input, now, draw, fault)
      ensures SizesMatch(old(files), input.attachments) ==> Inv(View())
      ensures r.Ok? && old(!Replays(View(), input)) ==>
                && r.value.id == draw.item && draw.item in tables.items && r.value.row == tables.items[draw.item]
                && var row := tables.items[draw.item];
                   && row.text == input.text && row.creator == input.creator && row.actor == input.actor
                   && row.createdAt == now && row.expiresAt == now + input.ttl
                   && row.totalSize == |input.text| + Sizes(input.attachments)
    {
      hide Sum, StoreSpec, Replays, Sizes, Inv, SizesMatch, BadInput, Admit, GetSpec, Active, ActiveSizes, NewItem;
      Makes(View(), input, now, draw, fault);
      TimePasses(View(), now, draw.Ids());
      SizesFit(View().(clock := now, minted := minted + draw.Ids()));
      clock := now;
      minted := minted + draw.Ids();
      if BadInput(input) {
        return Err(InvalidInput);
      }
      var admitted := Total(input);
      if admitted.Err? {
        return Err(admitted.error);
      }
      var total := admitted.value;
      if fault.FailBegin? {
        return Err(Internal);
      }
      if input.key.Key? {
        if fault.FailLookup? {
          return Err(Internal);
        }
        if input.key.hash in tables.keys {
          if fault.FailRead? {
            return Err(Internal);
          }
          r := Get(tables.keys[input.key.hash]);
          return;
        }
      }
      if fault.FailUsage? {
        return Err(Internal);
      }
      var used := UsedBytes();
      if total > quotaBytes || used > quotaBytes - total {
        return Err(QuotaExceeded);
      }
      AdmittedAreStaged(quotaBytes as int, |input.text|, input.attachments);
      r := StoreItem(input, draw, fault, total);
    }

    // ------------------------------------------------------------ Delete

    /** Moves the named blobs aside one by one; a blob that is already missing is skipped. */
    method StageBlobs(names: seq<Id>, temps: seq<Id>, fault: DeleteFault) returns (ok: bool, staged: seq<StagedFile>)
      requires |temps| == |names| && Distinct(names) && Distinct(temps)
      requires forall i :: 0 <= i < |temps| ==> Staged(temps[i]) !in files
      modifies this`files
      ensures ok == !(fault.DeleteFailStage? && fault.k < |names|)
      ensures Stageable(old(files), staged) && files == StagedFiles(old(files), staged)
      ensures ok ==> staged == Present(old(files), names, temps, |names|)
    {
      hide *;
      ghost var before := files;
      staged := [];
      var i := 0;
      NoneStaged(before, names, temps);
      while i < |names|
        invariant 0 <= i <= |names|
        invariant fault.DeleteFailStage? ==> i <= fault.k
        invariant staged == Present(before, names, temps, i)
        invariant Stageable(before, staged) && files == StagedFiles(before, staged)
      {
        if fault == DeleteFailStage(i) {
          return false, staged;
        }
        var original, temporary := Blob(names[i]), Staged(temps[i]);
        NextStaged(before, names, temps, i);
        if original in files {
          files := (files - {original})[temporary := files[original]];
          staged := staged + [StagedFile(names[i], temps[i])];
        }
        i := i + 1;
      }
      ok := true;
    }

    /** The restore closure of Delete: renames back in reverse order. */
    method Restore(ghost before: Files, staged: seq<StagedFile>)
      requires Stageable(before, staged) && files == StagedFiles(before, staged)
      modifies this`files
      ensures files == before
    {
      var index := |staged|;
      assert staged[..index] == staged;
      while index > 0
        invariant 0 <= index <= |staged|
        invariant files == StagedFiles(before, staged[..index])
      {
        index := index - 1;
        ghost var shorter := staged[..index];
        assert staged[..index + 1][..index] == shorter;
        StageablePrefix(before, staged, index + 1);
        UnstageLast(before, staged[..index + 1]);
        var original, temporary := Blob(staged[index].original), Staged(staged[index].temporary);
        files := (files - {temporary})[original := files[temporary]];
      }
    }

    /** After the commit the staged files are removed for good. */
    method RemoveStaged(ghost before: Files, staged: seq<StagedFile>)
      requires Stageable(before, staged) && files == StagedFiles(before, staged)
      modifies this`files
      ensures files == before - BlobPaths(Originals(staged))
    {
      var i := 0;
      while i < |staged|
        invariant 0 <= i <= |staged|
        invariant files == StagedFiles(before, staged) - TemporariesOf(staged[..i])
      {
        files := files - {Staged(staged[i].temporary)};
        i := i + 1;
        assert staged[..i] == staged[..i - 1] + [staged[i - 1]];
      }
      assert staged[..i] == staged;
      StagedThenRemoved(before, staged);
    }

    /** names is the order in which the SELECT delivers the item's storage names, temps the random
        names drawn for the staged files. A failed Delete leaves tables and files exactly as they were. */
    method Delete(id: Id, now: Instant, names: seq<Id>, temps: seq<Id>, fault: DeleteFault) returns (r: Result<()>)
      requires Known(View()) && clock <= now
      requires Distinct(names) && Elements(names) == StorageNames(tables, id)
      requires |temps| == |names| && FreshSeq(temps, minted)
      modifies this
      ensures (View(), r) == DeleteSpec(old(View()), id, now, Elements(temps), fault)
      ensures old(Inv(View())) ==> Inv(View())
      ensures r.Err? ==> tables == old(tables) && files == old(files)
      ensures r.Ok? ==> id in old(tables.items) && tables.items == old(tables.items) - {id}
      ensures r.Ok? ==> forall a ::
                && (a in tables.attachments <==>
                      a in old(tables.attachments) && old(tables.attachments)[a].itemId != id)
                && (a in tables.attachments ==> tables.attachments[a] == old(tables.attachments)[a])
      ensures r.Ok? ==> forall k ::
                && (k in tables.keys <==> k in old(tables.keys) && old(tables.keys)[k] != id)
                && (k in tables.keys ==> tables.keys[k] == old(tables.keys)[k])
    {
      hide Sum, Known, Inv, Without, Distinct, FreshSeq;
      ghost var start := View();
      assert Inv(start) ==> Inv(DeleteSpec(start, id, now, Elements(temps), fault).0) by {
        if Inv(start) { DeleteKeepsInv(start, id, now, Elements(temps), fault); }
      }
      DistinctCount(names);
      TempsUnused(start, temps);
      clock := now;
      minted := minted + Elements(temps);
      if fault.DeleteFailEarly? {
        return Err(Internal);
      }
      if id !in tables.items {
        return Err(NotFound);
      }
      var tx := Without(tables, id);
      var ok, staged := StageBlobs(names, temps, fault);
      if !ok || fault.DeleteFailCommit? {
        Restore(start.files, staged);
        return Err(Internal);
      }
      tables := tx;
      RemoveStaged(start.files, staged);
      SameRemoval(start.files, names, temps);
      WithoutIs(start.tables, id);
      r := Ok(());
    }

    /** SELECT a.storage_name: the item's names, in whatever order they come. */
    method SelectNames(id: Id) returns (names: seq<Id>)
      ensures Distinct(names) && Elements(names) == StorageNames(tables, id)
    {
      names := [];
      var rest := StorageNames(tables, id);
      while rest != {}
        invariant Distinct(names) && Elements(names) !! rest
        invariant Elements(names) + rest == StorageNames(tables, id)
        decreases rest
      {
        var n :| n in rest;
        assert Elements(names + [n]) == Elements(names) + {n};
        names, rest := names + [n], rest - {n};
      }
    }

    // ------------------------------------------------------------ CleanupExpired

    /** One pass. ids is the answer of the snapshot query, temps[i] the random names the i-th Delete
        draws. The pass removes the oldest expired items up to its first failing Delete, and nothing else. */
    method CleanupExpired(limit: int, now: Instant, ids: seq<Id>, temps: seq<seq<Id>>, faults: seq<DeleteFault>)
      returns (deleted: nat, r: Result<()>)
      requires Inv(View()) && clock <= now
      requires OldestExpired(tables.items, now, PassLimit(limit), ids)
      requires |temps| == |faults| == |ids| && FreshSupply(temps, minted)
      requires forall i :: 0 <= i < |ids| ==> |temps[i]| == |StorageNames(tables, ids[i])|
      modifies this
      ensures Inv(View()) && clock == now && deleted <= |ids| && r.Ok? == (deleted == |ids|)
      ensures tables == WithoutAll(old(tables), ids[..deleted])
      ensures files == old(files) - BlobPaths(AllNames(old(tables), ids[..deleted]))
      ensures r.Err? ==> !faults[deleted].DeleteOk?
      ensures forall i :: 0 <= i < deleted ==> ids[i] in old(tables.items) && old(tables.items[ids[i]].expiresAt) <= now
      ensures tables.items == old(tables.items) - Elements(ids[..deleted])
      ensures r.Ok? ==>
                || deleted == (if limit < 1 then 100 else limit)
                || forall id :: id in tables.items ==> now < tables.items[id].expiresAt
    {
      hide Sum, Inv, Known, Without, WithoutAll, AllNames, OldestExpired, FreshSupply, FreshSeq, DeleteSpec, BlobPaths;
      hide StorageNames;
      ghost var start := View();
      TickKeepsInv(start, now);
      clock := now;
      deleted := 0;
      BeforeCleanup(start, now, PassLimit(limit), ids);
      while deleted < |ids|
        invariant deleted <= |ids| && Inv(View()) && clock == now
        invariant tables == WithoutAll(start.tables, ids[..deleted])
        invariant files == start.files - BlobPaths(AllNames(start.tables, ids[..deleted]))
        invariant FreshSupply(temps[deleted..], minted)
      {
        WithoutOthers(start.tables, ids, deleted);
        InvKnows(View());
        var names := SelectNames(ids[deleted]);
        DistinctCount(names);
        FreshSupplyStep(temps[deleted..], minted);
        AllNamesStep(start.tables, ids, deleted, start.files);
        assert temps[deleted..][0] == temps[deleted] && temps[deleted..][1..] == temps[deleted + 1..];
        DeleteCases(View(), ids[deleted], now, Elements(temps[deleted]), faults[deleted]);
        var outcome := Delete(ids[deleted], now, names, temps[deleted], faults[deleted]);
        if outcome.Err? && outcome.error != NotFound {
          PassReaches(start.tables, now, PassLimit(limit), ids, deleted);
          return deleted, Err(Internal);
        }
        deleted := deleted + 1;
      }
      assert ids[..deleted] == ids;
      PassReaches(start.tables, now, PassLimit(limit), ids, deleted);
      r := Ok(());
    }

    // ------------------------------------------------------------ UpdateExpiry

    method UpdateExpiry(id: Id, ttl: int, now: Instant, fails: bool) returns (r: Result<Item>)
      requires clock <= now
      modifies this`tables, this`clock
      ensures (View(), r) == UpdateExpirySpec(old(View()), id, ttl, now, fails)
      ensures old(Inv(View())) ==> Inv(View())
      ensures r.Ok? <==> 0 < ttl && !fails && id in old(tables.items) && now < old(tables.items[id].expiresAt)
      ensures r.Err? ==> tables == old(tables)
      ensures r.Err? ==> r.error == if ttl <= 0 then InvalidInput else if fails then Internal else NotFound
      ensures r.Ok? ==> tables.attachments == old(tables.attachments) && tables.keys == old(tables.keys)
      ensures r.Ok? ==>
                && tables.items.Keys == old(tables.items.Keys) && r.value.id == id && r.value.row == tables.items[id]
                && (forall i :: i in tables.items && i != id ==> tables.items[i] == old(tables.items[i]))
                && tables.items[id].expiresAt == now + ttl
                && tables.items[id] == old(tables.items[id]).(expiresAt := now + ttl)
    {
      hide Sum, Inv;
      assert Inv(View()) ==> Inv(UpdateExpirySpec(View(), id, ttl, now, fails).0) by {
        if Inv(View()) { ExpiryKeepsInv(View(), id, ttl, now, fails); }
      }
      clock := now;
      if ttl <= 0 {
        return Err(InvalidInput);
      }
      if fails {
        return Err(Internal);
      }
      if id !in tables.items || !Active(tables.items[id], now) {
        return Err(NotFound);
      }
      tables := tables.(items := tables.items[id := tables.items[id].(expiresAt := now + ttl)]);
      r := Get(id);
    }
  }

  function StampsFor(items: map<Id, ItemRow>, ids: set<Id>): set<Stamp>
    requires ids <= items.Keys
  { set id | id in ids :: Stamp(items[id].createdAt, id) }

  lemma StampsCount(t: Tables, now: Instant)
    ensures |ActiveStamps(t, now)| == |Unexpired(t.items, now)|
  {
    OwnStamps(t.items, Unexpired(t.items, now));
    assert ActiveStamps(t, now) == StampsFor(t.items, Unexpired(t.items, now));
  }

  lemma SizesFit(s: State)
    requires Inv(s)
    ensures Used(s) <= s.quota && forall id :: id in s.tables.items ==> s.tables.items[id].totalSize >= 0
  {
  }

  /** Items have stamps of their own. */
  lemma {:induction false} OwnStamps(items: map<Id, ItemRow>, ids: set<Id>)
    requires ids <= items.Keys
    ensures |StampsFor(items, ids)| == |ids|
  {
    if ids != {} {
      var id :| id in ids;
      OwnStamps(items, ids - {id});
      assert StampsFor(items, ids) == StampsFor(items, ids - {id}) + {Stamp(items[id].createdAt, id)};
    }
  }

  datatype StagedFile = StagedFile(original: Id, temporary: Id)

  ghost function Originals(staged: seq<StagedFile>): set<Id> {
    set i | 0 <= i < |staged| :: staged[i].original
  }

  lemma Inserts(t: Tables, input: CreateInput, draw: Draw, now: Instant, total: int)
    requires |draw.attachments| == |draw.blobs| == |input.attachments|
    ensures var (x, row) := (CreatedItem(input, draw, now, total), NewItem(input, now, total));
            && x.id == draw.item && x.row == row
            && row.text == input.text && row.creator == input.creator && row.actor == input.actor
            && row.createdAt == now && row.expiresAt == now + input.ttl && row.totalSize == total
    ensures draw.item in Inserted(t, input, draw, now, total).items
    ensures Inserted(t, input, draw, now, total).items[draw.item] == NewItem(input, now, total)
  {
  }

  /** What a Delete that succeeds takes away: the item, its attachments and its key. */
  lemma WithoutIs(t: Tables, id: Id)
    ensures Without(t, id).items == t.items - {id}
    ensures forall a ::
              && (a in Without(t, id).attachments <==> a in t.attachments && t.attachments[a].itemId != id)
              && (a in Without(t, id).attachments ==> Without(t, id).attachments[a] == t.attachments[a])
    ensures forall k ::
              && (k in Without(t, id).keys <==> k in t.keys && t.keys[k] != id)
              && (k in Without(t, id).keys ==> Without(t, id).keys[k] == t.keys[k])
  {
  }

  /** What the statements of Create rely on, and what they amount to. */
  lemma Makes(s: State, input: CreateInput, now: Instant, draw: Draw, fault: Fault)
    requires Inv(s) && s.clock <= now && draw.Fresh(|input.attachments|, s.minted)
    ensures 0 < s.quota && forall i :: 0 <= i < |draw.blobs| ==> Blob(draw.blobs[i]) !in s.files
    ensures SizesMatch(s.files, input.attachments) ==> Inv(CreateSpec(s, input, now, draw, fault).0)
    ensures CreateSpec(s, input, now, draw, fault).1.Ok? && !Replays(s, input) ==>
              var (u, r) := CreateSpec(s, input, now, draw, fault);
              && r.value.id == draw.item && draw.item in u.tables.items && r.value.row == u.tables.items[draw.item]
              && var row := u.tables.items[draw.item];
                 && row.text == input.text && row.creator == input.creator && row.actor == input.actor
                 && row.createdAt == now && row.expiresAt == now + input.ttl
                 && row.totalSize == |input.text| + Sizes(input.attachments)
  {
    hide CreateSpec, Replays, Sizes, Constraints, BlobsAgree, TotalsExact, WithinQuota;
    if SizesMatch(s.files, input.attachments) { CreateKeepsInv(s, input, now, draw, fault); }
    if CreateSpec(s, input, now, draw, fault).1.Ok? && !Replays(s, input) { CreateMakes(s, input, now, draw, fault); }
  }

  /** What the staging loop has moved after n names: the blobs that exist. */
  ghost function Present(before: Files, names: seq<Id>, temps: seq<Id>, n: nat): seq<StagedFile>
    requires n <= |names| == |temps|
  {
    if n == 0 then []
    else Present(before, names, temps, n - 1)
         + if Blob(names[n - 1]) in before then [StagedFile(names[n - 1], temps[n - 1])] else []
  }

  lemma {:induction false} PresentOriginal(before: Files, names: seq<Id>, temps: seq<Id>, n: nat, x: Id)
    requires n <= |names| == |temps|
    ensures x in Originals(Present(before, names, temps, n)) <==> Blob(x) in before && x in names[..n]
  {
    if n > 0 {
      PresentOriginal(before, names, temps, n - 1, x);
      assert names[..n] == names[..n - 1] + [names[n - 1]];
      OriginalsSnoc(Present(before, names, temps, n - 1), StagedFile(names[n - 1], temps[n - 1]));
      assert Present(before, names, temps, n - 1) + [] == Present(before, names, temps, n - 1);
    }
  }

  lemma {:induction false} PresentTemporary(before: Files, names: seq<Id>, temps: seq<Id>, n: nat, i: nat)
    requires n <= |names| == |temps| && i < |Present(before, names, temps, n)|
    ensures Present(before, names, temps, n)[i].temporary in temps[..n]
  {
    assert temps[..n] == temps[..n - 1] + [temps[n - 1]];
    if i < |Present(before, names, temps, n - 1)| {
      PresentTemporary(before, names, temps, n - 1, i);
    }
  }

  lemma {:induction false} PresentIsStageable(before: Files, names: seq<Id>, temps: seq<Id>, n: nat)
    requires n <= |names| == |temps| && Distinct(names) && Distinct(temps)
    requires forall i :: 0 <= i < |temps| ==> Staged(temps[i]) !in before
    ensures Stageable(before, Present(before, names, temps, n))
    ensures n < |names| ==> names[n] !in Originals(Present(before, names, temps, n))
  {
    if n < |names| {
      PresentOriginal(before, names, temps, n, names[n]);
    }
    if n > 0 {
      PresentIsStageable(before, names, temps, n - 1);
      var shorter := Present(before, names, temps, n - 1);
      forall i | 0 <= i < |shorter|
        ensures shorter[i].original != names[n - 1] && shorter[i].temporary != temps[n - 1]
      {
        PresentTemporary(before, names, temps, n - 1, i);
        assert shorter[i].original in Originals(shorter);
      }
    }
  }

  lemma NoneStaged(before: Files, names: seq<Id>, temps: seq<Id>)
    requires |names| == |temps|
    ensures [] == Present(before, names, temps, 0) && Stageable(before, []) && before == StagedFiles(before, [])
  {
  }

  /** One turn of the staging loop. */
  lemma NextStaged(before: Files, names: seq<Id>, temps: seq<Id>, i: nat)
    requires i < |names| == |temps| && Distinct(names) && Distinct(temps)
    requires forall j :: 0 <= j < |temps| ==> Staged(temps[j]) !in before
    ensures var staged, next := Present(before, names, temps, i), Present(before, names, temps, i + 1);
            && Stageable(before, staged) && Stageable(before, next)
            && var files := StagedFiles(before, staged);
               if Blob(names[i]) in files
               then next == staged + [StagedFile(names[i], temps[i])]
                    && StagedFiles(before, next)
                       == (files - {Blob(names[i])})[Staged(temps[i]) := files[Blob(names[i])]]
               else next == staged
  {
    hide Stageable, Distinct;
    var staged := Present(before, names, temps, i);
    PresentIsStageable(before, names, temps, i);
    PresentIsStageable(before, names, temps, i + 1);
    OthersStay(before, staged, names[i]);
    var f := StagedFile(names[i], temps[i]);
    assert (staged + [f])[..|staged|] == staged;
    assert staged + [] == staged;
  }

  lemma OriginalsSnoc(staged: seq<StagedFile>, f: StagedFile)
    ensures Originals(staged + [f]) == Originals(staged) + {f.original}
  {
    var longer := staged + [f];
    forall n ensures n in Originals(longer) <==> n in Originals(staged) + {f.original} {
      if n in Originals(staged) {
        var i :| 0 <= i < |staged| && staged[i].original == n;
        assert longer[i].original == n;
      }
      assert longer[|staged|] == f;
    }
  }

  ghost function TemporariesOf(staged: seq<StagedFile>): set<Path> {
    set i | 0 <= i < |staged| :: Staged(staged[i].temporary)
  }

  /** staged lists distinct blobs of before under distinct temporary names that before does not use. */
  ghost predicate Stageable(before: Files, staged: seq<StagedFile>) {
    && (forall i :: 0 <= i < |staged| ==> Blob(staged[i].original) in before && Staged(staged[i].temporary) !in before)
    && (forall i, j :: 0 <= i < j < |staged| ==>
          staged[i].original != staged[j].original && staged[i].temporary != staged[j].temporary)
  }

  /** The files after the listed blobs have been moved aside. */
  ghost function StagedFiles(before: Files, staged: seq<StagedFile>): Files
    requires Stageable(before, staged)
  {
    if staged == [] then before
    else
      var last := staged[|staged| - 1];
      var files := StagedFiles(before, staged[..|staged| - 1]);
      (files - {Blob(last.original)})[Staged(last.temporary) := before[Blob(last.original)]]
  }

  /** Pointwise: the listed blobs are gone, their bytes are under the temporary names, all else is as before. */
  lemma {:induction false} StagedFilesAre(before: Files, staged: seq<StagedFile>, p: Path)
    requires Stageable(before, staged)
    ensures p in StagedFiles(before, staged) <==>
            p in TemporariesOf(staged) || (p in before && p !in BlobPaths(Originals(staged)))
    ensures p in before && p !in BlobPaths(Originals(staged)) ==>
              p in StagedFiles(before, staged) && StagedFiles(before, staged)[p] == before[p]
    ensures forall i :: 0 <= i < |staged| && p == Staged(staged[i].temporary) ==>
              p in StagedFiles(before, staged) && StagedFiles(before, staged)[p] == before[Blob(staged[i].original)]
  {
    if staged != [] {
      var n := |staged| - 1;
      StagedFilesAre(before, staged[..n], p);
      assert staged == staged[..n] + [staged[n]];
      assert Originals(staged) == Originals(staged[..n]) + {staged[n].original};
      assert TemporariesOf(staged) == TemporariesOf(staged[..n]) + {Staged(staged[n].temporary)};
    }
  }

  lemma OthersStay(before: Files, staged: seq<StagedFile>, n: Id)
    requires Stageable(before, staged) && n !in Originals(staged)
    ensures Blob(n) in StagedFiles(before, staged) <==> Blob(n) in before
    ensures Blob(n) in before ==> StagedFiles(before, staged)[Blob(n)] == before[Blob(n)]
  {
    StagedFilesAre(before, staged, Blob(n));
  }

  lemma StageablePrefix(before: Files, staged: seq<StagedFile>, n: nat)
    requires Stageable(before, staged) && n <= |staged|
    ensures Stageable(before, staged[..n])
  {
  }

  /** One step of the restore undoes the last step of the staging. */
  lemma UnstageLast(before: Files, staged: seq<StagedFile>)
    requires Stageable(before, staged) && staged != []
    ensures var n := |staged| - 1;
            var now := StagedFiles(before, staged);
            && Staged(staged[n].temporary) in now
            && (now - {Staged(staged[n].temporary)})[Blob(staged[n].original) := now[Staged(staged[n].temporary)]]
               == StagedFiles(before, staged[..n])
  {
    var n := |staged| - 1;
    OthersStay(before, staged[..n], staged[n].original);
    StagedFilesAre(before, staged[..n], Staged(staged[n].temporary));
  }

  lemma StagedThenRemoved(before: Files, staged: seq<StagedFile>)
    requires Stageable(before, staged)
    ensures StagedFiles(before, staged) - TemporariesOf(staged) == before - BlobPaths(Originals(staged))
  {
    var x, y := StagedFiles(before, staged) - TemporariesOf(staged), before - BlobPaths(Originals(staged));
    forall p: Path ensures (p in x <==> p in y) && (p in x ==> x[p] == y[p]) {
      StagedFilesAre(before, staged, p);
      assert p in TemporariesOf(staged) ==> p !in before;
    }
  }

  lemma TempsUnused(s: State, temps: seq<Id>)
    requires Known(s) && FreshSeq(temps, s.minted)
    ensures Distinct(temps) && forall i :: 0 <= i < |temps| ==> Staged(temps[i]) !in s.files
  {
    forall i | 0 <= i < |temps| ensures Staged(temps[i]) !in s.files { assert temps[i] in Elements(temps); }
  }

  lemma SameRemoval(before: Files, names: seq<Id>, temps: seq<Id>)
    requires |names| == |temps|
    ensures before - BlobPaths(Originals(Present(before, names, temps, |names|))) == before - BlobPaths(Elements(names))
  {
    assert names[..|names|] == names;
    forall n: Id
      ensures Blob(n) in before ==> (n in names <==> n in Originals(Present(before, names, temps, |names|)))
    {
      PresentOriginal(before, names, temps, |names|, n);
    }
  }

  lemma MoveNothing(before: Files, attachments: seq<Pending>, blobs: seq<Id>)
    requires AllStaged(attachments) && |attachments| == |blobs|
    ensures before == MovedFiles(before, attachments, blobs, 0)
  {
  }

  /** The files after the first n renames. */
  ghost function MovedFiles(before: Files, attachments: seq<Pending>, blobs: seq<Id>, n: nat): Files
    requires AllStaged(attachments) && n <= |attachments| <= |blobs|
    requires forall i :: 0 <= i < n ==> TempOf(attachments[i]) in before
  {
    before - Temps(attachments[..n]) + Placed(before, attachments, blobs, n)
  }

  /** One rename: the source is still there exactly when no earlier attachment of the call took it. */
  lemma MoveStep(before: Files, attachments: seq<Pending>, blobs: seq<Id>, i: nat)
    requires AllStaged(attachments) && i < |attachments| == |blobs|
    requires forall j :: 0 <= j < i ==> TempOf(attachments[j]) in before
    ensures var now := MovedFiles(before, attachments, blobs, i);
            var source := TempOf(attachments[i]);
            && (source in now <==> source in before && source !in Temps(attachments[..i]))
            && (source in now ==>
                  (now - {source})[Blob(blobs[i]) := now[source]]
                  == MovedFiles(before, attachments, blobs, i + 1))
  {
    var placed := Placed(before, attachments, blobs, i);
    var source := TempOf(attachments[i]);
    assert source !in placed by {
      if source in placed { var j := PlacedIndex(before, attachments, blobs, i, source); }
    }
    assert Temps(attachments[..i + 1]) == Temps(attachments[..i]) + {source} by {
      assert attachments[..i + 1] == attachments[..i] + [attachments[i]];
    }
  }

  /** Removing the moved blobs again leaves the files as they were, less the uploads already taken. */
  lemma UndoMoves(before: Files, attachments: seq<Pending>, blobs: seq<Id>, n: nat)
    requires AllStaged(attachments) && n <= |attachments| == |blobs| && Distinct(blobs)
    requires forall j :: 0 <= j < n ==> TempOf(attachments[j]) in before
    requires forall i :: 0 <= i < |blobs| ==> Blob(blobs[i]) !in before
    ensures MovedFiles(before, attachments, blobs, n) - BlobsOf(blobs[..n])
         == before - Temps(attachments[..n])
  {
    var placed := Placed(before, attachments, blobs, n);
    forall p | p in placed ensures p in BlobsOf(blobs[..n]) {
      var j := PlacedIndex(before, attachments, blobs, n, p);
      assert blobs[..n][j] == blobs[j];
    }
  }
}
