/** How a later state of a run is related to an earlier one: what never changes
    once written, what never comes back, and what follows for retries and cleanup. */
module DropHistory {
  import opened Prelude
  import opened DropState
  import opened DropRuns

  /** The item id is the same item in both states: only its expiry may differ, and not once it has expired. */
  ghost predicate SameItem(s: State, u: State, id: Id)
    requires id in s.tables.items && id in u.tables.items
  {
    var x, y := s.tables.items[id], u.tables.items[id];
    && y == x.(expiresAt := y.expiresAt)
    && (!Active(x, s.clock) ==> y == x)
    && (forall a :: a in s.tables.attachments && s.tables.attachments[a].itemId == id ==>
          a in u.tables.attachments && u.tables.attachments[a] == s.tables.attachments[a])
    && (forall a :: a in u.tables.attachments && u.tables.attachments[a].itemId == id ==>
          a in s.tables.attachments && s.tables.attachments[a] == u.tables.attachments[a])
    && (forall k :: k in s.tables.keys && s.tables.keys[k] == id ==> k in u.tables.keys && u.tables.keys[k] == id)
    && (forall k :: k in u.tables.keys && u.tables.keys[k] == id ==> k in s.tables.keys && s.tables.keys[k] == id)
  }

  ghost predicate Evolves(s: State, u: State) {
    && s.clock <= u.clock && s.minted <= u.minted && s.quota == u.quota
    && (forall id :: id in s.tables.items && id in u.tables.items ==> SameItem(s, u, id))
    && (forall id :: id in u.tables.items && id !in s.tables.items ==>
          id !in s.minted && s.clock <= u.tables.items[id].createdAt)
    && (forall n :: n in s.contents ==> n in u.contents && u.contents[n] == s.contents[n])
  }

  lemma EvolvesTransitive(s: State, t: State, u: State)
    requires Known(s) && Evolves(s, t) && Evolves(t, u)
    ensures Evolves(s, u)
  {
    forall id | id in s.tables.items && id in u.tables.items ensures SameItem(s, u, id) {
      assert id in t.tables.items;
      assert SameItem(s, t, id) && SameItem(t, u, id);
    }
    forall id | id in u.tables.items && id !in s.tables.items
      ensures id !in s.minted && s.clock <= u.tables.items[id].createdAt
    {
      if id in t.tables.items { assert SameItem(t, u, id); }
    }
  }

  lemma SameTablesEvolve(s: State, u: State)
    requires u.tables == s.tables && s.clock <= u.clock && s.minted <= u.minted && s.quota == u.quota
    requires u.contents == s.contents
    ensures Evolves(s, u)
  {
    forall id | id in s.tables.items && id in u.tables.items ensures SameItem(s, u, id) {}
  }

  /** A new item beside it leaves an item as it was. */
  lemma AddingKeepsItem(s: State, u: State, rows: map<Id, AttachmentRow>, item: Id, row: ItemRow, id: Id)
    requires Known(s) && NewFor(rows, item, s.minted) && item !in s.minted && id in s.tables.items
    requires u.tables.items == s.tables.items[item := row] && u.tables.attachments == s.tables.attachments + rows
    requires u.tables.keys == s.tables.keys
             || exists k :: k !in s.tables.keys && u.tables.keys == s.tables.keys[k := item]
    ensures SameItem(s, u, id)
  {
    assert id in s.minted && item != id;
  }

  lemma AddingEvolves(s: State, u: State, rows: map<Id, AttachmentRow>, item: Id, row: ItemRow)
    requires Known(s) && NewFor(rows, item, s.minted) && item !in s.minted
    requires u.tables.items == s.tables.items[item := row] && u.tables.attachments == s.tables.attachments + rows
    requires u.tables.keys == s.tables.keys
             || exists k :: k !in s.tables.keys && u.tables.keys == s.tables.keys[k := item]
    requires s.clock <= u.clock && s.minted <= u.minted && s.quota == u.quota && s.clock <= row.createdAt
    requires forall n :: n in s.contents ==> n in u.contents && u.contents[n] == s.contents[n]
    ensures Evolves(s, u)
  {
    hide SameItem, Known, NewFor;
    forall id | id in s.tables.items && id in u.tables.items ensures SameItem(s, u, id) {
      AddingKeepsItem(s, u, rows, item, row, id);
    }
  }

  lemma CreateEvolves(s: State, input: CreateInput, now: Instant, draw: Draw, fault: Fault)
    requires Inv(s) && Enabled(s, CreateOp(input, now, draw, fault))
    ensures Evolves(s, CreateSpec(s, input, now, draw, fault).0)
  {
    hide Sum, CreateSpec, BlobsAgree, TotalsExact, WithinQuota, Known, Evolves, SizesMatch, NewRows;
    var (u, r) := CreateSpec(s, input, now, draw, fault);
    if r.Ok? && !Replays(s, input) {
      var rows := CreateSuccess(s, input, now, draw, fault);
      CreatedFiles(s, input, now, draw, fault);
      AddingEvolves(s, u, rows, draw.item, NewItem(input, now, |input.text| + Sizes(input.attachments)));
    } else {
      CreateFailure(s, input, now, draw, fault);
      SameTablesEvolve(s, u);
    }
  }

  lemma DeletingEvolves(s: State, u: State, id: Id)
    requires u.tables == Without(s.tables, id)
    requires s.clock <= u.clock && s.minted <= u.minted && s.quota == u.quota && u.contents == s.contents
    ensures Evolves(s, u)
  {
    forall j | j in s.tables.items && j in u.tables.items ensures SameItem(s, u, j) {}
  }

  lemma ExtendingEvolves(s: State, u: State, id: Id, expiresAt: Instant)
    requires s.clock <= u.clock && s.minted <= u.minted && s.quota == u.quota && u.contents == s.contents
    requires id in s.tables.items && Active(s.tables.items[id], s.clock)
    requires u.tables == s.tables.(items := s.tables.items[id := s.tables.items[id].(expiresAt := expiresAt)])
    ensures Evolves(s, u)
  {
    forall j | j in s.tables.items && j in u.tables.items ensures SameItem(s, u, j) {}
  }

  lemma StepEvolves(s: State, op: Op)
    requires Inv(s) && Enabled(s, op)
    ensures Evolves(s, Apply(s, op))
  {
    hide Sum, Inv, Evolves, CreateSpec, GetSpec;
    var u := Apply(s, op);
    match op
    case StageUpload(name, bytes) => SameTablesEvolve(s, u);
    case RemoveUpload(name) => SameTablesEvolve(s, u);
    case CreateOp(input, now, draw, fault) => CreateEvolves(s, input, now, draw, fault);
    case DeleteOp(id, now, staged, fault) =>
      if DeleteSpec(s, id, now, staged, fault).1.Ok? { DeletingEvolves(s, u, id); } else { SameTablesEvolve(s, u); }
    case ExpiryOp(id, ttl, now, fails) =>
      if u.tables != s.tables { ExtendingEvolves(s, u, id, now + ttl); } else { SameTablesEvolve(s, u); }
  }

  /** Over any run: items keep their content and key, expiry is irreversible, identifiers are never reused. */
  lemma {:induction false} RunEvolves(s: State, ops: seq<Op>)
    requires Inv(s) && ValidRun(s, ops)
    ensures Evolves(s, Run(s, ops))
    decreases |ops|
  {
    if ops == [] {
      SameTablesEvolve(s, s);
    } else {
      var t := Apply(s, ops[0]);
      StepKeepsInv(s, ops[0]);
      StepEvolves(s, ops[0]);
      RunEvolves(t, ops[1..]);
      EvolvesTransitive(s, t, Run(t, ops[1..]));
    }
  }

  // ---------------------------------------------------------------- retries

  /** Nothing else has the new item's identifier before its Create commits. */
  lemma KeyAfterCreate(s: State, input: CreateInput, now: Instant, draw: Draw, fault: Fault)
    requires Inv(s) && Enabled(s, CreateOp(input, now, draw, fault))
    requires input.key.Key? && input.key.hash !in s.tables.keys && CreateSpec(s, input, now, draw, fault).1.Ok?
    ensures var u := CreateSpec(s, input, now, draw, fault).0;
            && draw.item in u.tables.items && input.key.hash in u.tables.keys
            && u.tables.keys[input.key.hash] == draw.item
  {
    hide Sum, CreateSpec, Inv, NewFor;
    var rows := CreateSuccess(s, input, now, draw, fault);
  }

  lemma KeyWhileItem(u: State, v: State, key: KeyHash, id: Id)
    requires Evolves(u, v) && Constraints(v.tables)
    requires id in u.tables.items && key in u.tables.keys && u.tables.keys[key] == id
    ensures (key in v.tables.keys && v.tables.keys[key] == id) <==> id in v.tables.items
  {
    if id in v.tables.items { assert SameItem(u, v, id); }
  }

  /** A key that leads to an item does so, over any run, for exactly as long as that item's row exists. */
  lemma KeyFollowsItem(u: State, key: KeyHash, id: Id, ops: seq<Op>)
    requires Inv(u) && ValidRun(u, ops)
    requires key in u.tables.keys && u.tables.keys[key] == id
    ensures var v := Run(u, ops); (key in v.tables.keys && v.tables.keys[key] == id) <==> id in v.tables.items
  {
    hide Sum, Evolves, BlobsAgree, TotalsExact, Known, WithinQuota;
    RunKeepsInv(u, ops);
    RunEvolves(u, ops);
    KeyWhileItem(u, Run(u, ops), key, id);
  }

  lemma {:induction false} CreatedAttachments(input: CreateInput, draw: Draw, now: Instant, total: int, x: Attachment)
    requires |draw.attachments| == |draw.blobs| == |input.attachments| && Distinct(draw.attachments)
    ensures x in CreatedItem(input, draw, now, total).attachments <==>
            var rows := NewRows(input.attachments, draw, now, |input.attachments|); x.id in rows && x.row == rows[x.id]
  {
    var rows := NewRows(input.attachments, draw, now, |input.attachments|);
    if x in CreatedItem(input, draw, now, total).attachments {
      var i :| 0 <= i < |input.attachments| && CreatedItem(input, draw, now, total).attachments[i] == x;
      NewRowAt(input.attachments, draw, now, |input.attachments|, i);
    }
    if x.id in rows && x.row == rows[x.id] {
      var i := NewRowIndex(input.attachments, draw, now, |input.attachments|, x.id);
      assert CreatedItem(input, draw, now, total).attachments[i] == x;
    }
  }

  /** Get returns exactly the attachment rows of the item. */
  lemma AttachmentsOfAre(t: Tables, id: Id, x: Attachment)
    ensures x in AttachmentsOf(t, id) <==> x.id in t.attachments && t.attachments[x.id] == x.row && x.row.itemId == id
  {
    var stamps := Ascending(AttachmentStamps(t, id));
    AscendingSorts(AttachmentStamps(t, id));
    if x.id in t.attachments && t.attachments[x.id] == x.row && x.row.itemId == id {
      var stamp := Stamp(x.row.createdAt, x.id);
      assert stamp in Elements(stamps);
      var i :| 0 <= i < |stamps| && stamps[i] == stamp;
      assert AttachmentsOf(t, id)[i] == x;
    }
    if x in AttachmentsOf(t, id) {
      var i :| 0 <= i < |stamps| && AttachmentsOf(t, id)[i] == x;
      assert stamps[i] in Elements(stamps);
    }
  }

  /** In the order of (created_at, id). */
  lemma AttachmentsAscend(t: Tables, id: Id, i: nat, j: nat)
    requires i < j < |AttachmentsOf(t, id)|
    ensures var x, y := AttachmentsOf(t, id)[i], AttachmentsOf(t, id)[j];
            x.row.createdAt < y.row.createdAt || (x.row.createdAt == y.row.createdAt && x.id < y.id)
  {
    var stamps := Ascending(AttachmentStamps(t, id));
    AscendingSorts(AttachmentStamps(t, id));
    assert stamps[i] in Elements(stamps) && stamps[j] in Elements(stamps);
  }

  /** Retrying a committed request later, whatever its other fields and whatever happened in
      between: while the item is active, the same item with the same attachments comes back and
      neither tables nor files change; once expired but not cleaned up, nothing is created. */
  lemma RetryReturnsSameItem(s: State, input: CreateInput, now: Instant, draw: Draw, fault: Fault, ops: seq<Op>,
                             again: CreateInput, later: Instant, draw2: Draw)
    requires Inv(s) && Enabled(s, CreateOp(input, now, draw, fault))
    requires input.key.Key? && input.key.hash !in s.tables.keys && CreateSpec(s, input, now, draw, fault).1.Ok?
    requires ValidRun(CreateSpec(s, input, now, draw, fault).0, ops)
    requires draw.item in Run(CreateSpec(s, input, now, draw, fault).0, ops).tables.items
    requires again.key == input.key && !BadInput(again) && |draw2.attachments| == |draw2.blobs| == |again.attachments|
    requires Admit(s.quota, |again.text|, again.attachments).Ok?
    requires Run(CreateSpec(s, input, now, draw, fault).0, ops).clock <= later
    ensures var first := CreateSpec(s, input, now, draw, fault).1.value;
            var v := Run(CreateSpec(s, input, now, draw, fault).0, ops);
            var (w, r) := CreateSpec(v, again, later, draw2, NoFault);
            && w.tables == v.tables && w.files == v.files && w.contents == v.contents
            && (Active(v.tables.items[draw.item], later) ==>
                  && r.Ok? && r.value.id == first.id
                  && r.value.row == first.row.(expiresAt := r.value.row.expiresAt)
                  && Elements(r.value.attachments) == Elements(first.attachments))
            && (!Active(v.tables.items[draw.item], later) ==> r == Err(NotFound))
  {
    hide Sum, Evolves, Inv, GetSpec, Run;
    var u := CreateSpec(s, input, now, draw, fault).0;
    var v := Run(u, ops);
    CreateKeepsInv(s, input, now, draw, fault);
    RunEvolves(u, ops);
    assert v.quota == s.quota by { QuotaConstant(s, input, now, draw, fault, v); }
    KeyAfterCreate(s, input, now, draw, fault);
    KeyFollowsItem(u, input.key.hash, draw.item, ops);
    ReplayAnswers(v, again, later, draw2);
    if Active(v.tables.items[draw.item], later) { SameRowsLater(s, input, now, draw, fault, v, later); }
    else { ExpiredIsAbsent(v.tables, later, draw.item); }
  }

  lemma QuotaConstant(s: State, input: CreateInput, now: Instant, draw: Draw, fault: Fault, v: State)
    requires |draw.attachments| == |draw.blobs| == |input.attachments|
    requires Evolves(CreateSpec(s, input, now, draw, fault).0, v)
    ensures v.quota == s.quota
  {
  }

  lemma ExpiredIsAbsent(t: Tables, now: Instant, id: Id)
    requires id in t.items && !Active(t.items[id], now)
    ensures GetSpec(t, now, id) == Err(NotFound)
  {
  }

  /** x is the unexpired item id of t, with all its attachment rows and no others. */
  ghost predicate IsKept(t: Tables, id: Id, now: Instant, x: Item) {
    && x.id == id && id in t.items && now < t.items[id].expiresAt && x.row == t.items[id]
    && forall y :: y in x.attachments <==> y.id in t.attachments && t.attachments[y.id] == y.row && y.row.itemId == id
  }

  /** Whatever else a request holds and whatever fails, while its key is taken it changes neither tables nor files, and
      if it is answered with an item, that is the active item its key leads to, whichever request created it. */
  lemma ReplayChangesNothing(v: State, again: CreateInput, later: Instant, draw: Draw, fault: Fault)
    requires Replays(v, again) && |draw.attachments| == |draw.blobs| == |again.attachments|
    ensures CreateSpec(v, again, later, draw, fault).0 == v.(clock := later, minted := v.minted + draw.Ids())
    ensures CreateSpec(v, again, later, draw, fault).1.Ok? ==>
              IsKept(v.tables, v.tables.keys[again.key.hash], later, CreateSpec(v, again, later, draw, fault).1.value)
  {
    hide AttachmentsOf, Used, StoreSpec;
    var id := v.tables.keys[again.key.hash];
    forall x ensures x in AttachmentsOf(v.tables, id) <==>
              x.id in v.tables.attachments && v.tables.attachments[x.id] == x.row && x.row.itemId == id
    {
      AttachmentsOfAre(v.tables, id, x);
    }
  }

  lemma ReplayAnswers(v: State, again: CreateInput, later: Instant, draw: Draw)
    requires again.key.Key? && again.key.hash in v.tables.keys && !BadInput(again)
    requires |draw.attachments| == |draw.blobs| == |again.attachments|
    requires Admit(v.quota, |again.text|, again.attachments).Ok?
    ensures CreateSpec(v, again, later, draw, NoFault)
         == (v.(clock := later, minted := v.minted + draw.Ids()),
             GetSpec(v.tables, later, v.tables.keys[again.key.hash]))
  {
  }

  /** rows are exactly the attachment rows of item id. */
  ghost predicate OwnRows(t: Tables, id: Id, rows: map<Id, AttachmentRow>) {
    && (forall a :: a in rows ==> a in t.attachments && t.attachments[a] == rows[a] && rows[a].itemId == id)
    && (forall a :: a in t.attachments && t.attachments[a].itemId == id ==> a in rows)
  }

  lemma RowsAfterCreate(s: State, input: CreateInput, now: Instant, draw: Draw, fault: Fault)
    requires Inv(s) && Enabled(s, CreateOp(input, now, draw, fault))
    requires !Replays(s, input) && CreateSpec(s, input, now, draw, fault).1.Ok?
    ensures var u := CreateSpec(s, input, now, draw, fault).0;
            && draw.item in u.tables.items
            && u.tables.items[draw.item] == NewItem(input, now, |input.text| + Sizes(input.attachments))
            && OwnRows(u.tables, draw.item, NewRows(input.attachments, draw, now, |input.attachments|))
  {
    hide Sum, CreateSpec, BlobsAgree, TotalsExact, NewRows;
    var rows := CreateSuccess(s, input, now, draw, fault);
  }

  /** A committed Create has put the bytes of each upload under the storage name drawn for it. */
  lemma CreatedContents(s: State, input: CreateInput, now: Instant, draw: Draw, fault: Fault, k: nat)
    requires Inv(s) && Enabled(s, CreateOp(input, now, draw, fault)) && k < |input.attachments|
    requires !Replays(s, input) && CreateSpec(s, input, now, draw, fault).1.Ok?
    ensures AllStaged(input.attachments) && TempOf(input.attachments[k]) in s.files
    ensures var d := CreateSpec(s, input, now, draw, fault).0.contents;
            draw.blobs[k] in d && d[draw.blobs[k]] == s.files[TempOf(input.attachments[k])]
  {
    hide Sum, CreateSpec, Placed, Inserted, Temps, ActiveSizes, Inv, BlobContents, CreatedItem;
    CreateCommits(s, input, now, draw, fault);
    PlacedAt(s.files, input.attachments, draw.blobs, |input.attachments|, k);
    BlobContentsAre(Placed(s.files, input.attachments, draw.blobs, |input.attachments|));
  }

  lemma RowsStay(u: State, v: State, id: Id, rows: map<Id, AttachmentRow>)
    requires id in u.tables.items && id in v.tables.items && SameItem(u, v, id) && OwnRows(u.tables, id, rows)
    ensures OwnRows(v.tables, id, rows)
    ensures v.tables.items[id] == u.tables.items[id].(expiresAt := v.tables.items[id].expiresAt)
  {
  }

  lemma EvolvesSame(u: State, v: State, id: Id)
    requires Evolves(u, v) && id in u.tables.items && id in v.tables.items
    ensures SameItem(u, v, id)
  {
  }

  lemma SameRowsLater(s: State, input: CreateInput, now: Instant, draw: Draw, fault: Fault, v: State, later: Instant)
    requires Inv(s) && Enabled(s, CreateOp(input, now, draw, fault))
    requires !Replays(s, input) && CreateSpec(s, input, now, draw, fault).1.Ok?
    requires Evolves(CreateSpec(s, input, now, draw, fault).0, v) && draw.item in v.tables.items
    requires Active(v.tables.items[draw.item], later)
    ensures var first := CreateSpec(s, input, now, draw, fault).1.value;
            var r := GetSpec(v.tables, later, draw.item);
            && r.Ok? && r.value.id == first.id
            && r.value.row == first.row.(expiresAt := r.value.row.expiresAt)
            && Elements(r.value.attachments) == Elements(first.attachments)
  {
    hide Sum, CreateSpec, AttachmentsOf, Inv, NewRows, OwnRows, Evolves, SameItem, Placed, Inserted, Temps;
    var u := CreateSpec(s, input, now, draw, fault).0;
    var total := |input.text| + Sizes(input.attachments);
    CreateCommits(s, input, now, draw, fault);
    RowsAfterCreate(s, input, now, draw, fault);
    EvolvesSame(u, v, draw.item);
    RowsStay(u, v, draw.item, NewRows(input.attachments, draw, now, |input.attachments|));
    SameAttachments(v.tables, input, draw, now, total);
  }

  lemma SameAttachments(t: Tables, input: CreateInput, draw: Draw, now: Instant, total: int)
    requires |draw.attachments| == |draw.blobs| == |input.attachments| && Distinct(draw.attachments)
    requires OwnRows(t, draw.item, NewRows(input.attachments, draw, now, |input.attachments|))
    ensures Elements(AttachmentsOf(t, draw.item)) == Elements(CreatedItem(input, draw, now, total).attachments)
  {
    hide AttachmentsOf, NewRows, CreatedItem;
    forall x: Attachment
      ensures x in AttachmentsOf(t, draw.item) <==> x in CreatedItem(input, draw, now, total).attachments
    {
      AttachmentsOfAre(t, draw.item, x);
      CreatedAttachments(input, draw, now, total, x);
    }
  }

  /** A key is new only after a Create that carries it; no operation turns a key to another item. */
  lemma OpKeys(s: State, op: Op, h: KeyHash)
    requires Inv(s) && Enabled(s, op) && h in Apply(s, op).tables.keys
    ensures h in s.tables.keys ==> Apply(s, op).tables.keys[h] == s.tables.keys[h]
    ensures h !in s.tables.keys ==> op.CreateOp? && op.input.key == Key(h)
  {
    hide Sum, Inv, CreateSpec, GetSpec, NewFor, SizesMatch;
    match op
    case CreateOp(input, now, draw, fault) =>
      if CreateSpec(s, input, now, draw, fault).1.Ok? && !Replays(s, input) {
        var rows := CreateSuccess(s, input, now, draw, fault);
      } else {
        CreateFailure(s, input, now, draw, fault);
      }
    case _ =>
  }

  // ---------------------------------------------------------------- cleanup

  /** One id of CleanupExpired's snapshot: whatever other requests run first, then its Delete. */
  datatype CleanupStep = CleanupStep(others: seq<Op>, now: Instant, staged: set<Id>, fault: DeleteFault)

  ghost predicate ValidCleanup(s: State, ids: seq<Id>, steps: seq<CleanupStep>)
    requires |ids| == |steps|
    decreases |ids|
  {
    ids == [] ||
    var step := steps[0];
    && ValidRun(s, step.others)
    && (var t := Run(s, step.others);
        && Enabled(t, DeleteOp(ids[0], step.now, step.staged, step.fault))
        && ValidCleanup(Apply(t, DeleteOp(ids[0], step.now, step.staged, step.fault)), ids[1..], steps[1..]))
  }

  /** No Delete of this cleanup finds an unexpired item under its id. */
  ghost predicate RemovesOnlyExpired(s: State, ids: seq<Id>, steps: seq<CleanupStep>)
    requires |ids| == |steps| && ValidCleanup(s, ids, steps)
    decreases |ids|
  {
    ids == [] ||
    var step := steps[0];
    var t := Run(s, step.others);
    && (ids[0] in t.tables.items ==> !Active(t.tables.items[ids[0]], t.clock))
    && RemovesOnlyExpired(Apply(t, DeleteOp(ids[0], step.now, step.staged, step.fault)), ids[1..], steps[1..])
  }

  /** id is known, and whatever item it may still name has expired: a condition that lasts for ever. */
  ghost predicate Doomed(s: State, id: Id) {
    id in s.minted && (id in s.tables.items ==> !Active(s.tables.items[id], s.clock))
  }

  lemma DoomedLasts(s: State, u: State, id: Id)
    requires Evolves(s, u) && Doomed(s, id)
    ensures Doomed(u, id)
  {
    if id in u.tables.items { assert id in s.tables.items; assert SameItem(s, u, id); }
  }

  /** Cleanup takes its ids from a snapshot of the expired items; creates, extensions and deletes
      that run between the snapshot and its own deletes cannot make it remove a live item. */
  lemma {:induction false} CleanupSparesLiveItems(s: State, ids: seq<Id>, steps: seq<CleanupStep>)
    requires Inv(s) && |ids| == |steps| && ValidCleanup(s, ids, steps)
    requires forall i :: 0 <= i < |ids| ==> Doomed(s, ids[i])
    ensures RemovesOnlyExpired(s, ids, steps)
    decreases |ids|
  {
    hide Inv, Run, Apply, Evolves;
    if ids != [] {
      var step := steps[0];
      var t := Run(s, step.others);
      var op := DeleteOp(ids[0], step.now, step.staged, step.fault);
      RunKeepsInv(s, step.others);
      RunEvolves(s, step.others);
      StepKeepsInv(t, op);
      StepEvolves(t, op);
      forall i | 0 <= i < |ids| ensures Doomed(t, ids[i]) && Doomed(Apply(t, op), ids[i]) {
        DoomedLasts(s, t, ids[i]);
        DoomedLasts(t, Apply(t, op), ids[i]);
      }
      CleanupSparesLiveItems(Apply(t, op), ids[1..], steps[1..]);
    }
  }
}
