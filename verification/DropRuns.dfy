/** Runs of the store: any sequence of uploads, Create, Delete and UpdateExpiry
    calls, each failing anywhere or nowhere. What every reachable state satisfies,
    and how any later state is related to an earlier one. */
module DropRuns {
  import opened Prelude
  import opened DropState

  datatype Op =
    | StageUpload(name: Id, bytes: Bytes)
    | RemoveUpload(name: Id)
    | CreateOp(input: CreateInput, now: Instant, draw: Draw, fault: Fault)
    | DeleteOp(id: Id, now: Instant, staged: set<Id>, deleteFault: DeleteFault)
    | ExpiryOp(id: Id, ttl: int, now: Instant, fails: bool)

  /** The clock never goes back and drawn identifiers are new. A staged upload has
      the size that its request declares, as stageAttachment guarantees. */
  ghost predicate Enabled(s: State, op: Op) {
    match op
    case StageUpload(name, _) => name !in s.minted
    case RemoveUpload(_) => true
    case CreateOp(input, now, draw, _) =>
      s.clock <= now && draw.Fresh(|input.attachments|, s.minted) && SizesMatch(s.files, input.attachments)
    case DeleteOp(_, now, staged, _) => s.clock <= now && staged !! s.minted
    case ExpiryOp(_, _, now, _) => s.clock <= now
  }

  ghost predicate SizesMatch(files: Files, attachments: seq<Pending>) {
    forall i :: 0 <= i < |attachments| && attachments[i].tempPath.Some? && TempOf(attachments[i]) in files ==>
      |files[TempOf(attachments[i])]| == attachments[i].size as int
  }

  ghost function Apply(s: State, op: Op): State
    requires Enabled(s, op)
  {
    match op
    case StageUpload(name, bytes) => s.(files := s.files[Upload(name) := bytes], minted := s.minted + {name})
    case RemoveUpload(name) => s.(files := s.files - {Upload(name)})
    case CreateOp(input, now, draw, fault) => CreateSpec(s, input, now, draw, fault).0
    case DeleteOp(id, now, staged, fault) => DeleteSpec(s, id, now, staged, fault).0
    case ExpiryOp(id, ttl, now, fails) => UpdateExpirySpec(s, id, ttl, now, fails).0
  }

  ghost predicate ValidRun(s: State, ops: seq<Op>)
    decreases |ops|
  {
    ops == [] || (Enabled(s, ops[0]) && ValidRun(Apply(s, ops[0]), ops[1..]))
  }

  ghost function Run(s: State, ops: seq<Op>): State
    requires ValidRun(s, ops)
    decreases |ops|
  {
    if ops == [] then s else Run(Apply(s, ops[0]), ops[1..])
  }

  function Empty(quota: int, now: Instant): State {
    State(Tables(map[], map[], map[]), map[], now, quota, {}, map[])
  }

  // ---------------------------------------------------------------- the invariant

  ghost predicate Known(s: State) {
    && (forall id :: id in s.tables.items ==> id in s.minted)
    && (forall a :: a in s.tables.attachments ==> a in s.minted && s.tables.attachments[a].storageName in s.minted)
    && (forall p: Path :: p in s.files ==> p.name in s.minted)
    && (forall n :: n in s.contents ==> n in s.minted)
  }

  /** The schema's constraints: foreign keys, UNIQUE(storage_name), UNIQUE(item_id), CHECK(size >= 0). */
  ghost predicate Constraints(t: Tables) {
    && (forall a :: a in t.attachments ==> t.attachments[a].itemId in t.items && t.attachments[a].size >= 0)
    && (forall k :: k in t.keys ==> t.keys[k] in t.items)
    && (forall a, b :: a in t.attachments && b in t.attachments && a != b ==>
          t.attachments[a].storageName != t.attachments[b].storageName)
    && (forall j, k :: j in t.keys && k in t.keys && j != k ==> t.keys[j] != t.keys[k])
    && (forall id :: id in t.items ==> t.items[id].totalSize >= 0)
  }

  ghost predicate Named(rows: map<Id, AttachmentRow>, n: Id) {
    exists a :: a in rows && rows[a].storageName == n
  }

  /** The files in blobs are exactly the storage names in the attachment rows, each
      with the bytes that were uploaded for it, and nothing is left staged for deletion. */
  ghost predicate BlobsAgree(s: State) {
    && (forall n :: Blob(n) in s.files <==> Named(s.tables.attachments, n))
    && (forall n :: Staged(n) !in s.files)
    && (forall a :: a in s.tables.attachments ==>
          var row := s.tables.attachments[a];
          row.storageName in s.contents && s.contents[row.storageName] == s.files[Blob(row.storageName)]
          && |s.contents[row.storageName]| == row.size)
  }

  ghost function AttachmentSizes(t: Tables, id: Id): map<Id, int> {
    map a | a in t.attachments && t.attachments[a].itemId == id :: t.attachments[a].size
  }

  /** total_size is the text plus the attachments. */
  ghost predicate TotalsExact(t: Tables) {
    forall id :: id in t.items ==> t.items[id].totalSize == |t.items[id].text| + Sum(AttachmentSizes(t, id))
  }

  ghost predicate WithinQuota(s: State) { Used(s) <= s.quota }

  ghost predicate Inv(s: State) {
    && 0 < s.quota
    && Known(s) && Constraints(s.tables) && BlobsAgree(s) && TotalsExact(s.tables) && WithinQuota(s)
    && (forall id :: id in s.tables.items ==> s.tables.items[id].createdAt <= s.clock)
  }

  lemma EmptyInv(quota: int, now: Instant)
    requires 0 < quota
    ensures Inv(Empty(quota, now))
  {
  }

  // ---------------------------------------------------------------- quota arithmetic

  /** As time passes the active set only shrinks. */
  lemma UsedShrinks(items: map<Id, ItemRow>, t0: Instant, t1: Instant)
    requires t0 <= t1
    requires forall id :: id in items ==> items[id].totalSize >= 0
    ensures 0 <= Sum(ActiveSizes(items, t1)) <= Sum(ActiveSizes(items, t0))
  {
    hide Sum;
    SumSubmap(ActiveSizes(items, t1), ActiveSizes(items, t0));
  }

  ghost function Unexpired(items: map<Id, ItemRow>, now: Instant): set<Id> {
    set id | id in items && now < items[id].expiresAt
  }

  ghost function TotalSizes(items: map<Id, ItemRow>, ids: set<Id>): map<Id, int>
    requires ids <= items.Keys
  { map id | id in ids :: items[id].totalSize }

  /** What is summed up are the sizes of the items that have not expired. */
  lemma ActiveSizesAre(items: map<Id, ItemRow>, now: Instant)
    ensures ActiveSizes(items, now) == TotalSizes(items, Unexpired(items, now))
  {
  }

  lemma UsedAfterInsert(items: map<Id, ItemRow>, id: Id, row: ItemRow, now: Instant)
    requires id !in items && Active(row, now)
    ensures Sum(ActiveSizes(items[id := row], now)) == Sum(ActiveSizes(items, now)) + row.totalSize
  {
    hide Sum;
    assert ActiveSizes(items[id := row], now) == ActiveSizes(items, now)[id := row.totalSize];
    SumInsert(ActiveSizes(items, now), id, row.totalSize);
  }

  /** Admission succeeds exactly when every attachment is well formed and every partial
      sum fits, and then yields the request's size. */
  lemma {:induction false} AdmitMeaning(quota: int, total: int, attachments: seq<Pending>)
    ensures Admit(quota, total, attachments).Ok? <==>
              && (forall i :: 0 <= i < |attachments| ==> !BadPending(attachments[i]))
              && (attachments != [] ==> total + Sizes(attachments) <= quota)
    ensures Admit(quota, total, attachments).Ok? ==>
              Admit(quota, total, attachments).value == total + Sizes(attachments)
    ensures (forall i :: 0 <= i < |attachments| ==> !BadPending(attachments[i])) ==> Sizes(attachments) >= 0
    decreases |attachments|
  {
    if attachments != [] {
      AdmitMeaning(quota, total + attachments[0].size as int, attachments[1..]);
      assert forall i :: 1 <= i < |attachments| ==> attachments[i] == attachments[1..][i - 1];
      assert (forall i :: 0 <= i < |attachments| ==> !BadPending(attachments[i])) <==>
             !BadPending(attachments[0])
             && forall i :: 0 <= i < |attachments[1..]| ==> !BadPending(attachments[1..][i]);
    }
  }

  // ---------------------------------------------------------------- Create

  ghost function RowSizes(rows: map<Id, AttachmentRow>): map<Id, int> {
    map a | a in rows :: rows[a].size
  }

  lemma RowSizesInsert(rows: map<Id, AttachmentRow>, a: Id, row: AttachmentRow)
    requires a !in rows
    ensures Sum(RowSizes(rows[a := row])) == Sum(RowSizes(rows)) + row.size
  {
    assert RowSizes(rows[a := row]) == RowSizes(rows)[a := row.size];
    SumInsert(RowSizes(rows), a, row.size);
  }

  /** The rows of a new item add up to its attachments' sizes. */
  lemma {:induction false} NewSizes(attachments: seq<Pending>, draw: Draw, now: Instant, n: nat)
    requires n <= |attachments| == |draw.attachments| == |draw.blobs| && Distinct(draw.attachments)
    ensures Sum(RowSizes(NewRows(attachments, draw, now, n))) == Sizes(attachments[..n])
  {
    if n > 0 {
      NewSizes(attachments, draw, now, n - 1);
      if draw.attachments[n - 1] in NewRows(attachments, draw, now, n - 1) {
        var i := NewRowIndex(attachments, draw, now, n - 1, draw.attachments[n - 1]);
        assert false;
      }
      RowSizesInsert(NewRows(attachments, draw, now, n - 1), draw.attachments[n - 1],
                     RowFor(attachments[n - 1], draw.item, draw.blobs[n - 1], now));
      SizesSnoc(attachments[..n - 1], attachments[n - 1]);
      assert attachments[..n] == attachments[..n - 1] + [attachments[n - 1]];
    }
  }

  lemma {:induction false} SizesSnoc(attachments: seq<Pending>, p: Pending)
    ensures Sizes(attachments + [p]) == Sizes(attachments) + p.size as int
  {
    if attachments != [] {
      SizesSnoc(attachments[1..], p);
      assert (attachments + [p])[1..] == attachments[1..] + [p];
    }
  }

  lemma TimePasses(s: State, now: Instant, ids: set<Id>)
    requires Inv(s) && s.clock <= now
    ensures Inv(s.(clock := now, minted := s.minted + ids))
  {
    UsedShrinks(s.tables.items, s.clock, now);
  }

  /** A state in which only uploads have come or gone. */
  ghost predicate SameButUploads(s: State, u: State) {
    && u == s.(files := u.files)
    && (forall p: Path :: !p.Upload? ==>
          (p in u.files <==> p in s.files) && (p in s.files ==> u.files[p] == s.files[p]))
    && (forall p: Path :: p in u.files ==> p in s.files)
  }

  lemma LosingUploadsKeepsInv(s: State, u: State)
    requires Inv(s) && SameButUploads(s, u)
    ensures Inv(u)
  {
    forall n
      ensures Blob(n) in u.files <==> Named(u.tables.attachments, n)
    {
      assert Blob(n) in s.files <==> Named(s.tables.attachments, n);
    }
    forall n ensures Staged(n) !in u.files { assert Staged(n) !in s.files; }
  }

  // What a committed Create adds. rows are the new attachment rows.

  /** Rows of one item under identifiers never drawn before, with names of their own. */
  ghost predicate NewFor(rows: map<Id, AttachmentRow>, item: Id, minted: set<Id>) {
    && (forall a :: a in rows ==>
          a !in minted && rows[a].itemId == item && rows[a].size >= 0 && rows[a].storageName !in minted)
    && (forall a, b :: a in rows && b in rows && a != b ==> rows[a].storageName != rows[b].storageName)
  }

  /** g has the blobs of f and one more for each row, holding what the contents d record and of the row's size. */
  ghost predicate Backed(rows: map<Id, AttachmentRow>, f: Files, c: map<Id, Bytes>, g: Files, d: map<Id, Bytes>) {
    && (forall n :: Blob(n) in g ==> Blob(n) in f || Named(rows, n))
    && (forall n :: Blob(n) in f ==> Blob(n) in g && g[Blob(n)] == f[Blob(n)])
    && (forall a :: a in rows ==>
          var n := rows[a].storageName;
          Blob(n) in g && n in d && d[n] == g[Blob(n)] && |d[n]| == rows[a].size)
    && (forall n :: Staged(n) in g <==> Staged(n) in f)
    && (forall n :: Upload(n) in g ==> Upload(n) in f)
    && (forall n :: n in c ==> n in d && d[n] == c[n])
    && (forall n :: n in d ==> n in c || Named(rows, n))
  }

  lemma NewRowsFit(attachments: seq<Pending>, draw: Draw, now: Instant, minted: set<Id>)
    requires draw.Fresh(|attachments|, minted)
    requires forall i :: 0 <= i < |attachments| ==> attachments[i].size >= 0
    ensures NewFor(NewRows(attachments, draw, now, |attachments|), draw.item, minted)
  {
    var n := |attachments|;
    var rows := NewRows(attachments, draw, now, n);
    forall a | a in rows
      ensures a !in minted && rows[a].itemId == draw.item && rows[a].size >= 0 && rows[a].storageName !in minted
    {
      var i := NewRowIndex(attachments, draw, now, n, a);
    }
    forall a, b | a in rows && b in rows && a != b ensures rows[a].storageName != rows[b].storageName {
      var i := NewRowIndex(attachments, draw, now, n, a);
      var j := NewRowIndex(attachments, draw, now, n, b);
    }
  }

  lemma BlobContentsAre(placed: Files)
    ensures forall n :: n in BlobContents(placed) <==> Blob(n) in placed
    ensures forall n :: n in BlobContents(placed) ==> BlobContents(placed)[n] == placed[Blob(n)]
  {
  }

  /** Each row's file is among the placed ones, and of the row's size. */
  ghost predicate EachPlaced(rows: map<Id, AttachmentRow>, placed: Files) {
    forall a :: a in rows ==>
      Blob(rows[a].storageName) in placed && |placed[Blob(rows[a].storageName)]| == rows[a].size
  }

  /** The renamed files are exactly the files the new rows name. */
  lemma PlacedMatchesRows(f: Files, attachments: seq<Pending>, draw: Draw, now: Instant)
    requires AllStaged(attachments) && |draw.attachments| == |draw.blobs| == |attachments|
    requires Distinct(draw.attachments) && Distinct(draw.blobs)
    requires SizesMatch(f, attachments)
    requires forall i :: 0 <= i < |attachments| ==> TempOf(attachments[i]) in f
    ensures var rows := NewRows(attachments, draw, now, |attachments|);
            var placed := Placed(f, attachments, draw.blobs, |attachments|);
            && (forall p :: p in placed ==> p.Blob? && p.name in draw.blobs && Named(rows, p.name))
            && EachPlaced(rows, placed)
  {
    hide Placed, NewRows;
    var rows := NewRows(attachments, draw, now, |attachments|);
    var placed := Placed(f, attachments, draw.blobs, |attachments|);
    forall p | p in placed ensures p.Blob? && p.name in draw.blobs && Named(rows, p.name) {
      var i := PlacedIndex(f, attachments, draw.blobs, |attachments|, p);
      NewRowAt(attachments, draw, now, |attachments|, i);
      assert rows[draw.attachments[i]].storageName == p.name;
    }
    forall a | a in rows
      ensures Blob(rows[a].storageName) in placed && |placed[Blob(rows[a].storageName)]| == rows[a].size
    {
      var i := NewRowIndex(attachments, draw, now, |attachments|, a);
      PlacedAt(f, attachments, draw.blobs, |attachments|, i);
      assert TempOf(attachments[i]) in f;
    }
  }

  lemma PlacingBacks(f: Files, c: map<Id, Bytes>, attachments: seq<Pending>, draw: Draw, now: Instant, minted: set<Id>)
    requires AllStaged(attachments) && draw.Fresh(|attachments|, minted)
    requires SizesMatch(f, attachments)
    requires forall i :: 0 <= i < |attachments| ==> TempOf(attachments[i]) in f
    requires forall p: Path :: p in f ==> p.name in minted
    requires forall n :: n in c ==> n in minted
    ensures var placed := Placed(f, attachments, draw.blobs, |attachments|);
            Backed(NewRows(attachments, draw, now, |attachments|), f, c, f - Temps(attachments) + placed,
                   c + BlobContents(placed))
  {
    hide Placed, SizesMatch, BlobContents, Temps, Backed, EachPlaced;
    var placed := Placed(f, attachments, draw.blobs, |attachments|);
    PlacedMatchesRows(f, attachments, draw, now);
    BlobContentsAre(placed);
    TempsAreUploads(attachments);
    forall p | p in placed ensures p.name !in minted {}
    var rows := NewRows(attachments, draw, now, |attachments|);
    AddingBacks(rows, f, c, Temps(attachments), placed, BlobContents(placed), minted);
  }

  lemma TempsAreUploads(attachments: seq<Pending>)
    requires AllStaged(attachments)
    ensures forall p :: p in Temps(attachments) ==> p.Upload?
  {
  }

  lemma AddingBacks(rows: map<Id, AttachmentRow>, f: Files, c: map<Id, Bytes>, gone: set<Path>, placed: Files,
                    more: map<Id, Bytes>,
                    minted: set<Id>)
    requires forall p :: p in gone ==> p.Upload?
    requires forall p :: p in placed ==> p.Blob? && p.name !in minted && Named(rows, p.name)
    requires EachPlaced(rows, placed)
    requires forall n :: n in more <==> Blob(n) in placed
    requires forall n :: n in more ==> more[n] == placed[Blob(n)]
    requires forall p: Path :: p in f ==> p.name in minted
    requires forall n :: n in c ==> n in minted
    ensures Backed(rows, f, c, f - gone + placed, c + more)
  {
    hide Named;
  }

  /** The state a committed Create leaves, from the state s it was called in. */
  ghost predicate Created(s: State, input: CreateInput, now: Instant, draw: Draw, rows: map<Id, AttachmentRow>,
                          u: State) {
    var row := NewItem(input, now, |input.text| + Sizes(input.attachments));
    && u.tables.items == s.tables.items[draw.item := row] && draw.item !in s.minted
    && u.tables.attachments == s.tables.attachments + rows
    && u.tables.keys == (if input.key.Key? then s.tables.keys[input.key.hash := draw.item] else s.tables.keys)
    && (input.key.Key? ==> input.key.hash !in s.tables.keys)
    && u.clock == now && u.quota == s.quota && u.minted == s.minted + draw.Ids()
    && 0 < input.ttl && 0 <= row.totalSize <= s.quota - Sum(ActiveSizes(s.tables.items, now))
    && Sum(RowSizes(rows)) == Sizes(input.attachments)
  }

  lemma StoreOutcomes(t: State, input: CreateInput, draw: Draw, fault: Fault, total: int)
    requires |draw.attachments| == |draw.blobs| == |input.attachments|
    requires AllStaged(input.attachments)
    ensures var (u, r) := StoreSpec(t, input, draw, fault, total);
            if r.Ok? then
              && r == Ok(CreatedItem(input, draw, t.clock, total))
              && (forall i :: 0 <= i < |input.attachments| ==> TempOf(input.attachments[i]) in t.files)
              && (var placed := Placed(t.files, input.attachments, draw.blobs, |input.attachments|);
                  u == t.(tables := Inserted(t.tables, input, draw, t.clock, total),
                          files := t.files - Temps(input.attachments) + placed,
                          contents := t.contents + BlobContents(placed)))
            else SameButUploads(t, u)
  {
    if Movable(t.files, input.attachments, fault, 0) == |input.attachments| {
      MovableAll(t.files, input.attachments, fault, 0);
    }
  }

  ghost predicate Replays(s: State, input: CreateInput) {
    input.key.Key? && input.key.hash in s.tables.keys
  }

  /** A Create that commits nothing changes nothing but the request's own uploads. */
  lemma CreateFailure(s: State, input: CreateInput, now: Instant, draw: Draw, fault: Fault)
    requires |draw.attachments| == |draw.blobs| == |input.attachments|
    requires CreateSpec(s, input, now, draw, fault).1.Err? || Replays(s, input)
    ensures SameButUploads(s.(clock := now, minted := s.minted + draw.Ids()), CreateSpec(s, input, now, draw, fault).0)
  {
    hide Sum, StoreSpec;
    var t := s.(clock := now, minted := s.minted + draw.Ids());
    var admitted := Admit(s.quota, |input.text|, input.attachments);
    if admitted.Ok? {
      AdmittedAreStaged(s.quota, |input.text|, input.attachments);
      StoreOutcomes(t, input, draw, fault, admitted.value);
    }
  }

  lemma GoesThrough(s: State, input: CreateInput, now: Instant, draw: Draw)
    requires |draw.attachments| == |draw.blobs| == |input.attachments| && !Replays(s, input)
    ensures CreateSpec(s, input, now, draw, NoFault).1.Ok? <==>
              && !BadInput(input) && (forall i :: 0 <= i < |input.attachments| ==> !BadPending(input.attachments[i]))
              && |input.text| + Sizes(input.attachments) + Sum(ActiveSizes(s.tables.items, now)) <= s.quota
              && |input.text| + Sizes(input.attachments) <= s.quota
              && AllStaged(input.attachments)
              && (forall i :: 0 <= i < |input.attachments| ==> Renames(s.files, input.attachments, NoFault, i))
  {
    hide Sum, ActiveSizes, Renames, Movable, Placed, Inserted, BlobContents, Temps, Sizes;
    AdmitMeaning(s.quota, |input.text|, input.attachments);
    if Admit(s.quota, |input.text|, input.attachments).Ok? {
      AdmittedAreStaged(s.quota, |input.text|, input.attachments);
      MovableStops(s.files, input.attachments, NoFault, 0);
    }
  }

  lemma WellFormedEach(attachments: seq<Pending>)
    ensures (forall i :: 0 <= i < |attachments| ==> !BadPending(attachments[i])) <==>
            forall p :: p in attachments ==>
              p.tempPath.Some? && p.originalName != "" && 0 <= p.size && |p.sha256| == 32
  {
    if forall p :: p in attachments ==> p.tempPath.Some? && p.originalName != "" && 0 <= p.size && |p.sha256| == 32 {
      forall i | 0 <= i < |attachments| ensures !BadPending(attachments[i]) { assert attachments[i] in attachments; }
    }
  }

  /** Without a failing call all renames succeed exactly if every upload is there, for one attachment only. */
  lemma RenamesAll(files: Files, attachments: seq<Pending>)
    requires AllStaged(attachments)
    ensures (forall i :: 0 <= i < |attachments| ==> Renames(files, attachments, NoFault, i)) <==>
            && (forall p :: p in attachments ==> p.tempPath.Some? && TempOf(p) in files)
            && (forall i, j :: 0 <= i < j < |attachments| ==> attachments[i].tempPath != attachments[j].tempPath)
  {
    if forall i :: 0 <= i < |attachments| ==> Renames(files, attachments, NoFault, i) {
      forall p | p in attachments ensures TempOf(p) in files {
        var i :| 0 <= i < |attachments| && attachments[i] == p;
        assert Renames(files, attachments, NoFault, i);
      }
      forall i, j | 0 <= i < j < |attachments| ensures attachments[i].tempPath != attachments[j].tempPath {
        assert Renames(files, attachments, NoFault, j);
        assert attachments[..j][i] == attachments[i];
      }
    } else if forall i, j :: 0 <= i < j < |attachments| ==> attachments[i].tempPath != attachments[j].tempPath {
      var i :| 0 <= i < |attachments| && !Renames(files, attachments, NoFault, i);
      assert attachments[i] in attachments;
    }
  }

  /** Without a failing call, a request whose key is new succeeds exactly when it is well formed, it and what is
      active at that time fit into the quota together, and each upload is there, for one attachment only. A text or
      a name with a NUL makes the INSERT of its row a failing call, however often it is retried: PostgreSQL keeps
      no NUL in a text column. */
  lemma CreateSucceeds(s: State, input: CreateInput, now: Instant, draw: Draw)
    requires |draw.attachments| == |draw.blobs| == |input.attachments| && !Replays(s, input)
    ensures CreateSpec(s, input, now, draw, NoFault).1.Ok? <==>
              && input.creator != "" && input.actor != "" && 0 < input.ttl && !input.key.WrongLength?
              && (input.text != [] || input.attachments != [])
              && (forall p :: p in input.attachments ==>
                    p.tempPath.Some? && p.originalName != "" && 0 <= p.size && |p.sha256| == 32)
              && (var size := |input.text| + Sizes(input.attachments);
                  && size <= s.quota
                  && size + Sum(TotalSizes(s.tables.items, Unexpired(s.tables.items, now))) <= s.quota)
              && (forall p :: p in input.attachments ==> p.tempPath.Some? && TempOf(p) in s.files)
              && (forall i, j :: 0 <= i < j < |input.attachments| ==>
                    input.attachments[i].tempPath != input.attachments[j].tempPath)
  {
    hide CreateSpec, Sum, ActiveSizes, Renames, Sizes, TotalSizes, Unexpired;
    GoesThrough(s, input, now, draw);
    ActiveSizesAre(s.tables.items, now);
    WellFormedEach(input.attachments);
    if AllStaged(input.attachments) { RenamesAll(s.files, input.attachments); }
  }

  /** What an admitted request satisfies, and the state its commit leaves. */
  lemma CreateCommits(s: State, input: CreateInput, now: Instant, draw: Draw, fault: Fault)
    requires |draw.attachments| == |draw.blobs| == |input.attachments|
    requires CreateSpec(s, input, now, draw, fault).1.Ok? && !Replays(s, input)
    ensures !BadInput(input) && AllStaged(input.attachments)
    ensures forall i :: 0 <= i < |input.attachments| ==> !BadPending(input.attachments[i])
    ensures forall i :: 0 <= i < |input.attachments| ==> TempOf(input.attachments[i]) in s.files
    ensures var total := |input.text| + Sizes(input.attachments);
            var placed := Placed(s.files, input.attachments, draw.blobs, |input.attachments|);
            && 0 <= total <= s.quota - Sum(ActiveSizes(s.tables.items, now))
            && CreateSpec(s, input, now, draw, fault)
               == (State(Inserted(s.tables, input, draw, now, total), s.files - Temps(input.attachments) + placed,
                         now, s.quota, s.minted + draw.Ids(), s.contents + BlobContents(placed)),
                   Ok(CreatedItem(input, draw, now, total)))
  {
    hide Sum, Placed, Inserted, StoreSpec, BlobContents, ActiveSizes, CreatedItem, Temps;
    var t := s.(clock := now, minted := s.minted + draw.Ids());
    AdmitMeaning(s.quota, |input.text|, input.attachments);
    AdmittedAreStaged(s.quota, |input.text|, input.attachments);
    StoreOutcomes(t, input, draw, fault, |input.text| + Sizes(input.attachments));
  }

  /** What a committed Create makes, field by field: the new item in the table and in the answer, which expires its TTL
      after the time of the call, and an attachment for each upload, in the request's order. */
  lemma CreateMakes(s: State, input: CreateInput, now: Instant, draw: Draw, fault: Fault)
    requires |draw.attachments| == |draw.blobs| == |input.attachments| && Distinct(draw.attachments)
    requires CreateSpec(s, input, now, draw, fault).1.Ok? && !Replays(s, input)
    ensures var (u, r) := CreateSpec(s, input, now, draw, fault);
            && draw.item in u.tables.items && r.value.id == draw.item && r.value.row == u.tables.items[draw.item]
            && var row := u.tables.items[draw.item];
               && row.text == input.text && row.creator == input.creator && row.actor == input.actor
               && row.createdAt == now && row.expiresAt == now + input.ttl
               && row.totalSize == |input.text| + Sizes(input.attachments)
    ensures var (u, r) := CreateSpec(s, input, now, draw, fault);
            && |r.value.attachments| == |input.attachments|
            && forall k :: 0 <= k < |input.attachments| ==>
                 var (x, p) := (r.value.attachments[k], input.attachments[k]);
                 && x.id == draw.attachments[k] && x.id in u.tables.attachments && u.tables.attachments[x.id] == x.row
                 && x.row.itemId == draw.item && x.row.storageName == draw.blobs[k] && x.row.createdAt == now
                 && x.row.originalName == p.originalName && x.row.mediaType == p.mediaType
                 && x.row.size == p.size as int && x.row.sha256 == p.sha256
  {
    hide Sum, CreateSpec, Placed, Temps, BlobContents, ActiveSizes, Admit;
    CreateCommits(s, input, now, draw, fault);
    var n := |input.attachments|;
    forall k | 0 <= k < n
      ensures var rows := NewRows(input.attachments, draw, now, n);
              draw.attachments[k] in rows
              && rows[draw.attachments[k]] == RowFor(input.attachments[k], draw.item, draw.blobs[k], now)
    {
      NewRowAt(input.attachments, draw, now, n, k);
    }
  }

  lemma CreateSuccess(s: State, input: CreateInput, now: Instant, draw: Draw, fault: Fault)
    returns (rows: map<Id, AttachmentRow>)
    requires draw.Fresh(|input.attachments|, s.minted)
    requires CreateSpec(s, input, now, draw, fault).1.Ok? && !Replays(s, input)
    ensures Created(s, input, now, draw, rows, CreateSpec(s, input, now, draw, fault).0)
    ensures rows == NewRows(input.attachments, draw, now, |input.attachments|)
    ensures NewFor(rows, draw.item, s.minted)
  {
    hide Sum, CreateSpec, Placed, NewRows, NewFor, Sizes, Temps, BlobContents, ActiveSizes, RowSizes, CreatedItem,
         Admit;
    rows := NewRows(input.attachments, draw, now, |input.attachments|);
    CreateCommits(s, input, now, draw, fault);
    NewRowsFit(input.attachments, draw, now, s.minted);
    NewSizes(input.attachments, draw, now, |input.attachments|);
    assert input.attachments[..|input.attachments|] == input.attachments;
  }

  lemma CreatedFiles(s: State, input: CreateInput, now: Instant, draw: Draw, fault: Fault)
    requires Known(s) && draw.Fresh(|input.attachments|, s.minted) && SizesMatch(s.files, input.attachments)
    requires CreateSpec(s, input, now, draw, fault).1.Ok? && !Replays(s, input)
    ensures var u := CreateSpec(s, input, now, draw, fault).0;
            Backed(NewRows(input.attachments, draw, now, |input.attachments|), s.files, s.contents, u.files, u.contents)
  {
    CreateCommits(s, input, now, draw, fault);
    PlacingBacks(s.files, s.contents, input.attachments, draw, now, s.minted);
  }

  /** The rows' identifiers are among those the call drew. */
  lemma RowsMinted(attachments: seq<Pending>, draw: Draw, now: Instant)
    requires |draw.attachments| == |draw.blobs| == |attachments| && Distinct(draw.attachments)
    ensures var rows := NewRows(attachments, draw, now, |attachments|);
            forall a :: a in rows ==> a in draw.Ids() && rows[a].storageName in draw.Ids()
  {
    var rows := NewRows(attachments, draw, now, |attachments|);
    forall a | a in rows ensures a in draw.Ids() && rows[a].storageName in draw.Ids() {
      var i := NewRowIndex(attachments, draw, now, |attachments|, a);
      assert draw.blobs[i] in draw.blobs;
    }
  }

  lemma AddingKeepsKnown(s: State, u: State, rows: map<Id, AttachmentRow>, item: Id, row: ItemRow)
    requires Known(s) && Backed(rows, s.files, s.contents, u.files, u.contents)
    requires u.tables.items == s.tables.items[item := row] && u.tables.attachments == s.tables.attachments + rows
    requires s.minted <= u.minted && item in u.minted
    requires forall a :: a in rows ==> a in u.minted && rows[a].storageName in u.minted
    ensures Known(u)
  {
    forall p: Path | p in u.files ensures p.name in u.minted {
      match p
      case Blob(n) => if !Named(rows, n) { assert p in s.files; }
      case Upload(n) => assert p in s.files;
      case Staged(n) => assert p in s.files;
    }
  }

  lemma AddingKeepsConstraints(s: State, u: State, rows: map<Id, AttachmentRow>, item: Id, row: ItemRow)
    requires Known(s) && Constraints(s.tables) && NewFor(rows, item, s.minted) && item !in s.minted
    requires row.totalSize >= 0
    requires u.tables.items == s.tables.items[item := row] && u.tables.attachments == s.tables.attachments + rows
    requires u.tables.keys == s.tables.keys
             || exists k :: k !in s.tables.keys && u.tables.keys == s.tables.keys[k := item]
    ensures Constraints(u.tables)
  {
  }

  lemma NamedByEither(before: map<Id, AttachmentRow>, rows: map<Id, AttachmentRow>, n: Id)
    requires forall a :: a in rows ==> a !in before
    ensures Named(before + rows, n) <==> Named(before, n) || Named(rows, n)
    ensures Named(rows, n) ==> exists a :: a in rows && rows[a].storageName == n
  {
    if Named(before, n) {
      var a :| a in before && before[a].storageName == n;
      assert (before + rows)[a].storageName == n;
    } else if Named(rows, n) {
      var a :| a in rows && rows[a].storageName == n;
      assert (before + rows)[a].storageName == n;
    }
  }

  lemma AddingKeepsBytes(s: State, u: State, rows: map<Id, AttachmentRow>, a: Id)
    requires BlobsAgree(s) && Backed(rows, s.files, s.contents, u.files, u.contents)
    requires a in rows || a in s.tables.attachments
    ensures var row := (s.tables.attachments + rows)[a];
            && row.storageName in u.contents && Blob(row.storageName) in u.files
            && u.contents[row.storageName] == u.files[Blob(row.storageName)]
            && |u.contents[row.storageName]| == row.size
  {
    if a !in rows {
      assert Named(s.tables.attachments, s.tables.attachments[a].storageName);
    }
  }

  lemma AddingKeepsBlobs(s: State, u: State, rows: map<Id, AttachmentRow>, item: Id)
    requires Known(s) && BlobsAgree(s) && NewFor(rows, item, s.minted)
    requires Backed(rows, s.files, s.contents, u.files, u.contents)
    requires u.tables.attachments == s.tables.attachments + rows
    ensures BlobsAgree(u)
  {
    hide Named;
    forall n ensures Blob(n) in u.files <==> Named(u.tables.attachments, n) {
      NamedByEither(s.tables.attachments, rows, n);
      if Named(rows, n) { var a :| a in rows && rows[a].storageName == n; }
    }
    forall a | a in u.tables.attachments
      ensures var row := u.tables.attachments[a];
              row.storageName in u.contents && Blob(row.storageName) in u.files
              && u.contents[row.storageName] == u.files[Blob(row.storageName)]
              && |u.contents[row.storageName]| == row.size
    {
      hide Known, NewFor, BlobsAgree, Backed;
      AddingKeepsBytes(s, u, rows, a);
    }
  }

  lemma OwnSizes(before: map<Id, AttachmentRow>, rows: map<Id, AttachmentRow>, t: Tables, item: Id)
    requires t.attachments == before + rows
    requires forall a :: a in rows ==> rows[a].itemId == item
    requires forall a :: a in before ==> before[a].itemId != item
    ensures AttachmentSizes(t, item) == RowSizes(rows)
  {
  }

  lemma OtherSizes(t: Tables, u: Tables, rows: map<Id, AttachmentRow>, id: Id)
    requires u.attachments == t.attachments + rows
    requires forall a :: a in rows ==> a !in t.attachments && rows[a].itemId != id
    ensures AttachmentSizes(u, id) == AttachmentSizes(t, id)
  {
  }

  lemma AddingKeepsTotals(s: State, u: State, rows: map<Id, AttachmentRow>, item: Id, row: ItemRow)
    requires Known(s) && Constraints(s.tables) && TotalsExact(s.tables) && NewFor(rows, item, s.minted)
    requires item !in s.minted
    requires u.tables.items == s.tables.items[item := row] && u.tables.attachments == s.tables.attachments + rows
    requires row.totalSize == |row.text| + Sum(RowSizes(rows))
    ensures TotalsExact(u.tables)
  {
    hide Sum, AttachmentSizes, RowSizes;
    forall id | id in u.tables.items
      ensures u.tables.items[id].totalSize == |u.tables.items[id].text| + Sum(AttachmentSizes(u.tables, id))
    {
      if id == item {
        OwnSizes(s.tables.attachments, rows, u.tables, item);
      } else {
        OtherSizes(s.tables, u.tables, rows, id);
      }
    }
  }

  lemma NewIsAbsent(s: State, id: Id)
    requires Known(s) && id !in s.minted
    ensures id !in s.tables.items
  {
  }

  lemma AddingKeepsQuota(s: State, u: State, item: Id, row: ItemRow)
    requires item !in s.tables.items && u.tables.items == s.tables.items[item := row] && Active(row, u.clock)
    requires row.totalSize <= s.quota - Sum(ActiveSizes(s.tables.items, u.clock)) && u.quota == s.quota
    ensures WithinQuota(u)
  {
    hide Sum, ActiveSizes;
    UsedAfterInsert(s.tables.items, item, row, u.clock);
  }

  /** A committed Create keeps the invariant. */
  lemma CommitKeepsInv(s: State, input: CreateInput, now: Instant, draw: Draw, rows: map<Id, AttachmentRow>, u: State)
    requires Inv(s) && s.clock <= now
    requires Created(s, input, now, draw, rows, u) && NewFor(rows, draw.item, s.minted)
    requires Backed(rows, s.files, s.contents, u.files, u.contents)
    requires forall a :: a in rows ==> a in draw.Ids() && rows[a].storageName in draw.Ids()
    ensures Inv(u)
  {
    hide Sum, Known, Constraints, BlobsAgree, TotalsExact, WithinQuota, NewFor, Backed, ActiveSizes, RowSizes, Sizes;
    var row := NewItem(input, now, |input.text| + Sizes(input.attachments));
    NewIsAbsent(s, draw.item);
    AddingKeepsKnown(s, u, rows, draw.item, row);
    AddingKeepsConstraints(s, u, rows, draw.item, row);
    AddingKeepsBlobs(s, u, rows, draw.item);
    AddingKeepsTotals(s, u, rows, draw.item, row);
    AddingKeepsQuota(s, u, draw.item, row);
  }

  lemma CreateKeepsInv(s: State, input: CreateInput, now: Instant, draw: Draw, fault: Fault)
    requires Inv(s) && Enabled(s, CreateOp(input, now, draw, fault))
    ensures Inv(CreateSpec(s, input, now, draw, fault).0)
  {
    hide Sum, Constraints, BlobsAgree, TotalsExact, WithinQuota, NewFor, Backed, Created, CreateSpec, SizesMatch, Known;
    var (u, r) := CreateSpec(s, input, now, draw, fault);
    if r.Ok? && !Replays(s, input) {
      var rows := CreateSuccess(s, input, now, draw, fault);
      CreatedFiles(s, input, now, draw, fault);
      RowsMinted(input.attachments, draw, now);
      CommitKeepsInv(s, input, now, draw, rows, u);
    } else {
      CreateFailure(s, input, now, draw, fault);
      TimePasses(s, now, draw.Ids());
      LosingUploadsKeepsInv(s.(clock := now, minted := s.minted + draw.Ids()), u);
    }
  }

  // ---------------------------------------------------------------- Delete and UpdateExpiry

  lemma WithoutKeepsConstraints(t: Tables, id: Id)
    requires Constraints(t)
    ensures Constraints(Without(t, id))
  {
  }

  lemma WithoutKeepsTotals(t: Tables, id: Id)
    requires TotalsExact(t)
    ensures TotalsExact(Without(t, id))
  {
    hide Sum;
    var u := Without(t, id);
    forall j | j in u.items ensures u.items[j].totalSize == |u.items[j].text| + Sum(AttachmentSizes(u, j)) {
      assert AttachmentSizes(u, j) == AttachmentSizes(t, j);
    }
  }

  lemma WithoutKeepsBlobs(s: State, id: Id)
    requires BlobsAgree(s) && Constraints(s.tables)
    ensures BlobsAgree(s.(tables := Without(s.tables, id), files := s.files - BlobPaths(StorageNames(s.tables, id))))
  {
    var u := s.(tables := Without(s.tables, id), files := s.files - BlobPaths(StorageNames(s.tables, id)));
    var rows := s.tables.attachments;
    forall n ensures Blob(n) in u.files <==> Named(u.tables.attachments, n) {
      if Blob(n) in u.files {
        assert Named(rows, n);
        var a :| a in rows && rows[a].storageName == n;
        assert a in u.tables.attachments;
      }
      if Named(u.tables.attachments, n) {
        var a :| a in u.tables.attachments && u.tables.attachments[a].storageName == n;
        assert a in rows && rows[a].storageName == n && Named(rows, n);
      }
    }
    forall a | a in u.tables.attachments
      ensures var row := u.tables.attachments[a];
              row.storageName in u.contents && Blob(row.storageName) in u.files
              && u.contents[row.storageName] == u.files[Blob(row.storageName)]
              && |u.contents[row.storageName]| == row.size
    {
      assert Named(u.tables.attachments, u.tables.attachments[a].storageName);
    }
  }

  lemma DeleteKeepsInv(s: State, id: Id, now: Instant, staged: set<Id>, fault: DeleteFault)
    requires Inv(s) && s.clock <= now
    ensures Inv(DeleteSpec(s, id, now, staged, fault).0)
  {
    hide Sum;
    var t := s.(clock := now, minted := s.minted + staged);
    TimePasses(s, now, staged);
    if DeleteSpec(s, id, now, staged, fault).1.Ok? {
      WithoutKeepsConstraints(t.tables, id);
      WithoutKeepsTotals(t.tables, id);
      WithoutKeepsBlobs(t, id);
      var small, large := ActiveSizes(Without(t.tables, id).items, now), ActiveSizes(t.tables.items, now);
      SumSubmap(small, large);
    }
  }

  lemma NewExpiryKeepsTotals(t: Tables, id: Id, row: ItemRow)
    requires TotalsExact(t) && id in t.items && row == t.items[id].(expiresAt := row.expiresAt)
    ensures TotalsExact(t.(items := t.items[id := row]))
  {
    hide Sum;
    var u := t.(items := t.items[id := row]);
    forall j | j in u.items ensures u.items[j].totalSize == |u.items[j].text| + Sum(AttachmentSizes(u, j)) {
      assert AttachmentSizes(u, j) == AttachmentSizes(t, j);
    }
  }

  lemma NewExpiryKeepsRest(s: State, id: Id, row: ItemRow)
    requires Known(s) && Constraints(s.tables) && BlobsAgree(s)
    requires id in s.tables.items && row == s.tables.items[id].(expiresAt := row.expiresAt)
    ensures var u := s.(tables := s.tables.(items := s.tables.items[id := row]));
            Known(u) && Constraints(u.tables) && BlobsAgree(u)
  {
    var u := s.(tables := s.tables.(items := s.tables.items[id := row]));
    forall n ensures Blob(n) in u.files <==> Named(u.tables.attachments, n) {
      assert Blob(n) in s.files <==> Named(s.tables.attachments, n);
    }
  }

  lemma ExpiryKeepsInv(s: State, id: Id, ttl: int, now: Instant, fails: bool)
    requires Inv(s) && s.clock <= now
    ensures Inv(UpdateExpirySpec(s, id, ttl, now, fails).0)
  {
    hide Sum, GetSpec, Known, Constraints, BlobsAgree, TotalsExact;
    var t := s.(clock := now);
    assert t == s.(clock := now, minted := s.minted + {});
    TimePasses(s, now, {});
    var u := UpdateExpirySpec(s, id, ttl, now, fails).0;
    if u != t {
      var row := s.tables.items[id].(expiresAt := now + ttl);
      NewExpiryKeepsTotals(s.tables, id, row);
      NewExpiryKeepsRest(t, id, row);
      assert ActiveSizes(u.tables.items, now) == ActiveSizes(t.tables.items, now);
    }
  }

  // ---------------------------------------------------------------- every run

  lemma StagingKeepsInv(s: State, name: Id, bytes: Bytes)
    requires Inv(s) && name !in s.minted
    ensures Inv(s.(files := s.files[Upload(name) := bytes], minted := s.minted + {name}))
  {
    hide Sum;
    var u := s.(files := s.files[Upload(name) := bytes], minted := s.minted + {name});
    forall n ensures Blob(n) in u.files <==> Named(u.tables.attachments, n) {
      assert Blob(n) in s.files <==> Named(s.tables.attachments, n);
    }
  }

  lemma RemovingKeepsInv(s: State, name: Id)
    requires Inv(s)
    ensures Inv(s.(files := s.files - {Upload(name)}))
  {
    hide Sum, Known, Constraints, BlobsAgree, TotalsExact, WithinQuota;
    LosingUploadsKeepsInv(s, s.(files := s.files - {Upload(name)}));
  }

  lemma StepKeepsInv(s: State, op: Op)
    requires Inv(s) && Enabled(s, op)
    ensures Inv(Apply(s, op))
  {
    hide Sum, Inv, SizesMatch, CreateSpec, DeleteSpec, UpdateExpirySpec;
    match op
    case StageUpload(name, bytes) => StagingKeepsInv(s, name, bytes);
    case RemoveUpload(name) => RemovingKeepsInv(s, name);
    case CreateOp(input, now, draw, fault) => CreateKeepsInv(s, input, now, draw, fault);
    case DeleteOp(id, now, staged, fault) => DeleteKeepsInv(s, id, now, staged, fault);
    case ExpiryOp(id, ttl, now, fails) => ExpiryKeepsInv(s, id, ttl, now, fails);
  }

  /** Every reachable state satisfies the invariant, whatever failed on the way. */
  lemma {:induction false} RunKeepsInv(s: State, ops: seq<Op>)
    requires Inv(s) && ValidRun(s, ops)
    ensures Inv(Run(s, ops))
    decreases |ops|
  {
    if ops != [] {
      StepKeepsInv(s, ops[0]);
      RunKeepsInv(Apply(s, ops[0]), ops[1..]);
    }
  }
}
