/** Drop's persistent state, and what each operation of the store does to it,
    written as functions from states to states. The class in DropStore performs
    the same operations step by step and is proved against these functions. */
module DropState {
  import opened Prelude

  /** A value of randomID(); only its identity and its order matter. */
  type Id = nat

  /** Microseconds: what PostgreSQL keeps of a time. */
  type Instant = int

  /** blobs/blob-<id>, tmp/upload-<id> and tmp/delete-<id>. */
  datatype Path = Blob(name: Id) | Upload(name: Id) | Staged(name: Id)

  type Files = map<Path, Bytes>

  /** SHA-256 of an idempotency key, named by its preimage: equal hashes mean equal preimages. */
  datatype KeyHash = KeyHash(preimage: string)

  /** CreateInput.IdempotencyKey: empty, 32 bytes, or any other length. */
  datatype KeyField = NoKey | Key(hash: KeyHash) | WrongLength

  /** TempPath is "" (None) or names a file of the temporary directory. */
  datatype Pending = Pending(tempPath: Option<Id>, originalName: string, mediaType: string, size: int64, sha256: Bytes)

  datatype CreateInput =
    CreateInput(text: Bytes, creator: string, actor: string, ttl: int, key: KeyField, attachments: seq<Pending>)

  datatype ItemRow =
    ItemRow(text: Bytes, creator: string, actor: string, createdAt: Instant, expiresAt: Instant, totalSize: int)

  datatype AttachmentRow =
    AttachmentRow(itemId: Id, originalName: string, storageName: Id, mediaType: string, size: int, sha256: Bytes,
                  createdAt: Instant)

  datatype Attachment = Attachment(id: Id, row: AttachmentRow)

  datatype Item = Item(id: Id, row: ItemRow, attachments: seq<Attachment>)

  datatype Tables = Tables(items: map<Id, ItemRow>, attachments: map<Id, AttachmentRow>, keys: map<KeyHash, Id>)

  /** minted: every identifier drawn so far; contents: the bytes committed under each storage name. */
  datatype State =
    State(tables: Tables, files: Files, clock: Instant, quota: int, minted: set<Id>, contents: map<Id, Bytes>)

  datatype Error = NotFound | InvalidInput | QuotaExceeded | Internal

  type Result<T> = Outcome<T, Error>

  // ---------------------------------------------------------------- randomness

  /** The identifiers one Create call draws: the item's, and two per attachment. */
  datatype Draw = Draw(item: Id, attachments: seq<Id>, blobs: seq<Id>) {
    ghost function Ids(): set<Id> { {item} + Elements(attachments) + Elements(blobs) }

    /** n attachments' worth of distinct identifiers never drawn before. */
    ghost predicate Fresh(n: nat, minted: set<Id>) {
      && |attachments| == |blobs| == n
      && Distinct(attachments) && Distinct(blobs)
      && item !in minted
      && (forall i :: 0 <= i < n ==> attachments[i] !in minted)
      && (forall i :: 0 <= i < n ==> blobs[i] !in minted)
    }
  }

  ghost predicate FreshSeq(ids: seq<Id>, minted: set<Id>) {
    Distinct(ids) && Elements(ids) !! minted
  }

  // ---------------------------------------------------------------- admission

  predicate BadPending(p: Pending) {
    p.tempPath.None? || p.originalName == "" || p.size < 0 || |p.sha256| != 32
  }

  predicate BadInput(input: CreateInput) {
    || input.creator == "" || input.actor == "" || input.ttl <= 0
    || (input.text == [] && input.attachments == [])
    || input.key.WrongLength?
  }

  /** The attachment loop of Create: the first offending attachment decides the error. */
  function Admit(quota: int, total: int, attachments: seq<Pending>): (r: Result<int>)
    decreases |attachments|
  {
    if attachments == [] then Ok(total)
    else if BadPending(attachments[0]) then Err(InvalidInput)
    else if attachments[0].size as int > quota - total then Err(QuotaExceeded)
    else Admit(quota, total + attachments[0].size as int, attachments[1..])
  }

  ghost function Sizes(attachments: seq<Pending>): int {
    if attachments == [] then 0 else attachments[0].size as int + Sizes(attachments[1..])
  }

  // ---------------------------------------------------------------- queries

  predicate Active(row: ItemRow, now: Instant) { row.expiresAt > now }

  ghost function ActiveSizes(items: map<Id, ItemRow>, now: Instant): map<Id, int> {
    map id | id in items && Active(items[id], now) :: items[id].totalSize
  }

  /** SELECT COALESCE(SUM(total_size), 0) FROM items WHERE expires_at > now(). */
  ghost function Used(s: State): int { Sum(ActiveSizes(s.tables.items, s.clock)) }

  function StorageNames(t: Tables, id: Id): set<Id> {
    set a | a in t.attachments && t.attachments[a].itemId == id :: t.attachments[a].storageName
  }

  /** A sort key (created_at, id), ordered like PostgreSQL's row comparison. */
  datatype Stamp = Stamp(at: Instant, id: Id)

  predicate Before(x: Stamp, y: Stamp) { x.at < y.at || (x.at == y.at && x.id < y.id) }

  ghost predicate IsLatest(s: set<Stamp>, m: Stamp) {
    m in s && forall k :: k in s ==> k == m || Before(k, m)
  }

  lemma {:induction false} LatestExists(s: set<Stamp>)
    requires s != {}
    ensures exists m :: IsLatest(s, m)
  {
    var x :| x in s;
    if s == {x} {
      assert IsLatest(s, x);
    } else {
      LatestExists(s - {x});
      var m :| IsLatest(s - {x}, m);
      assert forall k :: k in s ==> k == x || k in s - {x};
      assert IsLatest(s, if Before(m, x) then x else m);
    }
  }

  function Latest(s: set<Stamp>): (m: Stamp)
    requires s != {}
    ensures m in s && forall k :: k in s ==> k == m || Before(k, m)
  {
    LatestExists(s);
    var m :| m in s && forall k :: k in s ==> k == m || Before(k, m);
    m
  }

  /** ORDER BY created_at, id. */
  function Ascending(s: set<Stamp>): (r: seq<Stamp>)
    ensures |r| == |s|
  {
    if s == {} then [] else var m := Latest(s); Ascending(s - {m}) + [m]
  }

  /** The query's result lists exactly the set, strictly increasing. */
  lemma {:induction false} AscendingSorts(s: set<Stamp>)
    ensures Elements(Ascending(s)) == s
    ensures Sorted(Ascending(s))
  {
    if s != {} {
      var m := Latest(s);
      var rest := Ascending(s - {m});
      AscendingSorts(s - {m});
      forall x ensures x in Elements(rest + [m]) <==> x in s {
        assert x in rest + [m] <==> x in rest || x == m;
        assert x in rest <==> x in Elements(rest);
      }
      forall i | 0 <= i < |rest| ensures Before(rest[i], m) {
        assert rest[i] in Elements(rest);
      }
    }
  }

  ghost predicate Sorted(r: seq<Stamp>) {
    forall i, j :: 0 <= i < j < |r| ==> Before(r[i], r[j])
  }

  function AttachmentStamps(t: Tables, id: Id): (r: set<Stamp>) {
    set a | a in t.attachments && t.attachments[a].itemId == id :: Stamp(t.attachments[a].createdAt, a)
  }

  /** An item's attachments in the order loadAttachments delivers them. */
  function AttachmentsOf(t: Tables, id: Id): (r: seq<Attachment>)
    ensures |r| == |AttachmentStamps(t, id)|
  {
    var stamps := Ascending(AttachmentStamps(t, id));
    AscendingSorts(AttachmentStamps(t, id));
    assert forall i :: 0 <= i < |stamps| ==> stamps[i] in Elements(stamps);
    seq(|stamps|, i requires 0 <= i < |stamps| => Attachment(stamps[i].id, t.attachments[stamps[i].id]))
  }

  /** Get: an expired item is as absent as a deleted one. */
  function GetSpec(t: Tables, now: Instant, id: Id): (r: Result<Item>) {
    if id in t.items && Active(t.items[id], now) then Ok(Item(id, t.items[id], AttachmentsOf(t, id)))
    else Err(NotFound)
  }

  // ---------------------------------------------------------------- Create

  /** The call that fails, if any; the first failure ends Create, so one is enough.
      FailRead is a failing Get on the replay path. */
  datatype Fault =
    | NoFault | FailBegin | FailLookup | FailRead | FailUsage
    | FailRename(k: nat) | FailInsertItem | FailInsertAttachment(k: nat) | FailInsertKey | FailCommit

  function TempOf(p: Pending): Path
    requires p.tempPath.Some?
  { Upload(p.tempPath.value) }

  predicate AllStaged(attachments: seq<Pending>) {
    forall i :: 0 <= i < |attachments| ==> attachments[i].tempPath.Some?
  }

  ghost function Temps(attachments: seq<Pending>): set<Path>
    requires AllStaged(attachments)
  {
    set i | 0 <= i < |attachments| :: TempOf(attachments[i])
  }

  /** How many renames succeed: up to the failing call, or to a source that is
      missing or was already moved by an earlier attachment of this call. */
  ghost function Movable(files: Files, attachments: seq<Pending>, fault: Fault, i: nat): (m: nat)
    requires AllStaged(attachments) && i <= |attachments|
    ensures i <= m <= |attachments|
    decreases |attachments| - i
  {
    if i == |attachments| || fault == FailRename(i) || TempOf(attachments[i]) !in files
       || TempOf(attachments[i]) in Temps(attachments[..i])
    then i
    else Movable(files, attachments, fault, i + 1)
  }

  /** The blobs that the first n renames create, with the bytes of their sources. */
  ghost function Placed(files: Files, attachments: seq<Pending>, blobs: seq<Id>, n: nat): Files
    requires AllStaged(attachments) && n <= |attachments| <= |blobs|
    requires forall i :: 0 <= i < n ==> TempOf(attachments[i]) in files
  {
    if n == 0 then map[]
    else Placed(files, attachments, blobs, n - 1)[Blob(blobs[n - 1]) := files[TempOf(attachments[n - 1])]]
  }

  function RowFor(p: Pending, item: Id, blob: Id, now: Instant): AttachmentRow {
    AttachmentRow(item, p.originalName, blob, p.mediaType, p.size as int, p.sha256, now)
  }

  /** The first n attachment rows Create inserts. */
  ghost function NewRows(attachments: seq<Pending>, draw: Draw, now: Instant, n: nat): map<Id, AttachmentRow>
    requires n <= |attachments| <= |draw.attachments| && |attachments| <= |draw.blobs|
  {
    if n == 0 then map[]
    else
      var row := RowFor(attachments[n - 1], draw.item, draw.blobs[n - 1], now);
      NewRows(attachments, draw, now, n - 1)[draw.attachments[n - 1] := row]
  }

  lemma {:induction false} PlacedAt(files: Files, attachments: seq<Pending>, blobs: seq<Id>, n: nat, i: nat)
    requires AllStaged(attachments) && i < n <= |attachments| <= |blobs| && Distinct(blobs)
    requires forall j :: 0 <= j < n ==> TempOf(attachments[j]) in files
    ensures Blob(blobs[i]) in Placed(files, attachments, blobs, n)
    ensures Placed(files, attachments, blobs, n)[Blob(blobs[i])] == files[TempOf(attachments[i])]
  {
    if i < n - 1 {
      PlacedAt(files, attachments, blobs, n - 1, i);
    }
  }

  lemma {:induction false} PlacedIndex(files: Files, attachments: seq<Pending>, blobs: seq<Id>, n: nat, p: Path)
    returns (i: nat)
    requires AllStaged(attachments) && n <= |attachments| <= |blobs|
    requires forall j :: 0 <= j < n ==> TempOf(attachments[j]) in files
    requires p in Placed(files, attachments, blobs, n)
    ensures i < n && p == Blob(blobs[i])
  {
    if p == Blob(blobs[n - 1]) { i := n - 1; } else { i := PlacedIndex(files, attachments, blobs, n - 1, p); }
  }

  lemma {:induction false} NewRowAt(attachments: seq<Pending>, draw: Draw, now: Instant, n: nat, i: nat)
    requires i < n <= |attachments| == |draw.attachments| == |draw.blobs| && Distinct(draw.attachments)
    ensures draw.attachments[i] in NewRows(attachments, draw, now, n)
    ensures NewRows(attachments, draw, now, n)[draw.attachments[i]]
            == RowFor(attachments[i], draw.item, draw.blobs[i], now)
  {
    if i < n - 1 {
      NewRowAt(attachments, draw, now, n - 1, i);
    }
  }

  lemma {:induction false} NewRowIndex(attachments: seq<Pending>, draw: Draw, now: Instant, n: nat, a: Id)
    returns (i: nat)
    requires n <= |attachments| == |draw.attachments| == |draw.blobs| && Distinct(draw.attachments)
    requires a in NewRows(attachments, draw, now, n)
    ensures i < n && draw.attachments[i] == a
    ensures NewRows(attachments, draw, now, n)[a] == RowFor(attachments[i], draw.item, draw.blobs[i], now)
  {
    if a == draw.attachments[n - 1] { i := n - 1; } else { i := NewRowIndex(attachments, draw, now, n - 1, a); }
  }

  predicate FailsToInsert(input: CreateInput, fault: Fault) {
    || fault.FailInsertItem? || (fault.FailInsertAttachment? && fault.k < |input.attachments|)
    || (fault.FailInsertKey? && input.key.Key?) || fault.FailCommit?
  }

  function NewItem(input: CreateInput, now: Instant, total: int): ItemRow {
    ItemRow(input.text, input.creator, input.actor, now, now + input.ttl, total)
  }

  /** The tables after a committed Create. */
  ghost function Inserted(t: Tables, input: CreateInput, draw: Draw, now: Instant, total: int): Tables
    requires |draw.attachments| == |draw.blobs| == |input.attachments|
  {
    Tables(t.items[draw.item := NewItem(input, now, total)],
           t.attachments + NewRows(input.attachments, draw, now, |input.attachments|),
           if input.key.Key? then t.keys[input.key.hash := draw.item] else t.keys)
  }

  ghost function BlobContents(placed: Files): map<Id, Bytes> {
    map p | p in placed && p.Blob? :: p.name := placed[p]
  }

  /** The item a successful Create returns: attachments in the order of the request. */
  function CreatedItem(input: CreateInput, draw: Draw, now: Instant, total: int): Item
    requires |draw.attachments| == |draw.blobs| == |input.attachments|
  {
    Item(draw.item, NewItem(input, now, total),
         seq(|input.attachments|, i requires 0 <= i < |input.attachments| =>
           Attachment(draw.attachments[i], RowFor(input.attachments[i], draw.item, draw.blobs[i], now))))
  }

  /** Everything Create does once an input has been admitted and its key and the quota looked up. */
  ghost function StoreSpec(s: State, input: CreateInput, draw: Draw, fault: Fault, total: int): (State, Result<Item>)
    requires |draw.attachments| == |draw.blobs| == |input.attachments|
    requires AllStaged(input.attachments)
  {
    var n := |input.attachments|;
    var m := Movable(s.files, input.attachments, fault, 0);
    if m < n then (s.(files := s.files - Temps(input.attachments[..m])), Err(Internal))
    else if FailsToInsert(input, fault) then (s.(files := s.files - Temps(input.attachments)), Err(Internal))
    else
      MovableAll(s.files, input.attachments, fault, 0);
      var placed := Placed(s.files, input.attachments, draw.blobs, n);
      (s.(tables := Inserted(s.tables, input, draw, s.clock, total),
          files := s.files - Temps(input.attachments) + placed,
          contents := s.contents + BlobContents(placed)),
       Ok(CreatedItem(input, draw, s.clock, total)))
  }

  /** The i-th rename succeeds: no fault, and its source is there and was not moved by an earlier one. */
  ghost predicate Renames(files: Files, attachments: seq<Pending>, fault: Fault, i: nat)
    requires AllStaged(attachments) && i < |attachments|
  {
    fault != FailRename(i) && TempOf(attachments[i]) in files && TempOf(attachments[i]) !in Temps(attachments[..i])
  }

  /** The rename loop stops at the first rename that fails, and only there. */
  lemma {:induction false} MovableStops(files: Files, attachments: seq<Pending>, fault: Fault, i: nat)
    requires AllStaged(attachments) && i <= |attachments|
    ensures forall j :: i <= j < Movable(files, attachments, fault, i) ==> Renames(files, attachments, fault, j)
    ensures Movable(files, attachments, fault, i) < |attachments| ==>
              !Renames(files, attachments, fault, Movable(files, attachments, fault, i))
    decreases |attachments| - i
  {
    if i < |attachments| && Renames(files, attachments, fault, i) {
      MovableStops(files, attachments, fault, i + 1);
    }
  }

  lemma {:induction false} MovableAll(files: Files, attachments: seq<Pending>, fault: Fault, i: nat)
    requires AllStaged(attachments) && i <= |attachments|
    requires Movable(files, attachments, fault, i) == |attachments|
    ensures forall j :: i <= j < |attachments| ==> TempOf(attachments[j]) in files
    ensures forall j :: i <= j < |attachments| ==> TempOf(attachments[j]) !in Temps(attachments[..j])
    decreases |attachments| - i
  {
    if i < |attachments| {
      MovableAll(files, attachments, fault, i + 1);
    }
  }

  lemma {:induction false} AdmittedAreStaged(quota: int, total: int, attachments: seq<Pending>)
    requires Admit(quota, total, attachments).Ok?
    ensures AllStaged(attachments)
    decreases |attachments|
  {
    if attachments != [] {
      AdmittedAreStaged(quota, total + attachments[0].size as int, attachments[1..]);
      assert forall i :: 1 <= i < |attachments| ==> attachments[i] == attachments[1..][i - 1];
    }
  }

  /** Create(input) at time now. */
  ghost function CreateSpec(s: State, input: CreateInput, now: Instant, draw: Draw, fault: Fault): (State, Result<Item>)
    requires |draw.attachments| == |draw.blobs| == |input.attachments|
  {
    var t := s.(clock := now, minted := s.minted + draw.Ids());
    var admitted := Admit(s.quota, |input.text|, input.attachments);
    if BadInput(input) then (t, Err(InvalidInput))
    else if admitted.Err? then (t, Err(admitted.error))
    else if fault.FailBegin? || (input.key.Key? && fault.FailLookup?) then (t, Err(Internal))
    else if input.key.Key? && input.key.hash in s.tables.keys then
      (t, if fault.FailRead? then Err(Internal) else GetSpec(s.tables, now, s.tables.keys[input.key.hash]))
    else if fault.FailUsage? then (t, Err(Internal))
    else if admitted.value > s.quota || Used(t) > s.quota - admitted.value then (t, Err(QuotaExceeded))
    else
      AdmittedAreStaged(s.quota, |input.text|, input.attachments);
      StoreSpec(t, input, draw, fault, admitted.value)
  }

  // ---------------------------------------------------------------- Delete

  datatype DeleteFault = DeleteOk | DeleteFailEarly | DeleteFailStage(k: nat) | DeleteFailCommit

  /** The tables after DELETE FROM items: attachments and keys cascade. */
  function Without(t: Tables, id: Id): Tables {
    Tables(t.items - {id},
           map a | a in t.attachments && t.attachments[a].itemId != id :: t.attachments[a],
           map k | k in t.keys && t.keys[k] != id :: t.keys[k])
  }

  ghost function BlobPaths(names: set<Id>): set<Path> {
    set n | n in names :: Blob(n)
  }

  /** Delete(id): the item and all its files are gone, or nothing has changed. */
  ghost function DeleteSpec(s: State, id: Id, now: Instant, draw: set<Id>, fault: DeleteFault): (State, Result<()>) {
    var t := s.(clock := now, minted := s.minted + draw);
    var names := StorageNames(s.tables, id);
    if fault.DeleteFailEarly? then (t, Err(Internal))
    else if id !in s.tables.items then (t, Err(NotFound))
    else if (fault.DeleteFailStage? && fault.k < |names|) || fault.DeleteFailCommit? then (t, Err(Internal))
    else (t.(tables := Without(s.tables, id), files := s.files - BlobPaths(names)), Ok(()))
  }

  // ---------------------------------------------------------------- UpdateExpiry

  /** UpdateExpiry(id, ttl): one conditional UPDATE, then Get. */
  function UpdateExpirySpec(s: State, id: Id, ttl: int, now: Instant, fails: bool): (State, Result<Item>) {
    var t := s.(clock := now);
    if ttl <= 0 then (t, Err(InvalidInput))
    else if fails then (t, Err(Internal))
    else if id !in s.tables.items || !Active(s.tables.items[id], now) then (t, Err(NotFound))
    else
      var row := s.tables.items[id].(expiresAt := now + ttl);
      var tables := s.tables.(items := s.tables.items[id := row]);
      (t.(tables := tables), GetSpec(tables, now, id))
  }
}
