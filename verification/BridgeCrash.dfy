/** The bridge and a Drop that may crash between any two steps, with its data directory in any disorder afterwards.
    The database survives, so what is promised of items and keys survives with it. */
module BridgeCrash {
  import opened Prelude
  import opened BridgeMessage
  import opened BridgeLoop
  import opened BridgeContent
  import Text
  import Delivery = BridgeDelivery
  import Drop = DropState
  import Runs = DropRuns
  import History = DropHistory
  import Upload = DropUpload
  import DropUploadRuns

  type World = Delivery.World

  /** DropCrash: whatever requests were in flight had drawn the identifiers, and have left these files. Such a request
      has committed, and that is a Handle or an Others before the crash, or it has not, and the tables are untouched. */
  datatype Step = Usual(step: Delivery.Step) | DropCrash(files: Drop.Files, drawn: set<Drop.Id>)

  ghost predicate CanDo(c: Config, w: World, step: Step)
    requires Delivery.AscendingFeed(w.feed)
  {
    match step
    case Usual(step) => Delivery.CanDo(c, w, step)
    case DropCrash(files, drawn) => forall p: Drop.Path :: p in files ==> p.name in w.drop.minted + drawn
  }

  ghost function DoStep(c: Config, w: World, step: Step): World
    requires Delivery.AscendingFeed(w.feed) && CanDo(c, w, step)
  {
    match step
    case Usual(step) => Delivery.DoStep(c, w, step)
    case DropCrash(files, drawn) => w.(drop := w.drop.(files := files, minted := w.drop.minted + drawn))
  }

  // ---------------------------------------------------------------- the tables decide

  ghost predicate SameUploads(files: Drop.Files, others: Drop.Files) {
    forall n :: (Drop.Upload(n) in files <==> Drop.Upload(n) in others)
                && (Drop.Upload(n) in files ==> files[Drop.Upload(n)] == others[Drop.Upload(n)])
  }

  /** Two states of Drop that differ only in what lies in the blobs and under delete-* names. */
  ghost predicate Alike(s: Drop.State, t: Drop.State) { t == s.(files := t.files) && SameUploads(s.files, t.files) }

  lemma {:induction false} MovableAlike(files: Drop.Files, others: Drop.Files, attachments: seq<Drop.Pending>,
                                        fault: Drop.Fault, i: nat)
    requires SameUploads(files, others) && Drop.AllStaged(attachments) && i <= |attachments|
    ensures Drop.Movable(files, attachments, fault, i) == Drop.Movable(others, attachments, fault, i)
    decreases |attachments| - i
  {
    if i < |attachments| { MovableAlike(files, others, attachments, fault, i + 1); }
  }

  lemma {:induction false} PlacedAlike(files: Drop.Files, others: Drop.Files, attachments: seq<Drop.Pending>,
                                       blobs: seq<Drop.Id>, n: nat)
    requires SameUploads(files, others) && Drop.AllStaged(attachments) && n <= |attachments| <= |blobs|
    requires forall i :: 0 <= i < n ==> Drop.TempOf(attachments[i]) in files && Drop.TempOf(attachments[i]) in others
    ensures Drop.Placed(files, attachments, blobs, n) == Drop.Placed(others, attachments, blobs, n)
  {
    if n > 0 { PlacedAlike(files, others, attachments, blobs, n - 1); }
  }

  lemma SameChange(files: Drop.Files, others: Drop.Files, removed: set<Drop.Path>, placed: Drop.Files)
    requires SameUploads(files, others)
    ensures SameUploads(files - removed, others - removed)
    ensures SameUploads(files - removed + placed, others - removed + placed)
  {
  }

  lemma StoreAlike(s: Drop.State, t: Drop.State, input: Drop.CreateInput, draw: Drop.Draw, fault: Drop.Fault,
                   total: int)
    requires Alike(s, t) && |draw.attachments| == |draw.blobs| == |input.attachments|
    requires Drop.AllStaged(input.attachments)
    ensures Drop.StoreSpec(s, input, draw, fault, total).1 == Drop.StoreSpec(t, input, draw, fault, total).1
    ensures Alike(Drop.StoreSpec(s, input, draw, fault, total).0, Drop.StoreSpec(t, input, draw, fault, total).0)
  {
    hide Drop.Movable, Drop.Placed, Drop.Temps, Drop.Inserted, Drop.BlobContents, Drop.CreatedItem,
         Drop.FailsToInsert, SameUploads;
    MovableAlike(s.files, t.files, input.attachments, fault, 0);
    var m := Drop.Movable(s.files, input.attachments, fault, 0);
    SameChange(s.files, t.files, Drop.Temps(input.attachments[..m]), map[]);
    if m == |input.attachments| {
      Drop.MovableAll(s.files, input.attachments, fault, 0);
      Drop.MovableAll(t.files, input.attachments, fault, 0);
      PlacedAlike(s.files, t.files, input.attachments, draw.blobs, m);
      SameChange(s.files, t.files, Drop.Temps(input.attachments),
                 Drop.Placed(s.files, input.attachments, draw.blobs, m));
    }
  }

  /** Create does the same to both, and answers the same. */
  lemma CreateAlike(s: Drop.State, t: Drop.State, input: Drop.CreateInput, now: Drop.Instant, draw: Drop.Draw,
                    fault: Drop.Fault)
    requires Alike(s, t) && |draw.attachments| == |draw.blobs| == |input.attachments|
    ensures Drop.CreateSpec(s, input, now, draw, fault).1 == Drop.CreateSpec(t, input, now, draw, fault).1
    ensures Alike(Drop.CreateSpec(s, input, now, draw, fault).0, Drop.CreateSpec(t, input, now, draw, fault).0)
  {
    hide Drop.StoreSpec, Drop.GetSpec, Sum, Drop.ActiveSizes;
    var admitted := Drop.Admit(s.quota, |input.text|, input.attachments);
    if admitted.Ok? {
      Drop.AdmittedAreStaged(s.quota, |input.text|, input.attachments);
      StoreAlike(s.(clock := now, minted := s.minted + draw.Ids()), t.(clock := now, minted := t.minted + draw.Ids()),
                 input, draw, fault, admitted.value);
    }
  }

  lemma StagedAlike(s: Drop.State, t: Drop.State, parts: seq<Upload.Part>)
    requires Alike(s, t) && Upload.Sized(parts)
    ensures Alike(Upload.StagedState(s, parts), Upload.StagedState(t, parts))
  {
    hide Upload.UploadsOf, Upload.TempsIn;
  }

  /** Nor does a request see a difference, or leave one. */
  lemma UploadAlike(s: Drop.State, t: Drop.State, c: Upload.Config, request: Upload.Request, now: Drop.Instant,
                    draw: Drop.Draw, fault: Drop.Fault)
    requires Alike(s, t) && Upload.WellFormed(request.parts, s.minted)
    requires |draw.attachments| == |draw.blobs| == Upload.Count(Upload.FilePart, request.parts)
    ensures Upload.UploadSpec(s, c, request, now, draw, fault).1 == Upload.UploadSpec(t, c, request, now, draw, fault).1
    ensures Alike(Upload.UploadSpec(s, c, request, now, draw, fault).0,
                  Upload.UploadSpec(t, c, request, now, draw, fault).0)
  {
    hide Drop.CreateSpec, Upload.StagedState, Drop.Temps, Upload.EarlyAnswer, SameUploads;
    if Upload.EarlyAnswer(c, request).None? {
      var (u, v, input) :=
        (Upload.StagedState(s, request.parts), Upload.StagedState(t, request.parts), Upload.InputFor(request));
      StagedAlike(s, t, request.parts);
      CreateAlike(u, v, input, now, draw, fault);
      Upload.StagedPaths(request.parts);
      SameChange(Drop.CreateSpec(u, input, now, draw, fault).0.files,
                 Drop.CreateSpec(v, input, now, draw, fault).0.files, Drop.Temps(Upload.FilesOf(request.parts)), map[]);
    }
  }

  lemma DeleteAlike(s: Drop.State, t: Drop.State, id: Drop.Id, now: Drop.Instant, draw: set<Drop.Id>,
                    fault: Drop.DeleteFault)
    requires Alike(s, t)
    ensures Drop.DeleteSpec(s, id, now, draw, fault).1 == Drop.DeleteSpec(t, id, now, draw, fault).1
    ensures Alike(Drop.DeleteSpec(s, id, now, draw, fault).0, Drop.DeleteSpec(t, id, now, draw, fault).0)
  {
    hide Drop.Without, Drop.StorageNames, Drop.BlobPaths;
  }

  lemma OpAlike(s: Drop.State, t: Drop.State, op: Runs.Op)
    requires Alike(s, t) && Runs.Enabled(s, op)
    ensures Runs.Enabled(t, op) && Alike(Runs.Apply(s, op), Runs.Apply(t, op))
  {
    hide Drop.CreateSpec, Drop.DeleteSpec, Drop.GetSpec;
    match op {
      case CreateOp(input, now, draw, fault) => CreateAlike(s, t, input, now, draw, fault);
      case DeleteOp(id, now, staged, fault) => DeleteAlike(s, t, id, now, staged, fault);
      case _ =>
    }
  }

  // ---------------------------------------------------------------- the shadow

  /** The blobs of one directory and the uploads of another. */
  ghost function Repaired(blobs: Drop.Files, uploads: Drop.Files): Drop.Files {
    map p | p in blobs.Keys + uploads.Keys && (if p.Upload? then p in uploads else p in blobs) ::
      if p.Upload? then uploads[p] else blobs[p]
  }

  /** w, with a Drop whose files are the ones that its tables describe. */
  ghost predicate Shadows(v: World, w: World) { w == v.(drop := w.drop) && Alike(w.drop, v.drop) }

  ghost function Follow(c: Config, v: World, step: Step): World
    requires Delivery.AscendingFeed(v.feed) && (step.Usual? ==> Delivery.CanDo(c, v, step.step))
  {
    match step
    case Usual(step) => Delivery.DoStep(c, v, step)
    case DropCrash(files, drawn) =>
      v.(drop := v.drop.(files := Repaired(v.drop.files, files), minted := v.drop.minted + drawn))
  }

  /** What Drop answers does not depend on its blobs, so neither does what the bridge can do. */
  lemma HandleAlike(c: Config, v: World, w: World, a: Attempt, served: Delivery.Served)
    requires Delivery.AscendingFeed(w.feed) && Shadows(v, w) && Delivery.CanDo(c, w, Delivery.Handle(a, served))
    ensures Delivery.CanDo(c, v, Delivery.Handle(a, served))
    ensures Shadows(Delivery.DoStep(c, v, Delivery.Handle(a, served)),
                    Delivery.DoStep(c, w, Delivery.Handle(a, served)))
  {
    hide Upload.UploadSpec, CanArrive, RequestOf, PlanFor, HashFor, Succeeds, SameUploads, Damages, Upload.WellFormed;
    if served.Reached? {
      UploadAlike(w.drop, v.drop, Upload.DEPLOYED, RequestOf(c, w.local.todo[0], served.arrival), served.now,
                  served.draw, served.fault);
    }
  }

  lemma UsualAlike(c: Config, v: World, w: World, step: Delivery.Step)
    requires Delivery.AscendingFeed(w.feed) && Shadows(v, w) && Delivery.CanDo(c, w, step)
    ensures Delivery.CanDo(c, v, step) && Shadows(Delivery.DoStep(c, v, step), Delivery.DoStep(c, w, step))
  {
    hide Upload.UploadSpec, CanArrive, RequestOf, PlanFor, HashFor, Succeeds, SameUploads, Damages, Runs.Apply,
         Runs.Enabled, Delivery.Below, Delivery.AscendingFeed, Delivery.ServedOk;
    match step {
      case Handle(a, served) => HandleAlike(c, v, w, a, served);
      case Others(op) => OpAlike(w.drop, v.drop, op);
      case _ =>
    }
  }

  lemma RepairedAt(blobs: Drop.Files, uploads: Drop.Files, n: Drop.Id)
    ensures var r := Repaired(blobs, uploads);
            && (Drop.Blob(n) in r <==> Drop.Blob(n) in blobs) && (Drop.Staged(n) in r <==> Drop.Staged(n) in blobs)
            && (Drop.Upload(n) in r <==> Drop.Upload(n) in uploads)
            && (Drop.Blob(n) in r ==> r[Drop.Blob(n)] == blobs[Drop.Blob(n)])
            && (Drop.Upload(n) in r ==> r[Drop.Upload(n)] == uploads[Drop.Upload(n)])
  {
  }

  lemma RepairKeepsKnown(s: Drop.State, files: Drop.Files, drawn: set<Drop.Id>)
    requires Runs.Known(s) && forall p: Drop.Path :: p in files ==> p.name in s.minted + drawn
    ensures Runs.Known(s.(files := Repaired(s.files, files), minted := s.minted + drawn))
  {
  }

  lemma RepairKeepsBlobs(s: Drop.State, files: Drop.Files, drawn: set<Drop.Id>)
    requires Runs.BlobsAgree(s)
    ensures Runs.BlobsAgree(s.(files := Repaired(s.files, files), minted := s.minted + drawn))
  {
    hide Repaired, Runs.Named;
    forall n
      ensures var r := Repaired(s.files, files);
              && (Drop.Blob(n) in r <==> Drop.Blob(n) in s.files) && (Drop.Staged(n) in r ==> Drop.Staged(n) in s.files)
              && (Drop.Blob(n) in r ==> r[Drop.Blob(n)] == s.files[Drop.Blob(n)])
    {
      RepairedAt(s.files, files, n);
    }
    NamesAreNamed(s.tables.attachments);
  }

  lemma NamesAreNamed(rows: map<Drop.Id, Drop.AttachmentRow>)
    ensures forall a :: a in rows ==> Runs.Named(rows, rows[a].storageName)
  {
  }

  /** Uploads and identifiers may come and go: nothing that the invariant speaks of has changed. */
  lemma RepairKeepsInv(s: Drop.State, files: Drop.Files, drawn: set<Drop.Id>)
    requires Runs.Inv(s) && forall p: Drop.Path :: p in files ==> p.name in s.minted + drawn
    ensures var u := s.(files := Repaired(s.files, files), minted := s.minted + drawn);
            Runs.Inv(u) && History.Evolves(s, u)
  {
    hide Runs.Known, Runs.BlobsAgree, Runs.TotalsExact, Runs.Constraints, Drop.ActiveSizes, History.Evolves, Repaired,
         Sum;
    RepairKeepsKnown(s, files, drawn);
    RepairKeepsBlobs(s, files, drawn);
    History.SameTablesEvolve(s, s.(files := Repaired(s.files, files), minted := s.minted + drawn));
  }

  lemma CrashKeepsSound(c: Config, v: World, files: Drop.Files, drawn: set<Drop.Id>)
    requires Delivery.Sound(c, v) && forall p: Drop.Path :: p in files ==> p.name in v.drop.minted + drawn
    ensures Delivery.Sound(c, Follow(c, v, DropCrash(files, drawn)))
  {
    hide Runs.Inv, PlanFor, HashFor, Holds, Repaired, History.Evolves;
    var z := Follow(c, v, DropCrash(files, drawn));
    RepairKeepsInv(v.drop, files, drawn);
    forall h ensures Delivery.Faithful(c, z, h) {
      assert Delivery.Faithful(c, v, h);
      if h in v.drop.tables.keys && h !in v.doubtful {
        var k :| 0 <= k < |v.feed| && Delivery.Keeps(c, v.feed[k], v.drop, h);
        Delivery.KeyLeadsToItem(v.drop, h);
        ContentStays(v.drop, z.drop, v.drop.tables.keys[h], PlanFor(c, v.feed[k]).message, PlanFor(c, v.feed[k]).text);
        assert Delivery.Keeps(c, z.feed[k], z.drop, h);
      }
    }
  }

  lemma StepShadowed(c: Config, v: World, w: World, step: Step)
    requires Delivery.Sound(c, v) && Shadows(v, w) && CanDo(c, w, step)
    ensures step.Usual? ==> Delivery.CanDo(c, v, step.step)
    ensures Delivery.Sound(c, Follow(c, v, step)) && Shadows(Follow(c, v, step), DoStep(c, w, step))
  {
    hide Delivery.Sound, Delivery.CanDo, Delivery.DoStep, Delivery.AscendingFeed;
    Delivery.SoundFeed(c, v);
    match step {
      case Usual(step) =>
        UsualAlike(c, v, w, step);
        Delivery.StepKeepsSound(c, v, step);
      case DropCrash(files, drawn) => CrashKeepsSound(c, v, files, drawn);
    }
  }

  // ---------------------------------------------------------------- runs

  lemma SameFeed(c: Config, w: World, step: Step)
    requires Delivery.AscendingFeed(w.feed) && CanDo(c, w, step)
    ensures DoStep(c, w, step).feed == w.feed
  {
  }

  ghost predicate ValidSteps(c: Config, w: World, steps: seq<Step>)
    requires Delivery.AscendingFeed(w.feed)
    decreases |steps|
  {
    steps == [] || (CanDo(c, w, steps[0])
                    && (SameFeed(c, w, steps[0]); ValidSteps(c, DoStep(c, w, steps[0]), steps[1..])))
  }

  ghost function RunSteps(c: Config, w: World, steps: seq<Step>): World
    requires Delivery.AscendingFeed(w.feed) && ValidSteps(c, w, steps)
    decreases |steps|
  {
    if steps == [] then w
    else
      SameFeed(c, w, steps[0]);
      RunSteps(c, DoStep(c, w, steps[0]), steps[1..])
  }

  /** Whatever a run with crashes does, it does to a Drop that never crashed but for its files. */
  lemma {:induction false} RunShadowed(c: Config, v: World, w: World, steps: seq<Step>) returns (z: World)
    requires Delivery.Sound(c, v) && Shadows(v, w) && Delivery.AscendingFeed(w.feed) && ValidSteps(c, w, steps)
    ensures Delivery.Sound(c, z) && Shadows(z, RunSteps(c, w, steps)) && z.feed == w.feed
    decreases |steps|
  {
    hide Delivery.Sound, CanDo, DoStep, Follow, Delivery.AscendingFeed, Delivery.CanDo, Alike;
    Delivery.SoundFeed(c, v);
    if steps == [] {
      z := v;
    } else {
      StepShadowed(c, v, w, steps[0]);
      SameFeed(c, w, steps[0]);
      z := RunShadowed(c, Follow(c, v, steps[0]), DoStep(c, w, steps[0]), steps[1..]);
    }
  }

  // ---------------------------------------------------------------- what survives

  lemma ShadowTells(z: World, v: World)
    requires Shadows(z, v)
    ensures v.feed == z.feed && v.born == z.born && v.local == z.local && v.confirmed == z.confirmed
    ensures v.doubtful == z.doubtful && v.drop.tables == z.drop.tables && v.drop.contents == z.drop.contents
  {
  }

  /** After any run, crashes of Drop included, in which no item is deleted: no key ever had two items, and every
      forwardable update that is done has its item. */
  lemma ExactlyOnce(c: Config, w: World, steps: seq<Step>)
    requires Delivery.Sound(c, w) && ValidSteps(c, w, steps) && Delivery.NothingRemoved(RunSteps(c, w, steps))
    ensures var v := RunSteps(c, w, steps); forall e, f :: e in v.born && f in v.born && e.1 == f.1 ==> e == f
    ensures var v := RunSteps(c, w, steps);
            forall i :: 0 <= i < |v.feed| && Forwardable(c, v.feed[i]) && Delivery.Done(v, i) ==>
              Delivery.HasItem(c, v.drop, v.feed[i])
  {
    hide Delivery.Sound, ValidSteps, RunSteps, Shadows, HashFor, PlanFor, Forwardable;
    Delivery.SoundFeed(c, w);
    LikeItself(w);
    var z := RunShadowed(c, w, w, steps);
    ShadowTells(z, RunSteps(c, w, steps));
    Delivery.ExactlyOnce(c, z, []);
  }

  lemma LikeItself(w: World)
    ensures Shadows(w, w)
  {
  }

  /** The key leads to an item with the message's text, and what was committed for its one attachment, if the message
      has a file, are that file's bytes. */
  ghost predicate Committed(c: Config, u: Update, s: Drop.State, h: Drop.KeyHash) {
    && PlanFor(c, u).Forward? && h in s.tables.keys && s.tables.keys[h] in s.tables.items
    && var (m, id) := (PlanFor(c, u).message, s.tables.keys[h]);
       && s.tables.items[id].text == Text.Encode(PlanFor(c, u).text)
       && if m.media.None? then forall a :: a in s.tables.attachments ==> s.tables.attachments[a].itemId != id
          else exists a :: CommittedFile(s, id, a, m.media.value.bytes)
  }

  /** a is the item's only attachment, and these are the bytes committed for it. */
  ghost predicate CommittedFile(s: Drop.State, id: Drop.Id, a: Drop.Id, bytes: Bytes) {
    && a in s.tables.attachments && s.tables.attachments[a].itemId == id
    && (forall b :: b in s.tables.attachments && s.tables.attachments[b].itemId == id ==> b == a)
    && var row := s.tables.attachments[a];
       row.size == |bytes| && row.storageName in s.contents && s.contents[row.storageName] == bytes
  }

  lemma KeptIsCommitted(c: Config, u: Update, s: Drop.State, h: Drop.KeyHash)
    requires Runs.Inv(s) && Delivery.Keeps(c, u, s, h)
    ensures Committed(c, u, s, h)
  {
    hide Runs.Known, Runs.Constraints, Runs.TotalsExact, Runs.WithinQuota, PlanFor, HashFor, Text.Encode;
    var (m, id) := (PlanFor(c, u).message, s.tables.keys[h]);
    if m.media.Some? {
      var a :| OnlyFile(s, id, a, m.media.value.bytes);
      assert CommittedFile(s, id, a, m.media.value.bytes);
    }
  }

  lemma CommittedInTables(c: Config, u: Update, s: Drop.State, t: Drop.State, h: Drop.KeyHash)
    requires Committed(c, u, s, h) && t.tables == s.tables && t.contents == s.contents
    ensures Committed(c, u, t, h)
  {
    hide PlanFor, Text.Encode;
    var (m, id) := (PlanFor(c, u).message, s.tables.keys[h]);
    if m.media.Some? {
      var a :| CommittedFile(s, id, a, m.media.value.bytes);
      assert CommittedFile(t, id, a, m.media.value.bytes);
    }
  }

  /** A bridge started against any Drop that may crash at any time: after any run, unless an item was deleted, no key
      ever had two items and every forwardable update that is done has one; and what was committed for a message whose
      key is not in doubt is the whole message. */
  lemma FromTheStart(c: Config, feed: seq<Update>, drop: Drop.State, steps: seq<Step>)
    requires Delivery.AscendingFeed(feed) && Runs.Inv(drop) && ValidSteps(c, Delivery.Beginning(feed, drop), steps)
    requires 0 as char !in c.actor
    ensures var v := RunSteps(c, Delivery.Beginning(feed, drop), steps);
            && v.feed == feed
            && (Delivery.NothingRemoved(v) ==>
                  && (forall e, f :: e in v.born && f in v.born && e.1 == f.1 ==> e == f)
                  && (forall i :: 0 <= i < |feed| && Forwardable(c, feed[i]) && Delivery.Done(v, i) ==>
                        Delivery.HasItem(c, v.drop, feed[i])))
            && (forall i :: 0 <= i < |feed| && Delivery.OnlyUpdate(feed, i) && Delivery.InNoDoubt(c, v, feed[i]) ==>
                  Committed(c, feed[i], v.drop, HashFor(c, PlanFor(c, feed[i]).message)))
  {
    hide *;
    var w := Delivery.Beginning(feed, drop);
    Delivery.BeginningIs(feed, drop);
    Delivery.BeginningSound(c, feed, drop);
    Delivery.SoundFeed(c, w);
    LikeItself(w);
    var z := RunShadowed(c, w, w, steps);
    var v := RunSteps(c, w, steps);
    ShadowTells(z, v);
    Delivery.SoundParts(c, z);
    if Delivery.NothingRemoved(v) { ExactlyOnce(c, w, steps); }
    forall i | 0 <= i < |feed| && Delivery.OnlyUpdate(feed, i) && Delivery.InNoDoubt(c, v, feed[i])
      ensures PlanFor(c, feed[i]).Forward? && Committed(c, feed[i], v.drop, HashFor(c, PlanFor(c, feed[i]).message))
    {
      Delivery.InNoDoubtMeans(c, v, feed[i]);
      NoSteps(c, z);
      Delivery.KeptWhole(c, z, [], i);
      KeptIsCommitted(c, feed[i], z.drop, HashFor(c, PlanFor(c, feed[i]).message));
      CommittedInTables(c, feed[i], z.drop, v.drop, HashFor(c, PlanFor(c, feed[i]).message));
    }
  }

  lemma NoSteps(c: Config, z: World)
    requires Delivery.AscendingFeed(z.feed)
    ensures Delivery.ValidSteps(c, z, []) && Delivery.RunSteps(c, z, []) == z
  {
  }
}
