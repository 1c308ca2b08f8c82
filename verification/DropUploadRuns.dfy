/** An upload request within a run of the store: what it keeps, and what it does to the idempotency table. */
module DropUploadRuns {
  import opened Prelude
  import opened DropState
  import opened DropRuns
  import opened DropExpiry
  import opened DropHistory
  import opened DropUpload

  ghost predicate UploadEnabled(s: State, c: Config, request: Request, now: Instant, draw: Draw) {
    && c.Sane() && WellFormed(request.parts, s.minted) && s.clock <= now
    && draw.Fresh(Count(FilePart, request.parts), s.minted + TempsIn(request.parts))
  }

  lemma {:induction false} StagedKeepsInv(s: State, parts: seq<Part>, i: nat)
    requires Inv(s) && WellFormed(parts, s.minted) && i <= |parts|
    ensures Inv(StagedState(s, parts[..i]))
  {
    hide Inv;
    if i == 0 {
      assert parts[..0] == [] && s.files + map[] == s.files && s.minted + {} == s.minted;
    } else {
      StagedKeepsInv(s, parts, i - 1);
      Snoc(parts, i - 1);
      if KindOf(parts[i - 1]) == FilePart {
        OneMoreStaged(s, parts, i - 1);
        StepKeepsInv(StagedState(s, parts[..i - 1]), StageUpload(parts[i - 1].temp, parts[i - 1].contents));
      }
    }
  }

  /** The Create that a request leads to is one that a run of the store can take. */
  lemma StagedEnables(s: State, c: Config, request: Request, now: Instant, draw: Draw, fault: Fault)
    requires Inv(s) && UploadEnabled(s, c, request, now, draw) && EarlyAnswer(c, request).None?
    ensures var staged := StagedState(s, request.parts);
            Inv(staged) && Enabled(staged, CreateOp(InputFor(request), now, draw, fault))
  {
    hide Inv, SizesMatch, InputFor;
    StagedKeepsInv(s, request.parts, |request.parts|);
    assert request.parts[..|request.parts|] == request.parts;
    CallReady(s, c, request);
  }

  lemma FreshCounts(s: State, c: Config, request: Request, now: Instant, draw: Draw)
    requires UploadEnabled(s, c, request, now, draw)
    ensures |draw.attachments| == |draw.blobs| == Count(FilePart, request.parts)
  {
  }

  /** A request leaves a state that satisfies the invariant, and that has evolved from the state before. */
  lemma UploadKeepsInv(s: State, c: Config, request: Request, now: Instant, draw: Draw, fault: Fault)
    requires Inv(s) && UploadEnabled(s, c, request, now, draw)
    ensures |draw.attachments| == |draw.blobs| == Count(FilePart, request.parts)
    ensures var u := UploadSpec(s, c, request, now, draw, fault).0; Inv(u) && Evolves(s, u)
  {
    hide *;
    FreshCounts(s, c, request, now, draw);
    UploadCases(s, c, request, now, draw, fault);
    if EarlyAnswer(c, request).None? {
      StagedEnables(s, c, request, now, draw, fault);
      CreateStage(s, c, request, now, draw, fault);
    }
  }

  lemma CreateStage(s: State, c: Config, request: Request, now: Instant, draw: Draw, fault: Fault)
    requires Inv(s) && UploadEnabled(s, c, request, now, draw) && EarlyAnswer(c, request).None?
    requires |draw.attachments| == |draw.blobs| == Count(FilePart, request.parts)
    requires Inv(StagedState(s, request.parts))
    requires Enabled(StagedState(s, request.parts), CreateOp(InputFor(request), now, draw, fault))
    requires AllStaged(FilesOf(request.parts))
    ensures var v := CreateSpec(StagedState(s, request.parts), InputFor(request), now, draw, fault).0;
            var u := v.(files := v.files - Temps(FilesOf(request.parts)));
            Inv(u) && Evolves(s, u)
  {
    hide CreateSpec, Evolves, Constraints, BlobsAgree, TotalsExact, WithinQuota, Enabled;
    var t := StagedState(s, request.parts);
    var v := CreateSpec(t, InputFor(request), now, draw, fault).0;
    var u := v.(files := v.files - Temps(FilesOf(request.parts)));
    CreateKeepsInv(t, InputFor(request), now, draw, fault);
    LosingUploadsAfter(v, FilesOf(request.parts));
    SameTablesEvolve(s, t);
    CreateEvolves(t, InputFor(request), now, draw, fault);
    SameTablesEvolve(v, u);
    EvolvesTransitive(s, t, v);
    EvolvesTransitive(s, v, u);
  }

  lemma UploadCases(s: State, c: Config, request: Request, now: Instant, draw: Draw, fault: Fault)
    requires Inv(s) && UploadEnabled(s, c, request, now, draw)
    requires |draw.attachments| == |draw.blobs| == Count(FilePart, request.parts)
    ensures WellFormed(request.parts, s.minted) && AllStaged(FilesOf(request.parts))
    ensures EarlyAnswer(c, request).Some? ==>
              UploadSpec(s, c, request, now, draw, fault) == (s, Refused(EarlyAnswer(c, request).value))
              && Evolves(s, s)
    ensures EarlyAnswer(c, request).None? ==>
              && KeyOf(request).Some?
              && var (v, r) := CreateSpec(StagedState(s, request.parts), InputFor(request), now, draw, fault);
                 UploadSpec(s, c, request, now, draw, fault)
                 == (v.(files := v.files - Temps(FilesOf(request.parts))),
                     if r.Ok? then Accepted(r.value) else Failed(r.error))
  {
    hide CreateSpec, StagedState, Evolves;
    StagedPaths(request.parts);
    SameTablesEvolve(s, s);
  }

  /** What a request does to the idempotency table: nothing, or one new entry for its key and a new item;
      and an accepted request's key is in the table afterwards. */
  lemma UploadKeys(s: State, c: Config, request: Request, now: Instant, draw: Draw, fault: Fault)
    requires Inv(s) && UploadEnabled(s, c, request, now, draw)
    ensures |draw.attachments| == |draw.blobs| == Count(FilePart, request.parts)
    ensures var (u, answer) := UploadSpec(s, c, request, now, draw, fault);
            && (u.tables.keys == s.tables.keys
                || (KeyOf(request).Some? && KeyOf(request).value.Key?
                    && KeyOf(request).value.hash !in s.tables.keys && draw.item !in s.minted
                    && u.tables.keys == s.tables.keys[KeyOf(request).value.hash := draw.item]))
            && (answer.Accepted? ==>
                  KeyOf(request).Some? && (KeyOf(request).value.Key? ==> KeyOf(request).value.hash in u.tables.keys))
  {
    hide *;
    FreshCounts(s, c, request, now, draw);
    UploadCases(s, c, request, now, draw, fault);
    if EarlyAnswer(c, request).None? {
      StagedEnables(s, c, request, now, draw, fault);
      CreateKeys(s, c, request, now, draw, fault);
    }
  }

  lemma CreateKeys(s: State, c: Config, request: Request, now: Instant, draw: Draw, fault: Fault)
    requires EarlyAnswer(c, request).None? && WellFormed(request.parts, s.minted)
    requires |draw.attachments| == |draw.blobs| == Count(FilePart, request.parts)
    requires Inv(StagedState(s, request.parts))
    requires Enabled(StagedState(s, request.parts), CreateOp(InputFor(request), now, draw, fault))
    ensures var (v, r) := CreateSpec(StagedState(s, request.parts), InputFor(request), now, draw, fault);
            var key := KeyOf(request).value;
            && (v.tables.keys == s.tables.keys
                || (key.Key? && key.hash !in s.tables.keys && draw.item !in s.minted
                    && v.tables.keys == s.tables.keys[key.hash := draw.item]))
            && (r.Ok? && key.Key? ==> key.hash in v.tables.keys)
  {
    hide CreateSpec, Inv, SizesMatch, NewFor;
    var t, input := StagedState(s, request.parts), InputFor(request);
    if CreateSpec(t, input, now, draw, fault).1.Ok? && !Replays(t, input) {
      var rows := CreateSuccess(t, input, now, draw, fault);
    } else {
      CreateFailure(t, input, now, draw, fault);
    }
  }

  // ---------------------------------------------------------------- the new item

  /** The days that a form asks for: those of its TTL part, or one. */
  ghost predicate AsksFor(parts: seq<Part>, days: int) {
    && (forall i :: 0 <= i < |parts| && IsTtl(parts[i]) ==> NumberIn(parts[i].contents) == Some(days))
    && ((forall i :: 0 <= i < |parts| ==> !IsTtl(parts[i])) ==> days == 1)
  }

  ghost predicate SaysText(parts: seq<Part>, text: Bytes) {
    && (forall i :: 0 <= i < |parts| && IsText(parts[i]) ==> parts[i].contents == text)
    && ((forall i :: 0 <= i < |parts| ==> !IsText(parts[i])) ==> text == [])
  }

  ghost predicate NewKey(s: State, request: Request) {
    KeyOf(request).Some? && (KeyOf(request).value.Key? ==> KeyOf(request).value.hash !in s.tables.keys)
  }

  /** The item that an accepted request makes under a new key or none, field by field: it belongs to the caller, says
      what the form says, and expires as many days after the call as the form asks for. */
  lemma UploadMakes(s: State, c: Config, request: Request, now: Instant, draw: Draw, fault: Fault, days: int)
    requires Inv(s) && UploadEnabled(s, c, request, now, draw) && NewKey(s, request) && AsksFor(request.parts, days)
    requires |draw.attachments| == |draw.blobs| == Count(FilePart, request.parts)
    requires UploadSpec(s, c, request, now, draw, fault).1.Accepted?
    ensures var (u, answer) := UploadSpec(s, c, request, now, draw, fault);
            && draw.item in u.tables.items && answer.item.id == draw.item
            && answer.item.row == u.tables.items[draw.item]
            && var row := u.tables.items[draw.item];
               && row.creator == request.subject && row.actor == request.actor && SaysText(request.parts, row.text)
               && row.createdAt == now && row.expiresAt == now + days * 86_400_000_000
  {
    hide *;
    UploadCases(s, c, request, now, draw, fault);
    StagedEnables(s, c, request, now, draw, fault);
    EarlyMeans(c, request, s.minted);
    EnabledMeans(s, c, request, now, draw);
    InputFits(request, draw);
    NotReplayed(s, request);
    FormSays(c, request, days);
    CreateMakes(StagedState(s, request.parts), InputFor(request), now, draw, fault);
  }

  lemma EnabledMeans(s: State, c: Config, request: Request, now: Instant, draw: Draw)
    requires UploadEnabled(s, c, request, now, draw)
    ensures c.Sane() && Distinct(draw.attachments) && WellFormed(request.parts, s.minted)
  {
  }

  lemma NotReplayed(s: State, request: Request)
    requires Sized(request.parts) && KeyOf(request).Some? && NewKey(s, request)
    ensures !Replays(StagedState(s, request.parts), InputFor(request))
  {
    hide KeyOf, TextOf, FilesOf, DaysOf;
  }

  lemma FormSays(c: Config, request: Request, days: int)
    requires c.Sane() && Sized(request.parts) && EarlyAnswer(c, request).None? && AsksFor(request.parts, days)
    ensures KeyOf(request).Some?
    ensures var input := InputFor(request);
            && input.creator == request.subject && input.actor == request.actor && SaysText(request.parts, input.text)
            && input.ttl == days * 86_400_000_000
  {
    hide Taken, IsText, IsTtl, NumberIn, TextOf, FilesOf, DaysOf, KeyOf;
    StoreIsTold(c, request);
  }

  /** After any run without a Delete or an UpdateExpiry of it, Get finds the item at exactly the times before the day
      that the form asked for. */
  lemma UploadLives(s: State, c: Config, request: Request, now: Instant, draw: Draw, fault: Fault, days: int,
                    ops: seq<Op>, later: Instant)
    requires Inv(s) && UploadEnabled(s, c, request, now, draw) && NewKey(s, request) && AsksFor(request.parts, days)
    requires |draw.attachments| == |draw.blobs| == Count(FilePart, request.parts)
    requires UploadSpec(s, c, request, now, draw, fault).1.Accepted?
    requires ValidRun(UploadSpec(s, c, request, now, draw, fault).0, ops)
    requires !Deletes(ops, draw.item) && !Updates(ops, draw.item)
    ensures var v := Run(UploadSpec(s, c, request, now, draw, fault).0, ops);
            GetSpec(v.tables, later, draw.item).Ok? <==> later < now + days * 86_400_000_000
  {
    hide *;
    EnabledMeans(s, c, request, now, draw);
    var u := UploadSpec(s, c, request, now, draw, fault).0;
    UploadKeepsInv(s, c, request, now, draw, fault);
    UploadMakes(s, c, request, now, draw, fault, days);
    ExpiryFollows(u, ops, draw.item);
    NoUpdateNoMove(now + days * 86_400_000_000, ops, draw.item);
    FoundUntil(Run(u, ops).tables, draw.item, later);
  }

  lemma FoundUntil(t: Tables, id: Id, later: Instant)
    requires id in t.items
    ensures GetSpec(t, later, id).Ok? <==> later < t.items[id].expiresAt
  {
  }

  // ---------------------------------------------------------------- what a new item holds

  /** The item that a request creates holds what the request carried: its text, and for each of its files one
      attachment whose blob has the bytes of that file. */
  ghost predicate StoredParts(u: State, item: Id, parts: seq<Part>, draw: Draw, now: Instant)
    requires Sized(parts) && |draw.attachments| == |draw.blobs| == |FilesOf(parts)| && AllStaged(FilesOf(parts))
  {
    var files := FilesOf(parts);
    && item in u.tables.items && u.tables.items[item].text == TextOf(parts)
    && OwnRows(u.tables, item, NewRows(files, draw, now, |files|))
    && forall k :: 0 <= k < |files| ==>
         TempOf(files[k]) in UploadsOf(parts) && draw.blobs[k] in u.contents
         && u.contents[draw.blobs[k]] == UploadsOf(parts)[TempOf(files[k])]
  }

  lemma StagedIsThere(s: State, parts: seq<Part>)
    requires Sized(parts)
    ensures AllStaged(FilesOf(parts))
    ensures forall k :: 0 <= k < |FilesOf(parts)| ==>
              var p, files := TempOf(FilesOf(parts)[k]), StagedState(s, parts).files;
              p in UploadsOf(parts) && p in files && files[p] == UploadsOf(parts)[p]
  {
    StagedPaths(parts);
    forall k | 0 <= k < |FilesOf(parts)| ensures TempOf(FilesOf(parts)[k]) in UploadsOf(parts) {
      assert TempOf(FilesOf(parts)[k]) in Temps(FilesOf(parts));
    }
  }

  lemma StoredPartsAre(u: State, item: Id, parts: seq<Part>, draw: Draw, now: Instant)
    requires Sized(parts) && |draw.attachments| == |draw.blobs| == |FilesOf(parts)| && AllStaged(FilesOf(parts))
    requires item in u.tables.items && u.tables.items[item].text == TextOf(parts)
    requires OwnRows(u.tables, item, NewRows(FilesOf(parts), draw, now, |FilesOf(parts)|))
    requires forall k :: 0 <= k < |FilesOf(parts)| ==>
               var p := TempOf(FilesOf(parts)[k]);
               p in UploadsOf(parts) && draw.blobs[k] in u.contents && u.contents[draw.blobs[k]] == UploadsOf(parts)[p]
    ensures StoredParts(u, item, parts, draw, now)
  {
    hide OwnRows, NewRows, TextOf, FilesOf, UploadsOf;
  }

  lemma InputFits(request: Request, draw: Draw)
    requires Sized(request.parts) && KeyOf(request).Some?
    requires |draw.attachments| == |draw.blobs| == Count(FilePart, request.parts)
    ensures InputFor(request).attachments == FilesOf(request.parts) && InputFor(request).text == TextOf(request.parts)
    ensures |draw.attachments| == |draw.blobs| == |InputFor(request).attachments|
    ensures InputFor(request).key == KeyOf(request).value
  {
  }

  lemma NewItemText(input: CreateInput, now: Instant, total: int)
    ensures NewItem(input, now, total).text == input.text
  {
  }

  lemma EarlyMeans(c: Config, request: Request, minted: set<Id>)
    requires EarlyAnswer(c, request).None? && WellFormed(request.parts, minted)
    ensures Sized(request.parts) && KeyOf(request).Some?
  {
  }

  lemma CreateStores(s: State, c: Config, request: Request, now: Instant, draw: Draw, fault: Fault)
    requires EarlyAnswer(c, request).None? && WellFormed(request.parts, s.minted)
    requires |draw.attachments| == |draw.blobs| == Count(FilePart, request.parts) && AllStaged(FilesOf(request.parts))
    requires var t := StagedState(s, request.parts);
             Inv(t) && Enabled(t, CreateOp(InputFor(request), now, draw, fault)) && !Replays(t, InputFor(request))
             && CreateSpec(t, InputFor(request), now, draw, fault).1.Ok?
    ensures StoredParts(CreateSpec(StagedState(s, request.parts), InputFor(request), now, draw, fault).0, draw.item,
                        request.parts, draw, now)
  {
    hide *;
    EarlyMeans(c, request, s.minted);
    InputFits(request, draw);
    var (parts, t, input) := (request.parts, StagedState(s, request.parts), InputFor(request));
    RowsAfterCreate(t, input, now, draw, fault);
    NewItemText(input, now, |input.text| + Sizes(input.attachments));
    StagedIsThere(s, parts);
    forall k | 0 <= k < |FilesOf(parts)|
      ensures var p, u := TempOf(FilesOf(parts)[k]), CreateSpec(t, input, now, draw, fault).0;
              p in UploadsOf(parts) && draw.blobs[k] in u.contents && u.contents[draw.blobs[k]] == UploadsOf(parts)[p]
    {
      CreatedContents(t, input, now, draw, fault, k);
    }
    StoredPartsAre(CreateSpec(t, input, now, draw, fault).0, draw.item, parts, draw, now);
  }

  lemma NewKeyMeansCreated(s: State, c: Config, request: Request, now: Instant, draw: Draw, fault: Fault, h: KeyHash)
    requires EarlyAnswer(c, request).None? && WellFormed(request.parts, s.minted)
    requires |draw.attachments| == |draw.blobs| == Count(FilePart, request.parts)
    requires Inv(StagedState(s, request.parts))
    requires Enabled(StagedState(s, request.parts), CreateOp(InputFor(request), now, draw, fault))
    requires h !in s.tables.keys
    requires h in CreateSpec(StagedState(s, request.parts), InputFor(request), now, draw, fault).0.tables.keys
    ensures var (t, input) := (StagedState(s, request.parts), InputFor(request));
            && !Replays(t, input) && CreateSpec(t, input, now, draw, fault).1.Ok?
            && KeyOf(request) == Some(Key(h)) && CreateSpec(t, input, now, draw, fault).0.tables.keys[h] == draw.item
  {
    hide CreateSpec, Inv, SizesMatch, NewFor, TextOf, DaysOf, FilesOf, UploadsOf, TempsIn;
    var t, input := StagedState(s, request.parts), InputFor(request);
    if CreateSpec(t, input, now, draw, fault).1.Ok? && !Replays(t, input) {
      var rows := CreateSuccess(t, input, now, draw, fault);
    } else {
      CreateFailure(t, input, now, draw, fault);
    }
  }

  lemma LosingUploadsKeepsParts(v: State, parts: seq<Part>, item: Id, draw: Draw, now: Instant)
    requires Sized(parts) && |draw.attachments| == |draw.blobs| == |FilesOf(parts)| && AllStaged(FilesOf(parts))
    requires StoredParts(v, item, parts, draw, now)
    ensures StoredParts(v.(files := v.files - Temps(FilesOf(parts))), item, parts, draw, now)
  {
    hide TextOf, FilesOf, UploadsOf, NewRows;
  }

  /** If a request's key is in the table only afterwards, it leads to a new item with the request's contents. */
  lemma UploadStores(s: State, c: Config, request: Request, now: Instant, draw: Draw, fault: Fault, h: KeyHash)
    requires Inv(s) && UploadEnabled(s, c, request, now, draw)
    requires |draw.attachments| == |draw.blobs| == Count(FilePart, request.parts)
    requires h !in s.tables.keys && h in UploadSpec(s, c, request, now, draw, fault).0.tables.keys
    ensures EarlyAnswer(c, request).None? && KeyOf(request) == Some(Key(h)) && AllStaged(FilesOf(request.parts))
    ensures var u := UploadSpec(s, c, request, now, draw, fault).0;
            u.tables.keys[h] == draw.item && StoredParts(u, draw.item, request.parts, draw, now)
  {
    hide *;
    FreshCounts(s, c, request, now, draw);
    UploadCases(s, c, request, now, draw, fault);
    assert EarlyAnswer(c, request).None?;
    EarlyMeans(c, request, s.minted);
    InputFits(request, draw);
    StagedEnables(s, c, request, now, draw, fault);
    NewKeyMeansCreated(s, c, request, now, draw, fault, h);
    CreateStores(s, c, request, now, draw, fault);
    LosingUploadsKeepsParts(CreateSpec(StagedState(s, request.parts), InputFor(request), now, draw, fault).0,
                            request.parts, draw.item, draw, now);
  }
}
