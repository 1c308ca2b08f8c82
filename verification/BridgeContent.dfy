/** What reaches Drop of a message that the bridge forwards, and what Drop then keeps of it. */
module BridgeContent {
  import opened Prelude
  import opened Text
  import opened BridgeMessage
  import Drop = DropState
  import Runs = DropRuns
  import History = DropHistory
  import Upload = DropUpload
  import opened DropUploadRuns

  /** How a request arrives: whole; with a file that ends after n bytes, since the bridge closes the body regularly when
      reading the file from Telegram fails; or cut off in the middle of the body. */
  datatype Arrival = Whole(r: Reception) | Truncated(n: nat, r: Reception) | CutOff(request: Upload.Request)

  /** The message with no more than the first n bytes of its file. */
  function Shortened(m: Message, n: nat): Message
    requires m.media.Some? && n <= |m.media.value.bytes|
  { m.(media := Some(m.media.value.(bytes := m.media.value.bytes[..n]))) }

  ghost predicate CanArrive(c: Config, u: Update, arrival: Arrival)
    requires PlanFor(c, u).Forward?
  {
    var m, text := PlanFor(c, u).message, PlanFor(c, u).text;
    match arrival
    case Whole(r) => Ordinary(c, m, text, r)
    case Truncated(n, r) => m.media.Some? && n <= |m.media.value.bytes| && Ordinary(c, m, text, r)
    case CutOff(request) => request.broken && request.key == KeyFor(c, m) && request.actor == c.actor
  }

  /** The message as far as it arrives. */
  ghost function Sent(c: Config, u: Update, arrival: Arrival): Message
    requires PlanFor(c, u).Forward? && CanArrive(c, u, arrival)
  { if arrival.Truncated? then Shortened(PlanFor(c, u).message, arrival.n) else PlanFor(c, u).message }

  ghost function RequestOf(c: Config, u: Update, arrival: Arrival): Upload.Request
    requires PlanFor(c, u).Forward? && CanArrive(c, u, arrival)
  { if arrival.CutOff? then arrival.request else RequestFor(c, Sent(c, u, arrival), PlanFor(c, u).text, arrival.r) }

  /** Why Drop cannot stage the file of what arrives, if it cannot. */
  ghost function StagingOf(c: Config, u: Update, arrival: Arrival): Option<Upload.Code>
    requires PlanFor(c, u).Forward? && CanArrive(c, u, arrival)
  { if arrival.CutOff? then None else StagingFailure(PlanFor(c, u).message, arrival.r) }

  /** Some of the file's bytes are missing. */
  predicate Damages(u: Update, arrival: Arrival) {
    && arrival.Truncated? && u.content.Some? && u.content.value.media.Some?
    && arrival.n < |u.content.value.media.value.bytes|
  }

  lemma SentFits(c: Config, u: Update, arrival: Arrival)
    requires PlanFor(c, u).Forward? && CanArrive(c, u, arrival) && !arrival.CutOff?
    ensures Ordinary(c, Sent(c, u, arrival), PlanFor(c, u).text, arrival.r)
    ensures RequestOf(c, u, arrival) == RequestFor(c, Sent(c, u, arrival), PlanFor(c, u).text, arrival.r)
    ensures PlanFor(c, u).message == u.content.value
    ensures StagingFailure(Sent(c, u, arrival), arrival.r) == StagingOf(c, u, arrival)
    ensures Sent(c, u, arrival) == PlanFor(c, u).message <==> !Damages(u, arrival)
  {
    var m := PlanFor(c, u).message;
    if arrival.Truncated? && arrival.n == |m.media.value.bytes| {
      assert m.media.value.bytes[..arrival.n] == m.media.value.bytes;
    }
  }

  lemma KeyOfRequest(c: Config, u: Update, arrival: Arrival)
    requires PlanFor(c, u).Forward? && CanArrive(c, u, arrival)
    ensures var request := RequestOf(c, u, arrival);
            && request.key == KeyFor(c, PlanFor(c, u).message) && request.actor == c.actor
            && (Upload.KeyOf(request).Some? ==>
                  Upload.KeyOf(request) == Some(Drop.Key(HashFor(c, PlanFor(c, u).message))))
  {
    hide Upload.KeyOf, PlanFor, HashFor, Ordinary, PartsFor, Key;
    RequestKey(c, PlanFor(c, u).message, RequestOf(c, u, arrival));
  }

  // ---------------------------------------------------------------- what an item holds

  /** a is the item's only attachment, and its blob has these bytes. */
  ghost predicate OnlyFile(s: Drop.State, id: Drop.Id, a: Drop.Id, bytes: Bytes) {
    && a in s.tables.attachments && s.tables.attachments[a].itemId == id
    && (forall b :: b in s.tables.attachments && s.tables.attachments[b].itemId == id ==> b == a)
    && var row := s.tables.attachments[a];
       row.size == |bytes| && Drop.Blob(row.storageName) in s.files && s.files[Drop.Blob(row.storageName)] == bytes
  }

  /** The item is the message: its text, and one file with the media's bytes, or none. */
  ghost predicate Holds(s: Drop.State, id: Drop.Id, m: Message, text: string) {
    && id in s.tables.items && s.tables.items[id].text == Encode(text)
    && if m.media.Some? then exists a :: OnlyFile(s, id, a, m.media.value.bytes)
       else forall a :: a in s.tables.attachments ==> s.tables.attachments[a].itemId != id
  }

  /** The item that a request creates holds the message that the request carries. */
  lemma StoredIsHeld(u: Drop.State, item: Drop.Id, c: Config, m: Message, text: string, r: Reception, draw: Drop.Draw,
                     now: Drop.Instant)
    requires Runs.Inv(u) && Ordinary(c, m, text, r) && StagingFailure(m, r).None?
    requires Upload.Sized(PartsFor(c, m, text, r))
    requires |draw.attachments| == |draw.blobs| == |Upload.FilesOf(PartsFor(c, m, text, r))|
    requires Distinct(draw.attachments)
    requires Drop.AllStaged(Upload.FilesOf(PartsFor(c, m, text, r)))
    requires StoredParts(u, item, PartsFor(c, m, text, r), draw, now)
    ensures Holds(u, item, m, text)
  {
    hide PartsFor, Upload.FilesOf, Upload.TextOf, Upload.UploadsOf, Encode, Runs.Known, Runs.TotalsExact,
         Runs.WithinQuota, Upload.Verdict, Upload.DaysOf, Drop.NewRows;
    LoopAccepts(c, m, text, r);
    var files := Upload.FilesOf(PartsFor(c, m, text, r));
    var rows := Drop.NewRows(files, draw, now, |files|);
    forall a | a in rows ensures |files| == 1 && a == draw.attachments[0] {
      var i := Drop.NewRowIndex(files, draw, now, |files|, a);
    }
    if m.media.Some? {
      Drop.NewRowAt(files, draw, now, |files|, 0);
      assert Runs.Named(u.tables.attachments, draw.blobs[0]);
      assert OnlyFile(u, item, draw.attachments[0], m.media.value.bytes);
    }
  }

  /** An item keeps its contents for as long as it exists. */
  lemma ContentStays(s: Drop.State, u: Drop.State, id: Drop.Id, m: Message, text: string)
    requires Runs.Inv(s) && Runs.Inv(u) && History.Evolves(s, u) && id in u.tables.items
    requires Holds(s, id, m, text)
    ensures Holds(u, id, m, text)
  {
    hide Encode, Runs.Known, Runs.TotalsExact, Runs.WithinQuota, Runs.Constraints;
    assert History.SameItem(s, u, id);
    if m.media.Some? {
      var a :| OnlyFile(s, id, a, m.media.value.bytes);
      assert Runs.Named(u.tables.attachments, u.tables.attachments[a].storageName);
      assert OnlyFile(u, id, a, m.media.value.bytes);
    }
  }

  /** An item has only one contents. */
  lemma OneContents(s: Drop.State, id: Drop.Id, m: Message, n: Message, text: string)
    requires Holds(s, id, m, text) && Holds(s, id, n, text) && m.media.Some? && n.media.Some?
    ensures m.media.value.bytes == n.media.value.bytes
  {
    var a :| OnlyFile(s, id, a, m.media.value.bytes);
    var b :| OnlyFile(s, id, b, n.media.value.bytes);
  }

  lemma BrokenIsRefused(parts: seq<Upload.Part>)
    ensures Upload.Verdict(Upload.DEPLOYED, parts, true).Some?
  {
  }

  lemma CutOffIsRefused(request: Upload.Request)
    requires request.broken
    ensures Upload.EarlyAnswer(Upload.DEPLOYED, request).Some?
  {
    hide Upload.Verdict, Upload.KeyOf, Upload.Taken, Upload.DaysOf;
    BrokenIsRefused(request.parts);
  }

  lemma ShortenedPlan(c: Config, u: Update, n: nat)
    requires PlanFor(c, u).Forward? && PlanFor(c, u).message.media.Some?
    requires n <= |PlanFor(c, u).message.media.value.bytes|
    ensures var m := Shortened(PlanFor(c, u).message, n);
            && PlanFor(c, Update(u.id, Some(m))) == Forward(m, PlanFor(c, u).text)
            && !SendsNothing(m) && !SendsNothing(PlanFor(c, u).message)
            && m.chat == PlanFor(c, u).message.chat && m.id == PlanFor(c, u).message.id
  {
    hide TrimSpace, ToLower, Before;
  }

  /** Drop's early answer to what arrives: a refusal of what is cut off, of a file that it cannot stage, of the empty
      messages and of the short keys, and of nothing else. It does not notice that a file is incomplete. */
  lemma ArrivalAnswers(c: Config, u: Update, arrival: Arrival)
    requires PlanFor(c, u).Forward? && CanArrive(c, u, arrival)
    ensures var m := PlanFor(c, u).message;
            var answer := Upload.EarlyAnswer(Upload.DEPLOYED, RequestOf(c, u, arrival));
            if arrival.CutOff? then answer.Some?
            else answer == if StagingOf(c, u, arrival).Some? then StagingOf(c, u, arrival)
                           else if SendsNothing(m) then Some(Upload.EmptyItem)
                           else if |Decimal(c.bot as int)| + |Decimal(m.chat as int)| + |Decimal(m.id as int)| < 5
                           then Some(Upload.InvalidKey)
                           else None
  {
    hide PlanFor, Upload.EarlyAnswer, RequestFor, Decimal, SendsNothing, Encode, StagingFailure;
    if arrival.CutOff? {
      CutOffIsRefused(arrival.request);
    } else {
      SentFits(c, u, arrival);
      var sent := u;
      if arrival.Truncated? {
        ShortenedPlan(c, u, arrival.n);
        sent := Update(u.id, Some(Shortened(PlanFor(c, u).message, arrival.n)));
      }
      DropAnswers(c, sent, arrival.r);
    }
  }

  lemma TakenIsStaged(c: Config, u: Update, arrival: Arrival)
    requires PlanFor(c, u).Forward? && CanArrive(c, u, arrival)
    requires Upload.EarlyAnswer(Upload.DEPLOYED, RequestOf(c, u, arrival)).None?
    ensures !arrival.CutOff? && StagingOf(c, u, arrival).None?
  {
    hide *;
    ArrivalAnswers(c, u, arrival);
  }

  lemma FreshIsDistinct(s: Drop.State, request: Upload.Request, now: Drop.Instant, draw: Drop.Draw)
    requires UploadEnabled(s, Upload.DEPLOYED, request, now, draw)
    ensures Distinct(draw.attachments) && Upload.WellFormed(request.parts, s.minted)
    ensures |draw.attachments| == |draw.blobs| == Upload.Count(Upload.FilePart, request.parts)
  {
  }

  /** An item that the bridge's request creates holds the message exactly as far as it arrived. */
  lemma StoredAsArrived(s: Drop.State, c: Config, u: Update, arrival: Arrival, now: Drop.Instant, draw: Drop.Draw,
                        fault: Drop.Fault)
    requires Runs.Inv(s) && PlanFor(c, u).Forward? && CanArrive(c, u, arrival)
    requires UploadEnabled(s, Upload.DEPLOYED, RequestOf(c, u, arrival), now, draw)
    requires |draw.attachments| == |draw.blobs| == Upload.Count(Upload.FilePart, RequestOf(c, u, arrival).parts)
    requires HashFor(c, PlanFor(c, u).message) !in s.tables.keys
    requires HashFor(c, PlanFor(c, u).message)
             in Upload.UploadSpec(s, Upload.DEPLOYED, RequestOf(c, u, arrival), now, draw, fault).0.tables.keys
    ensures !arrival.CutOff?
    ensures var v := Upload.UploadSpec(s, Upload.DEPLOYED, RequestOf(c, u, arrival), now, draw, fault).0;
            Holds(v, v.tables.keys[HashFor(c, PlanFor(c, u).message)], Sent(c, u, arrival), PlanFor(c, u).text)
  {
    hide *;
    var request := RequestOf(c, u, arrival);
    UploadStores(s, Upload.DEPLOYED, request, now, draw, fault, HashFor(c, PlanFor(c, u).message));
    TakenIsStaged(c, u, arrival);
    FreshIsDistinct(s, request, now, draw);
    UploadKeepsInv(s, Upload.DEPLOYED, request, now, draw, fault);
    SentFits(c, u, arrival);
    PartsOf(c, Sent(c, u, arrival), PlanFor(c, u).text, arrival.r);
    var v := Upload.UploadSpec(s, Upload.DEPLOYED, request, now, draw, fault).0;
    StoredIsHeld(v, draw.item, c, Sent(c, u, arrival), PlanFor(c, u).text, arrival.r, draw, now);
  }

  lemma PartsOf(c: Config, m: Message, text: string, r: Reception)
    requires |r.temps| == 3
    ensures RequestFor(c, m, text, r).parts == PartsFor(c, m, text, r)
  {
  }
}
