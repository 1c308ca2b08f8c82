/** Where the bridge falls short: messages that stop it, and files that it delivers incomplete. */
module BridgeFailures {
  import opened Prelude
  import opened Text
  import opened BridgeMessage
  import opened BridgeLoop
  import opened BridgeContent
  import opened BridgeDelivery
  import Drop = DropState
  import Runs = DropRuns
  import History = DropHistory
  import Upload = DropUpload
  import opened DropUploadRuns

  // ---------------------------------------------------------------- what is never delivered

  /** An update that Drop refuses, whatever the circumstances: one without text and file, or with a short key. */
  predicate Refusable(c: Config, u: Update) {
    Forwardable(c, u) && (SendsNothing(PlanFor(c, u).message) || |KeyFor(c, PlanFor(c, u).message)| < 16)
  }

  lemma ShortKeyMeans(c: Config, m: Message)
    ensures |KeyFor(c, m)| < 16 <==> |Decimal(c.bot as int)| + |Decimal(m.chat as int)| + |Decimal(m.id as int)| < 5
  {
    KeyLengthAccepted(c.bot, m.chat, m.id);
  }

  /** However it arrives, its request is refused before the store is called. Every other update's request is refused
      exactly if it is cut off or Drop cannot stage the file, and may pass with the next attempt. */
  lemma RefusableIsRefused(c: Config, u: Update, arrival: Arrival)
    requires Forwardable(c, u) && CanArrive(c, u, arrival)
    ensures Upload.EarlyAnswer(Upload.DEPLOYED, RequestOf(c, u, arrival)).Some? <==>
              arrival.CutOff? || StagingOf(c, u, arrival).Some? || Refusable(c, u)
  {
    hide CanArrive, RequestOf, PlanFor, Decimal, SendsNothing, KeyFor, Upload.EarlyAnswer, StagingOf;
    ArrivalAnswers(c, u, arrival);
    ShortKeyMeans(c, PlanFor(c, u).message);
  }

  /** A no-break space as text and a caption: the message passes for one with text, and is sent without any. */
  lemma BlankTextIsRefusable(c: Config, id: int64, chat: int64, user: int64, chatName: string, senderName: string)
    requires chat in c.allowedChats || user in c.allowedUsers
    ensures var m := Message(id, chat, user, "private", chatName, senderName, [0xA0 as char], "hi", None);
            Refusable(c, Update(id, Some(m)))
  {
    var m := Message(id, chat, user, "private", chatName, senderName, [0xA0 as char], "hi", None);
    assert TrimLeft(m.text) == "";
    assert TrimLeft("hi") == "hi" && TrimRight("hi") == "hi";
    assert PlanFor(c, Update(id, Some(m))) == Forward(m, "");
  }

  /** The first messages of a chat with a small number, sent by a bot with a small number. */
  lemma ShortKeyIsRefusable(c: Config, id: int64, user: int64, chatName: string, senderName: string)
    requires c.bot == 1 && (2 in c.allowedChats || user in c.allowedUsers)
    ensures Refusable(c, Update(id, Some(Message(3, 2, user, "private", chatName, senderName, "hello", "", None))))
  {
    var m := Message(3, 2, user, "private", chatName, senderName, "hello", "", None);
    assert TrimLeft("hello") == "hello" && TrimRight("hello") == "hello";
    assert PlanFor(c, Update(id, Some(m))) == Forward(m, "hello");
    assert Decimal(1) == "1" && Decimal(2) == "2" && Decimal(3) == "3";
    assert |KeyFor(c, m)| == 14;
  }

  /** An early answer is no item. */
  lemma EarlyIsNoItem(s: Drop.State, request: Upload.Request, now: Drop.Instant, draw: Drop.Draw, fault: Drop.Fault)
    requires Serves(s, request, now, draw) && Upload.EarlyAnswer(Upload.DEPLOYED, request).Some?
    ensures Upload.UploadSpec(s, Upload.DEPLOYED, request, now, draw, fault).1.Refused?
  {
    hide Drop.CreateSpec, Upload.StagedState, Upload.InputFor, Upload.EarlyAnswer;
  }

  /** Such an update stops the bridge: no step, however often it is retried, gets past it. */
  lemma StuckAtRefusable(c: Config, w: World, step: Step, k: nat)
    requires Sound(c, w) && CanDo(c, w, step) && w.next <= k < |w.feed| && Refusable(c, w.feed[k])
    ensures DoStep(c, w, step).next <= k
  {
    hide PlanFor, Runs.Inv, Tracked, DeliveredTo, UploadEnabled, SendsNothing, KeyFor, Runs.Apply, Upload.UploadSpec,
         CanArrive, RequestOf, AllFaithful, Refusable, Forwardable, Runs.Enabled, Serves, Upload.EarlyAnswer;
    if step.Handle? && w.next == k {
      HandlesTheNext(c, w, step);
      StuckAttempt(c, w, step.attempt, step.served);
    }
  }

  lemma StuckAttempt(c: Config, w: World, a: Attempt, served: Served)
    requires AscendingFeed(w.feed) && CanDo(c, w, Handle(a, served)) && Refusable(c, w.local.todo[0])
    ensures !Succeeds(c, w.local.todo[0], a)
  {
    hide Upload.UploadSpec, CanArrive, RequestOf, Serves, Upload.EarlyAnswer, KeyFor, SendsNothing, PlanFor;
    var u := w.local.todo[0];
    if served.Reached? {
      RefusableIsRefused(c, u, served.arrival);
      EarlyIsNoItem(w.drop, RequestOf(c, u, served.arrival), served.now, served.draw, served.fault);
    }
  }

  /** Nor does any run that does not begin behind it. */
  lemma {:induction false} StuckForEver(c: Config, w: World, steps: seq<Step>, k: nat)
    requires Sound(c, w) && ValidSteps(c, w, steps) && w.next <= k < |w.feed| && Refusable(c, w.feed[k])
    ensures RunSteps(c, w, steps).next <= k
    decreases |steps|
  {
    hide Sound, CanDo, DoStep, AscendingFeed, Refusable;
    SoundFeed(c, w);
    if steps != [] {
      StuckAtRefusable(c, w, steps[0], k);
      StepKeepsSound(c, w, steps[0]);
      SameFeed(c, w, steps[0]);
      StuckForEver(c, DoStep(c, w, steps[0]), steps[1..], k);
    }
  }

  // ---------------------------------------------------------------- what is delivered incomplete

  lemma {:induction false} RunEvolves(c: Config, w: World, steps: seq<Step>)
    requires Sound(c, w) && ValidSteps(c, w, steps)
    ensures Runs.Inv(RunSteps(c, w, steps).drop) && History.Evolves(w.drop, RunSteps(c, w, steps).drop)
    decreases |steps|
  {
    hide Sound, CanDo, DoStep, AscendingFeed, Runs.Inv, History.Evolves, Runs.Known;
    SoundParts(c, w);
    if steps == [] {
      NothingHappened(w.drop);
    } else {
      var v := DoStep(c, w, steps[0]);
      DropKept(c, w, steps[0]);
      StepKeepsSound(c, w, steps[0]);
      SameFeed(c, w, steps[0]);
      RunEvolves(c, v, steps[1..]);
      Chain(w.drop, v.drop, RunSteps(c, v, steps[1..]).drop);
    }
  }

  lemma Chain(s: Drop.State, t: Drop.State, u: Drop.State)
    requires Runs.Inv(s) && History.Evolves(s, t) && History.Evolves(t, u)
    ensures History.Evolves(s, u)
  {
    hide History.Evolves, Runs.BlobsAgree, Runs.TotalsExact, Runs.WithinQuota;
    History.EvolvesTransitive(s, t, u);
  }

  /** The step hands Drop the first request under a new key, and Drop creates an item. */
  ghost predicate Creates(c: Config, w: World, a: Attempt, served: Served)
    requires AscendingFeed(w.feed)
  {
    && CanDo(c, w, Handle(a, served)) && served.Reached?
    && var h := HashFor(c, PlanFor(c, w.local.todo[0]).message);
       h !in w.drop.tables.keys && h in DoStep(c, w, Handle(a, served)).drop.tables.keys
  }

  lemma CreatedHolds(c: Config, w: World, a: Attempt, served: Served)
    requires Sound(c, w) && Creates(c, w, a, served)
    ensures !served.arrival.CutOff?
    ensures var u, s := w.local.todo[0], DoStep(c, w, Handle(a, served)).drop;
            Holds(s, s.tables.keys[HashFor(c, PlanFor(c, u).message)], Sent(c, u, served.arrival), PlanFor(c, u).text)
  {
    hide Upload.UploadSpec, UploadEnabled, HashFor, CanArrive, RequestOf, PlanFor, Holds, Runs.Inv, Sent, SizeAgrees,
         Succeeds;
    hide AllFaithful, DeliveredTo, Tracked, Positioned, Damages, Entries;
    StoredAsArrived(w.drop, c, w.local.todo[0], served.arrival, served.now, served.draw, served.fault);
  }

  /** The first request that Drop turns into an item decides what is kept: in every later state in which the item still
      exists, the key leads to it, and it holds the message as far as it arrived with that request. So the message is
      kept whole exactly if the bridge read its file to the end. */
  lemma KeptAsItArrived(c: Config, w: World, a: Attempt, served: Served, steps: seq<Step>)
    requires Sound(c, w) && Creates(c, w, a, served) && ValidSteps(c, DoStep(c, w, Handle(a, served)), steps)
    requires var h, v := HashFor(c, PlanFor(c, w.local.todo[0]).message), DoStep(c, w, Handle(a, served));
             v.drop.tables.keys[h] in RunSteps(c, v, steps).drop.tables.items
    ensures !served.arrival.CutOff?
    ensures var u, v := w.local.todo[0], DoStep(c, w, Handle(a, served));
            var h, s := HashFor(c, PlanFor(c, u).message), RunSteps(c, v, steps).drop;
            && h in s.tables.keys && s.tables.keys[h] == v.drop.tables.keys[h]
            && Holds(s, s.tables.keys[h], Sent(c, u, served.arrival), PlanFor(c, u).text)
            && (Holds(s, s.tables.keys[h], PlanFor(c, u).message, PlanFor(c, u).text) <==> !Damages(u, served.arrival))
  {
    hide HashFor, Holds, PlanFor, CanArrive, Sent, Runs.Inv, History.Evolves, Sound, DoStep, CanDo, ServedOk, Damages,
         ValidSteps, RunSteps;
    hide AscendingFeed, Runs.Constraints, CallsDrop;
    SoundParts(c, w);
    CreatesMeans(c, w, a, served);
    var u, v := w.local.todo[0], DoStep(c, w, Handle(a, served));
    var h := HashFor(c, PlanFor(c, u).message);
    CreatedHolds(c, w, a, served);
    StepKeepsSound(c, w, Handle(a, served));
    SoundParts(c, v);
    RunEvolves(c, v, steps);
    var s := RunSteps(c, v, steps).drop;
    var id := v.drop.tables.keys[h];
    KeyStays(v.drop, s, h);
    ContentStays(v.drop, s, id, Sent(c, u, served.arrival), PlanFor(c, u).text);
    SentFits(c, u, served.arrival);
    if Damages(u, served.arrival) {
      DamageShows(c, u, served.arrival, s, id);
    }
  }

  lemma CreatesMeans(c: Config, w: World, a: Attempt, served: Served)
    requires AscendingFeed(w.feed) && Creates(c, w, a, served)
    ensures CanDo(c, w, Handle(a, served)) && w.local.todo != [] && PlanFor(c, w.local.todo[0]).Forward?
    ensures CanArrive(c, w.local.todo[0], served.arrival)
  {
  }

  lemma KeyStays(s: Drop.State, u: Drop.State, h: Drop.KeyHash)
    requires Runs.Inv(s) && Runs.Inv(u) && History.Evolves(s, u) && h in s.tables.keys
    requires s.tables.keys[h] in u.tables.items
    ensures h in u.tables.keys && u.tables.keys[h] == s.tables.keys[h]
  {
    hide History.Evolves, Runs.BlobsAgree, Runs.TotalsExact, Runs.WithinQuota, Runs.Known;
    History.KeyWhileItem(s, u, h, s.tables.keys[h]);
  }

  lemma DamageShows(c: Config, u: Update, arrival: Arrival, s: Drop.State, id: Drop.Id)
    requires PlanFor(c, u).Forward? && CanArrive(c, u, arrival) && Damages(u, arrival)
    requires Holds(s, id, Sent(c, u, arrival), PlanFor(c, u).text)
    ensures !Holds(s, id, PlanFor(c, u).message, PlanFor(c, u).text)
  {
    hide Holds, PlanFor;
    ForwardsContent(c, u);
    if Holds(s, id, PlanFor(c, u).message, PlanFor(c, u).text) {
      OneContents(s, id, Sent(c, u, arrival), PlanFor(c, u).message, PlanFor(c, u).text);
    }
  }

  // ---------------------------------------------------------------- a run in which that happens

  function FileBytes(m: Message): Bytes { if m.media.Some? then m.media.value.bytes else [] }

  /** What a request carries that arrives without being cut off. */
  lemma InputOf(c: Config, u: Update, arrival: Arrival, minted: set<Drop.Id>)
    requires PlanFor(c, u).Forward? && CanArrive(c, u, arrival) && !arrival.CutOff? && !Refusable(c, u)
    requires Forwardable(c, u) && StagingOf(c, u, arrival).None?
    requires Upload.WellFormed(RequestOf(c, u, arrival).parts, minted) && c.subject != "" && c.actor != ""
    ensures var request := RequestOf(c, u, arrival);
            && Upload.EarlyAnswer(Upload.DEPLOYED, request).None? && Upload.Sized(request.parts)
            && Upload.KeyOf(request) == Some(Drop.Key(HashFor(c, PlanFor(c, u).message)))
    ensures var input := Upload.InputFor(RequestOf(c, u, arrival));
            && !Drop.BadInput(input) && input.key == Drop.Key(HashFor(c, PlanFor(c, u).message))
            && |input.attachments| <= 1
            && (forall i :: 0 <= i < |input.attachments| ==> !Drop.BadPending(input.attachments[i]))
            && |input.text| + Drop.Sizes(input.attachments)
               == |Encode(PlanFor(c, u).text)| + |FileBytes(Sent(c, u, arrival))|
  {
    hide StagingOf, StagingFailure;
    hide PlanFor, CanArrive, RequestOf, Sent, Refusable, Forwardable, HashFor, Upload.EarlyAnswer, Upload.KeyOf,
         Upload.WellFormed, Upload.TextOf, Upload.DaysOf, Upload.FilesOf, Drop.BadInput, Drop.BadPending, Encode,
         Upload.Verdict, Upload.UploadsOf;
    RefusableIsRefused(c, u, arrival);
    KeyOfRequest(c, u, arrival);
    SentFits(c, u, arrival);
    SubjectOf(c, u, arrival);
    PartsOf(c, Sent(c, u, arrival), PlanFor(c, u).text, arrival.r);
    LoopAccepts(c, Sent(c, u, arrival), PlanFor(c, u).text, arrival.r);
    Upload.StoreCallBounded(Upload.DEPLOYED, RequestOf(c, u, arrival), minted);
  }

  lemma SubjectOf(c: Config, u: Update, arrival: Arrival)
    requires PlanFor(c, u).Forward? && CanArrive(c, u, arrival) && !arrival.CutOff?
    ensures RequestOf(c, u, arrival).subject == c.subject && RequestOf(c, u, arrival).actor == c.actor
  {
  }

  /** The key leads to the item, which has not expired. */
  ghost predicate LeadsTo(t: Drop.Tables, h: Drop.KeyHash, item: Drop.Id, now: Drop.Instant) {
    h in t.keys && t.keys[h] == item && item in t.items && Drop.Active(t.items[item], now)
  }

  /** With room in the quota and no failing call, Drop creates an item of whatever arrives. */
  lemma AcceptsWhatArrives(s: Drop.State, c: Config, u: Update, arrival: Arrival, now: Drop.Instant, draw: Drop.Draw)
    requires Runs.Inv(s) && Forwardable(c, u) && !Refusable(c, u) && CanArrive(c, u, arrival) && !arrival.CutOff?
    requires StagingOf(c, u, arrival).None?
    requires Serves(s, RequestOf(c, u, arrival), now, draw) && c.subject != "" && c.actor != ""
    requires HashFor(c, PlanFor(c, u).message) !in s.tables.keys
    requires var size := |Encode(PlanFor(c, u).text)| + |FileBytes(Sent(c, u, arrival))|;
             size <= s.quota && size + Sum(Drop.ActiveSizes(s.tables.items, now)) <= s.quota
    ensures var v := Upload.UploadSpec(s, Upload.DEPLOYED, RequestOf(c, u, arrival), now, draw, Drop.NoFault).0;
            && LeadsTo(v.tables, HashFor(c, PlanFor(c, u).message), draw.item, now) && v.clock == now
            && v.quota == s.quota
            && v.minted == s.minted + Upload.TempsIn(RequestOf(c, u, arrival).parts) + draw.Ids()
  {
    hide *;
    ForwardableMeans(c, u);
    var request, h := RequestOf(c, u, arrival), HashFor(c, PlanFor(c, u).message);
    ServesMeans(s, request, now, draw);
    InputOf(c, u, arrival, s.minted);
    InputFits(request, draw);
    UploadCases(s, Upload.DEPLOYED, request, now, draw, Drop.NoFault);
    StagedEnables(s, Upload.DEPLOYED, request, now, draw, Drop.NoFault);
    StagedIsThere(s, request.parts);
    StagedKeeps(s, request.parts);
    AcceptsStaged(Upload.StagedState(s, request.parts), Upload.InputFor(request), h, now, draw);
  }

  lemma ServesMeans(s: Drop.State, request: Upload.Request, now: Drop.Instant, draw: Drop.Draw)
    requires Serves(s, request, now, draw)
    ensures UploadEnabled(s, Upload.DEPLOYED, request, now, draw) && Upload.WellFormed(request.parts, s.minted)
    ensures |draw.attachments| == |draw.blobs| == Upload.Count(Upload.FilePart, request.parts)
  {
  }

  lemma ForwardableMeans(c: Config, u: Update)
    requires Forwardable(c, u)
    ensures PlanFor(c, u).Forward?
  {
  }

  lemma StagedKeeps(s: Drop.State, parts: seq<Upload.Part>)
    ensures var t := Upload.StagedState(s, parts);
            t.tables == s.tables && t.quota == s.quota && t.minted == s.minted + Upload.TempsIn(parts)
  {
  }

  lemma AcceptsStaged(t: Drop.State, input: Drop.CreateInput, h: Drop.KeyHash, now: Drop.Instant, draw: Drop.Draw)
    requires Runs.Inv(t) && Runs.Enabled(t, Runs.CreateOp(input, now, draw, Drop.NoFault))
    requires input.key == Drop.Key(h) && h !in t.tables.keys && !Drop.BadInput(input) && |input.attachments| <= 1
    requires forall i :: 0 <= i < |input.attachments| ==> !Drop.BadPending(input.attachments[i])
    requires Drop.AllStaged(input.attachments)
    requires forall i :: 0 <= i < |input.attachments| ==> Drop.TempOf(input.attachments[i]) in t.files
    requires |input.text| + Drop.Sizes(input.attachments) <= t.quota
    requires |input.text| + Drop.Sizes(input.attachments) + Sum(Drop.ActiveSizes(t.tables.items, now)) <= t.quota
    ensures |draw.attachments| == |draw.blobs| == |input.attachments|
    ensures var v := Drop.CreateSpec(t, input, now, draw, Drop.NoFault).0;
            LeadsTo(v.tables, h, draw.item, now) && v.clock == now && v.quota == t.quota
            && v.minted == t.minted + draw.Ids()
  {
    hide Sum, Drop.CreateSpec, Drop.ActiveSizes, Drop.Sizes, Drop.NewRows, Drop.Placed, Runs.SizesMatch, Runs.Inv,
         Drop.BadPending;
    assert forall i :: 0 <= i < |input.attachments| ==> input.attachments[..i] == [];
    Runs.GoesThrough(t, input, now, draw);
    var rows := Runs.CreateSuccess(t, input, now, draw, Drop.NoFault);
  }

  /** While the item has not expired, every later request under the key is answered with it, unless it is cut off or
      Drop cannot stage its file; and none changes the tables. */
  lemma RetryIsAnswered(s: Drop.State, c: Config, u: Update, arrival: Arrival, now: Drop.Instant, draw: Drop.Draw)
    requires Runs.Inv(s) && Forwardable(c, u) && !Refusable(c, u) && CanArrive(c, u, arrival)
    requires Serves(s, RequestOf(c, u, arrival), now, draw) && c.subject != "" && c.actor != ""
    requires |Encode(PlanFor(c, u).text)| + |FileBytes(Sent(c, u, arrival))| <= s.quota
    requires var h := HashFor(c, PlanFor(c, u).message);
             h in s.tables.keys && LeadsTo(s.tables, h, s.tables.keys[h], now)
    ensures var (v, answer) := Upload.UploadSpec(s, Upload.DEPLOYED, RequestOf(c, u, arrival), now, draw, Drop.NoFault);
            && v.tables == s.tables
            && (answer.Accepted? <==> !arrival.CutOff? && StagingOf(c, u, arrival).None?)
            && (answer.Accepted? ==> answer.item.id == s.tables.keys[HashFor(c, PlanFor(c, u).message)])
  {
    hide *;
    ForwardableMeans(c, u);
    var request, h := RequestOf(c, u, arrival), HashFor(c, PlanFor(c, u).message);
    ServesMeans(s, request, now, draw);
    UploadCases(s, Upload.DEPLOYED, request, now, draw, Drop.NoFault);
    RefusableIsRefused(c, u, arrival);
    if !arrival.CutOff? && StagingOf(c, u, arrival).None? {
      InputOf(c, u, arrival, s.minted);
      InputFits(request, draw);
      StagedKeeps(s, request.parts);
      AnsweredFrom(Upload.StagedState(s, request.parts), Upload.InputFor(request), h, now, draw);
    }
  }

  lemma AnsweredFrom(t: Drop.State, input: Drop.CreateInput, h: Drop.KeyHash, now: Drop.Instant, draw: Drop.Draw)
    requires |draw.attachments| == |draw.blobs| == |input.attachments|
    requires input.key == Drop.Key(h) && h in t.tables.keys && LeadsTo(t.tables, h, t.tables.keys[h], now)
    requires !Drop.BadInput(input)
    requires forall i :: 0 <= i < |input.attachments| ==> !Drop.BadPending(input.attachments[i])
    requires |input.text| + Drop.Sizes(input.attachments) <= t.quota
    ensures var (v, r) := Drop.CreateSpec(t, input, now, draw, Drop.NoFault);
            r.Ok? && r.value.id == t.tables.keys[h] && v.tables == t.tables
  {
    hide Sum, Drop.CreateSpec, Drop.Sizes, Drop.BadPending, Drop.AttachmentsOf, Drop.BadInput;
    Runs.AdmitMeaning(t.quota, |input.text|, input.attachments);
    History.ReplayAnswers(t, input, now, draw);
  }

  /** The first identifiers from base on, for one request. */
  function ReceptionAt(base: nat): Reception {
    Reception([base, base + 1, base + 2], "file", "text/plain", seq(32, _ => 0 as byte), false, false)
  }

  function DrawAt(base: nat): Drop.Draw { Drop.Draw(base + 3, [base + 4], [base + 5]) }

  lemma TempsFor(c: Config, m: Message, text: string, r: Reception)
    requires Ordinary(c, m, text, r) && m.media.Some? && StagingFailure(m, r).None?
    ensures Upload.TempsIn(PartsFor(c, m, text, r)) == {r.temps[2]}
  {
    hide PartsFor, Upload.UploadsOf, Upload.TempsIn, Upload.TextOf, Upload.DaysOf, Upload.FilesOf;
    var parts := PartsFor(c, m, text, r);
    LoopAccepts(c, m, text, r);
    Upload.StagedPaths(parts);
    assert Upload.UploadPaths(Upload.TempsIn(parts)) == {Drop.Upload(r.temps[2])};
    forall n ensures n in Upload.TempsIn(parts) <==> n == r.temps[2] {
      assert n in Upload.TempsIn(parts) <==> Drop.Upload(n) in Upload.UploadPaths(Upload.TempsIn(parts));
    }
  }

  /** Drop can serve a request that arrives with the next identifiers. */
  lemma CanServe(s: Drop.State, c: Config, u: Update, arrival: Arrival, base: nat, now: Drop.Instant)
    requires PlanFor(c, u).Forward? && CanArrive(c, u, arrival) && !arrival.CutOff? && PlanFor(c, u).message.media.Some?
    requires arrival.r == ReceptionAt(base) && s.clock <= now && forall x :: x in s.minted ==> x < base
    ensures Serves(s, RequestOf(c, u, arrival), now, DrawAt(base))
    ensures Upload.TempsIn(RequestOf(c, u, arrival).parts) == {base + 2}
  {
    hide PlanFor, CanArrive, Sent, RequestOf, Encode, Decimal, Upload.TextOf, Upload.DaysOf, Upload.FilesOf,
         Upload.UploadsOf, Upload.TempsIn, Upload.Count, Upload.Verdict;
    SentFits(c, u, arrival);
    var m, text := Sent(c, u, arrival), PlanFor(c, u).text;
    SentHasFile(c, u, arrival);
    PartsOf(c, m, text, arrival.r);
    LoopAccepts(c, m, text, arrival.r);
    TempsFor(c, m, text, arrival.r);
  }

  lemma SentHasFile(c: Config, u: Update, arrival: Arrival)
    requires PlanFor(c, u).Forward? && CanArrive(c, u, arrival)
    ensures Sent(c, u, arrival).media.Some? == PlanFor(c, u).message.media.Some?
    ensures |FileBytes(Sent(c, u, arrival))| <= |FileBytes(PlanFor(c, u).message)|
  {
  }

  lemma Cons(c: Config, w: World, step: Step, v: World, rest: seq<Step>)
    requires AscendingFeed(w.feed) && CanDo(c, w, step) && v == DoStep(c, w, step)
    requires v.feed == w.feed && ValidSteps(c, v, rest)
    ensures ValidSteps(c, w, [step] + rest) && RunSteps(c, w, [step] + rest) == RunSteps(c, v, rest)
  {
    hide CanDo, DoStep, AscendingFeed;
    SameFeed(c, w, step);
    assert ([step] + rest)[1..] == rest;
  }

  lemma PollOne(c: Config, w: World, u: Update)
    requires w.feed == [u] && 0 <= u.id && w.confirmed == 0
    requires w.local.offset == 0 && w.local.todo == [] && !w.local.sleeping
    ensures AscendingFeed(w.feed) && CanDo(c, w, Poll(1))
    ensures DoStep(c, w, Poll(1)) == w.(local := Local(0, [u], 0, false))
  {
    BelowIs(w.feed, 0, 0);
  }

  /** All goes well up to the upload; then the bridge does not see an answer, or sees one. */
  function Unanswered(m: Message): Attempt
    requires m.media.Some?
  { Attempt(true, m.media.value.resolvedSize, true, false, false) }

  function Answered(m: Message): Attempt
    requires m.media.Some?
  { Attempt(true, m.media.value.resolvedSize, true, true, true) }

  /** The bridge has one forwardable message with a file at hand, and Drop serves what arrives of it. */
  ghost predicate AtHand(c: Config, w: World, u: Update, served: Served) {
    && w.feed == [u] && 0 <= u.id && w.local == Local(0, [u], 0, false)
    && Forwardable(c, u) && PlanFor(c, u).message.media.Some?
    && served.Reached? && CanArrive(c, u, served.arrival)
    && Serves(w.drop, RequestOf(c, u, served.arrival), served.now, served.draw)
  }

  /** Drop's state after it has served what arrives. */
  ghost function ServedBy(c: Config, s: Drop.State, u: Update, served: Served): Drop.State
    requires served.Reached? && PlanFor(c, u).Forward? && CanArrive(c, u, served.arrival)
    requires Serves(s, RequestOf(c, u, served.arrival), served.now, served.draw)
  { Upload.UploadSpec(s, Upload.DEPLOYED, RequestOf(c, u, served.arrival), served.now, served.draw, served.fault).0 }

  lemma UnansweredStep(c: Config, w: World, u: Update, served: Served)
    requires AtHand(c, w, u, served)
    ensures AscendingFeed(w.feed) && CanDo(c, w, Handle(Unanswered(PlanFor(c, u).message), served))
    ensures var v := DoStep(c, w, Handle(Unanswered(PlanFor(c, u).message), served));
            && v.feed == w.feed && v.confirmed == w.confirmed && v.next == w.next && v.local == Local(0, [], 0, true)
            && v.drop == ServedBy(c, w.drop, u, served)
  {
    hide RequestOf, CanArrive, Upload.UploadSpec, HashFor, UploadEnabled, Upload.Count, Damages, Entries;
  }

  lemma AnsweredStep(c: Config, w: World, u: Update, served: Served)
    requires AtHand(c, w, u, served) && served.arrival.Whole?
    requires Upload.UploadSpec(w.drop, Upload.DEPLOYED, RequestOf(c, u, served.arrival), served.now, served.draw,
                               served.fault).1.Accepted?
    ensures AscendingFeed(w.feed) && CanDo(c, w, Handle(Answered(PlanFor(c, u).message), served))
    ensures var v := DoStep(c, w, Handle(Answered(PlanFor(c, u).message), served));
            v.feed == w.feed && v.next == w.next + 1 && v.drop == ServedBy(c, w.drop, u, served)
  {
    hide RequestOf, CanArrive, Upload.UploadSpec, HashFor, UploadEnabled, Upload.Count, Damages, Entries;
  }

  /** An update with a file, of ordinary size, that the bridge can forward and Drop does not refuse. */
  ghost predicate Deliverable(c: Config, u: Update) {
    && 0 <= u.id && Forwardable(c, u) && !Refusable(c, u) && PlanFor(c, u).message.media.Some?
    && Ordinary(c, PlanFor(c, u).message, PlanFor(c, u).text, ReceptionAt(0)) && c.subject != "" && c.actor != ""
  }

  lemma EmptyDrop(quota: nat)
    requires 0 < quota
    ensures var s := Runs.Empty(quota, 0);
            && Runs.Inv(s) && s.tables == Drop.Tables(map[], map[], map[]) && s.minted == {} && s.clock == 0
            && s.quota == quota
            && Sum(Drop.ActiveSizes(s.tables.items, 0)) == 0
  {
    Runs.EmptyInv(quota, 0);
    assert Drop.ActiveSizes(map[], 0) == map[];
  }

  lemma MayArrive(c: Config, u: Update, n: nat, base: nat)
    requires Deliverable(c, u) && n <= |FileBytes(PlanFor(c, u).message)|
    ensures CanArrive(c, u, Truncated(n, ReceptionAt(base))) && CanArrive(c, u, Whole(ReceptionAt(base)))
    ensures Forwardable(c, u) && !Refusable(c, u) && PlanFor(c, u).Forward? && PlanFor(c, u).message.media.Some?
    ensures ReceptionAt(base).temps == [base, base + 1, base + 2] && c.subject != "" && c.actor != "" && 0 <= u.id
    ensures Sent(c, u, Whole(ReceptionAt(base))) == PlanFor(c, u).message
    ensures StagingOf(c, u, Truncated(n, ReceptionAt(base))).None? && StagingOf(c, u, Whole(ReceptionAt(base))).None?
  {
    hide PlanFor, Refusable, Encode;
    assert forall b :: Ordinary(c, PlanFor(c, u).message, PlanFor(c, u).text, ReceptionAt(b));
  }

  lemma AtIds(base: nat, arrival: Arrival)
    requires arrival == Whole(ReceptionAt(base)) || (arrival.Truncated? && arrival.r == ReceptionAt(base))
    ensures !arrival.CutOff? && arrival.r == ReceptionAt(base) && DrawAt(base).item == base + 3
    ensures forall x :: x in DrawAt(base).Ids() ==> x < base + 6
  {
  }

  /** A truncated request and a whole one to an empty Drop: the first creates the item, the second is answered with it.
      */
  lemma TwoRequests(c: Config, u: Update, n: nat, quota: nat)
    requires Deliverable(c, u) && n <= |FileBytes(PlanFor(c, u).message)|
    requires quota == |Encode(PlanFor(c, u).text)| + |FileBytes(PlanFor(c, u).message)| + 1
    ensures var s, first, second := Runs.Empty(quota, 0), Truncated(n, ReceptionAt(0)), Whole(ReceptionAt(6));
            var h := HashFor(c, PlanFor(c, u).message);
            && CanArrive(c, u, first) && CanArrive(c, u, second) && Serves(s, RequestOf(c, u, first), 0, DrawAt(0))
            && var t := Upload.UploadSpec(s, Upload.DEPLOYED, RequestOf(c, u, first), 0, DrawAt(0), Drop.NoFault).0;
               && h in t.tables.keys && t.tables.keys[h] in t.tables.items
               && Serves(t, RequestOf(c, u, second), 0, DrawAt(6))
               && var (v, answer) := Upload.UploadSpec(t, Upload.DEPLOYED, RequestOf(c, u, second), 0, DrawAt(6),
                                                       Drop.NoFault);
                  answer.Accepted? && v.tables == t.tables
  {
    hide *;
    MayArrive(c, u, n, 0);
    MayArrive(c, u, n, 6);
    var s, first, second := Runs.Empty(quota, 0), Truncated(n, ReceptionAt(0)), Whole(ReceptionAt(6));
    var h := HashFor(c, PlanFor(c, u).message);
    EmptyDrop(quota);
    AtIds(0, first);
    AtIds(6, second);
    SentHasFile(c, u, first);
    CanServe(s, c, u, first, 0, 0);
    AcceptsWhatArrives(s, c, u, first, 0, DrawAt(0));
    ServesMeans(s, RequestOf(c, u, first), 0, DrawAt(0));
    UploadKeepsInv(s, Upload.DEPLOYED, RequestOf(c, u, first), 0, DrawAt(0), Drop.NoFault);
    var t := Upload.UploadSpec(s, Upload.DEPLOYED, RequestOf(c, u, first), 0, DrawAt(0), Drop.NoFault).0;
    LeadsToMeans(t.tables, h, 3, 0);
    CanServe(t, c, u, second, 6, 0);
    RetryIsAnswered(t, c, u, second, 0, DrawAt(6));
  }

  lemma LeadsToMeans(t: Drop.Tables, h: Drop.KeyHash, item: Drop.Id, now: Drop.Instant)
    requires LeadsTo(t, h, item, now)
    ensures h in t.keys && t.keys[h] == item && item in t.items
  {
  }

  lemma HandIs(c: Config, w: World, u: Update, arrival: Arrival, draw: Drop.Draw)
    requires w.feed == [u] && 0 <= u.id && w.local == Local(0, [u], 0, false)
    requires Forwardable(c, u) && PlanFor(c, u).Forward? && PlanFor(c, u).message.media.Some?
    requires CanArrive(c, u, arrival)
    requires Serves(w.drop, RequestOf(c, u, arrival), 0, draw)
    ensures var served := Reached(arrival, 0, draw, Drop.NoFault);
            && AtHand(c, w, u, served)
            && ServedBy(c, w.drop, u, served)
               == Upload.UploadSpec(w.drop, Upload.DEPLOYED, RequestOf(c, u, arrival), 0, draw, Drop.NoFault).0
  {
  }

  lemma SleepStep(c: Config, w: World)
    requires AscendingFeed(w.feed) && w.local == Local(0, [], 0, true)
    ensures CanDo(c, w, Sleep) && DoStep(c, w, Sleep) == w.(local := Local(0, [], 1, false))
  {
  }

  lemma NoSteps(c: Config, w: World)
    requires AscendingFeed(w.feed)
    ensures ValidSteps(c, w, []) && RunSteps(c, w, []) == w
  {
  }

  lemma CreatesIs(c: Config, w: World, u: Update, a: Attempt, served: Served)
    requires AscendingFeed(w.feed) && CanDo(c, w, Handle(a, served)) && served.Reached?
    requires w.local == Local(0, [u], 0, false) && PlanFor(c, u).Forward?
    requires HashFor(c, PlanFor(c, u).message) !in w.drop.tables.keys
    requires HashFor(c, PlanFor(c, u).message) in DoStep(c, w, Handle(a, served)).drop.tables.keys
    ensures w.local.todo == [u] && Creates(c, w, a, served)
  {
    hide DoStep, CanDo, HashFor, PlanFor;
  }

  lemma DamagesIs(c: Config, u: Update, n: nat, r: Reception)
    requires PlanFor(c, u).Forward? && CanArrive(c, u, Truncated(n, r)) && n < |FileBytes(PlanFor(c, u).message)|
    ensures Damages(u, Truncated(n, r)) && PlanFor(c, u).message.media.Some?
    ensures n <= |PlanFor(c, u).message.media.value.bytes|
    ensures Sent(c, u, Truncated(n, r)) == Shortened(PlanFor(c, u).message, n)
  {
  }

  /** Of every such message, and wherever reading its file fails, there is a run that accepts it, so that the bridge
      never sends it again, and leaves it in Drop without the rest of its file. */
  lemma IncompleteForGood(c: Config, u: Update, n: nat) returns (drop: Drop.State, steps: seq<Step>)
    requires Deliverable(c, u) && n < |FileBytes(PlanFor(c, u).message)|
    ensures Runs.Inv(drop) && AscendingFeed([u]) && ValidSteps(c, Beginning([u], drop), steps)
    ensures var v, m := RunSteps(c, Beginning([u], drop), steps), PlanFor(c, u).message;
            && v.next == 1 && HashFor(c, m) in v.drop.tables.keys
            && Holds(v.drop, v.drop.tables.keys[HashFor(c, m)], Shortened(m, n), PlanFor(c, u).text)
            && !Holds(v.drop, v.drop.tables.keys[HashFor(c, m)], m, PlanFor(c, u).text)
  {
    hide *;
    MayArrive(c, u, n, 0);
    DamagesIs(c, u, n, ReceptionAt(0));
    var m, h := PlanFor(c, u).message, HashFor(c, PlanFor(c, u).message);
    var quota := |Encode(PlanFor(c, u).text)| + |FileBytes(m)| + 1;
    drop := Runs.Empty(quota, 0);
    EmptyDrop(quota);
    TwoRequests(c, u, n, quota);
    var first := Reached(Truncated(n, ReceptionAt(0)), 0, DrawAt(0), Drop.NoFault);
    var second := Reached(Whole(ReceptionAt(6)), 0, DrawAt(6), Drop.NoFault);
    var w0 := Beginning([u], drop);
    BeginningIs([u], drop);
    PollOne(c, w0, u);
    var w1 := DoStep(c, w0, Poll(1));
    HandIs(c, w1, u, first.arrival, DrawAt(0));
    UnansweredStep(c, w1, u, first);
    var w2 := DoStep(c, w1, Handle(Unanswered(m), first));
    SleepStep(c, w2);
    var w3 := DoStep(c, w2, Sleep);
    PollOne(c, w3, u);
    var w4 := DoStep(c, w3, Poll(1));
    HandIs(c, w4, u, second.arrival, DrawAt(6));
    AnsweredStep(c, w4, u, second);
    var w5 := DoStep(c, w4, Handle(Answered(m), second));
    NoSteps(c, w5);
    Cons(c, w4, Handle(Answered(m), second), w5, []);
    Cons(c, w3, Poll(1), w4, [Handle(Answered(m), second)] + []);
    var rest := [Sleep] + ([Poll(1)] + ([Handle(Answered(m), second)] + []));
    Cons(c, w2, Sleep, w3, [Poll(1)] + ([Handle(Answered(m), second)] + []));
    Cons(c, w1, Handle(Unanswered(m), first), w2, rest);
    steps := [Poll(1)] + ([Handle(Unanswered(m), first)] + rest);
    Cons(c, w0, Poll(1), w1, [Handle(Unanswered(m), first)] + rest);
    BeginningSound(c, [u], drop);
    StepKeepsSound(c, w0, Poll(1));
    CreatesIs(c, w1, u, Unanswered(m), first);
    KeptAsItArrived(c, w1, Unanswered(m), first, rest);
  }
}
