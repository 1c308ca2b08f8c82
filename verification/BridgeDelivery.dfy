/** Telegram, the bridge and Drop together. Polls and their answers may be lost, any call may fail, Drop's
    answer may be lost after it has committed, the bridge may restart at any point, and other
    clients use Drop meanwhile. Messages are delivered at least once, and kept once. Drop itself does not
    crash here; BridgeCrash adds that. */
module BridgeDelivery {
  import opened Prelude
  import opened Text
  import opened BridgeMessage
  import opened BridgeLoop
  import Drop = DropState
  import Runs = DropRuns
  import History = DropHistory
  import Upload = DropUpload
  import opened DropUploadRuns
  import opened BridgeContent

  /** feed: every update the Telegram server will ever have; it has dropped the first confirmed ones. next: the update
      that the bridge has to handle next. born: every entry that Drop's idempotency table ever held. doubtful: the
      keys whose item need not be a whole message of this feed: those that Drop knew at the beginning, those that
      another client has used, and those under which a file arrived incomplete. */
  datatype World =
    World(local: Local, feed: seq<Update>, confirmed: nat, next: nat, drop: Drop.State,
          born: set<(Drop.Id, Drop.KeyHash)>, doubtful: set<Drop.KeyHash>)

  /** What Drop makes of a Create call: it never sees it, or it serves the request as it arrives. */
  datatype Served = Unreached | Reached(arrival: Arrival, now: Drop.Instant, draw: Drop.Draw, fault: Drop.Fault)

  datatype Step =
    | Poll(count: nat)
    | PollLost(reached: bool)
    | Handle(attempt: Attempt, served: Served)
    | Sleep
    | Restart
    | Others(op: Runs.Op)

  // ---------------------------------------------------------------- Telegram

  ghost predicate AscendingFeed(feed: seq<Update>) {
    && (forall i :: 0 <= i < |feed| ==> 0 <= feed[i].id)
    && (forall i, j :: 0 <= i < j < |feed| ==> feed[i].id < feed[j].id)
  }

  /** How many updates have an identifier below the offset. */
  ghost function Below(feed: seq<Update>, offset: int): (n: nat)
    requires AscendingFeed(feed)
    ensures n <= |feed|
    ensures forall i :: 0 <= i < n ==> feed[i].id as int < offset
    ensures forall i :: n <= i < |feed| ==> offset <= feed[i].id as int
    decreases |feed|
  {
    if feed == [] then 0
    else if (feed[|feed| - 1].id as int) < offset then |feed|
    else
      assert AscendingFeed(feed[..|feed| - 1]);
      Below(feed[..|feed| - 1], offset)
  }

  /** getUpdates(offset) confirms every earlier update. */
  ghost function Confirming(w: World): nat
    requires AscendingFeed(w.feed)
  {
    var n := Below(w.feed, w.local.offset);
    if w.confirmed < n then n else w.confirmed
  }

  // ---------------------------------------------------------------- steps

  /** getFile reports a file's one size. */
  predicate SizeAgrees(c: Config, u: Update, a: Attempt) {
    PlanFor(c, u).Forward? && PlanFor(c, u).message.media.Some? && a.fileOk ==>
      a.fileSize == PlanFor(c, u).message.media.value.resolvedSize
  }

  /** The bridge sees an item only if it has written the whole request and Drop has answered with one. */
  ghost predicate ServedOk(c: Config, w: World, u: Update, a: Attempt, served: Served) {
    match served
    case Unreached => CallsDrop(c, u, a) ==> !a.createOk
    case Reached(arrival, now, draw, fault) =>
      && CallsDrop(c, u, a) && CanArrive(c, u, arrival) && Serves(w.drop, RequestOf(c, u, arrival), now, draw)
      && (a.createOk ==>
            arrival.Whole?
            && Upload.UploadSpec(w.drop, Upload.DEPLOYED, RequestOf(c, u, arrival), now, draw, fault).1.Accepted?)
  }

  ghost predicate Serves(s: Drop.State, request: Upload.Request, now: Drop.Instant, draw: Drop.Draw) {
    && UploadEnabled(s, Upload.DEPLOYED, request, now, draw)
    && |draw.attachments| == |draw.blobs| == Upload.Count(Upload.FilePart, request.parts)
  }

  ghost predicate CanDo(c: Config, w: World, step: Step)
    requires AscendingFeed(w.feed)
  {
    match step
    case Poll(count) => w.local.todo == [] && !w.local.sleeping && Confirming(w) + count <= |w.feed|
    case PollLost(_) => w.local.todo == [] && !w.local.sleeping
    case Handle(a, served) =>
      w.local.todo != [] && SizeAgrees(c, w.local.todo[0], a) && ServedOk(c, w, w.local.todo[0], a, served)
    case Sleep => w.local.sleeping
    case Restart => true
    case Others(op) => Runs.Enabled(w.drop, op)
  }

  ghost function Entries(s: Drop.State): set<(Drop.Id, Drop.KeyHash)> {
    set k | k in s.tables.keys :: (s.tables.keys[k], k)
  }

  /** The keys that a step makes doubtful. */
  ghost function Doubts(c: Config, u: Update, served: Served): set<Drop.KeyHash>
    requires served.Reached? ==> PlanFor(c, u).Forward?
  { if served.Reached? && Damages(u, served.arrival) then {HashFor(c, PlanFor(c, u).message)} else {} }

  function Foreign(op: Runs.Op): set<Drop.KeyHash> {
    if op.CreateOp? && op.input.key.Key? then {op.input.key.hash} else {}
  }

  ghost function WithDrop(w: World, s: Drop.State, doubts: set<Drop.KeyHash>): World {
    w.(drop := s, born := w.born + Entries(s), doubtful := w.doubtful + doubts)
  }

  /** Drop's state after the call. */
  ghost function ServedDrop(c: Config, w: World, u: Update, served: Served): Drop.State
    requires served.Reached? ==>
               && PlanFor(c, u).Forward? && CanArrive(c, u, served.arrival)
               && Serves(w.drop, RequestOf(c, u, served.arrival), served.now, served.draw)
  {
    if served.Unreached? then w.drop
    else Upload.UploadSpec(w.drop, Upload.DEPLOYED, RequestOf(c, u, served.arrival), served.now, served.draw,
                           served.fault).0
  }

  ghost function DoStep(c: Config, w: World, step: Step): World
    requires AscendingFeed(w.feed) && CanDo(c, w, step)
  {
    match step
    case Poll(count) =>
      var n := Confirming(w);
      w.(local := Take(c, w.local, Polled(w.local.offset, Some(w.feed[n..n + count]))), confirmed := n)
    case PollLost(reached) =>
      w.(local := Take(c, w.local, Polled(w.local.offset, None)),
         confirmed := if reached then Confirming(w) else w.confirmed)
    case Handle(a, served) =>
      var u := w.local.todo[0];
      var ok := Succeeds(c, u, a);
      WithDrop(w, ServedDrop(c, w, u, served), Doubts(c, u, served)).(
        local := Take(c, w.local, Handled(u, a, ok)), next := if ok then w.next + 1 else w.next)
    case Sleep => w.(local := Take(c, w.local, Slept(Backoff(w.local.waits))))
    case Restart => w.(local := START, next := w.confirmed)
    case Others(op) => WithDrop(w, Runs.Apply(w.drop, op), Foreign(op))
  }

  // ---------------------------------------------------------------- the invariant

  /** Drop's table holds only entries that were born, and an entry stays exactly as long as its item. */
  ghost predicate Tracked(s: Drop.State, born: set<(Drop.Id, Drop.KeyHash)>) {
    && Entries(s) <= born
    && (forall e :: e in born ==>
          e.0 in s.minted && (e.0 in s.tables.items ==> e.1 in s.tables.keys && s.tables.keys[e.1] == e.0))
  }

  ghost predicate Delivered(born: set<(Drop.Id, Drop.KeyHash)>, h: Drop.KeyHash) {
    exists e :: e in born && e.1 == h
  }

  /** Every forwardable update among the first n has been delivered. */
  ghost predicate DeliveredTo(c: Config, feed: seq<Update>, born: set<(Drop.Id, Drop.KeyHash)>, n: nat)
    requires n <= |feed|
  {
    forall i :: 0 <= i < n && Forwardable(c, feed[i]) ==> Delivered(born, HashFor(c, PlanFor(c, feed[i]).message))
  }

  /** Where the bridge stands: at the first update that is neither confirmed nor below its offset. */
  ghost predicate Positioned(w: World)
    requires AscendingFeed(w.feed)
  {
    && w.confirmed <= w.next <= |w.feed| && w.next == Confirming(w)
    && w.next + |w.local.todo| <= |w.feed| && w.local.todo == w.feed[w.next..w.next + |w.local.todo|]
    && (w.local.sleeping ==> w.local.todo == [])
  }

  /** The key leads to an item that holds this update's message. */
  ghost predicate Keeps(c: Config, u: Update, s: Drop.State, h: Drop.KeyHash) {
    && PlanFor(c, u).Forward? && HashFor(c, PlanFor(c, u).message) == h
    && h in s.tables.keys && Holds(s, s.tables.keys[h], PlanFor(c, u).message, PlanFor(c, u).text)
  }

  /** The key is in doubt, or leads nowhere, or to an item that holds one of the feed's messages. */
  ghost predicate Faithful(c: Config, w: World, h: Drop.KeyHash) {
    h in w.drop.tables.keys && h !in w.doubtful ==> exists k :: 0 <= k < |w.feed| && Keeps(c, w.feed[k], w.drop, h)
  }

  ghost predicate AllFaithful(c: Config, w: World) { forall h :: Faithful(c, w, h) }

  ghost predicate Sound(c: Config, w: World) {
    && AscendingFeed(w.feed) && Positioned(w)
    && Runs.Inv(w.drop) && Tracked(w.drop, w.born)
    && DeliveredTo(c, w.feed, w.born, w.next)
    && AllFaithful(c, w)
  }

  // ---------------------------------------------------------------- kept by every step

  lemma BelowIs(feed: seq<Update>, offset: int, n: nat)
    requires AscendingFeed(feed) && n <= |feed|
    requires forall i :: 0 <= i < n ==> feed[i].id as int < offset
    requires forall i :: n <= i < |feed| ==> offset <= feed[i].id as int
    ensures Below(feed, offset) == n
  {
    var b := Below(feed, offset);
    assert b < |feed| ==> offset <= feed[b].id as int;
    assert n < |feed| ==> offset <= feed[n].id as int;
  }

  /** An accepted update is the one at the bridge's position, and moves it by one. */
  lemma AcceptingAdvances(c: Config, w: World, a: Attempt, served: Served)
    requires AscendingFeed(w.feed) && Positioned(w) && CanDo(c, w, Handle(a, served)) && Succeeds(c, w.local.todo[0], a)
    ensures Positioned(DoStep(c, w, Handle(a, served)))
  {
    hide Succeeds, ServedOk, SizeAgrees, Entries, ServedDrop, Below, Doubts;
    var v := DoStep(c, w, Handle(a, served));
    var u := w.local.todo[0];
    assert u == w.feed[w.next];
    assert v.local.offset == u.id as int + 1;
    BelowIs(w.feed, v.local.offset, w.next + 1);
    assert w.local.todo[1..] == w.feed[w.next + 1..w.next + |w.local.todo|];
  }

  lemma PositionKept(c: Config, w: World, step: Step)
    requires AscendingFeed(w.feed) && Positioned(w) && CanDo(c, w, step)
    ensures Positioned(DoStep(c, w, step))
  {
    hide Succeeds, ServedOk, SizeAgrees, Backoff, Runs.Enabled, Runs.Apply, Entries, ServedDrop, Doubts, Foreign;
    if step.Handle? && Succeeds(c, w.local.todo[0], step.attempt) {
      AcceptingAdvances(c, w, step.attempt, step.served);
    } else {
      BelowIs(w.feed, 0, 0);
    }
  }

  lemma StillTracked(s: Drop.State, born: set<(Drop.Id, Drop.KeyHash)>, u: Drop.State)
    requires Runs.Inv(s) && Runs.Inv(u) && Tracked(s, born) && History.Evolves(s, u)
    ensures Tracked(u, born + Entries(u))
  {
    forall e | e in born + Entries(u)
      ensures e.0 in u.minted && (e.0 in u.tables.items ==> e.1 in u.tables.keys && u.tables.keys[e.1] == e.0)
    {
      if e in Entries(u) {
        assert e.1 in u.tables.keys && u.tables.keys[e.1] == e.0;
      } else if e.0 in u.tables.items {
        assert e.0 in s.tables.items;
        assert History.SameItem(s, u, e.0);
      }
    }
  }

  lemma DropKept(c: Config, w: World, step: Step)
    requires AscendingFeed(w.feed) && Runs.Inv(w.drop) && Tracked(w.drop, w.born) && CanDo(c, w, step)
    ensures var v := DoStep(c, w, step);
            Runs.Inv(v.drop) && History.Evolves(w.drop, v.drop) && Tracked(v.drop, v.born) && w.born <= v.born
            && w.doubtful <= v.doubtful
  {
    hide Runs.Inv, Tracked, Succeeds, SizeAgrees, Entries, Runs.Apply, Upload.UploadSpec, UploadEnabled, Runs.Enabled,
         History.Evolves;
    hide CanArrive, RequestOf, PlanFor, HashFor, Damages;
    NothingHappened(w.drop);
    match step {
      case Handle(_, served) =>
        if served.Reached? {
          UploadKeepsInv(w.drop, Upload.DEPLOYED, RequestOf(c, w.local.todo[0], served.arrival), served.now,
                         served.draw, served.fault);
        }
        StillTracked(w.drop, w.born, ServedDrop(c, w, w.local.todo[0], served));
      case Others(op) =>
        Runs.StepKeepsInv(w.drop, op);
        History.StepEvolves(w.drop, op);
        StillTracked(w.drop, w.born, Runs.Apply(w.drop, op));
      case _ =>
    }
  }

  lemma NothingHappened(s: Drop.State)
    ensures History.Evolves(s, s)
  {
    History.SameTablesEvolve(s, s);
  }

  /** Accepting a forwardable update means that Drop's table has held its entry. */
  lemma AcceptedIsDelivered(c: Config, w: World, a: Attempt, served: Served)
    requires AscendingFeed(w.feed) && Runs.Inv(w.drop) && CanDo(c, w, Handle(a, served))
    requires Forwardable(c, w.local.todo[0]) && Succeeds(c, w.local.todo[0], a)
    ensures Delivered(DoStep(c, w, Handle(a, served)).born, HashFor(c, PlanFor(c, w.local.todo[0]).message))
  {
    hide Runs.Inv, Upload.UploadSpec, UploadEnabled, HashFor, KeyFor, Upload.KeyOf, CanArrive, RequestOf, PlanFor;
    var u := w.local.todo[0];
    AcceptedIsCreated(c, u, a);
    var s := ServedDrop(c, w, u, served);
    UploadKeys(w.drop, Upload.DEPLOYED, RequestOf(c, u, served.arrival), served.now, served.draw, served.fault);
    KeyOfRequest(c, u, served.arrival);
    var h := HashFor(c, PlanFor(c, u).message);
    assert h in s.tables.keys;
    assert (s.tables.keys[h], h) in Entries(s);
  }

  lemma DeliveryKept(c: Config, w: World, step: Step)
    requires Sound(c, w) && CanDo(c, w, step)
    ensures var v := DoStep(c, w, step); v.next <= |v.feed| && DeliveredTo(c, v.feed, v.born, v.next)
  {
    hide Runs.Inv, Tracked, ServedOk, Entries, Runs.Apply, Runs.Enabled, ServedDrop, HashFor, Succeeds, SizeAgrees,
         PlanFor;
    hide History.Evolves, AllFaithful;
    var v := DoStep(c, w, step);
    PositionKept(c, w, step);
    DropKept(c, w, step);
    forall i | 0 <= i < v.next && Forwardable(c, v.feed[i])
      ensures Delivered(v.born, HashFor(c, PlanFor(c, v.feed[i]).message))
    {
      if i < w.next {
        var e :| e in w.born && e.1 == HashFor(c, PlanFor(c, w.feed[i]).message);
        assert e in v.born;
      } else {
        AcceptedIsDelivered(c, w, step.attempt, step.served);
      }
    }
  }

  /** A key that Drop knew leads where it led. One that it did not know, and that is not in doubt, is the key of the
      update at hand, and leads to the whole message. */
  lemma KeyKept(c: Config, w: World, step: Step, h: Drop.KeyHash)
    requires AscendingFeed(w.feed) && Positioned(w) && Runs.Inv(w.drop) && CanDo(c, w, step)
    requires h in DoStep(c, w, step).drop.tables.keys
    ensures h in w.drop.tables.keys ==> DoStep(c, w, step).drop.tables.keys[h] == w.drop.tables.keys[h]
    ensures h !in w.drop.tables.keys && h !in DoStep(c, w, step).doubtful ==>
              step.Handle? && w.next < |w.feed| && Keeps(c, w.feed[w.next], DoStep(c, w, step).drop, h)
  {
    hide Runs.Inv, Upload.UploadSpec, UploadEnabled, HashFor, KeyFor, Upload.KeyOf, CanArrive, RequestOf, PlanFor,
         Holds, Damages, Runs.Enabled, Runs.Apply, Below, Succeeds, SizeAgrees;
    match step {
      case Handle(a, served) =>
        if served.Reached? {
          var u := w.local.todo[0];
          assert u == w.feed[w.next];
          UploadKeys(w.drop, Upload.DEPLOYED, RequestOf(c, u, served.arrival), served.now, served.draw, served.fault);
          KeyOfRequest(c, u, served.arrival);
          if h !in w.drop.tables.keys {
            StoredAsArrived(w.drop, c, u, served.arrival, served.now, served.draw, served.fault);
            SentFits(c, u, served.arrival);
          }
        }
      case Others(op) => History.OpKeys(w.drop, op, h);
      case _ =>
    }
  }

  lemma FaithKept(c: Config, w: World, step: Step)
    requires Sound(c, w) && CanDo(c, w, step)
    ensures AllFaithful(c, DoStep(c, w, step))
  {
    hide Runs.Inv, Tracked, HashFor, PlanFor, Holds, DeliveredTo, Positioned, CanDo, DoStep, History.Evolves,
         AscendingFeed, Runs.Constraints;
    var v := DoStep(c, w, step);
    DropKept(c, w, step);
    SameFeed(c, w, step);
    forall h ensures Faithful(c, v, h) {
      if h in v.drop.tables.keys && h !in v.doubtful {
        KeyKept(c, w, step, h);
        if h in w.drop.tables.keys {
          assert Faithful(c, w, h);
          var k :| 0 <= k < |w.feed| && Keeps(c, w.feed[k], w.drop, h);
          KeyLeadsToItem(v.drop, h);
          ContentStays(w.drop, v.drop, v.drop.tables.keys[h], PlanFor(c, w.feed[k]).message,
                       PlanFor(c, w.feed[k]).text);
          assert Keeps(c, v.feed[k], v.drop, h);
        }
      }
    }
  }

  lemma KeyLeadsToItem(s: Drop.State, h: Drop.KeyHash)
    requires Runs.Inv(s) && h in s.tables.keys
    ensures s.tables.keys[h] in s.tables.items
  {
  }

  lemma StepKeepsSound(c: Config, w: World, step: Step)
    requires Sound(c, w) && CanDo(c, w, step)
    ensures Sound(c, DoStep(c, w, step))
  {
    hide Runs.Inv, Tracked, DeliveredTo, Positioned, AscendingFeed, CanDo, AllFaithful, DoStep, History.Evolves;
    PositionKept(c, w, step);
    DropKept(c, w, step);
    DeliveryKept(c, w, step);
    FaithKept(c, w, step);
    SameFeed(c, w, step);
  }

  lemma SameFeed(c: Config, w: World, step: Step)
    requires AscendingFeed(w.feed) && CanDo(c, w, step)
    ensures DoStep(c, w, step).feed == w.feed
  {
  }

  // ---------------------------------------------------------------- runs

  ghost predicate ValidSteps(c: Config, w: World, steps: seq<Step>)
    requires AscendingFeed(w.feed)
    decreases |steps|
  {
    steps == [] || (CanDo(c, w, steps[0])
                    && (SameFeed(c, w, steps[0]); ValidSteps(c, DoStep(c, w, steps[0]), steps[1..])))
  }

  ghost function RunSteps(c: Config, w: World, steps: seq<Step>): World
    requires AscendingFeed(w.feed) && ValidSteps(c, w, steps)
    decreases |steps|
  {
    if steps == [] then w
    else
      SameFeed(c, w, steps[0]);
      RunSteps(c, DoStep(c, w, steps[0]), steps[1..])
  }

  /** A bridge that starts against a Drop that may already hold items. */
  ghost function Beginning(feed: seq<Update>, drop: Drop.State): World {
    World(START, feed, 0, 0, drop, Entries(drop), drop.tables.keys.Keys)
  }

  lemma BeginningSound(c: Config, feed: seq<Update>, drop: Drop.State)
    requires AscendingFeed(feed) && Runs.Inv(drop)
    ensures Sound(c, Beginning(feed, drop))
  {
    BelowIs(feed, 0, 0);
  }

  lemma BeginningIs(feed: seq<Update>, drop: Drop.State)
    ensures var w := Beginning(feed, drop);
            && w.feed == feed && w.drop == drop && w.confirmed == 0 && w.next == 0
            && w.local.offset == 0 && w.local.todo == [] && !w.local.sleeping
  {
  }

  lemma SoundParts(c: Config, w: World)
    requires Sound(c, w)
    ensures AscendingFeed(w.feed) && Positioned(w) && Runs.Inv(w.drop) && Tracked(w.drop, w.born)
  {
  }

  lemma {:induction false} RunKeepsSound(c: Config, w: World, steps: seq<Step>)
    requires Sound(c, w) && ValidSteps(c, w, steps)
    ensures Sound(c, RunSteps(c, w, steps)) && RunSteps(c, w, steps).feed == w.feed
    decreases |steps|
  {
    hide Sound, CanDo, DoStep, AscendingFeed;
    SoundFeed(c, w);
    if steps != [] {
      StepKeepsSound(c, w, steps[0]);
      SameFeed(c, w, steps[0]);
      RunKeepsSound(c, DoStep(c, w, steps[0]), steps[1..]);
    }
  }

  lemma SoundFeed(c: Config, w: World)
    requires Sound(c, w)
    ensures AscendingFeed(w.feed) && w.next <= |w.feed|
  {
  }

  /** The bridge always handles the first update it has not accepted, and moves on by one when it accepts it. */
  lemma HandlesTheNext(c: Config, w: World, step: Step)
    requires Sound(c, w) && CanDo(c, w, step) && !step.Restart?
    ensures step.Handle? ==> w.next < |w.feed| && w.local.todo[0] == w.feed[w.next]
    ensures DoStep(c, w, step).next
         == if step.Handle? && Succeeds(c, w.local.todo[0], step.attempt) then w.next + 1 else w.next
  {
    hide Succeeds, ServedOk, SizeAgrees, Entries, ServedDrop, Doubts, Foreign, AllFaithful, DeliveredTo, Tracked, Below,
         Runs.Enabled, Runs.Apply, Runs.Inv;
  }

  /** The updates that HandleUpdate accepts in a run, in the order in which it accepts them. */
  ghost function AcceptedIn(c: Config, w: World, steps: seq<Step>): seq<Update>
    requires AscendingFeed(w.feed) && ValidSteps(c, w, steps)
    decreases |steps|
  {
    if steps == [] then []
    else
      SameFeed(c, w, steps[0]);
      (if steps[0].Handle? && Succeeds(c, w.local.todo[0], steps[0].attempt) then [w.local.todo[0]] else [])
      + AcceptedIn(c, DoStep(c, w, steps[0]), steps[1..])
  }

  /** As long as the bridge does not restart, the updates it accepts are exactly those of the feed from its position
      on, in ascending order, each once and none skipped: one that fails is retried before any later one is accepted. */
  lemma {:induction false} AcceptedInOrder(c: Config, w: World, steps: seq<Step>)
    requires Sound(c, w) && ValidSteps(c, w, steps) && forall i :: 0 <= i < |steps| ==> !steps[i].Restart?
    ensures w.next <= RunSteps(c, w, steps).next <= |w.feed|
    ensures AcceptedIn(c, w, steps) == w.feed[w.next..RunSteps(c, w, steps).next]
    decreases |steps|
  {
    hide Sound, CanDo, DoStep, Succeeds, AscendingFeed;
    SoundFeed(c, w);
    if steps != [] {
      var v := DoStep(c, w, steps[0]);
      StepKeepsSound(c, w, steps[0]);
      SameFeed(c, w, steps[0]);
      HandlesTheNext(c, w, steps[0]);
      AcceptedInOrder(c, v, steps[1..]);
    }
  }

  // ---------------------------------------------------------------- exactly once

  /** Of all the items ever created under a key, the ones that still exist are the one that the key leads to, if any. */
  lemma OneLiveItem(c: Config, w: World, h: Drop.KeyHash)
    requires Sound(c, w)
    ensures (set e | e in w.born && e.1 == h && e.0 in w.drop.tables.items :: e.0)
         == if h in w.drop.tables.keys then {w.drop.tables.keys[h]} else {}
  {
    var live := set e | e in w.born && e.1 == h && e.0 in w.drop.tables.items :: e.0;
    if h in w.drop.tables.keys {
      var id := w.drop.tables.keys[h];
      assert (id, h) in Entries(w.drop);
      assert (id, h) in w.born && id in w.drop.tables.items;
      forall x ensures x in live <==> x == id {
        if x == id { assert (x, h) in w.born && (x, h).1 == h; }
      }
    }
  }

  /** No item that was ever created under a key has been deleted. */
  ghost predicate NothingRemoved(w: World) { forall e :: e in w.born ==> e.0 in w.drop.tables.items }

  /** The update's message has an item. */
  ghost predicate HasItem(c: Config, s: Drop.State, u: Update) {
    && PlanFor(c, u).Forward?
    && var h := HashFor(c, PlanFor(c, u).message); h in s.tables.keys && s.tables.keys[h] in s.tables.items
  }

  /** The update has been confirmed to Telegram, or is below the offset that the next poll confirms. */
  ghost predicate Done(v: World, i: nat)
    requires i < |v.feed|
  {
    i < v.confirmed || (v.feed[i].id as int) < v.local.offset
  }

  /** After any run in which no item is deleted: no key ever had two items, so no message has, however often and under
      whatever circumstances it was sent; and every forwardable update that is done has its item. */
  lemma ExactlyOnce(c: Config, w: World, steps: seq<Step>)
    requires Sound(c, w) && ValidSteps(c, w, steps) && NothingRemoved(RunSteps(c, w, steps))
    ensures var v := RunSteps(c, w, steps); forall e, f :: e in v.born && f in v.born && e.1 == f.1 ==> e == f
    ensures var v := RunSteps(c, w, steps);
            forall i :: 0 <= i < |v.feed| && Forwardable(c, v.feed[i]) && Done(v, i) ==> HasItem(c, v.drop, v.feed[i])
  {
    hide HashFor, ValidSteps, RunSteps, Runs.Known, Runs.BlobsAgree, Runs.TotalsExact, Runs.WithinQuota, PlanFor,
         AllFaithful;
    RunKeepsSound(c, w, steps);
    var v := RunSteps(c, w, steps);
    forall i | 0 <= i < |v.feed| && Forwardable(c, v.feed[i]) && Done(v, i) ensures HasItem(c, v.drop, v.feed[i]) {
      assert i < v.next;
      var e :| e in v.born && e.1 == HashFor(c, PlanFor(c, v.feed[i]).message);
      assert e.0 in v.drop.tables.items;
    }
  }

  /** Different messages have different items. */
  lemma ItemsApart(c: Config, w: World, steps: seq<Step>, m: Message, n: Message)
    requires Sound(c, w) && ValidSteps(c, w, steps) && 0 as char !in c.actor && (n.chat != m.chat || n.id != m.id)
    requires var v := RunSteps(c, w, steps); HashFor(c, m) in v.drop.tables.keys && HashFor(c, n) in v.drop.tables.keys
    ensures var v := RunSteps(c, w, steps); v.drop.tables.keys[HashFor(c, n)] != v.drop.tables.keys[HashFor(c, m)]
  {
    hide HashFor, ValidSteps, RunSteps, Runs.Known, Runs.BlobsAgree, Runs.TotalsExact, Runs.WithinQuota, AllFaithful;
    RunKeepsSound(c, w, steps);
    if HashFor(c, n) == HashFor(c, m) { HashInjective(c, n, m); }
  }

  // ---------------------------------------------------------------- who may write

  /** h is the key of an update whose chat or sender is on a list. */
  ghost predicate FromListed(c: Config, feed: seq<Update>, h: Drop.KeyHash) {
    exists i :: 0 <= i < |feed| && feed[i].content.Some? && HashFor(c, feed[i].content.value) == h
                && (feed[i].content.value.chat in c.allowedChats || feed[i].content.value.user in c.allowedUsers)
  }

  /** h was carried by another client's request. */
  ghost predicate FromOthers(steps: seq<Step>, h: Drop.KeyHash) {
    exists k :: 0 <= k < |steps| && steps[k].Others? && h in Foreign(steps[k].op)
  }

  lemma StepWrites(c: Config, w: World, step: Step, e: (Drop.Id, Drop.KeyHash))
    requires Sound(c, w) && CanDo(c, w, step) && e in DoStep(c, w, step).born && e !in w.born
    ensures FromListed(c, w.feed, e.1) || (step.Others? && e.1 in Foreign(step.op))
  {
    hide Runs.Inv, HashFor, Runs.Apply, Runs.Enabled, Upload.UploadSpec, UploadEnabled, CanArrive, RequestOf, PlanFor,
         AllFaithful, DeliveredTo, Succeeds, SizeAgrees, Below, Upload.KeyOf, KeyFor;
    match step {
      case Handle(a, served) =>
        if served.Reached? {
          var u := w.local.todo[0];
          assert u == w.feed[w.next];
          ForwardsExactlyWhen(c, u);
          UploadKeys(w.drop, Upload.DEPLOYED, RequestOf(c, u, served.arrival), served.now, served.draw, served.fault);
          KeyOfRequest(c, u, served.arrival);
        }
      case Others(op) =>
        if e.1 in w.drop.tables.keys { assert (w.drop.tables.keys[e.1], e.1) in Entries(w.drop); }
        History.OpKeys(w.drop, op, e.1);
      case _ =>
    }
  }

  /** Over every run: a key that was born since is the key of an update whose chat or sender is on a list, or another
      client brought it. */
  lemma {:induction false} OnlyListedWrite(c: Config, w: World, steps: seq<Step>, e: (Drop.Id, Drop.KeyHash))
    requires Sound(c, w) && ValidSteps(c, w, steps) && e in RunSteps(c, w, steps).born && e !in w.born
    ensures FromListed(c, w.feed, e.1) || FromOthers(steps, e.1)
    decreases |steps|
  {
    hide Sound, CanDo, DoStep, AscendingFeed, FromListed, Foreign;
    SoundFeed(c, w);
    if steps != [] {
      var v := DoStep(c, w, steps[0]);
      StepKeepsSound(c, w, steps[0]);
      SameFeed(c, w, steps[0]);
      if e in v.born {
        StepWrites(c, w, steps[0], e);
      } else {
        OnlyListedWrite(c, v, steps[1..], e);
        if FromOthers(steps[1..], e.1) {
          var k :| 0 <= k < |steps[1..]| && steps[1..][k].Others? && e.1 in Foreign(steps[1..][k].op);
          assert steps[k + 1] == steps[1..][k];
        }
      }
    }
  }

  lemma DeniedStep(c: Config, w: World, step: Step)
    requires Sound(c, w) && CanDo(c, w, step) && !step.Others? && c.allowedUsers == {} && c.allowedChats == {}
    ensures DoStep(c, w, step).drop == w.drop && DoStep(c, w, step).born == w.born
  {
    hide Runs.Inv, HashFor, Upload.UploadSpec, UploadEnabled, CanArrive, RequestOf, PlanFor, AllFaithful, DeliveredTo,
         Succeeds, SizeAgrees, Below;
    if step.Handle? { ForwardsExactlyWhen(c, w.local.todo[0]); }
  }

  /** With both lists empty the bridge never changes anything in Drop, whoever writes to it. */
  lemma {:induction false} DenyAll(c: Config, w: World, steps: seq<Step>)
    requires Sound(c, w) && ValidSteps(c, w, steps) && c.allowedUsers == {} && c.allowedChats == {}
    requires forall i :: 0 <= i < |steps| ==> !steps[i].Others?
    ensures RunSteps(c, w, steps).drop == w.drop && RunSteps(c, w, steps).born == w.born
    decreases |steps|
  {
    hide Sound, CanDo, DoStep, AscendingFeed;
    SoundFeed(c, w);
    if steps != [] {
      DeniedStep(c, w, steps[0]);
      StepKeepsSound(c, w, steps[0]);
      SameFeed(c, w, steps[0]);
      DenyAll(c, DoStep(c, w, steps[0]), steps[1..]);
    }
  }

  // ---------------------------------------------------------------- what is kept

  predicate SameMessage(u: Update, v: Update) {
    u.content.Some? && v.content.Some? && u.content.value.chat == v.content.value.chat
    && u.content.value.id == v.content.value.id
  }

  /** Telegram numbers the messages of a chat, so no two updates carry the same one. */
  ghost predicate OnlyUpdate(feed: seq<Update>, i: nat)
    requires i < |feed|
  {
    forall k :: 0 <= k < |feed| && SameMessage(feed[k], feed[i]) ==> k == i
  }

  lemma ForwardsContent(c: Config, u: Update)
    requires PlanFor(c, u).Forward?
    ensures u.content == Some(PlanFor(c, u).message)
  {
  }

  /** After any run: the item that a message's key leads to holds the message, its text and its file whole, unless the
      key has come in doubt. */
  lemma KeptWhole(c: Config, w: World, steps: seq<Step>, i: nat)
    requires Sound(c, w) && ValidSteps(c, w, steps) && 0 as char !in c.actor
    requires i < |w.feed| && PlanFor(c, w.feed[i]).Forward? && OnlyUpdate(w.feed, i)
    requires var v, h := RunSteps(c, w, steps), HashFor(c, PlanFor(c, w.feed[i]).message);
             h in v.drop.tables.keys && h !in v.doubtful
    ensures Keeps(c, w.feed[i], RunSteps(c, w, steps).drop, HashFor(c, PlanFor(c, w.feed[i]).message))
  {
    hide HashFor, ValidSteps, RunSteps, Runs.Inv, PlanFor, Holds, Positioned, Tracked, DeliveredTo;
    RunKeepsSound(c, w, steps);
    var v, h := RunSteps(c, w, steps), HashFor(c, PlanFor(c, w.feed[i]).message);
    assert Faithful(c, v, h);
    var k :| 0 <= k < |v.feed| && Keeps(c, v.feed[k], v.drop, h);
    HashInjective(c, PlanFor(c, v.feed[k]).message, PlanFor(c, v.feed[i]).message);
    ForwardsContent(c, v.feed[k]);
    ForwardsContent(c, v.feed[i]);
  }

  /** Other users of Drop cannot bring the bridge's keys in doubt: their hashes differ. */
  lemma OthersKeysDiffer(c: Config, m: Message, request: Upload.Request, op: Runs.Op)
    requires 0 as char !in c.actor && 0 as char !in request.actor && request.actor != c.actor
    requires Upload.KeyOf(request).Some? && op.CreateOp? && op.input.key == Upload.KeyOf(request).value
    ensures HashFor(c, m) !in Foreign(op)
  {
    var key := TrimSpace(request.key);
    if HashFor(c, m) in Foreign(op) { Upload.PreimageInjective(c.actor, KeyFor(c, m), request.actor, key); }
  }

  // ---------------------------------------------------------------- from the start

  /** The message has an item, under a key that is not in doubt. */
  ghost predicate InNoDoubt(c: Config, v: World, u: Update) {
    HasItem(c, v.drop, u) && HashFor(c, PlanFor(c, u).message) !in v.doubtful
  }

  lemma InNoDoubtMeans(c: Config, v: World, u: Update)
    requires InNoDoubt(c, v, u)
    ensures PlanFor(c, u).Forward?
    ensures HashFor(c, PlanFor(c, u).message) in v.drop.tables.keys && HashFor(c, PlanFor(c, u).message) !in v.doubtful
  {
  }

  /** A bridge started against any Drop: after any run, unless an item was deleted, no key ever had two items and every
      forwardable update that is done has one; and the item of a message whose key Drop did not know at the start, that
      no other client used, and whose file never arrived incomplete, is the whole message. */
  lemma FromTheStart(c: Config, feed: seq<Update>, drop: Drop.State, steps: seq<Step>)
    requires AscendingFeed(feed) && Runs.Inv(drop) && ValidSteps(c, Beginning(feed, drop), steps)
    requires 0 as char !in c.actor
    ensures var v := RunSteps(c, Beginning(feed, drop), steps);
            && v.feed == feed && Runs.Inv(v.drop)
            && (NothingRemoved(v) ==>
                  && (forall e, f :: e in v.born && f in v.born && e.1 == f.1 ==> e == f)
                  && (forall i :: 0 <= i < |feed| && Forwardable(c, feed[i]) && Done(v, i) ==>
                        HasItem(c, v.drop, feed[i])))
            && (forall i :: 0 <= i < |feed| && OnlyUpdate(feed, i) && InNoDoubt(c, v, feed[i]) ==>
                  Keeps(c, feed[i], v.drop, HashFor(c, PlanFor(c, feed[i]).message)))
  {
    hide *;
    var w := Beginning(feed, drop);
    BeginningIs(feed, drop);
    BeginningSound(c, feed, drop);
    RunKeepsSound(c, w, steps);
    var v := RunSteps(c, w, steps);
    SoundParts(c, v);
    if NothingRemoved(v) { ExactlyOnce(c, w, steps); }
    forall i | 0 <= i < |feed| && OnlyUpdate(feed, i) && InNoDoubt(c, v, feed[i])
      ensures PlanFor(c, feed[i]).Forward? && Keeps(c, feed[i], v.drop, HashFor(c, PlanFor(c, feed[i]).message))
    {
      InNoDoubtMeans(c, v, feed[i]);
      KeptWhole(c, w, steps, i);
    }
  }
}
