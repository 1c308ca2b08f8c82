/** The bridge's polling loop. Everything it observes comes from a script; what it does is a log.
    The loop is proved to produce exactly the log that a recursive function describes, and every
    such log to be a run of a small automaton. */
module BridgeLoop {
  import opened Prelude
  import opened BridgeMessage
  import opened Text

  /** The results of the calls that one HandleUpdate may make. */
  datatype Attempt = Attempt(fileOk: bool, fileSize: int64, downloadOk: bool, createOk: bool, replyOk: bool)

  /** stop: the context ends during the wait that follows a failure. */
  datatype Turn = PollFails(stop: bool) | Batch(updates: seq<Update>, attempts: seq<Attempt>, stop: bool)

  datatype Event =
    | Polled(offset: int, updates: Option<seq<Update>>)
    | Handled(update: Update, attempt: Attempt, ok: bool)
    | Slept(seconds: nat)

  predicate Acknowledges(c: Config, m: Message) {
    c.ackMode != "none" && !(c.ackMode == "private" && m.chatType != "private")
  }

  /** Whether HandleUpdate accepts the update. */
  predicate Succeeds(c: Config, u: Update, a: Attempt) {
    match PlanFor(c, u)
    case Nothing => true
    case Say => a.replyOk
    case Forward(m, _) =>
      if m.media.Some? && !a.fileOk then false
      else if m.media.Some? && a.fileSize > c.maxFileSize then a.replyOk
      else (m.media.Some? ==> a.downloadOk) && a.createOk && (Acknowledges(c, m) ==> a.replyOk)
  }

  /** An accepted update that can be forwarded has been answered with an item. */
  lemma AcceptedIsCreated(c: Config, u: Update, a: Attempt)
    requires Forwardable(c, u) && Succeeds(c, u, a)
    requires PlanFor(c, u).message.media.Some? ==> a.fileSize == PlanFor(c, u).message.media.value.resolvedSize
    ensures a.createOk
  {
  }

  method Reply(c: Config, m: Message, force: bool, a: Attempt) returns (ok: bool)
    ensures ok == (if force || Acknowledges(c, m) then a.replyOk else true)
  {
    if !force && (c.ackMode == "none" || (c.ackMode == "private" && m.chatType != "private")) {
      return true;
    }
    ok := a.replyOk;
  }

  /** Whether HandleUpdate gets as far as calling Drop. */
  predicate CallsDrop(c: Config, u: Update, a: Attempt) {
    var plan := PlanFor(c, u);
    plan.Forward? && (plan.message.media.Some? ==> a.fileOk && a.fileSize <= c.maxFileSize && a.downloadOk)
  }

  /** What Drop's client is called with. */
  datatype Call = Call(text: string, ttl: int, key: string, file: Option<Media>)

  /** HandleUpdate, and its call to Drop if it makes one. */
  method HandleUpdate(c: Config, u: Update, a: Attempt) returns (ok: bool, call: Option<Call>)
    ensures ok == Succeeds(c, u, a) && (call.Some? <==> CallsDrop(c, u, a))
    ensures call.Some? <==>
            u.content.Some? && var m := u.content.value;
            && !IsCommand(m.text) && (m.chat in c.allowedChats || m.user in c.allowedUsers)
            && if m.media.None? then !AllSpace(m.text) || !AllSpace(m.caption)
               else m.media.value.size <= c.maxFileSize && a.fileOk && a.fileSize <= c.maxFileSize && a.downloadOk
    ensures call.Some? ==>
              var m := u.content.value;
              && call.value.text == PlanFor(c, u).text && call.value.ttl == c.ttl && call.value.file == m.media
              && call.value.key == "telegram:" + Decimal(c.bot as int) + ":" + Decimal(m.chat as int) + ":"
                                   + Decimal(m.id as int)
    ensures call.Some? && ok ==> a.createOk
  {
    ForwardsExactlyWhen(c, u);
    call := None;
    if u.content.None? {
      return true, None;
    }
    var m := u.content.value;
    var command := ParseCommand(m.text);
    if command != "" {
      if command == "start" || command == "help" || command == "whoami" {
        return a.replyOk, None;
      }
      return true, None;
    }
    if !Allowed(c, m.user, m.chat) {
      return true, None;
    }
    if m.media.None? && Blank(m.text) && Blank(m.caption) {
      ok := Reply(c, m, true, a);
      return;
    }
    if m.media.Some? && m.media.value.size > c.maxFileSize {
      ok := Reply(c, m, true, a);
      return;
    }
    if m.media.Some? {
      if !a.fileOk {
        return false, None;
      }
      if a.fileSize > c.maxFileSize {
        ok := Reply(c, m, true, a);
        return;
      }
      if !a.downloadOk {
        return false, None;
      }
    }
    call := Some(Call(FormatText(m), c.ttl, KeyFor(c, m), m.media));
    if !a.createOk {
      return false, call;
    }
    ok := Reply(c, m, false, a);
  }

  // ---------------------------------------------------------------- the automaton

  function Power(n: nat): nat { if n == 0 then 1 else 2 * Power(n - 1) }

  /** Seconds to wait after f waits since the last successful poll. */
  function Backoff(f: nat): nat { if Power(f) < 30 then Power(f) else 30 }

  /** min(backoff * 2, 30 seconds). */
  function Doubled(seconds: nat): nat { if seconds * 2 < 30 then seconds * 2 else 30 }

  lemma BackoffDoubles(f: nat)
    ensures Backoff(f + 1) == Doubled(Backoff(f))
  {
  }

  /** todo: what is left of the batch; waits: since the last successful poll; sleeping: a failure awaits its wait. */
  datatype Local = Local(offset: int, todo: seq<Update>, waits: nat, sleeping: bool)

  const START := Local(0, [], 0, false)

  predicate CanTake(c: Config, l: Local, e: Event) {
    match e
    case Polled(offset, _) => l.todo == [] && !l.sleeping && offset == l.offset
    case Handled(u, a, ok) => l.todo != [] && u == l.todo[0] && ok == Succeeds(c, u, a)
    case Slept(seconds) => l.sleeping && seconds == Backoff(l.waits)
  }

  function Advanced(offset: int, u: Update): int { if u.id as int >= offset then u.id as int + 1 else offset }

  function Take(c: Config, l: Local, e: Event): Local
    requires CanTake(c, l, e)
  {
    match e
    case Polled(_, updates) => if updates.Some? then Local(l.offset, updates.value, 0, false) else l.(sleeping := true)
    case Handled(u, _, ok) =>
      if ok then l.(offset := Advanced(l.offset, u), todo := l.todo[1..]) else l.(todo := [], sleeping := true)
    case Slept(_) => l.(waits := l.waits + 1, sleeping := false)
  }

  predicate Accepts(c: Config, l: Local, log: seq<Event>)
    decreases |log|
  {
    log == [] || (CanTake(c, l, log[0]) && Accepts(c, Take(c, l, log[0]), log[1..]))
  }

  function After(c: Config, l: Local, log: seq<Event>): Local
    requires Accepts(c, l, log)
    decreases |log|
  {
    if log == [] then l else After(c, Take(c, l, log[0]), log[1..])
  }

  // ---------------------------------------------------------------- the log of a script

  predicate WellFormed(turn: Turn) {
    turn.Batch? ==> |turn.attempts| == |turn.updates| && forall u :: u in turn.updates ==> u.id < 0x7FFF_FFFF_FFFF_FFFF
  }

  /** The updates of a batch, up to the first that fails. */
  function HandleLog(c: Config, updates: seq<Update>, attempts: seq<Attempt>): seq<Event>
    requires |attempts| == |updates|
  {
    if updates == [] then []
    else
      var ok := Succeeds(c, updates[0], attempts[0]);
      [Handled(updates[0], attempts[0], ok)] + (if ok then HandleLog(c, updates[1..], attempts[1..]) else [])
  }

  predicate AllOk(c: Config, updates: seq<Update>, attempts: seq<Attempt>)
    requires |attempts| == |updates|
  {
    updates == [] || (Succeeds(c, updates[0], attempts[0]) && AllOk(c, updates[1..], attempts[1..]))
  }

  /** The offset after the accepted updates of a batch. */
  function OffsetAfter(c: Config, offset: int, updates: seq<Update>, attempts: seq<Attempt>): int
    requires |attempts| == |updates|
    decreases |updates|
  {
    if updates == [] || !Succeeds(c, updates[0], attempts[0]) then offset
    else OffsetAfter(c, Advanced(offset, updates[0]), updates[1..], attempts[1..])
  }

  /** What one turn adds to the log, after f waits since the last successful poll. */
  function TurnLog(c: Config, offset: int, f: nat, turn: Turn): seq<Event>
    requires WellFormed(turn)
  {
    match turn
    case PollFails(stop) => [Polled(offset, None)] + (if stop then [] else [Slept(Backoff(f))])
    case Batch(updates, attempts, stop) =>
      [Polled(offset, Some(updates))] + HandleLog(c, updates, attempts)
      + (if AllOk(c, updates, attempts) || stop then [] else [Slept(Backoff(0))])
  }

  /** Whether the loop goes on after a turn. */
  predicate GoesOn(c: Config, turn: Turn)
    requires WellFormed(turn)
  {
    !turn.stop || (turn.Batch? && AllOk(c, turn.updates, turn.attempts))
  }

  function NextOffset(c: Config, offset: int, turn: Turn): int
    requires WellFormed(turn)
  { if turn.Batch? then OffsetAfter(c, offset, turn.updates, turn.attempts) else offset }

  function NextWaits(c: Config, f: nat, turn: Turn): nat
    requires WellFormed(turn)
  { if turn.PollFails? then f + 1 else if AllOk(c, turn.updates, turn.attempts) then 0 else 1 }

  predicate Script(script: seq<Turn>) { forall i :: 0 <= i < |script| ==> WellFormed(script[i]) }

  /** What Run does from the given offset. */
  function LogOf(c: Config, offset: int, f: nat, script: seq<Turn>): seq<Event>
    requires Script(script)
    decreases |script|
  {
    if script == [] then []
    else
      assert WellFormed(script[0]);
      TurnLog(c, offset, f, script[0])
      + (if GoesOn(c, script[0])
         then LogOf(c, NextOffset(c, offset, script[0]), NextWaits(c, f, script[0]), script[1..]) else [])
  }

  /** The loop over one batch: it stops at the first update that fails. */
  method HandleBatch(c: Config, from: int64, updates: seq<Update>, attempts: seq<Attempt>)
    returns (ok: bool, offset: int64, events: seq<Event>)
    requires |attempts| == |updates| && forall u :: u in updates ==> u.id < 0x7FFF_FFFF_FFFF_FFFF
    ensures events == HandleLog(c, updates, attempts) && ok == AllOk(c, updates, attempts)
    ensures offset as int == OffsetAfter(c, from as int, updates, attempts)
  {
    hide *;
    offset := from;
    events := [];
    var i := 0;
    assert updates[0..] == updates && attempts[0..] == attempts;
    while i < |updates|
      invariant 0 <= i <= |updates|
      invariant HandleLog(c, updates, attempts) == events + HandleLog(c, updates[i..], attempts[i..])
      invariant OffsetAfter(c, from as int, updates, attempts)
                == OffsetAfter(c, offset as int, updates[i..], attempts[i..])
      invariant AllOk(c, updates, attempts) == AllOk(c, updates[i..], attempts[i..])
    {
      var update := updates[i];
      assert update in updates;
      UnfoldBatch(c, offset as int, updates, attempts, i, events);
      var accepted, call := HandleUpdate(c, update, attempts[i]);
      events := events + [Handled(update, attempts[i], accepted)];
      if !accepted {
        return false, offset, events;
      }
      if update.id >= offset {
        offset := update.id + 1;
      }
      i := i + 1;
    }
    NothingLeft(c, offset as int, updates, attempts);
    ok := true;
  }

  lemma PollTurn(c: Config, offset: int, f: nat, stop: bool)
    ensures var turn := PollFails(stop);
            && TurnLog(c, offset, f, turn) == [Polled(offset, None)] + (if stop then [] else [Slept(Backoff(f))])
            && (GoesOn(c, turn) <==> !stop) && NextOffset(c, offset, turn) == offset && NextWaits(c, f, turn) == f + 1
  {
  }

  lemma BatchTurn(c: Config, offset: int, f: nat, turn: Turn)
    requires turn.Batch? && WellFormed(turn)
    ensures var ok, events := AllOk(c, turn.updates, turn.attempts), HandleLog(c, turn.updates, turn.attempts);
            && TurnLog(c, offset, f, turn)
               == [Polled(offset, Some(turn.updates))] + events + (if ok || turn.stop then [] else [Slept(Backoff(0))])
            && (GoesOn(c, turn) <==> ok || !turn.stop)
            && NextOffset(c, offset, turn) == OffsetAfter(c, offset, turn.updates, turn.attempts)
            && NextWaits(c, f, turn) == if ok then 0 else 1
  {
    hide AllOk, HandleLog, OffsetAfter, Backoff;
  }

  /** Run(ctx): the context lasts as long as the script. */
  method Run(c: Config, script: seq<Turn>) returns (log: seq<Event>)
    requires Script(script)
    ensures log == LogOf(c, 0, 0, script)
  {
    var offset: int64 := 0;
    var backoff: nat := 1;
    ghost var f: nat := 0;
    BackoffStarts();
    log := [];
    var t := 0;
    while t < |script|
      invariant 0 <= t <= |script| && backoff == Backoff(f)
      invariant Script(script[t..]) && log + LogOf(c, offset as int, f, script[t..]) == LogOf(c, 0, 0, script)
    {
      hide HandleLog, OffsetAfter, AllOk, Backoff, LogOf, TurnLog, GoesOn, NextOffset, NextWaits;
      Unfold(c, offset as int, f, script, t, log);
      ghost var from, waits := offset as int, f;
      var events: seq<Event>;
      match script[t] {
        case PollFails(stop) =>
          PollTurn(c, offset as int, f, stop);
          events := [Polled(offset as int, None)];
          if stop {
            log := log + events;
            return;
          }
          events := events + [Slept(backoff)];
          backoff := Doubled(backoff);
          BackoffDoubles(f);
          f := f + 1;
        case Batch(updates, attempts, stop) =>
          BatchTurn(c, offset as int, f, script[t]);
          events := [Polled(offset as int, Some(updates))];
          backoff, f := 1, 0;
          var ok, next, handled := HandleBatch(c, offset, updates, attempts);
          events := events + handled;
          offset := next;
          if !ok {
            if stop {
              log := log + events;
              return;
            }
            events := events + [Slept(backoff)];
            backoff := Doubled(backoff);
            BackoffDoubles(f);
            f := 1;
          }
      }
      assert events == TurnLog(c, from, waits, script[t]);
      log := log + events;
      t := t + 1;
    }
  }

  lemma NothingLeft(c: Config, offset: int, updates: seq<Update>, attempts: seq<Attempt>)
    requires |attempts| == |updates|
    ensures var n := |updates|;
            HandleLog(c, updates[n..], attempts[n..]) == [] && AllOk(c, updates[n..], attempts[n..])
            && OffsetAfter(c, offset, updates[n..], attempts[n..]) == offset
  {
  }

  lemma UnfoldBatch(c: Config, offset: int, updates: seq<Update>, attempts: seq<Attempt>, i: nat, events: seq<Event>)
    requires |attempts| == |updates| && i < |updates|
    ensures var u, a := updates[i], attempts[i];
            if Succeeds(c, u, a) then
              && events + HandleLog(c, updates[i..], attempts[i..])
                 == events + [Handled(u, a, true)] + HandleLog(c, updates[i + 1..], attempts[i + 1..])
              && OffsetAfter(c, offset, updates[i..], attempts[i..])
                 == OffsetAfter(c, if u.id as int >= offset then u.id as int + 1 else offset,
                                updates[i + 1..], attempts[i + 1..])
              && AllOk(c, updates[i..], attempts[i..]) == AllOk(c, updates[i + 1..], attempts[i + 1..])
            else
              && events + HandleLog(c, updates[i..], attempts[i..]) == events + [Handled(u, a, false)]
              && OffsetAfter(c, offset, updates[i..], attempts[i..]) == offset
              && !AllOk(c, updates[i..], attempts[i..])
  {
    hide Succeeds;
    assert updates[i..][1..] == updates[i + 1..] && attempts[i..][1..] == attempts[i + 1..];
  }

  lemma Unfold(c: Config, offset: int, f: nat, script: seq<Turn>, t: nat, log: seq<Event>)
    requires t < |script| && Script(script) && Script(script[t..])
    ensures WellFormed(script[t]) && Script(script[t + 1..])
    ensures var rest := if GoesOn(c, script[t])
                        then LogOf(c, NextOffset(c, offset, script[t]), NextWaits(c, f, script[t]), script[t + 1..])
                        else [];
            log + LogOf(c, offset, f, script[t..]) == log + TurnLog(c, offset, f, script[t]) + rest
    ensures Backoff(0) == 1 && !GoesOn(c, script[t]) ==>
              log + LogOf(c, offset, f, script[t..]) == log + TurnLog(c, offset, f, script[t])
  {
    hide TurnLog, NextOffset, NextWaits, GoesOn;
    assert script[t..][1..] == script[t + 1..] && script[t..][0] == script[t];
  }

  lemma BackoffStarts()
    ensures Backoff(0) == 1
  {
  }

  // ---------------------------------------------------------------- every log is a run of the automaton

  lemma {:induction false} Chain(c: Config, l: Local, a: seq<Event>, b: seq<Event>)
    requires Accepts(c, l, a) && Accepts(c, After(c, l, a), b)
    ensures Accepts(c, l, a + b) && After(c, l, a + b) == After(c, After(c, l, a), b)
    decreases |a|
  {
    hide CanTake, Take;
    if a == [] {
      assert a + b == b;
    } else {
      Chain(c, Take(c, l, a[0]), a[1..], b);
      assert (a + b)[0] == a[0] && (a + b)[1..] == a[1..] + b;
    }
  }

  lemma {:induction false} BatchAccepted(c: Config, offset: int, w: nat, updates: seq<Update>, attempts: seq<Attempt>)
    requires |attempts| == |updates|
    ensures var l, log := Local(offset, updates, w, false), HandleLog(c, updates, attempts);
            Accepts(c, l, log)
            && After(c, l, log) == Local(OffsetAfter(c, offset, updates, attempts), [], w, !AllOk(c, updates, attempts))
    decreases |updates|
  {
    hide Succeeds;
    if updates != [] && Succeeds(c, updates[0], attempts[0]) {
      BatchAccepted(c, Advanced(offset, updates[0]), w, updates[1..], attempts[1..]);
      var rest := HandleLog(c, updates[1..], attempts[1..]);
      var log := HandleLog(c, updates, attempts);
      assert log[0] == Handled(updates[0], attempts[0], true) && log[1..] == rest;
    }
  }

  lemma TurnAccepted(c: Config, offset: int, f: nat, turn: Turn)
    requires WellFormed(turn)
    ensures var l, log := Local(offset, [], f, false), TurnLog(c, offset, f, turn);
            Accepts(c, l, log)
            && (GoesOn(c, turn) ==>
                  After(c, l, log) == Local(NextOffset(c, offset, turn), [], NextWaits(c, f, turn), false))
  {
    hide HandleLog, OffsetAfter, AllOk, Backoff, Succeeds;
    var l := Local(offset, [], f, false);
    match turn
    case PollFails(stop) =>
      assert Accepts(c, l, [Polled(offset, None)]);
      if !stop { Chain(c, l, [Polled(offset, None)], [Slept(Backoff(f))]); }
    case Batch(updates, attempts, stop) =>
      var polled := [Polled(offset, Some(updates))];
      BatchAccepted(c, offset, 0, updates, attempts);
      assert After(c, l, polled) == Local(offset, updates, 0, false);
      Chain(c, l, polled, HandleLog(c, updates, attempts));
      var log := polled + HandleLog(c, updates, attempts);
      assert log + [] == log;
      if !AllOk(c, updates, attempts) && !stop { Chain(c, l, log, [Slept(Backoff(0))]); }
  }

  /** What Run logs is always a run of the automaton from its start. */
  lemma {:induction false} LogAccepted(c: Config, offset: int, f: nat, script: seq<Turn>)
    requires Script(script)
    ensures Accepts(c, Local(offset, [], f, false), LogOf(c, offset, f, script))
    decreases |script|
  {
    hide TurnLog, GoesOn, NextOffset, NextWaits, CanTake, Take;
    if script != [] {
      assert WellFormed(script[0]);
      TurnAccepted(c, offset, f, script[0]);
      if GoesOn(c, script[0]) {
        var o, w := NextOffset(c, offset, script[0]), NextWaits(c, f, script[0]);
        LogAccepted(c, o, w, script[1..]);
        Chain(c, Local(offset, [], f, false), TurnLog(c, offset, f, script[0]), LogOf(c, o, w, script[1..]));
      } else {
        assert TurnLog(c, offset, f, script[0]) + [] == TurnLog(c, offset, f, script[0]);
      }
    }
  }

  // ---------------------------------------------------------------- properties of every run of the automaton

  lemma {:induction false} Prefix(c: Config, l: Local, log: seq<Event>, i: nat)
    requires Accepts(c, l, log) && i <= |log|
    ensures Accepts(c, l, log[..i])
    ensures i < |log| ==> CanTake(c, After(c, l, log[..i]), log[i])
    ensures i < |log| ==>
              Accepts(c, l, log[..i + 1]) && After(c, l, log[..i + 1]) == Take(c, After(c, l, log[..i]), log[i])
    decreases i
  {
    hide CanTake, Take;
    if i == 0 {
      if |log| > 0 { assert log[..1][1..] == []; }
    } else {
      Prefix(c, Take(c, l, log[0]), log[1..], i - 1);
      assert log[..i][0] == log[0] && log[..i][1..] == log[1..][..i - 1];
      if i < |log| { assert log[..i + 1][1..] == log[1..][..i]; }
    }
  }

  /** Within a process the offset never falls. */
  lemma {:induction false} OffsetNeverFalls(c: Config, l: Local, log: seq<Event>)
    requires Accepts(c, l, log)
    ensures l.offset <= After(c, l, log).offset
    decreases |log|
  {
    if log != [] {
      OffsetNeverFalls(c, Take(c, l, log[0]), log[1..]);
    }
  }

  function WaitsSincePoll(log: seq<Event>): nat
    decreases |log|
  {
    if log == [] then 0
    else
      match log[|log| - 1]
      case Polled(_, updates) => if updates.Some? then 0 else WaitsSincePoll(log[..|log| - 1])
      case Handled(_, _, _) => WaitsSincePoll(log[..|log| - 1])
      case Slept(_) => WaitsSincePoll(log[..|log| - 1]) + 1
  }

  lemma {:induction false} WaitsAreCounted(c: Config, log: seq<Event>, i: nat)
    requires Accepts(c, START, log) && i <= |log|
    ensures Accepts(c, START, log[..i]) && After(c, START, log[..i]).waits == WaitsSincePoll(log[..i])
    ensures i > 0 && log[i - 1].Handled? ==> After(c, START, log[..i]).waits == 0
    ensures var l := After(c, START, log[..i]); (l.todo != [] ==> l.waits == 0) && (l.sleeping ==> l.todo == [])
    decreases i
  {
    hide Succeeds;
    Prefix(c, START, log, i);
    if i > 0 {
      Prefix(c, START, log, i - 1);
      WaitsAreCounted(c, log, i - 1);
      assert log[..i][..i - 1] == log[..i - 1] && log[..i][i - 1] == log[i - 1];
    }
  }

  /** The wait after f waits since the last successful poll takes min(2^f, 30) seconds; the wait after an update
      that failed always takes one second, since the poll that delivered it has reset the count. */
  lemma WaitsBackOff(c: Config, log: seq<Event>, i: nat)
    requires Accepts(c, START, log) && i < |log| && log[i].Slept?
    ensures log[i].seconds == if Power(WaitsSincePoll(log[..i])) < 30 then Power(WaitsSincePoll(log[..i])) else 30
    ensures i > 0 && log[i - 1].Handled? ==> log[i].seconds == 1
  {
    Prefix(c, START, log, i);
    WaitsAreCounted(c, log, i);
  }
}
