/** Owner sessions: the rows and the statements that change them, and the history that
    decides whether a session is still accepted. Times are seconds of one clock. */
module IamSession {
  import opened Prelude

  type Id = nat
  type Instant = int

  const DAY: int := 86_400
  const IDLE: int := 30 * DAY
  const ABSOLUTE: int := 180 * DAY

  datatype Row =
    Row(owner: Id, createdAt: Instant, lastSeenAt: Instant, idleExpiresAt: Instant, absoluteExpiresAt: Instant,
        revokedAt: Option<Instant>)

  function Min(x: int, y: int): int { if x < y then x else y }

  function NewRow(owner: Id, now: Instant): Row { Row(owner, now, now, now + IDLE, now + ABSOLUTE, None) }

  predicate Accepts(row: Row, now: Instant) {
    row.revokedAt.None? && now < row.idleExpiresAt && now < row.absoluteExpiresAt
  }

  function Touched(row: Row, now: Instant): Row {
    if Accepts(row, now) then row.(lastSeenAt := now, idleExpiresAt := Min(now + IDLE, row.absoluteExpiresAt)) else row
  }

  function Revoked(row: Row, now: Instant): Row { if row.revokedAt.None? then row.(revokedAt := Some(now)) else row }

  // ---------------------------------------------------------------- a session's history

  /** What happens to one session: somebody presents it, or it is revoked. */
  datatype Event = Presented(at: Instant) | Ended(at: Instant)

  /** The row after a history. */
  function After(row: Row, history: seq<Event>): Row
    decreases |history|
  {
    if history == [] then row
    else
      var before, e := After(row, history[..|history| - 1]), history[|history| - 1];
      if e.Presented? then Touched(before, e.at) else Revoked(before, e.at)
  }

  /** Time runs forward from the session's creation. */
  ghost predicate Forward(created: Instant, history: seq<Event>) {
    && (forall i :: 0 <= i < |history| ==> created <= history[i].at)
    && (forall i, j :: 0 <= i < j < |history| ==> history[i].at <= history[j].at)
  }

  /** When the session was last presented, whether or not it was accepted; its creation at first. */
  function LastUse(created: Instant, history: seq<Event>): Instant
    decreases |history|
  {
    if history == [] then created
    else
      var e := history[|history| - 1];
      if e.Presented? then e.at else LastUse(created, history[..|history| - 1])
  }

  /** No two uses in a row are 30 days apart. */
  predicate NoGap(created: Instant, history: seq<Event>)
    decreases |history|
  {
    history == [] ||
    var before, e := history[..|history| - 1], history[|history| - 1];
    NoGap(created, before) && (e.Presented? ==> e.at < LastUse(created, before) + IDLE)
  }

  predicate NeverRevoked(history: seq<Event>) { forall i :: 0 <= i < |history| ==> history[i].Presented? }

  lemma ForwardPrefix(created: Instant, history: seq<Event>)
    requires Forward(created, history) && history != []
    ensures Forward(created, history[..|history| - 1])
    ensures LastUse(created, history[..|history| - 1]) <= history[|history| - 1].at
  {
    var before := history[..|history| - 1];
    LastUseInside(created, before);
    assert forall i :: 0 <= i < |before| ==> before[i] == history[i];
  }

  lemma {:induction false} LastUseInside(created: Instant, history: seq<Event>)
    ensures LastUse(created, history) == created
            || exists i :: 0 <= i < |history| && history[i].at == LastUse(created, history)
    decreases |history|
  {
    if history != [] && history[|history| - 1].Ended? {
      var before := history[..|history| - 1];
      LastUseInside(created, before);
      if i :| 0 <= i < |before| && before[i].at == LastUse(created, before) {
        assert history[i].at == LastUse(created, history);
      }
    }
  }

  /** When the session was last presented and accepted; its creation at first. */
  function LastAccepted(owner: Id, created: Instant, history: seq<Event>): Instant
    decreases |history|
  {
    if history == [] then created
    else
      var before, e := history[..|history| - 1], history[|history| - 1];
      if e.Presented? && Accepts(After(NewRow(owner, created), before), e.at) then e.at
      else LastAccepted(owner, created, before)
  }

  /** After any history whatever, a session was last seen at its last accepted use, and its idle expiry is 30 days
      after that use or 180 days after its creation, whichever is first. */
  lemma {:induction false} IdleFollowsLastAcceptedUse(owner: Id, created: Instant, history: seq<Event>)
    ensures var row, last := After(NewRow(owner, created), history), LastAccepted(owner, created, history);
            && row.owner == owner && row.createdAt == created && row.absoluteExpiresAt == created + ABSOLUTE
            && row.lastSeenAt == last && row.idleExpiresAt == Min(last + IDLE, created + ABSOLUTE)
            && (row.revokedAt.None? <==> NeverRevoked(history))
    decreases |history|
  {
    if history != [] {
      var before := history[..|history| - 1];
      IdleFollowsLastAcceptedUse(owner, created, before);
      assert NeverRevoked(history) <==> NeverRevoked(before) && history[|history| - 1].Presented?;
    }
  }

  /** As long as uses keep coming each is accepted; after a gap the session was dead at its last use. */
  lemma {:induction false} UsesUntilGap(owner: Id, created: Instant, history: seq<Event>)
    requires Forward(created, history) && NeverRevoked(history)
    ensures var last, use := LastAccepted(owner, created, history), LastUse(created, history);
            && (NoGap(created, history) && use < created + ABSOLUTE ==> last == use)
            && (!NoGap(created, history) ==> Min(last + IDLE, created + ABSOLUTE) <= use)
            && last <= use
    decreases |history|
  {
    if history != [] {
      var before := history[..|history| - 1];
      ForwardPrefix(created, history);
      UsesUntilGap(owner, created, before);
      IdleFollowsLastAcceptedUse(owner, created, before);
      assert history[|history| - 1].Presented?;
    }
  }

  /** A session is accepted exactly when it was never revoked, is under 180 days old, and no two
      uses in a row, the present one included, are 30 days apart. */
  lemma AcceptedExactlyWhen(owner: Id, created: Instant, history: seq<Event>, now: Instant)
    requires Forward(created, history + [Presented(now)])
    ensures Accepts(After(NewRow(owner, created), history), now)
       <==> NeverRevoked(history) && now < created + 15_552_000 && NoGap(created, history + [Presented(now)])
  {
    var all := history + [Presented(now)];
    assert all[..|all| - 1] == history;
    ForwardPrefix(created, all);
    IdleFollowsLastAcceptedUse(owner, created, history);
    if NeverRevoked(history) { UsesUntilGap(owner, created, history); }
  }

  /** Once refused, refused for ever, whatever happens in between. */
  lemma {:induction false} RefusedForEver(row: Row, now: Instant, history: seq<Event>, later: Instant)
    requires !Accepts(row, now) && now <= later && forall i :: 0 <= i < |history| ==> now <= history[i].at
    ensures !Accepts(After(row, history), later)
    decreases |history|
  {
    if history != [] {
      var last := history[|history| - 1];
      RefusedForEver(row, now, history[..|history| - 1], later);
      RefusedForEver(row, now, history[..|history| - 1], last.at);
    }
  }

  // ---------------------------------------------------------------- the session table

  /** The row is the one that its history has made. */
  ghost predicate Describes(row: Row, history: seq<Event>, clock: Instant) {
    && row.createdAt <= clock && Forward(row.createdAt, history)
    && (forall i :: 0 <= i < |history| ==> history[i].at <= clock)
    && row == After(NewRow(row.owner, row.createdAt), history)
  }

  /** What a session is known by, and its history one event longer. */
  ghost predicate Continues(was: Row, before: seq<Event>, row: Row, history: seq<Event>, e: Event) {
    row.owner == was.owner && row.createdAt == was.createdAt && history == before + [e]
  }

  lemma Ages(rows: map<Id, Row>, histories: map<Id, seq<Event>>, clock: Instant, now: Instant)
    requires rows.Keys == histories.Keys && clock <= now && forall id :: id in rows ==>
               Describes(rows[id], histories[id], clock)
    ensures forall id :: id in rows ==> Describes(rows[id], histories[id], now)
  {
  }

  lemma PresentedOnce(row: Row, history: seq<Event>, clock: Instant, now: Instant)
    requires Describes(row, history, clock) && clock <= now
    ensures Describes(Touched(row, now), history + [Presented(now)], now)
    ensures Accepts(row, now) <==>
            NeverRevoked(history + [Presented(now)]) && now < row.createdAt + ABSOLUTE
            && NoGap(row.createdAt, history + [Presented(now)])
  {
    var all := history + [Presented(now)];
    assert all[..|all| - 1] == history;
    AcceptedExactlyWhen(row.owner, row.createdAt, history, now);
    assert NeverRevoked(all) <==> NeverRevoked(history) by {
      assert forall i :: 0 <= i < |history| ==> all[i] == history[i];
    }
  }

  lemma EndedOnce(row: Row, history: seq<Event>, clock: Instant, now: Instant)
    requires Describes(row, history, clock) && clock <= now
    ensures Describes(Revoked(row, now), history + [Ended(now)], now)
    ensures row.revokedAt.None? <==> NeverRevoked(history)
  {
    var all := history + [Ended(now)];
    assert all[..|all| - 1] == history;
    IdleFollowsLastAcceptedUse(row.owner, row.createdAt, history);
  }

  /** Every row is the one that its session's history has made. */
  ghost predicate AllDescribed(rows: map<Id, Row>, histories: map<Id, seq<Event>>, clock: Instant) {
    rows.Keys == histories.Keys && forall id :: id in rows ==> Describes(rows[id], histories[id], clock)
  }

  /** A row has no revocation time exactly if its session was never revoked. */
  lemma StillOpen(rows: map<Id, Row>, histories: map<Id, seq<Event>>, clock: Instant)
    requires AllDescribed(rows, histories, clock)
    ensures rows.Keys == histories.Keys
    ensures forall id :: id in rows ==> (rows[id].revokedAt.None? <==> NeverRevoked(histories[id]))
  {
    hide NeverRevoked;
    forall id | id in rows ensures rows[id].revokedAt.None? <==> NeverRevoked(histories[id]) {
      EndedOnce(rows[id], histories[id], clock, clock);
    }
  }

  /** The rows after an UPDATE that sets revoked_at on some of them. */
  function EndedRows(rows: map<Id, Row>, ended: set<Id>, now: Instant): map<Id, Row> {
    map id | id in rows :: if id in ended then rows[id].(revokedAt := Some(now)) else rows[id]
  }

  ghost function EndedHistories(histories: map<Id, seq<Event>>, ended: set<Id>, now: Instant): map<Id, seq<Event>> {
    map id | id in histories :: if id in ended then histories[id] + [Ended(now)] else histories[id]
  }

  /** Ending some of the open sessions: their rows refuse from then on, and all others stay. */
  lemma SomeEnded(rows: map<Id, Row>, histories: map<Id, seq<Event>>, clock: Instant, ended: set<Id>, now: Instant)
    requires AllDescribed(rows, histories, clock) && clock <= now
    requires forall id :: id in ended ==> id in rows && rows[id].revokedAt.None?
    ensures AllDescribed(EndedRows(rows, ended, now), EndedHistories(histories, ended, now), now)
    ensures EndedRows(rows, ended, now).Keys == rows.Keys
    ensures forall id, later :: id in ended ==> !Accepts(EndedRows(rows, ended, now)[id], later)
    ensures forall id :: id in rows && id !in ended ==>
              EndedRows(rows, ended, now)[id] == rows[id] && EndedHistories(histories, ended, now)[id] == histories[id]
    ensures forall id :: id in rows ==>
              EndedRows(rows, ended, now)[id].owner == rows[id].owner
              && EndedRows(rows, ended, now)[id].createdAt == rows[id].createdAt
  {
    hide Describes;
    Ages(rows, histories, clock, now);
    forall id | id in ended ensures Describes(rows[id].(revokedAt := Some(now)), histories[id] + [Ended(now)], now) {
      EndedOnce(rows[id], histories[id], clock, now);
    }
  }

  class Sessions {
    var rows: map<Id, Row>
    ghost var histories: map<Id, seq<Event>>
    ghost var clock: Instant

    ghost predicate Valid()
      reads this
    {
      AllDescribed(rows, histories, clock)
    }

    /** Nothing about other sessions has changed. */
    twostate predicate OthersKept(id: Id)
      reads this
    {
      && (forall i :: i != id ==> (i in rows <==> i in old(rows)) && (i in histories <==> i in old(histories)))
      && (forall i :: i != id && i in rows && i in old(rows) ==> rows[i] == old(rows)[i])
      && (forall i :: i != id && i in histories && i in old(histories) ==> histories[i] == old(histories)[i])
    }

    constructor (now: Instant)
      ensures Valid() && rows == map[] && clock == now
    {
      rows, histories, clock := map[], map[], now;
    }

    /** createSessionTx: a session under a new identifier, accepted from now on until 30 idle days have passed. */
    method Create(id: Id, owner: Id, now: Instant)
      requires Valid() && id !in rows && clock <= now
      modifies this
      ensures Valid() && clock == now && OthersKept(id)
      ensures id in rows && rows[id].owner == owner && rows[id].createdAt == now && histories[id] == []
      ensures forall t :: now <= t ==> (Accepts(rows[id], t) <==> t < now + 2_592_000)
    {
      rows := rows[id := Row(owner, now, now, now + IDLE, now + ABSOLUTE, None)];
      histories := histories[id := []];
      clock := now;
    }

    /** AuthenticateSession: one conditional UPDATE. It accepts exactly the sessions that were never revoked, are
        under 180 days old, and have been presented at least every 30 days. */
    method Authenticate(id: Id, now: Instant) returns (ok: bool)
      requires Valid() && clock <= now
      modifies this
      ensures Valid() && clock == now && OthersKept(id) && (id in rows <==> id in old(rows))
      ensures id in rows ==> Continues(old(rows)[id], old(histories)[id], rows[id], histories[id], Presented(now))
      ensures ok <==> id in rows && NeverRevoked(histories[id]) && now < rows[id].createdAt + 15_552_000
                      && NoGap(rows[id].createdAt, histories[id])
    {
      hide Describes, NoGap, NeverRevoked;
      Ages(rows, histories, clock, now);
      if id !in rows {
        clock := now;
        return false;
      }
      var row := rows[id];
      PresentedOnce(row, histories[id], clock, now);
      ok := row.revokedAt.None? && row.idleExpiresAt > now && row.absoluteExpiresAt > now;
      if ok {
        var idle := if now + IDLE < row.absoluteExpiresAt then now + IDLE else row.absoluteExpiresAt;
        rows := rows[id := Row(row.owner, row.createdAt, now, idle, row.absoluteExpiresAt, row.revokedAt)];
      }
      histories := histories[id := histories[id] + [Presented(now)]];
      clock := now;
    }

    /** RevokeSession: the session is dead at every later time. */
    method RevokeSession(id: Id, now: Instant)
      requires Valid() && clock <= now
      modifies this
      ensures Valid() && clock == now && OthersKept(id) && (id in rows <==> id in old(rows))
      ensures id in rows ==> Continues(old(rows)[id], old(histories)[id], rows[id], histories[id], Ended(now))
      ensures id in rows ==> forall later :: !Accepts(rows[id], later)
    {
      hide Describes, NoGap, NeverRevoked;
      Ages(rows, histories, clock, now);
      if id in rows {
        EndedOnce(rows[id], histories[id], clock, now);
        if rows[id].revokedAt.None? {
          rows := rows[id := rows[id].(revokedAt := Some(now))];
        }
        histories := histories[id := histories[id] + [Ended(now)]];
      }
      clock := now;
    }

    /** RevokeSessionByID: it ends the owner's own session if that has not been ended, and touches nobody else's. */
    method RevokeByID(owner: Id, id: Id, now: Instant) returns (ok: bool)
      requires Valid() && clock <= now
      modifies this
      ensures Valid() && clock == now && OthersKept(id) && (id in rows <==> id in old(rows))
      ensures ok <==> id in rows && old(rows)[id].owner == owner && NeverRevoked(old(histories)[id])
      ensures ok ==> Continues(old(rows)[id], old(histories)[id], rows[id], histories[id], Ended(now))
      ensures id in rows && old(rows)[id].owner == owner ==> forall later :: !Accepts(rows[id], later)
      ensures !ok ==> rows == old(rows) && histories == old(histories)
    {
      hide Describes, NoGap, NeverRevoked;
      Ages(rows, histories, clock, now);
      if id in rows { EndedOnce(rows[id], histories[id], clock, now); }
      ok := id in rows && rows[id].owner == owner && rows[id].revokedAt.None?;
      if ok {
        rows := rows[id := rows[id].(revokedAt := Some(now))];
        histories := histories[id := histories[id] + [Ended(now)]];
      }
      clock := now;
    }

    /** RevokeOtherSessions: every other session of the owner is dead at every later time, and the count is of those
        that it has ended. */
    method RevokeOthers(owner: Id, current: Id, now: Instant) returns (count: nat)
      requires Valid() && clock <= now
      modifies this
      ensures Valid() && clock == now && rows.Keys == old(rows).Keys
      ensures count == |set id | id in old(rows) && old(rows)[id].owner == owner && id != current
                               && NeverRevoked(old(histories)[id])|
      ensures forall id, later :: id in rows && rows[id].owner == owner && id != current ==> !Accepts(rows[id], later)
      ensures forall id :: id in rows && (old(rows)[id].owner != owner || id == current) ==>
                rows[id] == old(rows)[id] && histories[id] == old(histories)[id]
      ensures forall id :: id in rows ==>
                rows[id].owner == old(rows)[id].owner && rows[id].createdAt == old(rows)[id].createdAt
    {
      hide AllDescribed, Describes, NoGap, NeverRevoked, EndedRows, EndedHistories;
      StillOpen(rows, histories, clock);
      var ended := set id | id in rows && rows[id].owner == owner && id != current && rows[id].revokedAt.None?;
      assert ended == set id | id in rows && rows[id].owner == owner && id != current && NeverRevoked(histories[id]);
      SomeEnded(rows, histories, clock, ended, now);
      count := |ended|;
      rows, histories := EndedRows(rows, ended, now), EndedHistories(histories, ended, now);
      clock := now;
    }
  }
}
