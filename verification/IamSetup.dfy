/** Owner setup. Any number of BeginSetup and ConfirmSetup calls in flight, each split at its database
    statements, over one committed database, an advisory lock, and the snapshot each transaction reads. */
module IamSetup {
  import opened Prelude

  type Id = nat
  type Hash = nat
  type Instant = int

  const SETUP_TTL: int := 15 * 60
  const BOOTSTRAP_TTL: int := 168 * 3600

  datatype Fields =
    Fields(username: string, normalized: string, displayName: string, passwordHash: string, totpCipher: Bytes,
           totpNonce: Bytes)

  datatype Setup = Setup(tokenHash: Hash, fields: Fields, expiresAt: Instant)

  /** A BeginSetup whose token has been validated, and when. */
  datatype Begun = Begun(tokenHash: Hash, fields: Fields, at: Instant)

  datatype Token = Token(expiresAt: Instant, consumed: bool)

  /** The tables owner (every row is active: nothing disables one), owner_bootstrap_tokens and pending_owner_setups. */
  datatype Db = Db(owners: map<Id, Fields>, tokens: map<Hash, Token>, pending: map<Id, Setup>)

  /** How far a ConfirmSetup has come: before and after it has the lock, with its setup read, with the owner check
      passed. */
  datatype Phase = Waiting | Locked | HasRow(row: Setup) | Checked(row: Setup)

  /** snapshot: what the transaction reads, taken by its first statement, before it waits for the lock.
      openedAt: its now(), which stays the transaction's start however long it waits. */
  datatype Tx = Tx(setup: Id, openedAt: Instant, snapshot: Db, phase: Phase)

  /** setups: every setup ever inserted. confirmed: the setup whose confirmation has committed. */
  datatype World =
    World(db: Db, clock: Instant, lock: Option<nat>, txs: map<nat, Tx>, begun: map<nat, Begun>,
          setups: map<Id, Setup>, confirmed: Option<Id>)

  /** A call that fails, at whatever statement, is an Abort: its transaction is rolled back. */
  datatype Step =
    | Startup(tokenHash: Hash)
    | Tick(now: Instant)
    | Validate(call: nat, tokenHash: Hash, fields: Fields)
    | Insert(call: nat, setup: Id, stampedAt: Instant)
    | GiveUp(call: nat)
    | Open(tx: nat, setup: Id)
    | Acquire(tx: nat)
    | Read(tx: nat)
    | CheckOwner(tx: nat)
    | Commit(tx: nat, owner: Id)
    | Abort(tx: nat)

  predicate CanStep(w: World, step: Step) {
    match step
    case Startup(_) => true
    case Tick(now) => w.clock <= now
    case Validate(b, h, _) =>
      b !in w.begun && h in w.db.tokens && !w.db.tokens[h].consumed && w.clock < w.db.tokens[h].expiresAt
      && w.db.owners == map[]
    // The expiry is taken from the clock between the validation and the insert, after the password has been hashed.
    case Insert(b, s, stampedAt) =>
      b in w.begun && w.begun[b].at <= stampedAt <= w.clock && s !in w.setups && w.begun[b].tokenHash in w.db.tokens
    case GiveUp(b) => b in w.begun
    case Open(t, _) => t !in w.txs
    case Acquire(t) => t in w.txs && w.txs[t].phase.Waiting? && w.lock.None?
    // FOR UPDATE fails when the row that the snapshot shows has been deleted since.
    case Read(t) =>
      t in w.txs && w.txs[t].phase.Locked? && w.txs[t].setup in w.txs[t].snapshot.pending
      && w.txs[t].openedAt < w.txs[t].snapshot.pending[w.txs[t].setup].expiresAt && w.txs[t].setup in w.db.pending
    // OwnerExists runs on a connection of its own and sees what is committed.
    case CheckOwner(t) => t in w.txs && w.txs[t].phase.HasRow? && w.db.owners == map[]
    case Commit(t, o) => t in w.txs && w.txs[t].phase.Checked? && o !in w.db.owners
    case Abort(t) => t in w.txs
  }

  function Consumed(tokens: map<Hash, Token>, h: Hash): map<Hash, Token> {
    if h in tokens then tokens[h := tokens[h].(consumed := true)] else tokens
  }

  function Released(w: World, t: nat): Option<nat> { if w.lock == Some(t) then None else w.lock }

  function Do(w: World, step: Step): World
    requires CanStep(w, step)
  {
    match step
    case Startup(h) =>
      if h in w.db.tokens then w else w.(db := w.db.(tokens := w.db.tokens[h := Token(w.clock + BOOTSTRAP_TTL, false)]))
    case Tick(now) => w.(clock := now)
    case Validate(b, h, fields) => w.(begun := w.begun[b := Begun(h, fields, w.clock)])
    case Insert(b, s, stampedAt) =>
      var row := Setup(w.begun[b].tokenHash, w.begun[b].fields, stampedAt + SETUP_TTL);
      w.(db := w.db.(pending := w.db.pending[s := row]), setups := w.setups[s := row], begun := w.begun - {b})
    case GiveUp(b) => w.(begun := w.begun - {b})
    case Open(t, s) => w.(txs := w.txs[t := Tx(s, w.clock, w.db, Waiting)])
    case Acquire(t) => w.(lock := Some(t), txs := w.txs[t := w.txs[t].(phase := Locked)])
    case Read(t) => w.(txs := w.txs[t := w.txs[t].(phase := HasRow(w.txs[t].snapshot.pending[w.txs[t].setup]))])
    case CheckOwner(t) => w.(txs := w.txs[t := w.txs[t].(phase := Checked(w.txs[t].phase.row))])
    case Commit(t, o) =>
      var row := w.txs[t].phase.row;
      w.(db := Db(w.db.owners[o := row.fields], Consumed(w.db.tokens, row.tokenHash), w.db.pending - {w.txs[t].setup}),
         lock := Released(w, t), txs := w.txs - {t}, confirmed := Some(w.txs[t].setup))
    case Abort(t) => w.(lock := Released(w, t), txs := w.txs - {t})
  }

  // ---------------------------------------------------------------- the invariant

  ghost predicate Recorded(pending: map<Id, Setup>, setups: map<Id, Setup>) {
    forall s :: s in pending ==> s in setups && setups[s] == pending[s]
  }

  /** Only the holder of the lock is past waiting; it has read a setup that is still pending, and if it has
      passed the owner check there is no owner. */
  ghost predicate TxOk(w: World, t: nat)
    requires t in w.txs
  {
    var x := w.txs[t];
    && Recorded(x.snapshot.pending, w.setups)
    && (!x.phase.Waiting? ==> w.lock == Some(t))
    && (x.phase.HasRow? || x.phase.Checked? ==> x.setup in w.db.pending && x.phase.row == w.db.pending[x.setup])
    && (x.phase.Checked? ==> w.db.owners == map[])
  }

  /** There is no owner before a confirmation commits. Afterwards there is one, with the fields of
      the confirmed setup, which is no longer pending and whose bootstrap token is consumed. */
  ghost predicate OwnerOk(w: World) {
    match w.confirmed
    case None => w.db.owners == map[]
    case Some(s) =>
      && s in w.setups && s !in w.db.pending
      && (exists o :: w.db.owners == map[o := w.setups[s].fields])
      && w.setups[s].tokenHash in w.db.tokens && w.db.tokens[w.setups[s].tokenHash].consumed
  }

  ghost predicate Inv(w: World) {
    && Recorded(w.db.pending, w.setups)
    && (forall s :: s in w.setups ==> w.setups[s].tokenHash in w.db.tokens)
    && (forall t :: t in w.txs ==> TxOk(w, t))
    && OwnerOk(w)
  }

  lemma TxsKept(w: World, step: Step, t: nat)
    requires Inv(w) && CanStep(w, step) && t in Do(w, step).txs
    ensures TxOk(Do(w, step), t)
  {
    assert t in w.txs ==> TxOk(w, t);
    if step.Commit? { assert TxOk(w, step.tx); }
    if step.Read? { assert TxOk(w, step.tx); }
  }

  lemma CommitMakesOwner(w: World, t: nat, o: Id)
    requires Inv(w) && CanStep(w, Commit(t, o))
    ensures OwnerOk(Do(w, Commit(t, o)))
  {
    assert TxOk(w, t);
    var v := Do(w, Commit(t, o));
    assert v.db.owners == map[o := v.setups[w.txs[t].setup].fields];
  }

  lemma StepKeepsInv(w: World, step: Step)
    requires Inv(w) && CanStep(w, step)
    ensures Inv(Do(w, step))
  {
    var v := Do(w, step);
    forall t | t in v.txs ensures TxOk(v, t) { TxsKept(w, step, t); }
    if step.Commit? {
      CommitMakesOwner(w, step.tx, step.owner);
    } else if w.confirmed.Some? {
      var o :| w.db.owners == map[o := w.setups[w.confirmed.value].fields];
      assert v.db.owners == map[o := v.setups[v.confirmed.value].fields];
    }
  }

  // ---------------------------------------------------------------- runs

  ghost predicate ValidRun(w: World, steps: seq<Step>)
    decreases |steps|
  {
    steps == [] || (CanStep(w, steps[0]) && ValidRun(Do(w, steps[0]), steps[1..]))
  }

  ghost function Run(w: World, steps: seq<Step>): World
    requires ValidRun(w, steps)
    decreases |steps|
  {
    if steps == [] then w else Run(Do(w, steps[0]), steps[1..])
  }

  const FRESH := World(Db(map[], map[], map[]), 0, None, map[], map[], map[], None)

  lemma {:induction false} RunKeepsInv(w: World, steps: seq<Step>)
    requires Inv(w) && ValidRun(w, steps)
    ensures Inv(Run(w, steps))
    decreases |steps|
  {
    hide Inv, CanStep, Do;
    if steps != [] {
      StepKeepsInv(w, steps[0]);
      RunKeepsInv(Do(w, steps[0]), steps[1..]);
    }
  }

  /** However many confirmations race, at most one owner is ever created. It has exactly the fields of the setup
      that was confirmed; that setup is gone and its bootstrap token consumed. */
  lemma AtMostOneOwner(steps: seq<Step>)
    requires ValidRun(FRESH, steps)
    ensures var w := Run(FRESH, steps);
            && |w.db.owners| <= 1
            && (w.db.owners != map[] ==>
                  && w.confirmed.Some? && w.confirmed.value in w.setups && w.confirmed.value !in w.db.pending
                  && (forall o :: o in w.db.owners ==> w.db.owners[o] == w.setups[w.confirmed.value].fields)
                  && w.setups[w.confirmed.value].tokenHash in w.db.tokens
                  && w.db.tokens[w.setups[w.confirmed.value].tokenHash].consumed)
  {
    hide CanStep, Do;
    RunKeepsInv(FRESH, steps);
    var w := Run(FRESH, steps);
    if w.confirmed.Some? {
      var o :| w.db.owners == map[o := w.setups[w.confirmed.value].fields];
      assert w.db.owners.Keys == {o};
    }
  }

  /** The commit that creates the owner deletes the setup it confirms and consumes its token, and nothing else goes. */
  lemma CommitIsExact(w: World, t: nat, o: Id)
    requires Inv(w) && CanStep(w, Commit(t, o))
    ensures var v := Do(w, Commit(t, o));
            var s := w.txs[t].setup;
            && w.db.owners == map[] && s in w.db.pending && v.db.owners == map[o := w.db.pending[s].fields]
            && v.db.pending == w.db.pending - {s}
            && v.db.tokens.Keys == w.db.tokens.Keys
            && (forall h :: h in w.db.tokens ==>
                  v.db.tokens[h]
                  == Token(w.db.tokens[h].expiresAt, w.db.tokens[h].consumed || h == w.db.pending[s].tokenHash))
  {
    assert TxOk(w, t);
  }

  /** Once there is an owner, no confirmation passes its check or commits, no new setup is validated,
      and the owner stays as it is for ever. */
  lemma {:induction false} OwnerIsForever(w: World, steps: seq<Step>)
    requires Inv(w) && w.db.owners != map[] && ValidRun(w, steps)
    ensures var v := Run(w, steps); v.db.owners == w.db.owners && v.confirmed == w.confirmed
    ensures forall i :: 0 <= i < |steps| ==> !steps[i].CheckOwner? && !steps[i].Commit? && !steps[i].Validate?
    decreases |steps|
  {
    if steps != [] {
      assert steps[0].Commit? ==> TxOk(w, steps[0].tx);
      StepKeepsInv(w, steps[0]);
      OwnerIsForever(Do(w, steps[0]), steps[1..]);
      forall i | 0 <= i < |steps| ensures !steps[i].CheckOwner? && !steps[i].Commit? && !steps[i].Validate? {
        assert i > 0 ==> steps[i] == steps[1..][i - 1];
      }
    }
  }

  // ---------------------------------------------------------------- how the owner came about

  lemma {:induction false} RunPrefix(w: World, steps: seq<Step>, n: nat)
    requires ValidRun(w, steps) && n <= |steps|
    ensures ValidRun(w, steps[..n])
    ensures n < |steps| ==>
              && ValidRun(w, steps[..n + 1]) && CanStep(Run(w, steps[..n]), steps[n])
              && Run(w, steps[..n + 1]) == Do(Run(w, steps[..n]), steps[n])
    decreases n
  {
    hide CanStep, Do;
    if n == 0 {
      if steps != [] { assert steps[..1][1..] == []; }
    } else {
      RunPrefix(Do(w, steps[0]), steps[1..], n - 1);
      assert steps[..n][1..] == steps[1..][..n - 1];
      if n < |steps| { assert steps[..n + 1][1..] == steps[1..][..n]; }
    }
  }

  /** The world before the i-th step. */
  ghost function Then(steps: seq<Step>, i: nat): World
    requires ValidRun(FRESH, steps) && i <= |steps|
  {
    RunPrefix(FRESH, steps, i);
    Run(FRESH, steps[..i])
  }

  /** The k-th step made a bootstrap token of this expiry, a week later. */
  ghost predicate Started(steps: seq<Step>, k: nat, h: Hash, expiresAt: Instant)
    requires ValidRun(FRESH, steps)
  {
    k < |steps| && steps[k] == Startup(h) && expiresAt == Then(steps, k).clock + 604_800
  }

  /** The i-th step validated this token for these fields: there was no owner, and it was neither used nor expired. */
  ghost predicate Validated(steps: seq<Step>, i: nat, h: Hash, fields: Fields)
    requires ValidRun(FRESH, steps)
  {
    i < |steps| && steps[i].Validate? && steps[i].tokenHash == h && steps[i].fields == fields &&
    var w := Then(steps, i);
    w.db.owners == map[] && h in w.db.tokens && !w.db.tokens[h].consumed && w.clock < w.db.tokens[h].expiresAt
  }

  /** The l-th step inserted this setup, validated by the i-th; it expires at most 15 minutes after the insert. */
  ghost predicate Inserted(steps: seq<Step>, i: nat, l: nat, x: Setup)
    requires ValidRun(FRESH, steps)
  {
    && i < l < |steps| && steps[l].Insert? && Validated(steps, i, x.tokenHash, x.fields)
    && x.expiresAt <= Then(steps, l).clock + 900
  }

  /** The j-th step opened a transaction for this setup. */
  ghost predicate Opened(steps: seq<Step>, j: nat, setup: Id, at: Instant, snapshot: Db)
    requires ValidRun(FRESH, steps)
  {
    j < |steps| && steps[j].Open? && steps[j].setup == setup && Then(steps, j).clock == at
    && Then(steps, j).db == snapshot
  }

  /** The transaction that the j-th step opened was in time for the setup that the l-th step had inserted. */
  ghost predicate InTime(steps: seq<Step>, i: nat, l: nat, j: nat, setup: Id, row: Setup)
    requires ValidRun(FRESH, steps)
  {
    && i < l < j < |steps| && Inserted(steps, i, l, row) && steps[j].Open? && steps[j].setup == setup
    && Then(steps, j).clock < row.expiresAt
  }

  lemma TokenComes(w: World, step: Step, h: Hash)
    requires CanStep(w, step) && h in Do(w, step).db.tokens
    ensures if h in w.db.tokens then Do(w, step).db.tokens[h].expiresAt == w.db.tokens[h].expiresAt
            else step == Startup(h) && Do(w, step).db.tokens[h].expiresAt == w.clock + 604_800
  {
  }

  lemma NextWorld(steps: seq<Step>, n: nat)
    requires ValidRun(FRESH, steps) && n < |steps|
    ensures CanStep(Then(steps, n), steps[n]) && Then(steps, n + 1) == Do(Then(steps, n), steps[n])
  {
    hide CanStep, Do;
    RunPrefix(FRESH, steps, n);
  }

  lemma FirstWorld(steps: seq<Step>)
    requires ValidRun(FRESH, steps)
    ensures Then(steps, 0) == FRESH
  {
    assert steps[..0] == [];
  }

  lemma {:induction false} TokensHaveStarts(steps: seq<Step>, n: nat, h: Hash) returns (k: nat)
    requires ValidRun(FRESH, steps) && n <= |steps| && h in Then(steps, n).db.tokens
    ensures k < n && Started(steps, k, h, Then(steps, n).db.tokens[h].expiresAt)
    decreases n
  {
    hide CanStep, Do, Then;
    FirstWorld(steps);
    NextWorld(steps, n - 1);
    TokenComes(Then(steps, n - 1), steps[n - 1], h);
    if h in Then(steps, n - 1).db.tokens { k := TokensHaveStarts(steps, n - 1, h); } else { k := n - 1; }
  }

  lemma BegunComes(w: World, step: Step, b: nat)
    requires CanStep(w, step) && b in Do(w, step).begun
    ensures if b in w.begun then Do(w, step).begun[b] == w.begun[b] else step.Validate?
    ensures b !in w.begun ==>
              var h := step.tokenHash;
              && Do(w, step).begun[b] == Begun(h, step.fields, w.clock) && w.db.owners == map[]
              && h in w.db.tokens && !w.db.tokens[h].consumed && w.clock < w.db.tokens[h].expiresAt
  {
  }

  lemma {:induction false} BegunHaveValidations(steps: seq<Step>, n: nat, b: nat) returns (i: nat)
    requires ValidRun(FRESH, steps) && n <= |steps| && b in Then(steps, n).begun
    ensures i < n && Validated(steps, i, Then(steps, n).begun[b].tokenHash, Then(steps, n).begun[b].fields)
    decreases n
  {
    hide CanStep, Do, Then;
    FirstWorld(steps);
    NextWorld(steps, n - 1);
    BegunComes(Then(steps, n - 1), steps[n - 1], b);
    if b in Then(steps, n - 1).begun { i := BegunHaveValidations(steps, n - 1, b); } else { i := n - 1; }
  }

  lemma SetupComes(w: World, step: Step, s: Id)
    requires CanStep(w, step) && s in Do(w, step).setups
    ensures if s in w.setups then Do(w, step).setups[s] == w.setups[s] else step.Insert? && step.call in w.begun
    ensures s !in w.setups ==>
              var x, begun := Do(w, step).setups[s], w.begun[step.call];
              x.tokenHash == begun.tokenHash && x.fields == begun.fields && x.expiresAt <= w.clock + 900
  {
  }

  lemma {:induction false} SetupsHaveInserts(steps: seq<Step>, n: nat, s: Id) returns (i: nat, l: nat)
    requires ValidRun(FRESH, steps) && n <= |steps| && s in Then(steps, n).setups
    ensures l < n && Inserted(steps, i, l, Then(steps, n).setups[s])
    decreases n
  {
    hide CanStep, Do, Then, Validated;
    FirstWorld(steps);
    NextWorld(steps, n - 1);
    SetupComes(Then(steps, n - 1), steps[n - 1], s);
    if s in Then(steps, n - 1).setups {
      i, l := SetupsHaveInserts(steps, n - 1, s);
    } else {
      l := n - 1;
      i := BegunHaveValidations(steps, n - 1, steps[n - 1].call);
    }
  }

  lemma TxComes(w: World, step: Step, t: nat)
    requires CanStep(w, step) && t in Do(w, step).txs
    ensures var x := Do(w, step).txs[t];
            if t in w.txs then
              x.setup == w.txs[t].setup && x.openedAt == w.txs[t].openedAt && x.snapshot == w.txs[t].snapshot
            else step == Open(t, x.setup) && x == Tx(x.setup, w.clock, w.db, Waiting)
    ensures var x := Do(w, step).txs[t];
            x.phase.HasRow? || x.phase.Checked? ==>
              t in w.txs &&
              (((w.txs[t].phase.HasRow? || w.txs[t].phase.Checked?) && x.phase.row == w.txs[t].phase.row)
               || (x.setup in x.snapshot.pending && x.phase.row == x.snapshot.pending[x.setup]
                   && x.openedAt < x.phase.row.expiresAt))
  {
  }

  lemma {:induction false} TxsHaveOpenings(steps: seq<Step>, n: nat, t: nat) returns (j: nat)
    requires ValidRun(FRESH, steps) && n <= |steps| && t in Then(steps, n).txs
    ensures j < n
    ensures var x := Then(steps, n).txs[t]; Opened(steps, j, x.setup, x.openedAt, x.snapshot)
    decreases n
  {
    hide CanStep, Do, Then;
    FirstWorld(steps);
    NextWorld(steps, n - 1);
    TxComes(Then(steps, n - 1), steps[n - 1], t);
    if t in Then(steps, n - 1).txs { j := TxsHaveOpenings(steps, n - 1, t); } else { j := n - 1; }
  }

  /** A transaction that has read its setup was opened after the insert of the setup and before its expiry. */
  lemma {:induction false} RowsInTime(steps: seq<Step>, n: nat, t: nat) returns (i: nat, l: nat, j: nat)
    requires ValidRun(FRESH, steps) && n <= |steps| && t in Then(steps, n).txs
    requires Then(steps, n).txs[t].phase.HasRow? || Then(steps, n).txs[t].phase.Checked?
    ensures var x := Then(steps, n).txs[t]; j < n && InTime(steps, i, l, j, x.setup, x.phase.row)
    decreases n
  {
    hide CanStep, Do, Then, Inserted;
    FirstWorld(steps);
    NextWorld(steps, n - 1);
    var w, x := Then(steps, n - 1), Then(steps, n).txs[t];
    TxComes(w, steps[n - 1], t);
    if (w.txs[t].phase.HasRow? || w.txs[t].phase.Checked?) && x.phase.row == w.txs[t].phase.row {
      i, l, j := RowsInTime(steps, n - 1, t);
    } else {
      j := TxsHaveOpenings(steps, n, t);
      PendingIsSetup(steps, j, x.setup);
      i, l := SetupsHaveInserts(steps, j, x.setup);
      assert i < l by { InsertedAfter(steps, i, l, x.phase.row); }
    }
  }

  lemma InsertedAfter(steps: seq<Step>, i: nat, l: nat, x: Setup)
    requires ValidRun(FRESH, steps) && Inserted(steps, i, l, x)
    ensures i < l
  {
  }

  lemma PendingIsSetup(steps: seq<Step>, n: nat, s: Id)
    requires ValidRun(FRESH, steps) && n <= |steps| && s in Then(steps, n).db.pending
    ensures s in Then(steps, n).setups && Then(steps, n).setups[s] == Then(steps, n).db.pending[s]
  {
    hide CanStep, Do;
    RunPrefix(FRESH, steps, n);
    RunKeepsInv(FRESH, steps[..n]);
  }

  lemma ConfirmationComes(w: World, step: Step)
    requires Inv(w) && CanStep(w, step) && Do(w, step).confirmed.Some?
    ensures if w.confirmed.Some? then Do(w, step).confirmed == w.confirmed || step.Commit? else step.Commit?
    ensures step.Commit? ==>
              && step.tx in w.txs && w.txs[step.tx].phase.Checked?
              && Do(w, step).confirmed == Some(w.txs[step.tx].setup)
              && w.txs[step.tx].setup in w.setups && w.setups[w.txs[step.tx].setup] == w.txs[step.tx].phase.row
  {
    if step.Commit? { assert TxOk(w, step.tx); }
  }

  lemma {:induction false} ConfirmedInTime(steps: seq<Step>, n: nat) returns (i: nat, l: nat, j: nat)
    requires ValidRun(FRESH, steps) && n <= |steps| && Then(steps, n).confirmed.Some?
    ensures var w := Then(steps, n);
            w.confirmed.value in w.setups && j < n
            && InTime(steps, i, l, j, w.confirmed.value, w.setups[w.confirmed.value])
    decreases n
  {
    hide CanStep, Do, Then, InTime, Inv;
    FirstWorld(steps);
    NextWorld(steps, n - 1);
    InvThen(steps, n - 1);
    var w, step := Then(steps, n - 1), steps[n - 1];
    ConfirmationComes(w, step);
    if step.Commit? {
      i, l, j := RowsInTime(steps, n - 1, step.tx);
      SetupStays(w, step, w.txs[step.tx].setup);
    } else {
      i, l, j := ConfirmedInTime(steps, n - 1);
      SetupStays(w, step, w.confirmed.value);
    }
  }

  lemma InvThen(steps: seq<Step>, n: nat)
    requires ValidRun(FRESH, steps) && n <= |steps|
    ensures Inv(Then(steps, n))
  {
    hide CanStep, Do;
    RunPrefix(FRESH, steps, n);
    RunKeepsInv(FRESH, steps[..n]);
  }

  lemma SetupStays(w: World, step: Step, s: Id)
    requires CanStep(w, step) && s in w.setups
    ensures s in Do(w, step).setups && Do(w, step).setups[s] == w.setups[s]
  {
  }

  /** Whoever owns the system was invited: a start of the server made a token; the owner's setup was validated with it
      within a week, when it was unused and there was no owner; and a call that began within 15 minutes of the insert of
      that setup confirmed it. */
  ghost predicate Invited(steps: seq<Step>, k: nat, i: nat, l: nat, j: nat, setup: Id, fields: Fields)
    requires ValidRun(FRESH, steps)
  {
    && k < i < l < j < |steps|
    && steps[k].Startup? && steps[i].Validate? && steps[l].Insert? && steps[j].Open? && steps[j].setup == setup
    && steps[i].tokenHash == steps[k].tokenHash && steps[i].fields == fields
    && Then(steps, i).clock < Then(steps, k).clock + 604_800 && Then(steps, j).clock < Then(steps, l).clock + 900
    && Then(steps, i).db.owners == map[] && steps[i].tokenHash in Then(steps, i).db.tokens
    && !Then(steps, i).db.tokens[steps[i].tokenHash].consumed
  }

  lemma OwnerWasInvited(steps: seq<Step>, o: Id)
    requires ValidRun(FRESH, steps) && o in Run(FRESH, steps).db.owners
    ensures var w := Run(FRESH, steps);
            w.confirmed.Some? && exists k, i, l, j :: Invited(steps, k, i, l, j, w.confirmed.value, w.db.owners[o])
  {
    hide CanStep, Do;
    AtMostOneOwner(steps);
    assert steps[..|steps|] == steps;
    var i, l, j := ConfirmedInTime(steps, |steps|);
    var k := TokensHaveStarts(steps, i, steps[i].tokenHash);
    assert Invited(steps, k, i, l, j, Run(FRESH, steps).confirmed.value, Run(FRESH, steps).db.owners[o]);
  }
}
