/** How long an item lives: its expiry after any run is the one that its Create and the updates since have given it. */
module DropExpiry {
  import opened Prelude
  import opened DropState
  import opened DropRuns
  import opened DropHistory

  /** An expiry after one more operation: an UpdateExpiry of the item that does not fail sets it, if the item has not
      expired by then. */
  function Moved(expiry: Instant, op: Op, id: Id): Instant {
    if op.ExpiryOp? && op.id == id && !op.fails && 0 < op.ttl && op.now < expiry then op.now + op.ttl else expiry
  }

  function ExpiryAfter(expiry: Instant, ops: seq<Op>, id: Id): Instant
    decreases |ops|
  {
    if ops == [] then expiry else ExpiryAfter(Moved(expiry, ops[0], id), ops[1..], id)
  }

  predicate Deletes(ops: seq<Op>, id: Id) { exists i :: 0 <= i < |ops| && ops[i].DeleteOp? && ops[i].id == id }

  predicate Updates(ops: seq<Op>, id: Id) { exists i :: 0 <= i < |ops| && ops[i].ExpiryOp? && ops[i].id == id }

  lemma StepMoves(s: State, op: Op, id: Id)
    requires Inv(s) && Enabled(s, op) && id in s.tables.items
    ensures var u, row := Apply(s, op), s.tables.items[id];
            if id in u.tables.items then u.tables.items[id] == row.(expiresAt := Moved(row.expiresAt, op, id))
            else op.DeleteOp? && op.id == id
  {
    hide Inv, CreateSpec, GetSpec;
    match op {
      case CreateOp(input, now, draw, fault) => CreateLeaves(s, input, now, draw, fault, id);
      case _ =>
    }
  }

  lemma CreateLeaves(s: State, input: CreateInput, now: Instant, draw: Draw, fault: Fault, id: Id)
    requires Inv(s) && Enabled(s, CreateOp(input, now, draw, fault)) && id in s.tables.items
    ensures var u := CreateSpec(s, input, now, draw, fault).0;
            id in u.tables.items && u.tables.items[id] == s.tables.items[id]
  {
    hide CreateSpec, NewFor, NewItem, BlobsAgree, TotalsExact, WithinQuota, SizesMatch, Constraints;
    if CreateSpec(s, input, now, draw, fault).1.Ok? && !Replays(s, input) {
      var rows := CreateSuccess(s, input, now, draw, fault);
    } else {
      CreateFailure(s, input, now, draw, fault);
    }
  }

  /** Over any run an item keeps everything but its expiry, and that is the one which the updates have given it. It goes
      only if the run has a Delete of it, and then it never comes back. */
  lemma {:induction false} ExpiryFollows(s: State, ops: seq<Op>, id: Id)
    requires Inv(s) && ValidRun(s, ops) && id in s.tables.items
    ensures var u, row := Run(s, ops), s.tables.items[id];
            if id in u.tables.items then u.tables.items[id] == row.(expiresAt := ExpiryAfter(row.expiresAt, ops, id))
            else Deletes(ops, id)
    decreases |ops|
  {
    hide Inv, Apply, Enabled, Moved, Evolves;
    if ops != [] {
      var t := Apply(s, ops[0]);
      StepKeepsInv(s, ops[0]);
      StepMoves(s, ops[0], id);
      if id in t.tables.items {
        ExpiryFollows(t, ops[1..], id);
        if Deletes(ops[1..], id) {
          var i :| 0 <= i < |ops[1..]| && ops[1..][i].DeleteOp? && ops[1..][i].id == id;
          assert ops[i + 1] == ops[1..][i];
        }
      } else {
        assert ops[0].DeleteOp? && ops[0].id == id;
        NeverBack(s, t, ops[0], ops[1..], id);
      }
    }
  }

  lemma NeverBack(s: State, t: State, op: Op, ops: seq<Op>, id: Id)
    requires Inv(s) && Enabled(s, op) && t == Apply(s, op) && Inv(t) && ValidRun(t, ops)
    requires id in s.tables.items && id !in t.tables.items
    ensures id !in Run(t, ops).tables.items
  {
    hide Constraints, BlobsAgree, TotalsExact, WithinQuota, Apply, Run, Enabled;
    StepEvolves(s, op);
    RunEvolves(t, ops);
  }

  lemma {:induction false} NoUpdateNoMove(expiry: Instant, ops: seq<Op>, id: Id)
    requires !Updates(ops, id)
    ensures ExpiryAfter(expiry, ops, id) == expiry
    decreases |ops|
  {
    if ops != [] {
      assert !(ops[0].ExpiryOp? && ops[0].id == id);
      assert forall i :: 0 <= i < |ops[1..]| ==> ops[1..][i] == ops[i + 1];
      NoUpdateNoMove(Moved(expiry, ops[0], id), ops[1..], id);
    }
  }

  /** An item lives for its TTL: after any run without a Delete of it, Get finds it at exactly the times before the
      expiry that the updates of the run have given it, and without updates before the time of its Create plus its
      TTL. */
  lemma LivesForItsTtl(s: State, input: CreateInput, now: Instant, draw: Draw, fault: Fault, ops: seq<Op>,
                       later: Instant)
    requires Inv(s) && Enabled(s, CreateOp(input, now, draw, fault))
    requires !Replays(s, input) && CreateSpec(s, input, now, draw, fault).1.Ok?
    requires ValidRun(CreateSpec(s, input, now, draw, fault).0, ops) && !Deletes(ops, draw.item)
    ensures var v := Run(CreateSpec(s, input, now, draw, fault).0, ops);
            GetSpec(v.tables, later, draw.item).Ok? <==> later < ExpiryAfter(now + input.ttl, ops, draw.item)
    ensures !Updates(ops, draw.item) ==>
              var v := Run(CreateSpec(s, input, now, draw, fault).0, ops);
              && draw.item in v.tables.items && v.tables.items[draw.item].expiresAt == now + input.ttl
              && (GetSpec(v.tables, later, draw.item).Ok? <==> later < now + input.ttl)
  {
    hide Inv, CreateSpec, Run, ExpiryAfter, SizesMatch, Deletes, Updates, AttachmentsOf;
    CreateKeepsInv(s, input, now, draw, fault);
    CreateMakes(s, input, now, draw, fault);
    ExpiryFollows(CreateSpec(s, input, now, draw, fault).0, ops, draw.item);
    if !Updates(ops, draw.item) { NoUpdateNoMove(now + input.ttl, ops, draw.item); }
  }
}
