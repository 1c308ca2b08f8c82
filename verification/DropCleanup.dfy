/** The expiry worker's passes over the items table. */
module DropCleanup {
  import opened Prelude
  import opened DropState
  import opened DropRuns

  function PassLimit(limit: int): (n: nat)
    ensures n >= 1
  {
    if limit < 1 then 100 else limit
  }

  ghost function Expired(items: map<Id, ItemRow>, now: Instant): set<Id> {
    set id | id in items && !Active(items[id], now)
  }

  /** An answer of SELECT id FROM items WHERE expires_at <= now() ORDER BY expires_at LIMIT n. */
  ghost predicate OldestExpired(items: map<Id, ItemRow>, now: Instant, n: nat, ids: seq<Id>) {
    && Distinct(ids)
    && (forall i :: 0 <= i < |ids| ==> ids[i] in Expired(items, now))
    && (forall i, j :: 0 <= i < j < |ids| ==> items[ids[i]].expiresAt <= items[ids[j]].expiresAt)
    && |ids| == (if |Expired(items, now)| <= n then |Expired(items, now)| else n)
    && (forall i, id :: 0 <= i < |ids| && id in Expired(items, now) && id !in Elements(ids) ==>
          items[ids[i]].expiresAt <= items[id].expiresAt)
  }

  ghost function WithoutAll(t: Tables, ids: seq<Id>): Tables {
    if ids == [] then t else Without(WithoutAll(t, ids[..|ids| - 1]), ids[|ids| - 1])
  }

  ghost function AllNames(t: Tables, ids: seq<Id>): set<Id> {
    if ids == [] then {} else AllNames(t, ids[..|ids| - 1]) + StorageNames(t, ids[|ids| - 1])
  }

  /** One batch of new random names per Delete, none of them drawn twice. */
  ghost predicate FreshSupply(temps: seq<seq<Id>>, minted: set<Id>) {
    && (forall i :: 0 <= i < |temps| ==> FreshSeq(temps[i], minted))
    && (forall i, j :: 0 <= i < j < |temps| ==> Elements(temps[i]) !! Elements(temps[j]))
  }

  lemma FreshSupplyStep(temps: seq<seq<Id>>, minted: set<Id>)
    requires FreshSupply(temps, minted) && temps != []
    ensures FreshSeq(temps[0], minted) && FreshSupply(temps[1..], minted + Elements(temps[0]))
  {
  }

  lemma TickKeepsInv(s: State, now: Instant)
    requires Inv(s) && s.clock <= now
    ensures Inv(s.(clock := now))
  {
    TimePasses(s, now, {});
    assert s.(clock := now) == s.(clock := now, minted := s.minted + {});
  }

  lemma InvKnows(s: State)
    requires Inv(s)
    ensures Known(s)
  {
  }

  /** The rows left by WithoutAll are those of the other items. */
  lemma {:induction false} WithoutAllIs(t: Tables, ids: seq<Id>)
    ensures WithoutAll(t, ids).items == t.items - Elements(ids)
    ensures forall a :: a in WithoutAll(t, ids).attachments <==> a in t.attachments && t.attachments[a].itemId !in ids
    ensures forall a :: a in WithoutAll(t, ids).attachments ==> WithoutAll(t, ids).attachments[a] == t.attachments[a]
  {
    if ids != [] {
      var n := |ids| - 1;
      WithoutAllIs(t, ids[..n]);
      assert ids == ids[..n] + [ids[n]];
      assert Elements(ids) == Elements(ids[..n]) + {ids[n]};
    }
  }

  lemma WithoutOthers(t: Tables, ids: seq<Id>, i: nat)
    requires Distinct(ids) && i < |ids|
    ensures ids[i] in WithoutAll(t, ids[..i]).items <==> ids[i] in t.items
    ensures StorageNames(WithoutAll(t, ids[..i]), ids[i]) == StorageNames(t, ids[i])
    ensures WithoutAll(t, ids[..i + 1]) == Without(WithoutAll(t, ids[..i]), ids[i])
  {
    WithoutAllIs(t, ids[..i]);
    assert ids[..i + 1][..i] == ids[..i];
    assert ids[i] !in ids[..i];
  }

  lemma AllNamesStep(t: Tables, ids: seq<Id>, i: nat, files: Files)
    requires i < |ids|
    ensures files - BlobPaths(AllNames(t, ids[..i + 1]))
            == files - BlobPaths(AllNames(t, ids[..i])) - BlobPaths(StorageNames(t, ids[i]))
  {
    assert ids[..i + 1][..i] == ids[..i];
  }

  lemma DeleteCases(s: State, id: Id, now: Instant, staged: set<Id>, fault: DeleteFault)
    requires id in s.tables.items
    ensures var (u, r) := DeleteSpec(s, id, now, staged, fault);
            && u.clock == now && u.minted == s.minted + staged
            && (r.Ok? ==>
                  u.tables == Without(s.tables, id) && u.files == s.files - BlobPaths(StorageNames(s.tables, id)))
            && (r.Err? ==> r.error == Internal && u.tables == s.tables && u.files == s.files && !fault.DeleteOk?)
  {
  }

  lemma BeforeCleanup(s: State, now: Instant, n: nat, ids: seq<Id>)
    requires OldestExpired(s.tables.items, now, n, ids)
    ensures Distinct(ids) && forall i :: 0 <= i < |ids| ==> ids[i] in s.tables.items
    ensures s.tables == WithoutAll(s.tables, ids[..0]) && s.files == s.files - BlobPaths(AllNames(s.tables, ids[..0]))
  {
  }

  /** What a pass has deleted had expired; and if it comes to its end without having deleted as many as it may, nothing
      that has expired is left. */
  lemma PassReaches(t: Tables, now: Instant, n: nat, ids: seq<Id>, deleted: nat)
    requires OldestExpired(t.items, now, n, ids) && deleted <= |ids|
    ensures forall i :: 0 <= i < |ids| ==> ids[i] in t.items && t.items[ids[i]].expiresAt <= now
    ensures WithoutAll(t, ids[..deleted]).items == t.items - Elements(ids[..deleted])
    ensures deleted == |ids| ==>
              deleted == n || forall id :: id in WithoutAll(t, ids[..deleted]).items ==> now < t.items[id].expiresAt
  {
    WithoutAllIs(t, ids[..deleted]);
    if deleted == |ids| < n {
      assert ids[..deleted] == ids;
      DistinctCount(ids);
      forall i | 0 <= i < |ids| ensures ids[i] in Expired(t.items, now) {}
      assert Elements(ids) <= Expired(t.items, now);
      SameSize(Elements(ids), Expired(t.items, now));
    }
  }

  lemma SameSize(a: set<Id>, b: set<Id>)
    requires a <= b && |a| == |b|
    ensures a == b
  {
    assert b == a + (b - a) && |b| == |a| + |b - a|;
  }

  lemma {:induction false} DistinctCount<T>(s: seq<T>)
    requires Distinct(s)
    ensures |Elements(s)| == |s|
  {
    if s != [] {
      DistinctCount(s[1..]);
      assert Elements(s) == Elements(s[1..]) + {s[0]};
    }
  }

  // ---------------------------------------------------------------- draining

  /** Successive undisturbed passes, each starting from what the last one left. */
  ghost predicate ValidPasses(t: Tables, now: Instant, n: nat, passes: seq<seq<Id>>)
    decreases |passes|
  {
    passes == [] || (OldestExpired(t.items, now, n, passes[0])
                     && ValidPasses(WithoutAll(t, passes[0]), now, n, passes[1..]))
  }

  ghost function AfterPasses(t: Tables, passes: seq<seq<Id>>): Tables
    decreases |passes|
  {
    if passes == [] then t else AfterPasses(WithoutAll(t, passes[0]), passes[1..])
  }

  /** What a pass leaves of the backlog. */
  lemma PassTakes(t: Tables, now: Instant, n: nat, ids: seq<Id>)
    requires OldestExpired(t.items, now, n, ids)
    ensures var all := |Expired(t.items, now)|;
            |Expired(WithoutAll(t, ids).items, now)| == if all <= n then 0 else all - n
  {
    hide WithoutAll;
    WithoutAllIs(t, ids);
    DistinctCount(ids);
    assert Expired(WithoutAll(t, ids).items, now) == Expired(t.items, now) - Elements(ids);
    assert Elements(ids) <= Expired(t.items, now);
  }

  /** Every pass removes n expired items, or all of them if fewer are left. */
  lemma {:induction false} PassesDrain(t: Tables, now: Instant, n: nat, passes: seq<seq<Id>>)
    requires ValidPasses(t, now, n, passes)
    ensures var left, all := |Expired(AfterPasses(t, passes).items, now)|, |Expired(t.items, now)|;
            left == if all <= |passes| * n then 0 else all - |passes| * n
    decreases |passes|
  {
    hide WithoutAll, Expired, OldestExpired;
    if passes != [] {
      PassTakes(t, now, n, passes[0]);
      PassesDrain(WithoutAll(t, passes[0]), now, n, passes[1..]);
      assert |passes| * n == n + |passes[1..]| * n;
    }
  }

  /** The backlog is gone after k passes exactly when k passes of n have room for it: ceil(all / n) passes are needed.
      */
  lemma DrainedExactlyWhen(t: Tables, now: Instant, n: nat, passes: seq<seq<Id>>)
    requires 0 < n && ValidPasses(t, now, n, passes)
    ensures Expired(AfterPasses(t, passes).items, now) == {} <==>
            (|Expired(t.items, now)| + n - 1) / n <= |passes|
  {
    PassesDrain(t, now, n, passes);
    var all, k := |Expired(t.items, now)|, |passes|;
    CeilingLaw(all, n, k);
  }
}
