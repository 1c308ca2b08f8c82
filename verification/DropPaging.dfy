/** Keyset paging: each request asks for the items below the last one it saw. */
module DropPaging {
  import opened Prelude
  import opened DropState
  import opened DropRuns
  import opened DropHistory

  /** ORDER BY created_at DESC, id DESC. */
  function Descending(s: set<Stamp>): (r: seq<Stamp>)
    ensures |r| == |s|
  {
    if s == {} then [] else var m := Latest(s); [m] + Descending(s - {m})
  }

  ghost predicate Falling(r: seq<Stamp>) {
    forall i, j :: 0 <= i < j < |r| ==> Before(r[j], r[i])
  }

  lemma FallsFrom(first: Stamp, rest: seq<Stamp>)
    requires Falling(rest) && forall x :: x in Elements(rest) ==> x == first || Before(x, first)
    requires first !in Elements(rest)
    ensures Elements([first] + rest) == {first} + Elements(rest) && Falling([first] + rest)
  {
    forall x ensures x in Elements([first] + rest) <==> x in {first} + Elements(rest) {
      assert x in [first] + rest <==> x == first || x in rest;
    }
    forall i | 0 <= i < |rest| ensures Before(rest[i], first) { assert rest[i] in Elements(rest); }
  }

  lemma {:induction false} DescendingSorts(s: set<Stamp>)
    ensures Elements(Descending(s)) == s && Falling(Descending(s))
  {
    hide Elements, Falling, Before, Latest;
    if s == {} {
      NothingFalls();
    } else {
      DescendingSorts(s - {Latest(s)});
      FallsFrom(Latest(s), Descending(s - {Latest(s)}));
    }
  }

  lemma NothingFalls()
    ensures Elements<Stamp>([]) == {} && Falling([])
  {
  }

  function Below(active: set<Stamp>, cursor: Option<Stamp>): set<Stamp> {
    set x | x in active && (cursor.None? || Before(x, cursor.value))
  }

  /** WHERE ... (created_at,id) < cursor ORDER BY ... LIMIT limit. */
  function Page(active: set<Stamp>, cursor: Option<Stamp>, limit: nat): (r: seq<Stamp>)
    ensures |r| <= limit
  {
    var all := Descending(Below(active, cursor));
    if |all| <= limit then all else all[..limit]
  }

  /** listItems offers a next cursor exactly when the page is full. */
  function NextCursor(page: seq<Stamp>, limit: nat): Option<Stamp> {
    if |page| == limit && page != [] then Some(page[|page| - 1]) else None
  }

  /** Following cursors while the active set changes: actives[i] is what the i-th request finds. */
  ghost function Walk(actives: seq<set<Stamp>>, cursor: Option<Stamp>, limit: nat): seq<Stamp>
    requires 0 < limit
    decreases |actives|
  {
    if actives == [] then []
    else
      var page := Page(actives[0], cursor, limit);
      if NextCursor(page, limit).None? then page
      else page + Walk(actives[1..], NextCursor(page, limit), limit)
  }

  /** The walk reached a page without a next cursor. */
  ghost predicate Finished(actives: seq<set<Stamp>>, cursor: Option<Stamp>, limit: nat)
    requires 0 < limit
    decreases |actives|
  {
    actives != [] &&
    var next := NextCursor(Page(actives[0], cursor, limit), limit);
    next.None? || Finished(actives[1..], next, limit)
  }

  lemma DescendingMember(s: set<Stamp>, i: nat)
    requires i < |s|
    ensures Descending(s)[i] in s
  {
    hide Descending;
    DescendingSorts(s);
    assert Descending(s)[i] in Elements(Descending(s));
  }

  lemma DescendingIndex(s: set<Stamp>, x: Stamp) returns (i: nat)
    requires x in s
    ensures i < |s| && Descending(s)[i] == x
  {
    hide Descending;
    DescendingSorts(s);
    assert x in Elements(Descending(s));
    i :| 0 <= i < |s| && Descending(s)[i] == x;
  }

  lemma PageFalls(active: set<Stamp>, cursor: Option<Stamp>, limit: nat)
    ensures Falling(Page(active, cursor, limit))
    ensures forall x :: x in Page(active, cursor, limit) ==> x in Below(active, cursor)
  {
    hide Descending, Below;
    DescendingSorts(Below(active, cursor));
    forall i | 0 <= i < |Page(active, cursor, limit)| ensures Page(active, cursor, limit)[i] in Below(active, cursor) {
      DescendingMember(Below(active, cursor), i);
    }
  }

  /** What a page misses lies below its last item, and then there is a next cursor. */
  lemma PageMisses(active: set<Stamp>, cursor: Option<Stamp>, limit: nat, x: Stamp)
    requires 0 < limit && x in Below(active, cursor) && x !in Page(active, cursor, limit)
    ensures NextCursor(Page(active, cursor, limit), limit).Some?
    ensures Before(x, NextCursor(Page(active, cursor, limit), limit).value)
  {
    hide Descending, Below;
    var all := Descending(Below(active, cursor));
    var i := DescendingIndex(Below(active, cursor), x);
    DescendingSorts(Below(active, cursor));
    assert limit < |all| ==> forall j :: 0 <= j < limit ==> all[j] in all[..limit];
  }

  lemma PageIs(active: set<Stamp>, cursor: Option<Stamp>, limit: nat)
    requires 0 < limit
    ensures var page := Page(active, cursor, limit);
            && Falling(page)
            && (forall x :: x in page ==> x in Below(active, cursor))
            && (NextCursor(page, limit).Some? ==> NextCursor(page, limit).value == page[|page| - 1] && page != [])
  {
    hide Page;
    PageFalls(active, cursor, limit);
  }

  /** Whatever changes between requests, the walk is strictly descending and stays below its
      start: nothing is delivered twice. */
  lemma {:induction false} WalkFalls(actives: seq<set<Stamp>>, cursor: Option<Stamp>, limit: nat)
    requires 0 < limit
    ensures Falling(Walk(actives, cursor, limit))
    ensures forall x :: x in Walk(actives, cursor, limit) && cursor.Some? ==> Before(x, cursor.value)
    decreases |actives|
  {
    hide Page, NextCursor;
    if actives != [] {
      var page := Page(actives[0], cursor, limit);
      var next := NextCursor(page, limit);
      PageIs(actives[0], cursor, limit);
      if next.Some? {
        var rest := Walk(actives[1..], next, limit);
        WalkFalls(actives[1..], next, limit);
        FallingConcat(page, rest);
        assert page[|page| - 1] in page;
      }
    }
  }

  lemma FallingConcat(a: seq<Stamp>, b: seq<Stamp>)
    requires Falling(a) && Falling(b) && a != []
    requires forall x :: x in b ==> Before(x, a[|a| - 1])
    ensures Falling(a + b)
  {
    forall i, j | 0 <= i < j < |a + b| ensures Before((a + b)[j], (a + b)[i]) {
      if j >= |a| {
        assert b[j - |a|] in b;
      }
    }
  }

  /** The pages of a walk, one for each request that it makes. */
  ghost function Pages(actives: seq<set<Stamp>>, cursor: Option<Stamp>, limit: nat): (pages: seq<seq<Stamp>>)
    requires 0 < limit
    ensures |pages| <= |actives|
    decreases |actives|
  {
    if actives == [] then []
    else
      var page := Page(actives[0], cursor, limit);
      [page] + if NextCursor(page, limit).None? then [] else Pages(actives[1..], NextCursor(page, limit), limit)
  }

  ghost function Concat(pages: seq<seq<Stamp>>): seq<Stamp> {
    if pages == [] then [] else pages[0] + Concat(pages[1..])
  }

  lemma {:induction false} WalkIsPages(actives: seq<set<Stamp>>, cursor: Option<Stamp>, limit: nat)
    requires 0 < limit
    ensures Walk(actives, cursor, limit) == Concat(Pages(actives, cursor, limit))
    decreases |actives|
  {
    hide Page, NextCursor;
    if actives != [] {
      var page := Page(actives[0], cursor, limit);
      if NextCursor(page, limit).None? {
        assert [page][1..] == [];
      } else {
        var rest := Pages(actives[1..], NextCursor(page, limit), limit);
        WalkIsPages(actives[1..], NextCursor(page, limit), limit);
        assert ([page] + rest)[1..] == rest;
      }
    }
  }

  /** What a page holds was active when its request was made. */
  lemma {:induction false} PageIsActive(actives: seq<set<Stamp>>, cursor: Option<Stamp>, limit: nat, k: nat, x: Stamp)
    requires 0 < limit && k < |Pages(actives, cursor, limit)| && x in Pages(actives, cursor, limit)[k]
    ensures x in actives[k]
    decreases |actives|
  {
    hide Page, NextCursor;
    var page := Page(actives[0], cursor, limit);
    PageIs(actives[0], cursor, limit);
    if k > 0 { PageIsActive(actives[1..], NextCursor(page, limit), limit, k - 1, x); }
  }

  /** Every item of the walk was active when its page was read. */
  lemma {:induction false} WalkIsActive(actives: seq<set<Stamp>>, cursor: Option<Stamp>, limit: nat, x: Stamp)
    requires 0 < limit && x in Walk(actives, cursor, limit)
    ensures exists i :: 0 <= i < |actives| && x in actives[i]
    decreases |actives|
  {
    hide Page, NextCursor;
    var page := Page(actives[0], cursor, limit);
    PageIs(actives[0], cursor, limit);
    if x !in page {
      WalkIsActive(actives[1..], NextCursor(page, limit), limit, x);
      var i :| 0 <= i < |actives[1..]| && x in actives[1..][i];
      assert actives[i + 1] == actives[1..][i];
    }
  }

  /** A finished walk has delivered every item that was active at each of the requests it made. */
  lemma {:induction false} WalkIsComplete(actives: seq<set<Stamp>>, cursor: Option<Stamp>, limit: nat, x: Stamp)
    requires 0 < limit && Finished(actives, cursor, limit)
    requires forall i :: 0 <= i < |Pages(actives, cursor, limit)| ==> x in actives[i]
    requires cursor.Some? ==> Before(x, cursor.value)
    ensures x in Walk(actives, cursor, limit)
    decreases |actives|
  {
    hide Page, NextCursor;
    var page := Page(actives[0], cursor, limit);
    if x !in page {
      PageMisses(actives[0], cursor, limit, x);
      var rest := Pages(actives[1..], NextCursor(page, limit), limit);
      forall i | 0 <= i < |rest| ensures x in actives[1..][i] { assert actives[1..][i] == actives[i + 1]; }
      WalkIsComplete(actives[1..], NextCursor(page, limit), limit, x);
    }
  }

  // ---------------------------------------------------------------- a frozen table

  lemma DescendingSplit(s: set<Stamp>, k: nat)
    requires 0 < k <= |s|
    ensures Descending(s)[k..] == Descending(Below(s, Some(Descending(s)[k - 1])))
  {
    hide Descending;
    var all := Descending(s);
    var below := Below(s, Some(all[k - 1]));
    DescendingSorts(s);
    DescendingSorts(below);
    forall x ensures x in all[k..] <==> x in Descending(below) {
      assert x in Descending(below) <==> x in Elements(Descending(below));
      assert x in all <==> x in Elements(all);
      assert all == all[..k] + all[k..];
      if x in below {
        var i := DescendingIndex(s, x);
        assert all[k..][i - k] == x;
      }
    }
    FallingUnique(all[k..], Descending(below));
  }

  /** A strictly descending list is determined by its elements. */
  lemma {:induction false} FallingUnique(a: seq<Stamp>, b: seq<Stamp>)
    requires Falling(a) && Falling(b) && forall x :: x in a <==> x in b
    ensures a == b
  {
    assert forall i :: 0 <= i < |b| ==> b[i] in a;
    assert forall i :: 0 <= i < |a| ==> a[i] in b;
    if a != [] && b != [] {
      assert a[0] == b[0];
      forall x ensures x in a[1..] <==> x in b[1..] {
        if x in a[1..] { assert x in a && Before(x, a[0]); }
        if x in b[1..] { assert x in b && Before(x, b[0]); }
      }
      FallingUnique(a[1..], b[1..]);
    }
  }

  lemma BelowBelow(s: set<Stamp>, cursor: Option<Stamp>, x: Stamp)
    requires x in Below(s, cursor)
    ensures Below(Below(s, cursor), Some(x)) == Below(s, Some(x))
  {
  }

  /** The table as k requests find it when nothing changes. */
  ghost function Frozen(s: set<Stamp>, k: nat): (r: seq<set<Stamp>>)
    ensures |r| == k
  {
    if k == 0 then [] else [s] + Frozen(s, k - 1)
  }

  /** Over an unchanging table, k requests finish the walk exactly when k > |s| / limit, and then
      deliver every active item once, newest first. */
  lemma {:induction false} FrozenWalk(s: set<Stamp>, cursor: Option<Stamp>, limit: nat, k: nat)
    requires 0 < limit
    ensures var actives := Frozen(s, k);
            && (Finished(actives, cursor, limit) <==> |Below(s, cursor)| / limit < k)
            && (Finished(actives, cursor, limit) ==> Walk(actives, cursor, limit) == Descending(Below(s, cursor)))
    decreases k
  {
    hide Descending, Below, Page, NextCursor;
    var actives := Frozen(s, k);
    var todo := Below(s, cursor);
    if k > 0 {
      assert actives[1..] == Frozen(s, k - 1);
      CountDown(|todo|, limit);
      if |todo| >= limit {
        FullPage(s, cursor, limit);
        FrozenWalk(s, Some(Descending(todo)[limit - 1]), limit, k - 1);
      } else {
        LastPage(s, cursor, limit);
      }
    }
  }

  lemma CountDown(n: nat, limit: nat)
    requires 0 < limit
    ensures n < limit ==> n / limit == 0
    ensures n >= limit ==> n / limit == (n - limit) / limit + 1
  {
    if n < limit {
      Quotient(n, limit, 0, n);
    } else {
      var q, r := (n - limit) / limit, (n - limit) % limit;
      assert n == (q + 1) * limit + r by { assert (q + 1) * limit == q * limit + limit; }
      Quotient(n, limit, q + 1, r);
    }
  }

  lemma LastPage(s: set<Stamp>, cursor: Option<Stamp>, limit: nat)
    requires |Below(s, cursor)| < limit
    ensures Page(s, cursor, limit) == Descending(Below(s, cursor)) && NextCursor(Page(s, cursor, limit), limit).None?
  {
  }

  /** A full page is the first limit items; what is left lies below its last one. */
  lemma FullPage(s: set<Stamp>, cursor: Option<Stamp>, limit: nat)
    requires 0 < limit <= |Below(s, cursor)|
    ensures var all := Descending(Below(s, cursor));
            var next := Some(all[limit - 1]);
            && Page(s, cursor, limit) == all[..limit] && NextCursor(Page(s, cursor, limit), limit) == next
            && all == Page(s, cursor, limit) + Descending(Below(s, next))
            && |Below(s, next)| == |Below(s, cursor)| - limit
  {
    hide Descending, Below;
    var todo := Below(s, cursor);
    var all := Descending(todo);
    DescendingMember(todo, limit - 1);
    DescendingSplit(todo, limit);
    BelowBelow(s, cursor, all[limit - 1]);
    assert all == all[..limit] + all[limit..];
  }

  // ---------------------------------------------------------------- walks over runs of the store

  function ActiveStamps(t: Tables, now: Instant): set<Stamp> {
    set id | id in t.items && Active(t.items[id], now) :: Stamp(t.items[id].createdAt, id)
  }

  /** Limits outside 1..100 mean 50. */
  function ListLimit(limit: int): (n: nat)
    ensures 1 <= n <= 100
  {
    if limit < 1 || limit > 100 then 50 else limit
  }

  /** Comparing (created_at, id) as PostgreSQL compares rows. */
  predicate Earlier(at: Instant, id: Id, than: Instant, other: Id) { at < than || (at == than && id < other) }

  /** A page holds rows of the table that have not expired, below the cursor, latest first, and it leaves out such a row
      only when it is full, and the row lies below its last one. */
  lemma PageMeans(t: Tables, now: Instant, cursor: Option<Stamp>, limit: nat)
    requires 0 < limit
    ensures var page := Page(ActiveStamps(t, now), cursor, limit);
            && |page| <= limit
            && (forall i :: 0 <= i < |page| ==>
                  && page[i].id in t.items && now < t.items[page[i].id].expiresAt
                  && page[i].at == t.items[page[i].id].createdAt
                  && (cursor.Some? ==> Earlier(page[i].at, page[i].id, cursor.value.at, cursor.value.id)))
            && (forall i, j :: 0 <= i < j < |page| ==> Earlier(page[j].at, page[j].id, page[i].at, page[i].id))
            && (forall id | id in t.items && now < t.items[id].expiresAt
                            && (cursor.Some? ==>
                                  Earlier(t.items[id].createdAt, id, cursor.value.at, cursor.value.id)) ::
                  || (exists i :: 0 <= i < |page| && page[i].id == id)
                  || (|page| == limit && Earlier(t.items[id].createdAt, id, page[limit - 1].at, page[limit - 1].id)))
  {
    hide Page;
    var active := ActiveStamps(t, now);
    var page := Page(active, cursor, limit);
    PageFalls(active, cursor, limit);
    forall i | 0 <= i < |page| ensures page[i] in Below(active, cursor) { assert page[i] in page; }
    forall id | id in t.items && now < t.items[id].expiresAt
                && (cursor.Some? ==> Earlier(t.items[id].createdAt, id, cursor.value.at, cursor.value.id))
      ensures (exists i :: 0 <= i < |page| && page[i].id == id)
              || (|page| == limit && Earlier(t.items[id].createdAt, id, page[limit - 1].at, page[limit - 1].id))
    {
      var x := Stamp(t.items[id].createdAt, id);
      assert x in active && x in Below(active, cursor);
      if x !in page { PageMisses(active, cursor, limit, x); }
    }
  }

  /** The active sets met by requests separated by arbitrary runs. */
  ghost function Snapshots(s: State, gaps: seq<seq<Op>>): seq<set<Stamp>>
    requires ValidGaps(s, gaps)
    decreases |gaps|
  {
    [ActiveStamps(s.tables, s.clock)] + if gaps == [] then [] else Snapshots(Run(s, gaps[0]), gaps[1..])
  }

  ghost predicate ValidGaps(s: State, gaps: seq<seq<Op>>)
    decreases |gaps|
  {
    gaps == [] || (ValidRun(s, gaps[0]) && ValidGaps(Run(s, gaps[0]), gaps[1..]))
  }

  /** A later sighting of an item known earlier carries the same stamp, and identifiers are not reused. */
  lemma {:induction false} LaterStamps(s: State, gaps: seq<seq<Op>>, i: nat, x: Stamp)
    requires Inv(s) && ValidGaps(s, gaps) && i < |Snapshots(s, gaps)| && x in Snapshots(s, gaps)[i]
    ensures x.id in s.tables.items ==> x.at == s.tables.items[x.id].createdAt
    ensures x.id in s.minted ==> x.id in s.tables.items
    decreases |gaps|
  {
    if i > 0 {
      var t := Run(s, gaps[0]);
      RunKeepsInv(s, gaps[0]);
      RunEvolves(s, gaps[0]);
      assert Snapshots(s, gaps)[i] == Snapshots(t, gaps[1..])[i - 1];
      LaterStamps(t, gaps[1..], i - 1, x);
      if x.id in s.minted { assert x.id in t.tables.items; }
      if x.id in s.tables.items { assert x.id in s.minted; assert SameItem(s, t, x.id); }
    }
  }

  lemma {:induction false} OneStampPerItem(s: State, gaps: seq<seq<Op>>, i: nat, j: nat, x: Stamp, y: Stamp)
    requires Inv(s) && ValidGaps(s, gaps) && i <= j < |Snapshots(s, gaps)|
    requires x in Snapshots(s, gaps)[i] && y in Snapshots(s, gaps)[j] && x.id == y.id
    ensures x == y
    decreases |gaps|
  {
    if i == 0 {
      LaterStamps(s, gaps, j, y);
    } else {
      var t := Run(s, gaps[0]);
      RunKeepsInv(s, gaps[0]);
      assert Snapshots(s, gaps)[i] == Snapshots(t, gaps[1..])[i - 1];
      assert Snapshots(s, gaps)[j] == Snapshots(t, gaps[1..])[j - 1];
      OneStampPerItem(t, gaps[1..], i - 1, j - 1, x, y);
    }
  }

  /** The states in which the requests of a walk find the store. */
  ghost function Visited(s: State, gaps: seq<seq<Op>>): (states: seq<State>)
    requires ValidGaps(s, gaps)
    ensures |states| == |gaps| + 1
    decreases |gaps|
  {
    [s] + if gaps == [] then [] else Visited(Run(s, gaps[0]), gaps[1..])
  }

  lemma {:induction false} SnapshotsAre(s: State, gaps: seq<seq<Op>>, k: nat)
    requires ValidGaps(s, gaps) && k < |Visited(s, gaps)|
    ensures |Snapshots(s, gaps)| == |Visited(s, gaps)|
    ensures Snapshots(s, gaps)[k] == ActiveStamps(Visited(s, gaps)[k].tables, Visited(s, gaps)[k].clock)
    decreases |gaps|
  {
    hide ActiveStamps, Run, ValidRun;
    if gaps != [] { SnapshotsAre(Run(s, gaps[0]), gaps[1..], if k == 0 then 0 else k - 1); }
  }

  /** The item is there in all of these states, and has not expired in any. */
  ghost predicate UnexpiredIn(states: seq<State>, id: Id) {
    forall k :: 0 <= k < |states| ==>
      id in states[k].tables.items && states[k].clock < states[k].tables.items[id].expiresAt
  }

  ghost predicate Delivers(walk: seq<Stamp>, id: Id) { exists i :: 0 <= i < |walk| && walk[i].id == id }

  lemma WalkIsApart(s: State, gaps: seq<seq<Op>>, limit: nat, i: nat, j: nat)
    requires Inv(s) && ValidGaps(s, gaps) && 0 < limit && i < j < |Walk(Snapshots(s, gaps), None, limit)|
    ensures var walk := Walk(Snapshots(s, gaps), None, limit); walk[i].id != walk[j].id
  {
    var actives := Snapshots(s, gaps);
    var walk := Walk(actives, None, limit);
    WalkFalls(actives, None, limit);
    WalkIsActive(actives, None, limit, walk[i]);
    WalkIsActive(actives, None, limit, walk[j]);
    if walk[i].id == walk[j].id {
      var a :| 0 <= a < |actives| && walk[i] in actives[a];
      var b :| 0 <= b < |actives| && walk[j] in actives[b];
      if a <= b {
        OneStampPerItem(s, gaps, a, b, walk[i], walk[j]);
      } else {
        OneStampPerItem(s, gaps, b, a, walk[j], walk[i]);
      }
    }
  }

  lemma SomePage(actives: seq<set<Stamp>>, limit: nat)
    requires 0 < limit && Finished(actives, None, limit)
    ensures |Pages(actives, None, limit)| > 0
  {
    hide Page, NextCursor;
  }

  lemma WalkHas(s: State, gaps: seq<seq<Op>>, limit: nat, id: Id)
    requires Inv(s) && ValidGaps(s, gaps) && 0 < limit && Finished(Snapshots(s, gaps), None, limit)
    requires |Pages(Snapshots(s, gaps), None, limit)| <= |Visited(s, gaps)|
    requires UnexpiredIn(Visited(s, gaps)[..|Pages(Snapshots(s, gaps), None, limit)|], id)
    ensures Delivers(Walk(Snapshots(s, gaps), None, limit), id)
  {
    hide Inv, Snapshots, Visited, Pages, Walk, Finished, ValidGaps;
    var actives, states := Snapshots(s, gaps), Visited(s, gaps);
    SnapshotsAre(s, gaps, 0);
    SomePage(actives, limit);
    assert |Pages(actives, None, limit)| > 0;
    assert states[0].clock < states[..|Pages(actives, None, limit)|][0].tables.items[id].expiresAt;
    var x := Stamp(states[0].tables.items[id].createdAt, id);
    forall k | 0 <= k < |Pages(actives, None, limit)| ensures x in actives[k] {
      SnapshotsAre(s, gaps, k);
      assert states[k] == states[..|Pages(actives, None, limit)|][k];
      var y := Stamp(states[k].tables.items[id].createdAt, id);
      assert x in actives[0] && y in actives[k];
      OneStampPerItem(s, gaps, 0, k, x, y);
    }
    WalkIsComplete(actives, None, limit, x);
    var walk := Walk(actives, None, limit);
    var i :| 0 <= i < |walk| && walk[i] == x;
  }

  /** Creates, deletes, extensions and expiries between pages: what a page delivers is in the table and has not expired
      when the page is read, no item is delivered twice, and a finished walk has delivered every item that was there
      and unexpired at each of its requests. */
  lemma WalkOverRuns(s: State, gaps: seq<seq<Op>>, limit: nat)
    requires Inv(s) && ValidGaps(s, gaps) && 0 < limit
    ensures var states, pages := Visited(s, gaps), Pages(Snapshots(s, gaps), None, limit);
            && |pages| <= |states|
            && (forall k: nat, i: nat :: k < |pages| && i < |pages[k]| ==>
                  var x: Stamp := pages[k][i];
                  && x.id in states[k].tables.items && x.at == states[k].tables.items[x.id].createdAt
                  && states[k].clock < states[k].tables.items[x.id].expiresAt)
            && (forall i, j :: 0 <= i < j < |Concat(pages)| ==> Concat(pages)[i].id != Concat(pages)[j].id)
            && (Finished(Snapshots(s, gaps), None, limit) ==>
                  forall id :: UnexpiredIn(states[..|pages|], id) ==> Delivers(Concat(pages), id))
  {
    hide Inv, Pages, Walk, Finished, Snapshots, Visited, Concat;
    var states, actives := Visited(s, gaps), Snapshots(s, gaps);
    var pages := Pages(actives, None, limit);
    WalkIsPages(actives, None, limit);
    SnapshotsAre(s, gaps, 0);
    forall k: nat, i: nat | k < |pages| && i < |pages[k]|
      ensures var x: Stamp := pages[k][i];
              && x.id in states[k].tables.items && x.at == states[k].tables.items[x.id].createdAt
              && states[k].clock < states[k].tables.items[x.id].expiresAt
    {
      SnapshotsAre(s, gaps, k);
      PageIsActive(actives, None, limit, k, pages[k][i]);
    }
    forall i, j | 0 <= i < j < |Concat(pages)| ensures Concat(pages)[i].id != Concat(pages)[j].id {
      WalkIsApart(s, gaps, limit, i, j);
    }
    if Finished(actives, None, limit) {
      forall id | UnexpiredIn(states[..|pages|], id) ensures Delivers(Concat(pages), id) {
        WalkHas(s, gaps, limit, id);
      }
    }
  }
}
