/** Handing out one query's attachment rows to many items. */
module DropListing {
  import opened Prelude
  import opened DropState

  /** The stamps of all attachments that belong to one of the ids. */
  function StampsOfAll(t: Tables, ids: set<Id>): set<Stamp> {
    set a | a in t.attachments && t.attachments[a].itemId in ids :: Stamp(t.attachments[a].createdAt, a)
  }

  ghost predicate FromTable(t: Tables, rows: seq<Stamp>) {
    forall i :: 0 <= i < |rows| ==> rows[i].id in t.attachments
  }

  /** The rows that the scan appends to item id, in the order they arrive. */
  ghost function Appended(t: Tables, rows: seq<Stamp>, id: Id): seq<Attachment>
    requires FromTable(t, rows)
  {
    if rows == [] then []
    else
      var last := rows[|rows| - 1];
      Appended(t, rows[..|rows| - 1], id)
      + if t.attachments[last.id].itemId == id then [Attachment(last.id, t.attachments[last.id])] else []
  }

  /** The stamps among rows that belong to item id, in order. */
  ghost function Kept(t: Tables, rows: seq<Stamp>, id: Id): seq<Stamp>
    requires FromTable(t, rows)
  {
    if rows == [] then []
    else
      var last := rows[|rows| - 1];
      Kept(t, rows[..|rows| - 1], id) + if t.attachments[last.id].itemId == id then [last] else []
  }

  lemma {:induction false} AppendedIsKept(t: Tables, rows: seq<Stamp>, id: Id)
    requires FromTable(t, rows)
    ensures |Appended(t, rows, id)| == |Kept(t, rows, id)|
    ensures forall i :: 0 <= i < |Kept(t, rows, id)| ==>
              var x := Kept(t, rows, id)[i];
              x.id in t.attachments && Appended(t, rows, id)[i] == Attachment(x.id, t.attachments[x.id])
  {
    if rows != [] {
      AppendedIsKept(t, rows[..|rows| - 1], id);
    }
  }

  lemma {:induction false} KeptIs(t: Tables, rows: seq<Stamp>, id: Id)
    requires FromTable(t, rows) && Sorted(rows)
    ensures Sorted(Kept(t, rows, id))
    ensures forall x :: x in Kept(t, rows, id) <==>
              x in rows && x.id in t.attachments && t.attachments[x.id].itemId == id
  {
    if rows != [] {
      var n := |rows| - 1;
      KeptIs(t, rows[..n], id);
      assert rows == rows[..n] + [rows[n]];
      forall i | 0 <= i < |Kept(t, rows[..n], id)| ensures Before(Kept(t, rows[..n], id)[i], rows[n]) {
        assert Kept(t, rows[..n], id)[i] in rows[..n];
      }
    }
  }

  lemma {:induction false} SortedUnique(a: seq<Stamp>, b: seq<Stamp>)
    requires Sorted(a) && Sorted(b) && forall x :: x in a <==> x in b
    ensures a == b
  {
    assert forall i :: 0 <= i < |b| ==> b[i] in a;
    assert forall i :: 0 <= i < |a| ==> a[i] in b;
    if a != [] && b != [] {
      assert a[0] == b[0];
      forall x ensures x in a[1..] <==> x in b[1..] {
        if x in a[1..] { assert x in a && Before(a[0], x); }
        if x in b[1..] { assert x in b && Before(b[0], x); }
      }
      SortedUnique(a[1..], b[1..]);
    }
  }

  lemma RowsFromTable(t: Tables, ids: set<Id>)
    ensures FromTable(t, Ascending(StampsOfAll(t, ids)))
  {
    hide Ascending;
    var rows := Ascending(StampsOfAll(t, ids));
    AscendingSorts(StampsOfAll(t, ids));
    forall i | 0 <= i < |rows| ensures rows[i].id in t.attachments { assert rows[i] in Elements(rows); }
  }

  /** One row of the scan extends the list of the item it belongs to, and no other. */
  lemma AppendedStep(t: Tables, rows: seq<Stamp>, r: nat)
    requires FromTable(t, rows) && r < |rows|
    ensures FromTable(t, rows[..r]) && FromTable(t, rows[..r + 1])
    ensures var row := t.attachments[rows[r].id];
            forall id :: Appended(t, rows[..r + 1], id)
                         == Appended(t, rows[..r], id) + if row.itemId == id then [Attachment(rows[r].id, row)] else []
  {
    assert rows[..r + 1][..r] == rows[..r];
  }

  /** Scanning the sorted rows of many items gives each item the list its own query would give. */
  lemma ScanServesEachItem(t: Tables, ids: set<Id>, id: Id)
    requires id in ids
    ensures FromTable(t, Ascending(StampsOfAll(t, ids)))
    ensures Appended(t, Ascending(StampsOfAll(t, ids)), id) == AttachmentsOf(t, id)
  {
    hide Ascending;
    var rows, own := Ascending(StampsOfAll(t, ids)), Ascending(AttachmentStamps(t, id));
    AscendingSorts(StampsOfAll(t, ids));
    AscendingSorts(AttachmentStamps(t, id));
    RowsFromTable(t, ids);
    KeptIs(t, rows, id);
    forall x ensures x in Kept(t, rows, id) <==> x in own {
      assert x in rows <==> x in Elements(rows);
      assert x in own <==> x in Elements(own);
    }
    SortedUnique(Kept(t, rows, id), own);
    AppendedIsKept(t, rows, id);
  }
}
