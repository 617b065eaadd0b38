/**
 * Candidate selection for the restore submenu: the two queries over the text store.
 * The store is an in-memory sequence of records in primary-key order; its two indexes
 * (by host, by last-used time) are views computed from it. A cursor loop becomes a
 * loop over the view it walks.
 */
module FieldStore {
  import opened Strings
  import opened Sanitize
  import opened Sorting
  import opened Seqs

  /** One entry of the text store, with the fields the menu reads. */
  datatype FieldRecord = FieldRecord(pKey: nat, host: string, fieldType: string, name: string, value: string, last: int)

  /** The text store: its entries in primary-key order. */
  datatype Store = Store(records: seq<FieldRecord>)

  /** The `type` tag of a candidate: from the host query or from the last-used query. */
  datatype Kind = Hostname | Lastused

  /** A candidate for the submenu: {type, pKey, last, name, value} with the value sanitised. */
  datatype EditorField = EditorField(kind: Kind, pKey: nat, last: int, name: string, value: string)

  const INPUT_TYPE := "input"

  function AsEditorField(kind: Kind, rec: FieldRecord): EditorField
  {
    EditorField(kind, rec.pKey, rec.last, rec.name, RemoveTagsAndShorten(rec.value))
  }

  /** A record both queries may offer: not a single-line input and not blank once sanitised. */
  predicate Offerable(rec: FieldRecord)
  {
    rec.fieldType != INPUT_TYPE && RemoveTagsAndShorten(rec.value) != ""
  }

  // ---------------------------------------------------------------------------
  // getEditorFieldsByHostname

  /** The host index opened on a single key: the entries of that host in primary-key order. */
  function HostIndex(records: seq<FieldRecord>, hostname: string): (r: seq<FieldRecord>)
    ensures forall x :: x in r <==> x in records && x.host == hostname
    decreases |records|
  {
    if records == [] then []
    else (if records[0].host == hostname then [records[0]] else []) + HostIndex(records[1..], hostname)
  }

  /** What the cursor loop accumulates from the entries it has visited. */
  function HostnameItems(visited: seq<FieldRecord>): (r: seq<EditorField>)
    decreases |visited|
  {
    if visited == [] then []
    else
      var rec := visited[|visited| - 1];
      HostnameItems(visited[..|visited| - 1]) + (if Offerable(rec) then [AsEditorField(Hostname, rec)] else [])
  }

  lemma {:induction false} HostnameItemsMembers(visited: seq<FieldRecord>)
    ensures forall e :: e in HostnameItems(visited) <==>
      exists rec :: rec in visited && Offerable(rec) && e == AsEditorField(Hostname, rec)
    decreases |visited|
  {
    if visited != [] {
      var init := visited[..|visited| - 1];
      HostnameItemsMembers(init);
      assert visited == init + [visited[|visited| - 1]];
    }
  }

  /** The comparator of the host query: later `last` first, equal times by name. */
  predicate HostnameOrder(a: EditorField, b: EditorField)
  {
    a.last > b.last || (a.last == b.last && NameLe(a.name, b.name))
  }

  lemma HostnameOrderIsTotalPreorder()
    ensures TotalPreorder(HostnameOrder)
  {
    forall a, b ensures HostnameOrder(a, b) || HostnameOrder(b, a) {
      NameLeTotal(a.name, b.name);
    }
    forall a, b, c | HostnameOrder(a, b) && HostnameOrder(b, c) ensures HostnameOrder(a, c) {
      if a.last == b.last == c.last {
        NameLeTransitive(a.name, b.name, c.name);
      }
    }
  }

  /** The result of getEditorFieldsByHostname(hostname, maxItems). */
  function HostnameQuery(store: Store, hostname: string, maxItems: nat): seq<EditorField>
  {
    if hostname == "" then []
    else
      var sorted := SortBy(HostnameItems(HostIndex(store.records, hostname)), HostnameOrder);
      if |sorted| > maxItems then sorted[..maxItems] else sorted
  }

  method GetEditorFieldsByHostname(store: Store, hostname: string, maxItems: nat) returns (result: seq<EditorField>)
    ensures result == HostnameQuery(store, hostname, maxItems)
  {
    result := [];
    if hostname == "" {
      return;
    }
    var cursor := HostIndex(store.records, hostname);
    var i := 0;
    while i < |cursor|
      invariant 0 <= i <= |cursor|
      invariant result == HostnameItems(cursor[..i])
    {
      var fhcEntry := cursor[i];
      assert cursor[..i + 1][..i] == cursor[..i];
      if fhcEntry.fieldType != INPUT_TYPE {
        var value := RemoveTagsAndShorten(fhcEntry.value);
        if value != "" {
          result := result + [EditorField(Hostname, fhcEntry.pKey, fhcEntry.last, fhcEntry.name, value)];
        }
      }
      i := i + 1;
    }
    assert cursor[..i] == cursor;
    result := SortBy(result, HostnameOrder);
    if |result| > maxItems {
      result := result[..maxItems];
    }
  }

  /** Every result is an offerable record of the host, tagged 'hostname'; newest first; at most maxItems. */
  lemma HostnameQuerySound(store: Store, hostname: string, maxItems: nat)
    ensures hostname == "" ==> HostnameQuery(store, hostname, maxItems) == []
    ensures |HostnameQuery(store, hostname, maxItems)| <= maxItems
    ensures SortedBy(HostnameQuery(store, hostname, maxItems), HostnameOrder)
    ensures forall e :: e in HostnameQuery(store, hostname, maxItems) ==>
      && e.kind == Hostname && e.value != "" && |e.value| <= MAX_LENGTH_EDITFIELD_ITEM
      && exists rec :: rec in store.records && rec.host == hostname && Offerable(rec) && e == AsEditorField(Hostname, rec)
  {
    if hostname != "" {
      var items := HostnameItems(HostIndex(store.records, hostname));
      var sorted := SortBy(items, HostnameOrder);
      HostnameOrderIsTotalPreorder();
      SortBySorted(items, HostnameOrder);
      HostnameItemsMembers(HostIndex(store.records, hostname));
      forall e | e in HostnameQuery(store, hostname, maxItems) ensures e in items {
        assert e in sorted;
        assert e in multiset(sorted);
      }
    }
  }

  /**
   * Nothing better is left out: an offerable record of the host is in the result, or the
   * result is full and every item in it sorts no later than that record.
   */
  lemma HostnameQueryComplete(store: Store, hostname: string, maxItems: nat, rec: FieldRecord)
    requires hostname != "" && rec in store.records && rec.host == hostname && Offerable(rec)
    ensures var r := HostnameQuery(store, hostname, maxItems);
      || AsEditorField(Hostname, rec) in r
      || (|r| == maxItems && forall e :: e in r ==> HostnameOrder(e, AsEditorField(Hostname, rec)))
  {
    var items := HostnameItems(HostIndex(store.records, hostname));
    var sorted := SortBy(items, HostnameOrder);
    var x := AsEditorField(Hostname, rec);
    HostnameItemsMembers(HostIndex(store.records, hostname));
    assert x in items;
    assert x in multiset(sorted);
    var j :| 0 <= j < |sorted| && sorted[j] == x;
    var r := if |sorted| > maxItems then sorted[..maxItems] else sorted;
    assert HostnameQuery(store, hostname, maxItems) == r;
    if j < maxItems {
      assert r[j] == x;
    } else {
      HostnameOrderIsTotalPreorder();
      SortBySorted(items, HostnameOrder);
      PrefixPrecedes(sorted, HostnameOrder, maxItems, j);
      assert |r| == maxItems;
    }
  }

  // ---------------------------------------------------------------------------
  // getEditorFieldsByLastused

  /** Order of the `last` index walked with direction "prev": later first, then higher key first. */
  predicate LastIndexOrder(a: FieldRecord, b: FieldRecord)
  {
    a.last > b.last || (a.last == b.last && a.pKey >= b.pKey)
  }

  lemma LastIndexOrderIsTotalPreorder()
    ensures TotalPreorder(LastIndexOrder)
  {
  }

  /** The cursor openCursor(null, "prev") on the `last` index: every entry, most recent first. */
  function LastIndexDescending(store: Store): seq<FieldRecord>
  {
    SortBy(store.records, LastIndexOrder)
  }

  /** excludeItems.some(elem => elem.pKey === pKey) */
  predicate Excluded(excludeItems: seq<EditorField>, pKey: nat)
  {
    exists e :: e in excludeItems && e.pKey == pKey
  }

  /** An entry the last-used query takes: offerable, of another host, and not already listed. */
  predicate AcceptedLastused(rec: FieldRecord, hostname: string, excludeItems: seq<EditorField>)
  {
    Offerable(rec) && rec.host != hostname && !Excluded(excludeItems, rec.pKey)
  }

  /** The cursor walk: takes accepted entries in cursor order until `budget` are taken. */
  function LastusedScan(cursor: seq<FieldRecord>, hostname: string, budget: nat, excludeItems: seq<EditorField>): seq<EditorField>
    decreases |cursor|
  {
    if cursor == [] || budget == 0 then []
    else if AcceptedLastused(cursor[0], hostname, excludeItems) then
      [AsEditorField(Lastused, cursor[0])] + LastusedScan(cursor[1..], hostname, budget - 1, excludeItems)
    else LastusedScan(cursor[1..], hostname, budget, excludeItems)
  }

  /** The result of getEditorFieldsByLastused(hostname, maxItems, excludeItems). */
  function LastusedQuery(store: Store, hostname: string, maxItems: nat, excludeItems: seq<EditorField>): seq<EditorField>
  {
    LastusedScan(LastIndexDescending(store), hostname, maxItems, excludeItems)
  }

  method GetEditorFieldsByLastused(store: Store, hostname: string, maxItems: nat, excludeItems: seq<EditorField>)
    returns (result: seq<EditorField>)
    ensures result == LastusedQuery(store, hostname, maxItems, excludeItems)
  {
    var cursor := LastIndexDescending(store);
    result := WalkLastIndex(cursor, hostname, maxItems, excludeItems);
  }

  /** The cursor's onsuccess handler, called once per entry until the cursor ends or maxItems are taken. */
  method WalkLastIndex(cursor: seq<FieldRecord>, hostname: string, maxItems: nat, excludeItems: seq<EditorField>)
    returns (result: seq<EditorField>)
    ensures result == LastusedScan(cursor, hostname, maxItems, excludeItems)
  {
    result := [];
    var i := 0;
    assert cursor[0..] == cursor;
    while i < |cursor| && |result| < maxItems
      invariant 0 <= i <= |cursor|
      invariant |result| <= maxItems
      invariant result + LastusedScan(cursor[i..], hostname, maxItems - |result|, excludeItems)
        == LastusedScan(cursor, hostname, maxItems, excludeItems)
    {
      var fhcEntry := cursor[i];
      WalkStep(cursor, i, hostname, maxItems, excludeItems, result);
      if fhcEntry.fieldType != INPUT_TYPE && fhcEntry.host != hostname {
        var value := RemoveTagsAndShorten(fhcEntry.value);
        if value != "" {
          var item := EditorField(Lastused, fhcEntry.pKey, fhcEntry.last, fhcEntry.name, value);
          if !Excluded(excludeItems, item.pKey) {
            assert item == AsEditorField(Lastused, fhcEntry);
            result := result + [item];
          }
        }
      }
      i := i + 1;
    }
  }

  /** One call of the handler keeps the walk on course: what is taken plus what the rest of the walk takes is the whole walk. */
  lemma WalkStep(cursor: seq<FieldRecord>, i: nat, hostname: string, maxItems: nat, excludeItems: seq<EditorField>, result: seq<EditorField>)
    requires i < |cursor| && |result| < maxItems
    requires result + LastusedScan(cursor[i..], hostname, maxItems - |result|, excludeItems)
      == LastusedScan(cursor, hostname, maxItems, excludeItems)
    ensures AcceptedLastused(cursor[i], hostname, excludeItems) ==>
      (result + [AsEditorField(Lastused, cursor[i])]) + LastusedScan(cursor[i + 1..], hostname, maxItems - (|result| + 1), excludeItems)
        == LastusedScan(cursor, hostname, maxItems, excludeItems)
    ensures !AcceptedLastused(cursor[i], hostname, excludeItems) ==>
      result + LastusedScan(cursor[i + 1..], hostname, maxItems - |result|, excludeItems)
        == LastusedScan(cursor, hostname, maxItems, excludeItems)
  {
    assert cursor[i..][1..] == cursor[i + 1..];
    var rest := LastusedScan(cursor[i + 1..], hostname, maxItems - (|result| + 1), excludeItems);
    if AcceptedLastused(cursor[i], hostname, excludeItems) {
      MoveFront(result, [AsEditorField(Lastused, cursor[i])], rest);
    }
  }

  /** Each item is an accepted entry of the cursor, tagged 'lastused'; at most `budget` of them. */
  lemma {:induction false} LastusedScanSound(cursor: seq<FieldRecord>, hostname: string, budget: nat, excludeItems: seq<EditorField>)
    ensures |LastusedScan(cursor, hostname, budget, excludeItems)| <= budget
    ensures forall e :: e in LastusedScan(cursor, hostname, budget, excludeItems) ==>
      && e.kind == Lastused && e.value != "" && !Excluded(excludeItems, e.pKey)
      && exists rec :: rec in cursor && AcceptedLastused(rec, hostname, excludeItems) && e == AsEditorField(Lastused, rec)
    decreases |cursor|
  {
    if cursor != [] && budget != 0 {
      LastusedScanStep(cursor, hostname, budget, excludeItems);
      var b := BudgetAfterHead(cursor[0], hostname, budget, excludeItems);
      LastusedScanSound(cursor[1..], hostname, b, excludeItems);
      assert forall rec :: rec in cursor[1..] ==> rec in cursor;
      if b < budget {
        var e := AsEditorField(Lastused, cursor[0]);
        assert e.kind == Lastused && e.value != "" && !Excluded(excludeItems, e.pKey);
        assert cursor[0] in cursor;
      }
    }
  }

  /** No item is more recent than the most recent entry of the cursor. */
  lemma {:induction false} LastusedScanBelow(cursor: seq<FieldRecord>, hostname: string, budget: nat, excludeItems: seq<EditorField>, bound: int)
    requires forall i :: 0 <= i < |cursor| ==> cursor[i].last <= bound
    ensures forall e :: e in LastusedScan(cursor, hostname, budget, excludeItems) ==> e.last <= bound
    decreases |cursor|
  {
    if cursor != [] && budget != 0 {
      var b := if AcceptedLastused(cursor[0], hostname, excludeItems) then budget - 1 else budget;
      var tail := LastusedScan(cursor[1..], hostname, b, excludeItems);
      assert forall i :: 0 <= i < |cursor[1..]| ==> cursor[1..][i] == cursor[i + 1];
      LastusedScanBelow(cursor[1..], hostname, b, excludeItems, bound);
    }
  }

  /** Items by descending time of last use. */
  predicate NewestFirst(r: seq<EditorField>)
  {
    forall i, j :: 0 <= i < j < |r| ==> r[i].last >= r[j].last
  }

  /** The walk keeps the cursor's order: on a cursor by descending `last`, items come out newest first. */
  lemma {:induction false} LastusedScanOrdered(cursor: seq<FieldRecord>, hostname: string, budget: nat, excludeItems: seq<EditorField>)
    requires forall i, j :: 0 <= i < j < |cursor| ==> cursor[i].last >= cursor[j].last
    ensures NewestFirst(LastusedScan(cursor, hostname, budget, excludeItems))
    decreases |cursor|
  {
    if cursor != [] && budget != 0 {
      var b := if AcceptedLastused(cursor[0], hostname, excludeItems) then budget - 1 else budget;
      var tail := LastusedScan(cursor[1..], hostname, b, excludeItems);
      assert forall i :: 0 <= i < |cursor[1..]| ==> cursor[1..][i] == cursor[i + 1];
      LastusedScanOrdered(cursor[1..], hostname, b, excludeItems);
      LastusedScanBelow(cursor[1..], hostname, b, excludeItems, cursor[0].last);
      if AcceptedLastused(cursor[0], hostname, excludeItems) {
        var r := [AsEditorField(Lastused, cursor[0])] + tail;
        assert LastusedScan(cursor, hostname, budget, excludeItems) == r;
        forall i, j | 0 <= i < j < |r| ensures r[i].last >= r[j].last {
          assert r[j] == tail[j - 1] && tail[j - 1] in tail;
          if i > 0 {
            assert r[i] == tail[i - 1];
          }
        }
      } else {
        assert LastusedScan(cursor, hostname, budget, excludeItems) == tail;
      }
    }
  }

  /** The walk stops early only when full: short of `budget`, every accepted entry was taken. */
  lemma {:induction false} LastusedScanComplete(cursor: seq<FieldRecord>, hostname: string, budget: nat, excludeItems: seq<EditorField>)
    requires |LastusedScan(cursor, hostname, budget, excludeItems)| < budget
    ensures forall rec :: rec in cursor && AcceptedLastused(rec, hostname, excludeItems) ==>
      AsEditorField(Lastused, rec) in LastusedScan(cursor, hostname, budget, excludeItems)
    decreases |cursor|
  {
    if cursor != [] {
      assert cursor == [cursor[0]] + cursor[1..];
      if AcceptedLastused(cursor[0], hostname, excludeItems) {
        LastusedScanComplete(cursor[1..], hostname, budget - 1, excludeItems);
      } else {
        LastusedScanComplete(cursor[1..], hostname, budget, excludeItems);
      }
    }
  }

  /** A cursor by descending time of last use. */
  predicate DescendingLast(cursor: seq<FieldRecord>)
  {
    forall i, j :: 0 <= i < j < |cursor| ==> cursor[i].last >= cursor[j].last
  }

  /**
   * The rest of a descending cursor is descending; an entry other than the first lies in
   * the rest and is no more recent than the first.
   */
  lemma {:induction false} DescendingTail(cursor: seq<FieldRecord>, rec: FieldRecord)
    requires cursor != [] && DescendingLast(cursor)
    ensures DescendingLast(cursor[1..])
    ensures rec in cursor && rec != cursor[0] ==> rec in cursor[1..] && rec.last <= cursor[0].last
  {
    assert forall i :: 0 <= i < |cursor[1..]| ==> cursor[1..][i] == cursor[i + 1];
    if rec in cursor && rec != cursor[0] {
      var j :| 0 <= j < |cursor| && cursor[j] == rec;
      assert cursor[1..][j - 1] == rec;
    }
  }

  /** One handler call of the walk: the first entry is taken exactly when it is accepted. */
  lemma {:induction false} LastusedScanStep(cursor: seq<FieldRecord>, hostname: string, budget: nat, excludeItems: seq<EditorField>)
    requires cursor != [] && budget > 0
    ensures AcceptedLastused(cursor[0], hostname, excludeItems) ==>
      LastusedScan(cursor, hostname, budget, excludeItems)
        == [AsEditorField(Lastused, cursor[0])] + LastusedScan(cursor[1..], hostname, budget - 1, excludeItems)
    ensures !AcceptedLastused(cursor[0], hostname, excludeItems) ==>
      LastusedScan(cursor, hostname, budget, excludeItems) == LastusedScan(cursor[1..], hostname, budget, excludeItems)
  {
  }

  /** The budget left for the rest of the cursor once the first entry has been handled. */
  function BudgetAfterHead(head: FieldRecord, hostname: string, budget: nat, excludeItems: seq<EditorField>): (b: nat)
    requires budget > 0
    ensures b == budget || b + 1 == budget
    ensures b < budget <==> AcceptedLastused(head, hostname, excludeItems)
  {
    if AcceptedLastused(head, hostname, excludeItems) then budget - 1 else budget
  }

  /** An accepted entry left out of the walk, other than the first, is left out of the walk over the rest. */
  lemma {:induction false} SkippedInTail(cursor: seq<FieldRecord>, hostname: string, budget: nat, excludeItems: seq<EditorField>, rec: FieldRecord)
    requires cursor != [] && budget > 0 && DescendingLast(cursor)
    requires rec in cursor && AcceptedLastused(rec, hostname, excludeItems)
    requires AsEditorField(Lastused, rec) !in LastusedScan(cursor, hostname, budget, excludeItems)
    ensures DescendingLast(cursor[1..]) && rec in cursor[1..] && rec.last <= cursor[0].last
    ensures AsEditorField(Lastused, rec)
      !in LastusedScan(cursor[1..], hostname, BudgetAfterHead(cursor[0], hostname, budget, excludeItems), excludeItems)
  {
    LastusedScanStep(cursor, hostname, budget, excludeItems);
    assert rec != cursor[0];
    DescendingTail(cursor, rec);
  }

  /** A full walk over the rest, ending no later than an entry, makes the whole walk full and ending no later. */
  lemma {:induction false} FullFromTail(cursor: seq<FieldRecord>, hostname: string, budget: nat, excludeItems: seq<EditorField>, last: int)
    requires cursor != [] && budget > 0 && last <= cursor[0].last
    requires var b := BudgetAfterHead(cursor[0], hostname, budget, excludeItems);
      var tail := LastusedScan(cursor[1..], hostname, b, excludeItems);
      |tail| == b && (b > 0 ==> last <= tail[b - 1].last)
    ensures |LastusedScan(cursor, hostname, budget, excludeItems)| == budget
    ensures last <= LastusedScan(cursor, hostname, budget, excludeItems)[budget - 1].last
  {
    LastusedScanStep(cursor, hostname, budget, excludeItems);
    var b := BudgetAfterHead(cursor[0], hostname, budget, excludeItems);
    var tail := LastusedScan(cursor[1..], hostname, b, excludeItems);
    if b < budget {
      var r := [AsEditorField(Lastused, cursor[0])] + tail;
      if b > 0 {
        assert r[budget - 1] == tail[b - 1];
      } else {
        assert r[budget - 1] == AsEditorField(Lastused, cursor[0]);
      }
    }
  }

  /**
   * An accepted entry the walk leaves out was cut by the early stop: the result is full and,
   * on a descending cursor, the entry is no more recent than the last item taken.
   */
  lemma {:induction false} LastusedScanSkippedOne(cursor: seq<FieldRecord>, hostname: string, budget: nat, excludeItems: seq<EditorField>, rec: FieldRecord)
    requires DescendingLast(cursor)
    requires rec in cursor && AcceptedLastused(rec, hostname, excludeItems)
    requires AsEditorField(Lastused, rec) !in LastusedScan(cursor, hostname, budget, excludeItems)
    ensures |LastusedScan(cursor, hostname, budget, excludeItems)| == budget
    ensures budget > 0 ==> rec.last <= LastusedScan(cursor, hostname, budget, excludeItems)[budget - 1].last
    decreases |cursor|
  {
    if budget != 0 {
      SkippedInTail(cursor, hostname, budget, excludeItems, rec);
      var b := BudgetAfterHead(cursor[0], hostname, budget, excludeItems);
      LastusedScanSkippedOne(cursor[1..], hostname, b, excludeItems, rec);
      FullFromTail(cursor, hostname, budget, excludeItems, rec.last);
    }
  }

  /** Every accepted entry the walk leaves out was cut by the early stop (see LastusedScanSkippedOne). */
  lemma {:induction false} LastusedScanSkipped(cursor: seq<FieldRecord>, hostname: string, budget: nat, excludeItems: seq<EditorField>)
    requires DescendingLast(cursor)
    ensures forall rec ::
      (rec in cursor && AcceptedLastused(rec, hostname, excludeItems)
       && AsEditorField(Lastused, rec) !in LastusedScan(cursor, hostname, budget, excludeItems)) ==>
      && |LastusedScan(cursor, hostname, budget, excludeItems)| == budget
      && (budget > 0 ==> rec.last <= LastusedScan(cursor, hostname, budget, excludeItems)[budget - 1].last)
  {
    forall rec | rec in cursor && AcceptedLastused(rec, hostname, excludeItems)
        && AsEditorField(Lastused, rec) !in LastusedScan(cursor, hostname, budget, excludeItems)
      ensures |LastusedScan(cursor, hostname, budget, excludeItems)| == budget
      ensures budget > 0 ==> rec.last <= LastusedScan(cursor, hostname, budget, excludeItems)[budget - 1].last
    {
      LastusedScanSkippedOne(cursor, hostname, budget, excludeItems, rec);
    }
  }

  /**
   * The last-used query: at most maxItems items, each an offerable entry of another host
   * whose key is not excluded, newest first; short of maxItems only when nothing else qualifies,
   * and an accepted entry left out is no more recent than the last item of the full result.
   */
  lemma LastusedQueryProperties(store: Store, hostname: string, maxItems: nat, excludeItems: seq<EditorField>)
    ensures var r := LastusedQuery(store, hostname, maxItems, excludeItems);
      && |r| <= maxItems
      && (forall i, j :: 0 <= i < j < |r| ==> r[i].last >= r[j].last)
      && (forall e :: e in r ==>
            && e.kind == Lastused && e.value != "" && !Excluded(excludeItems, e.pKey)
            && exists rec :: rec in store.records && AcceptedLastused(rec, hostname, excludeItems) && e == AsEditorField(Lastused, rec))
      && (|r| < maxItems ==>
            forall rec :: rec in store.records && AcceptedLastused(rec, hostname, excludeItems) ==> AsEditorField(Lastused, rec) in r)
      && (forall rec :: rec in store.records && AcceptedLastused(rec, hostname, excludeItems) && AsEditorField(Lastused, rec) !in r ==>
            |r| == maxItems && (maxItems > 0 ==> rec.last <= r[maxItems - 1].last))
  {
    var cursor := LastIndexDescending(store);
    LastIndexOrderIsTotalPreorder();
    SortBySorted(store.records, LastIndexOrder);
    assert forall x :: x in cursor <==> x in store.records by {
      forall x ensures x in cursor <==> x in store.records {
        assert x in cursor <==> x in multiset(cursor);
        assert x in store.records <==> x in multiset(store.records);
      }
    }
    LastusedScanSound(cursor, hostname, maxItems, excludeItems);
    LastusedScanOrdered(cursor, hostname, maxItems, excludeItems);
    if |LastusedQuery(store, hostname, maxItems, excludeItems)| < maxItems {
      LastusedScanComplete(cursor, hostname, maxItems, excludeItems);
    }
    LastusedScanSkipped(cursor, hostname, maxItems, excludeItems);
  }
}
