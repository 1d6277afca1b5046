/**
 What one visit of a board source leaves in the rows (apps/worker/src/jira-promote.service.ts): which rows appear, where
 the removed flag of every row ends up, and what a row that is marked deleted must have met, told of the payload, the
 filters of the source and the options of the run alone.
 */
module JiraRemoval {
  import opened Wrappers
  import opened JiraDeletion

  /** The type a row of this item would have. */
  function TypeOf(item: Item): string {
    if item.epic then "Epic" else item.jiraType
  }

  /** The board takes this item in: its project, an allowed type, not excluded, and let through by the query filter. */
  ghost predicate Wanted(s: Source, item: Item) {
    && item.projectKey == s.place.projectKey && TypeOf(item) in s.allowedTypes
    && !(!item.epic && item.jiraType == "Epic")
    && item.key !in s.excludedKeys && (s.allowedKeys.Some? ==> item.key in s.allowedKeys.value)
  }

  /** Some item with this key is wanted. */
  ghost predicate WantedKey(s: Source, payload: seq<Item>, key: string) {
    exists i :: 0 <= i < |payload| && payload[i].key == key && Wanted(s, payload[i])
  }

  lemma SeenIsWanted(s: Source, payload: seq<Item>, key: string)
    ensures key in SeenKeys(payload, s) <==> WantedKey(s, payload, key)
  {
    forall i | 0 <= i < |payload| ensures Promotable(payload[i], s) <==> Wanted(s, payload[i]) {
    }
  }

  predicate IsRow(row: Row, place: Place, key: string) {
    row.place == place && row.jiraKey == Some(key)
  }

  /** No two rows of a board have one key. */
  ghost predicate UniqueKeys(rows: seq<Row>) {
    forall i, j :: 0 <= i < j < |rows| && rows[i].jiraKey.Some? && rows[i].place == rows[j].place ==>
      rows[i].jiraKey != rows[j].jiraKey
  }

  lemma {:induction false} FindExactly(rows: seq<Row>, n: nat, place: Place, key: string)
    requires n <= |rows|
    ensures Find(rows, n, place, key).None? <==> forall i :: 0 <= i < n ==> !IsRow(rows[i], place, key)
  {
    if n > 0 { FindExactly(rows, n - 1, place, key); }
  }

  // ---- The upserts ----

  /** What the upserts of these items have done: the rows they name are back on the board, or are new. */
  ghost predicate Upserted(rows: seq<Row>, s: Source, items: seq<Item>, z: seq<Row>) {
    && Preserves(rows, z) && UniqueKeys(z)
    && (forall i :: 0 <= i < |rows| ==>
          z[i].removed == (rows[i].removed && !(rows[i].place == s.place && rows[i].jiraKey.Some?
                                                && WantedKey(s, items, rows[i].jiraKey.value))))
    && (forall i :: |rows| <= i < |z| ==> z[i].place == s.place && !z[i].removed && IsItem(s, items, z[i]))
    && (forall key :: WantedKey(s, items, key) ==> HasRow(z, s.place, key))
  }

  ghost predicate HasRow(rows: seq<Row>, place: Place, key: string) {
    exists i :: 0 <= i < |rows| && IsRow(rows[i], place, key)
  }

  /** The row stems from one of the items that are wanted. */
  ghost predicate IsItem(s: Source, items: seq<Item>, row: Row) {
    exists i :: 0 <= i < |items| && Wanted(s, items[i])
      && row.jiraKey == Some(items[i].key) && row.jiraType == TypeOf(items[i])
  }

  lemma WantedMore(s: Source, items: seq<Item>, item: Item)
    ensures forall key :: WantedKey(s, items + [item], key) <==>
                            WantedKey(s, items, key) || (item.key == key && Wanted(s, item))
    ensures forall row :: IsItem(s, items, row) ==> IsItem(s, items + [item], row)
  {
    var z := items + [item];
    hide Wanted, TypeOf;
    forall key ensures WantedKey(s, z, key) <==> WantedKey(s, items, key) || (item.key == key && Wanted(s, item)) {
      if WantedKey(s, items, key) {
        var i :| 0 <= i < |items| && items[i].key == key && Wanted(s, items[i]);
        assert z[i] == items[i];
      }
      if item.key == key && Wanted(s, item) { assert z[|items|] == item; }
    }
    forall row | IsItem(s, items, row) ensures IsItem(s, z, row) {
      var i :| 0 <= i < |items| && Wanted(s, items[i]) && row.jiraKey == Some(items[i].key)
        && row.jiraType == TypeOf(items[i]);
      assert z[i] == items[i];
    }
  }

  lemma UpsertedSkips(rows: seq<Row>, s: Source, items: seq<Item>, item: Item, z: seq<Row>)
    requires Upserted(rows, s, items, z) && !Wanted(s, item)
    ensures Upserted(rows, s, items + [item], z)
  {
    WantedMore(s, items, item);
    hide Wanted, WantedKey, IsItem, Preserves, UniqueKeys, HasRow;
  }

  lemma HasRowMore(y: seq<Row>, z: seq<Row>, place: Place, key: string)
    requires HasRow(y, place, key) && |y| <= |z|
    requires forall i :: 0 <= i < |y| ==> z[i].place == y[i].place && z[i].jiraKey == y[i].jiraKey
    ensures HasRow(z, place, key)
  {
    var i :| 0 <= i < |y| && IsRow(y[i], place, key);
    assert IsRow(z[i], place, key);
  }

  lemma UpsertedUpdates(rows: seq<Row>, s: Source, items: seq<Item>, item: Item, y: seq<Row>, k: nat)
    requires Upserted(rows, s, items, y) && Wanted(s, item)
    requires k < |rows| && IsRow(y[k], s.place, item.key)
    ensures Upserted(rows, s, items + [item], y[k := y[k].(removed := false)])
  {
    var z := y[k := y[k].(removed := false)];
    WantedMore(s, items, item);
    assert Preserves(rows, z);
    assert HasRow(z, s.place, item.key) by { assert IsRow(z[k], s.place, item.key); }
    forall key | HasRow(y, s.place, key) ensures HasRow(z, s.place, key) { HasRowMore(y, z, s.place, key); }
    hide Wanted, WantedKey, IsItem, HasRow;
    forall i | 0 <= i < |rows| && i != k ensures !IsRow(rows[i], s.place, item.key) {
      assert y[i].jiraKey == rows[i].jiraKey && y[i].place == rows[i].place;
    }
  }

  lemma UpsertedCreates(rows: seq<Row>, s: Source, items: seq<Item>, item: Item, y: seq<Row>, row: Row)
    requires Upserted(rows, s, items, y) && Wanted(s, item)
    requires forall i :: 0 <= i < |y| ==> !IsRow(y[i], s.place, item.key)
    requires row == Row(s.place, Some(item.key), TypeOf(item), false, None, None)
    ensures Upserted(rows, s, items + [item], y + [row])
  {
    var z, all := y + [row], items + [item];
    WantedMore(s, items, item);
    assert IsItem(s, all, row) by { assert all[|items|] == item; }
    assert Preserves(rows, z);
    assert UniqueKeys(z);
    assert HasRow(z, s.place, item.key) by { assert IsRow(z[|y|], s.place, item.key); }
    forall key | HasRow(y, s.place, key) ensures HasRow(z, s.place, key) { HasRowMore(y, z, s.place, key); }
    hide Wanted, WantedKey, IsItem, HasRow, TypeOf;
    forall i | 0 <= i < |rows| ensures !IsRow(rows[i], s.place, item.key) {
      assert !IsRow(y[i], s.place, item.key);
    }
  }

  lemma {:induction false} UpsertsExactly(rows: seq<Row>, s: Source, items: seq<Item>)
    requires UniqueKeys(rows) && PromoteItems(rows, items, s).ok
    ensures Upserted(rows, s, items, PromoteItems(rows, items, s).rows)
  {
    if items != [] {
      var init, item := items[..|items| - 1], items[|items| - 1];
      var y := PromoteItems(rows, init, s);
      assert items == init + [item];
      UpsertsExactly(rows, s, init);
      assert Promotable(item, s) <==> Wanted(s, item);
      if !Promotable(item, s) {
        UpsertedSkips(rows, s, init, item, y.rows);
      } else {
        FindExactly(y.rows, |y.rows|, s.place, item.key);
        var k := Find(y.rows, |rows|, s.place, item.key);
        hide Upserted, Wanted, Promotable, Find;
        if k.Some? {
          UpsertedUpdates(rows, s, init, item, y.rows, k.value);
        } else {
          UpsertedCreates(rows, s, init, item, y.rows, Row(s.place, Some(item.key), TypeOf(item), false, None, None));
        }
      }
    }
  }

  // ---- A whole visit ----

  /** A visit that is neither skipped nor withheld because the fetch came back empty, and that nothing cuts short. */
  ghost predicate Undisturbed(rows: seq<Row>, s: Source, payload: seq<Item>, o: Options) {
    && !s.skipped && VisitSource(rows, s, payload, o).ok
    && !((forall i :: 0 <= i < |payload| ==> payload[i].projectKey != s.place.projectKey)
         && exists i :: 0 <= i < |rows| && rows[i].place == s.place)
  }

  lemma {:induction false} NoRowNoId(rows: seq<Row>, n: nat, place: Place)
    requires n <= |rows| && forall i :: 0 <= i < n ==> rows[i].place != place
    ensures ExistingBelow(rows, n, place) == []
  {
    if n > 0 { NoRowNoId(rows, n - 1, place); }
  }

  lemma NotEmptyHanded(rows: seq<Row>, s: Source, payload: seq<Item>, o: Options)
    requires Undisturbed(rows, s, payload, o)
    ensures !(PayloadKeys(payload, s.place.projectKey) == {} && Existing(rows, s.place) != [])
  {
    var keys, ids := PayloadKeys(payload, s.place.projectKey), Existing(rows, s.place);
    if i :| 0 <= i < |payload| && payload[i].projectKey == s.place.projectKey {
      assert payload[i].key in keys;
    } else {
      NoRowNoId(rows, |rows|, s.place);
    }
  }

  /**
   Where an undisturbed visit leaves the removed flag of every row that was there: up on a row marked deleted; on any
   other row of the board it is down when the board still takes in an item of its key, up when it does not and the
   row's type is one the source governs, and as it was otherwise. Rows of other boards keep theirs.
   */
  lemma RemovedFlagsExactly(rows: seq<Row>, s: Source, payload: seq<Item>, o: Options, i: nat)
    requires UniqueKeys(rows) && Undisturbed(rows, s, payload, o) && i < |rows|
    ensures var v, row := VisitSource(rows, s, payload, o), rows[i];
            && i < |v.rows|
            && v.rows[i].removed ==
               if exists t :: t in v.marked && t.id == i then true
               else if row.place != s.place || row.jiraKey.None? then row.removed
               else if WantedKey(s, payload, row.jiraKey.value) then false
               else row.jiraType in s.allowedTypes || row.removed
  {
    var v, row := VisitSource(rows, s, payload, o), rows[i];
    NotEmptyHanded(rows, s, payload, o);
    var up := PromoteItems(rows, payload, s).rows;
    UpsertsExactly(rows, s, payload);
    SweepPreserves(rows, s, payload);
    var swept := MarkRemoved(up, s, SeenKeys(payload, s));
    MarkDeletedRows(swept, v.marked, o.now);
    if row.jiraKey.Some? { SeenIsWanted(s, payload, row.jiraKey.value); }
    assert v.rows == MarkDeleted(swept, v.marked, o.now);
    hide VisitSource, WantedKey, IsItem, HasRow, UniqueKeys, MarkDeleted, SeenKeys, PromoteItems, Undisturbed;
    assert swept[i].removed == (DropsOut(up[i], s, SeenKeys(payload, s)) || up[i].removed);
  }

  /**
   Which rows an undisturbed visit adds: each new one is of an item the board takes in, with its key and type; and
   every such item has a row afterwards.
   */
  lemma NewRowsExactly(rows: seq<Row>, s: Source, payload: seq<Item>, o: Options)
    requires UniqueKeys(rows) && Undisturbed(rows, s, payload, o)
    ensures var z := VisitSource(rows, s, payload, o).rows;
            && (forall i :: |rows| <= i < |z| ==>
                  z[i].place == s.place && !z[i].removed && z[i].deletedAt.None? && IsItem(s, payload, z[i]))
            && (forall key :: WantedKey(s, payload, key) ==> HasRow(z, s.place, key))
  {
    var v := VisitSource(rows, s, payload, o);
    NotEmptyHanded(rows, s, payload, o);
    var up := PromoteItems(rows, payload, s).rows;
    UpsertsExactly(rows, s, payload);
    SweepPreserves(rows, s, payload);
    var swept := MarkRemoved(up, s, SeenKeys(payload, s));
    var z := v.rows;
    MarkDeletedRows(swept, v.marked, o.now);
    MarkedAreOld(rows, s, payload, o);
    assert z == MarkDeleted(swept, v.marked, o.now);
    forall i | |rows| <= i < |up| ensures !DropsOut(up[i], s, SeenKeys(payload, s)) { NewIsSeen(s, payload, up[i]); }
    forall key | HasRow(up, s.place, key) ensures HasRow(z, s.place, key) { HasRowMore(up, z, s.place, key); }
    hide VisitSource, WantedKey, HasRow, UniqueKeys, MarkDeleted, SeenKeys, PromoteItems, Undisturbed, DropsOut;
    forall i | |rows| <= i < |z| ensures z[i] == up[i] {
    }
  }

  lemma NewIsSeen(s: Source, payload: seq<Item>, row: Row)
    requires IsItem(s, payload, row)
    ensures row.jiraKey.Some? && row.jiraKey.value in SeenKeys(payload, s)
  {
    SeenIsWanted(s, payload, row.jiraKey.value);
    hide Wanted, SeenKeys;
  }

  lemma MarkedAreOld(rows: seq<Row>, s: Source, payload: seq<Item>, o: Options)
    ensures forall t :: t in VisitSource(rows, s, payload, o).marked ==> t.id < |rows|
  {
    var v := VisitSource(rows, s, payload, o);
    hide Confirmed, MarkRemoved, PromoteItems, Outstanding, Justifies;
    forall t | t in v.marked ensures t.id < |rows| { ConfirmedJustified(rows, s, payload, o, t); }
  }

  /**
   What a row must have met to be marked deleted by a visit, disturbed or not: its own board and connection were in
   scope, the fetch brought something of its project but no item of its key, and its probe said deleted.
   */
  lemma DeletedIsAbsentAndProbed(rows: seq<Row>, s: Source, payload: seq<Item>, o: Options, i: nat)
    requires i < |rows| && rows[i].deletedAt.None?
    requires i < |VisitSource(rows, s, payload, o).rows| && VisitSource(rows, s, payload, o).rows[i].deletedAt.Some?
    ensures !s.skipped && s.instanceId == o.instanceId && rows[i].place == s.place && rows[i].jiraKey.Some?
    ensures o.syncedProjectKeys.Some? ==> s.place.projectKey in o.syncedProjectKeys.value
    ensures exists j :: 0 <= j < |payload| && payload[j].projectKey == s.place.projectKey
    ensures forall j :: 0 <= j < |payload| && payload[j].projectKey == s.place.projectKey ==>
              payload[j].key != rows[i].jiraKey.value
    ensures o.verify.Some? && rows[i].jiraKey.value in o.verify.value
    ensures o.verify.value[rows[i].jiraKey.value] == Deleted
  {
    VisitMoves(rows, s, payload, o);
    var z := VisitSource(rows, s, payload, o).rows;
    assert !WasDeleted(rows, i) && Justified(z[i], [s], payload, o);
    hide VisitSource;
    assert Justifies(s, z[i], payload, o);
  }

  /** The row was deleted in Jira: the fetch has no item of its key, and its probe says so. */
  ghost predicate IsGone(row: Row, s: Source, payload: seq<Item>, o: Options) {
    && row.place == s.place && row.jiraKey.Some?
    && (forall j :: 0 <= j < |payload| && payload[j].projectKey == s.place.projectKey ==>
          payload[j].key != row.jiraKey.value)
    && o.verify.Some? && row.jiraKey.value in o.verify.value && o.verify.value[row.jiraKey.value] == Deleted
  }

  /** Few enough candidates that all are probed, and that no cap on deletions can apply. */
  predicate FewCandidates(rows: seq<Row>, s: Source, payload: seq<Item>, o: Options) {
    var n := |Candidates(rows, Existing(rows, s.place), PayloadKeys(payload, s.place.projectKey))|;
    n <= MAX_DELETION_PROBES_PER_RUN && (o.allowMassDeletion || n < MASS_DELETION_FLOOR)
  }

  lemma GoneIsConfirmed(rows: seq<Row>, s: Source, payload: seq<Item>, o: Options, i: nat)
    requires i < |rows| && rows[i].deletedAt.None? && IsGone(rows[i], s, payload, o)
    requires FewCandidates(rows, s, payload, o)
    ensures Target(i, rows[i].jiraKey.value)
            in Confirmed(rows, Existing(rows, s.place), PayloadKeys(payload, s.place.projectKey), o)
  {
    var ids, keys := Existing(rows, s.place), PayloadKeys(payload, s.place.projectKey);
    assert i in ids && rows[i].jiraKey.value !in keys;
    hide Confirmed, Candidates, Existing, PayloadKeys;
    ConfirmedIsComplete(rows, ids, keys, o, Target(i, rows[i].jiraKey.value));
  }

  /** Nothing is overlooked: with few enough candidates, every row that was deleted in Jira is marked by the visit. */
  lemma DeletedRowsAreFound(rows: seq<Row>, s: Source, payload: seq<Item>, o: Options, i: nat)
    requires Undisturbed(rows, s, payload, o) && InDeletionScope(s, o) && FewCandidates(rows, s, payload, o)
    requires i < |rows| && rows[i].deletedAt.None? && IsGone(rows[i], s, payload, o)
    ensures i < |VisitSource(rows, s, payload, o).rows|
    ensures VisitSource(rows, s, payload, o).rows[i].deletedAt.Some? && VisitSource(rows, s, payload, o).rows[i].removed
  {
    GoneIsConfirmed(rows, s, payload, o, i);
    NotEmptyHanded(rows, s, payload, o);
    assert !s.skipped && VisitSource(rows, s, payload, o).ok;
    hide *;
    ConfirmedIsMarked(rows, s, payload, o, Target(i, rows[i].jiraKey.value));
  }

  lemma ConfirmedIsMarked(rows: seq<Row>, s: Source, payload: seq<Item>, o: Options, t: Target)
    requires !s.skipped && InDeletionScope(s, o) && VisitSource(rows, s, payload, o).ok
    requires var ids, keys := Existing(rows, s.place), PayloadKeys(payload, s.place.projectKey);
             !(keys == {} && ids != []) && t in Confirmed(rows, ids, keys, o)
    requires t.id < |rows|
    ensures var z := VisitSource(rows, s, payload, o).rows;
            t.id < |z| && z[t.id].deletedAt.Some? && z[t.id].removed
  {
    var v := VisitSource(rows, s, payload, o);
    var swept := MarkRemoved(PromoteItems(rows, payload, s).rows, s, SeenKeys(payload, s));
    SweepPreserves(rows, s, payload);
    MarkDeletedRows(swept, v.marked, o.now);
    hide Confirmed, MarkRemoved, PromoteItems, Outstanding, MarkDeleted, SeenKeys, Existing, PayloadKeys;
    assert t in v.marked && v.rows == MarkDeleted(swept, v.marked, o.now);
  }

  /** `a` is the beginning of `b`, or has the smaller character where they first differ. */
  ghost predicate NotAfter(a: string, b: string) {
    || a <= b
    || exists i :: 0 <= i < |a| && i < |b| && a[..i] == b[..i] && a[i] < b[i]
  }

  /** Candidates are probed in the order of their keys, character by character. */
  lemma {:induction false} KeysInOrder(a: string, b: string)
    ensures KeyLeq(a, b) <==> NotAfter(a, b)
    decreases |a|
  {
    if a != "" && b != "" {
      if a[0] == b[0] {
        KeysInOrder(a[1..], b[1..]);
        NotAfterTails(a, b);
        hide NotAfter;
      } else if a[0] < b[0] {
        assert a[..0] == b[..0];
      } else {
        forall i | 0 < i < |a| && i < |b| ensures a[..i] != b[..i] { assert a[..i][0] != b[..i][0]; }
      }
    }
  }

  lemma NotAfterTails(a: string, b: string)
    requires a != "" && b != "" && a[0] == b[0]
    ensures NotAfter(a, b) <==> NotAfter(a[1..], b[1..])
  {
    assert a == [a[0]] + a[1..] && b == [b[0]] + b[1..];
    if i :| 0 <= i < |a| && i < |b| && a[..i] == b[..i] && a[i] < b[i] {
      assert a[1..][..i - 1] == a[..i][1..] && b[1..][..i - 1] == b[..i][1..];
      assert a[1..][i - 1] == a[i];
    }
    if i :| 0 <= i < |a[1..]| && i < |b[1..]| && a[1..][..i] == b[1..][..i] && a[1..][i] < b[1..][i] {
      assert a[..i + 1] == [a[0]] + a[1..][..i] && b[..i + 1] == [b[0]] + b[1..][..i];
      assert a[i + 1] == a[1..][i] && b[i + 1] == b[1..][i];
    }
  }

  // ---- The purge list ----

  predicate Lists(targets: seq<Target>, i: nat) {
    exists t :: t in targets && t.id == i
  }

  /**
   Which rows a visit that goes through hands to the purge: those it has just marked deleted, and those that an earlier
   run did and whose purge is not recorded, if the source is in scope; a row whose purge is recorded never again.
   */
  lemma TargetsExactly(rows: seq<Row>, s: Source, payload: seq<Item>, o: Options, i: nat)
    requires i < |rows| && VisitSource(rows, s, payload, o).ok
    ensures var v, row := VisitSource(rows, s, payload, o), rows[i];
            && i < |v.rows|
            && (Lists(v.targets, i) <==>
                || (!s.skipped && InDeletionScope(s, o) && row.place == s.place
                    && row.jiraKey.Some? && row.jiraKey.value != "" && row.deletedAt.Some? && row.purgedAt.None?)
                || (row.deletedAt.None? && v.rows[i].deletedAt.Some?))
  {
    var v := VisitSource(rows, s, payload, o);
    var ids := Existing(rows, s.place);
    VisitMoves(rows, s, payload, o);
    OutstandingMembers(rows, ids);
    if rows[i].deletedAt.None? { VisitMarksExactly(rows, s, payload, o, i); }
    MarkedWereThere(rows, s, payload, o);
    assert i in ids <==> rows[i].place == s.place;
    var outstanding := if InDeletionScope(s, o) && !s.skipped then Outstanding(rows, ids) else [];
    TargetsAre(rows, s, payload, o);
    hide VisitSource, Outstanding, Moves, Existing, SyncedRows, Confirmed, PayloadKeys;
    if i in ids && Unpurged(rows[i]) && InDeletionScope(s, o) && !s.skipped {
      assert Target(i, rows[i].jiraKey.value) in outstanding;
    }
  }

  lemma TargetsAre(rows: seq<Row>, s: Source, payload: seq<Item>, o: Options)
    requires VisitSource(rows, s, payload, o).ok
    ensures var v := VisitSource(rows, s, payload, o);
            var outstanding := Outstanding(rows, Existing(rows, s.place));
            v.targets == (if InDeletionScope(s, o) && !s.skipped then outstanding else []) + v.marked
  {
    hide Confirmed, MarkRemoved, PromoteItems, Outstanding, MarkDeleted, Existing, SeenKeys;
  }

  lemma MarkedWereThere(rows: seq<Row>, s: Source, payload: seq<Item>, o: Options)
    ensures forall t :: t in VisitSource(rows, s, payload, o).marked ==> t.id < |rows| && rows[t.id].deletedAt.None?
  {
    var v := VisitSource(rows, s, payload, o);
    hide Confirmed, MarkRemoved, PromoteItems, Outstanding, Justifies;
    forall t | t in v.marked ensures t.id < |rows| && rows[t.id].deletedAt.None? {
      ConfirmedJustified(rows, s, payload, o, t);
    }
  }

  /** Only deleted rows are stamped. */
  ghost predicate StampedAreDeleted(rows: seq<Row>) {
    forall i :: 0 <= i < |rows| && rows[i].purgedAt.Some? ==> rows[i].deletedAt.Some?
  }

  predicate Due(rows: seq<Row>, t: Target) {
    t.id < |rows| && rows[t.id].deletedAt.Some? && rows[t.id].purgedAt.None?
  }

  lemma VisitTargetsDue(rows: seq<Row>, s: Source, payload: seq<Item>, o: Options)
    requires StampedAreDeleted(rows) && VisitSource(rows, s, payload, o).ok
    ensures var v := VisitSource(rows, s, payload, o);
            |rows| <= |v.rows| && StampedAreDeleted(v.rows) && forall t :: t in v.targets ==> Due(v.rows, t)
    ensures forall t :: Due(rows, t) ==> Due(VisitSource(rows, s, payload, o).rows, t)
  {
    var v := VisitSource(rows, s, payload, o);
    VisitMoves(rows, s, payload, o);
    VisitTargets(rows, s, payload, o);
    hide VisitSource, Justified;
    forall t | t in v.targets ensures Due(v.rows, t) {
      assert GoodTarget(v.rows, t);
      if t.id < |rows| {
        assert Lists(v.targets, t.id);
        TargetsExactly(rows, s, payload, o, t.id);
      }
    }
  }

  /** Whatever a run hands to its purge is deleted, and is not a row whose purge is already recorded. */
  lemma {:induction false} RunTargetsDue(rows: seq<Row>, sources: seq<Source>, payload: seq<Item>, o: Options)
    requires StampedAreDeleted(rows) && VisitAll(rows, sources, payload, o).2
    ensures var (z, targets, ok) := VisitAll(rows, sources, payload, o);
            |rows| <= |z| && StampedAreDeleted(z) && forall t :: t in targets ==> Due(z, t)
  {
    if sources != [] {
      var init, s := sources[..|sources| - 1], sources[|sources| - 1];
      RunTargetsDue(rows, init, payload, o);
      VisitTargetsDue(VisitAll(rows, init, payload, o).0, s, payload, o);
      hide VisitSource, StampedAreDeleted, Due;
    }
  }

  /**
   How a run's purge can end: nothing was listed or no purge is configured, or it failed, and nothing is recorded; it
   went through but recording it failed, and the rows stay outstanding; or exactly the listed rows are stamped.
   */
  lemma PurgeEndsExactly(d: Store, targets: seq<Target>, o: Options)
    ensures var z := PurgeAnalytics(d, targets, o);
            var through := targets != [] && (o.purge.StampThrows? || o.purge.PurgeDone?);
            && (forall key :: key in z.purged <==>
                                key in d.purged || (through && exists t :: t in targets && t.jiraKey == key))
            && |z.rows| == |d.rows|
            && (forall i :: 0 <= i < |d.rows| ==>
                  z.rows[i] == if through && o.purge.PurgeDone? && Lists(targets, i)
                               then d.rows[i].(purgedAt := Some(o.now)) else d.rows[i])
  {
  }

  /** A run that a throw ends before its purge leaves every stamp and every record of a purge as it was. */
  lemma ThrowingRunPurgesNothing(d: Store, r: Run)
    requires !VisitAll(d.rows, r.sources, r.payload, r.options).2
    ensures var z := PromoteAll(d, r);
            && z.purged == d.purged && |d.rows| <= |z.rows|
            && forall i :: 0 <= i < |d.rows| ==> z.rows[i].purgedAt == d.rows[i].purgedAt
  {
    RunMoves(d.rows, r.sources, r.payload, r.options);
    hide VisitAll, Justified;
  }

  /** Where an upsert throws, the visit ends there: the items before it had their effect, and nothing else is done. */
  lemma ThrowKeepsEarlierUpserts(rows: seq<Row>, s: Source, payload: seq<Item>, o: Options, k: nat)
    requires UniqueKeys(rows) && !s.skipped && k < |payload|
    requires exists i :: 0 <= i < |payload| && payload[i].projectKey == s.place.projectKey
    requires PromoteItems(rows, payload[..k], s).ok && !PromoteItems(rows, payload[..k + 1], s).ok
    ensures var v := VisitSource(rows, s, payload, o);
            !v.ok && v.targets == [] && v.marked == [] && Upserted(rows, s, payload[..k], v.rows)
  {
    UpsertsExactly(rows, s, payload[..k]);
    assert payload[..k + 1][..k] == payload[..k];
    StaysFailed(rows, payload, s, k + 1);
    var i :| 0 <= i < |payload| && payload[i].projectKey == s.place.projectKey;
    assert payload[i].key in PayloadKeys(payload, s.place.projectKey);
    hide Upserted, Confirmed, Outstanding, MarkRemoved, UniqueKeys;
  }

  lemma {:induction false} StaysFailed(rows: seq<Row>, payload: seq<Item>, s: Source, n: nat)
    requires n <= |payload| && !PromoteItems(rows, payload[..n], s).ok
    ensures PromoteItems(rows, payload, s) == PromoteItems(rows, payload[..n], s)
    decreases |payload|
  {
    if n == |payload| {
      assert payload[..n] == payload;
    } else {
      assert payload[..|payload| - 1][..n] == payload[..n];
      StaysFailed(rows, payload[..|payload| - 1], s, n);
    }
  }
}
