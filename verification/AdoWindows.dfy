/** Incremental sweeps seeded from the stored rows (apps/worker/src/ado-transition-priors.ts). */
module AdoWindows {
  import opened Wrappers
  import opened AdoTransitions
  import opened Sequences

  const PRIOR_ID_BATCH_SIZE: nat := 5000

  /** `argMax(to_state, changed_at)` and `max(changed_at)` over the stored rows of one item. */
  function Latest(rows: seq<Row>): Option<Row> {
    if rows == [] then None
    else
      var m := Latest(rows[..|rows| - 1]);
      if m.Some? && m.value.changedAt > rows[|rows| - 1].changedAt then m else Some(rows[|rows| - 1])
  }

  /** The prior read back for an item: whole seconds, and nothing for an empty state. */
  function PriorOf(table: seq<Row>, k: Key): Option<Prior> {
    var l := Latest(RowsOf(table, k));
    if l.Some? && l.value.toState != "" then Some(Prior(l.value.toState, 1000 * l.value.changedAt)) else None
  }

  /** One query: a row per item of the batch that has stored rows. */
  function QueryBatch(table: seq<Row>, project: string, batch: seq<int>): map<int, Row> {
    map id | id in batch && Latest(RowsOf(table, (project, id))).Some? :: Latest(RowsOf(table, (project, id))).value
  }

  ghost predicate Fetched(table: seq<Row>, project: string, ids: set<int>, priors: map<Key, Prior>) {
    && (forall k :: k in priors <==> k.0 == project && k.1 in ids && PriorOf(table, k).Some?)
    && (forall k :: k in priors ==> Some(priors[k]) == PriorOf(table, k))
  }

  function IdSet(ids: seq<int>): set<int> {
    set id | id in ids
  }

  /** Row `i` is the last of its item: none is later, and none as late comes after it. */
  ghost predicate IsLast(table: seq<Row>, k: Key, i: int) {
    && 0 <= i < |table| && RowKey(table[i]) == k
    && forall j :: 0 <= j < |table| && RowKey(table[j]) == k ==>
         table[j].changedAt < table[i].changedAt || (table[j].changedAt == table[i].changedAt && j <= i)
  }

  /** `l` is the last row of the item, or there is none. */
  ghost predicate Stands(table: seq<Row>, k: Key, l: Option<Row>) {
    if l.None? then forall i :: 0 <= i < |table| ==> RowKey(table[i]) != k
    else exists i :: IsLast(table, k, i) && table[i] == l.value
  }

  lemma StandsMore(init: seq<Row>, x: Row, k: Key, l: Option<Row>)
    requires Stands(init, k, l)
    ensures Stands(init + [x], k,
                   if RowKey(x) == k && (l.None? || l.value.changedAt <= x.changedAt) then Some(x) else l)
  {
    if l.None? {
      if RowKey(x) == k { assert IsLast(init + [x], k, |init|); }
    } else {
      var i :| IsLast(init, k, i) && init[i] == l.value;
      LastOfMore(init, x, k, i);
      hide IsLast;
    }
  }

  lemma LastOfMore(init: seq<Row>, x: Row, k: Key, i: int)
    requires IsLast(init, k, i)
    ensures IsLast(init + [x], k, if RowKey(x) == k && init[i].changedAt <= x.changedAt then |init| else i)
  {
  }

  lemma {:induction false} LatestStands(table: seq<Row>, k: Key)
    ensures Stands(table, k, Latest(RowsOf(table, k)))
  {
    if table != [] {
      var init, x := table[..|table| - 1], table[|table| - 1];
      assert table == init + [x];
      hide Stands, Latest, RowsOf;
      LatestStands(init, k);
      LatestMore(init, x, k);
      StandsMore(init, x, k, Latest(RowsOf(init, k)));
    }
  }

  lemma LatestMore(init: seq<Row>, x: Row, k: Key)
    ensures var before := Latest(RowsOf(init, k));
            Latest(RowsOf(init + [x], k))
            == if RowKey(x) == k && (before.None? || before.value.changedAt <= x.changedAt) then Some(x) else before
  {
    assert (init + [x])[..|init|] == init;
    var rows := RowsOf(init, k);
    assert (rows + [x])[..|rows|] == rows;
    assert rows + [] == rows;
  }

  /**
   The priors fetched, told of the stored rows: an asked item has one exactly when its last row names a state, and it is
   that state, in whole seconds; an item without rows, or left in an empty state, has none.
   */
  lemma PriorsAreLastRows(table: seq<Row>, project: string, ids: set<int>, priors: map<Key, Prior>, k: Key)
    requires Fetched(table, project, ids, priors)
    ensures k in priors <==>
              k.0 == project && k.1 in ids && exists i :: IsLast(table, k, i) && table[i].toState != ""
    ensures k in priors ==>
              exists i :: IsLast(table, k, i) && priors[k] == Prior(table[i].toState, 1000 * table[i].changedAt)
  {
    LatestStands(table, k);
    hide Latest, RowsOf;
    if Latest(RowsOf(table, k)).Some? {
      var l :| IsLast(table, k, l) && table[l] == Latest(RowsOf(table, k)).value;
      forall i | IsLast(table, k, i) ensures i == l {
      }
    }
  }

  method FetchAdoPriorStates(table: seq<Row>, project: string, workItemIds: seq<int>) returns (priors: map<Key, Prior>)
    ensures Fetched(table, project, IdSet(workItemIds), priors)
  {
    priors := map[];
    if |workItemIds| == 0 { return; }
    var i := 0;
    while i < |workItemIds|
      invariant 0 <= i <= |workItemIds|
      invariant Fetched(table, project, IdSet(workItemIds[..i]), priors)
    {
      var end := if i + PRIOR_ID_BATCH_SIZE < |workItemIds| then i + PRIOR_ID_BATCH_SIZE else |workItemIds|;
      priors := AddBatch(table, project, workItemIds[i..end], IdSet(workItemIds[..i]), priors);
      assert IdSet(workItemIds[..end]) == IdSet(workItemIds[..i]) + IdSet(workItemIds[i..end]) by {
        assert workItemIds[..end] == workItemIds[..i] + workItemIds[i..end];
      }
      i := end;
    }
    assert workItemIds[..|workItemIds|] == workItemIds;
  }

  lemma SomeMember(s: set<int>)
    requires s != {}
    ensures exists id :: id in s
  {
    if forall id :: id !in s { assert false; }
  }

  method AddBatch(table: seq<Row>, project: string, batch: seq<int>, ghost before: set<int>, found: map<Key, Prior>)
    returns (priors: map<Key, Prior>)
    requires Fetched(table, project, before, found)
    ensures Fetched(table, project, before + IdSet(batch), priors)
  {
    priors := found;
    var rows := QueryBatch(table, project, batch);
    var left := rows.Keys;
    while left != {}
      invariant left <= rows.Keys
      invariant Fetched(table, project, before + (rows.Keys - left), priors)
      decreases |left|
    {
      SomeMember(left);
      var id :| id in left;
      var row := rows[id];
      left := left - {id};
      if row.toState == "" { continue; }
      priors := priors[(project, id) := Prior(row.toState, 1000 * row.changedAt)];
    }
  }

  // ---- Sweeps ----

  function KeySet(project: string, w: seq<Revision>): set<Key> {
    set r | r in w :: (project, r.workItemId)
  }

  function PriorsFor(table: seq<Row>, project: string, w: seq<Revision>): map<Key, Prior> {
    map k | k in KeySet(project, w) && PriorOf(table, k).Some? :: PriorOf(table, k).value
  }

  lemma FetchedIsUnique(table: seq<Row>, project: string, w: seq<Revision>, ids: set<int>, priors: map<Key, Prior>)
    requires Fetched(table, project, ids, priors)
    requires forall id :: id in ids <==> exists r :: r in w && r.workItemId == id
    ensures priors == PriorsFor(table, project, w)
  {
    hide PriorOf;
    forall k ensures k in priors <==> k in PriorsFor(table, project, w) {
      if k in priors {
        var id := k.1;
        assert id in ids;
        assert exists r :: r in w && r.workItemId == id;
        var r :| r in w && r.workItemId == k.1;
        assert k == (project, r.workItemId);
      }
    }
  }

  /** One incremental sweep of a project: the rows it stores come after those already there. */
  method SweepProject(table: seq<Row>, project: string, revisions: seq<Revision>) returns (stored: seq<Row>)
    ensures stored == table + Build(revisions, PriorsFor(table, project, revisions))
  {
    var ids := DistinctIds(revisions);
    var priors := FetchAdoPriorStates(table, project, ids);
    FetchedIsUnique(table, project, revisions, IdSet(ids), priors);
    var transitions := BuildAdoTransitions(revisions, priors);
    stored := table + transitions;
  }

  method DistinctIds(revisions: seq<Revision>) returns (ids: seq<int>)
    ensures forall id :: id in ids <==> exists r :: r in revisions && r.workItemId == id
    ensures forall i, j :: 0 <= i < j < |ids| ==> ids[i] != ids[j]
  {
    ids := [];
    for n := 0 to |revisions|
      invariant forall id :: id in ids <==> exists r :: r in revisions[..n] && r.workItemId == id
      invariant forall i, j :: 0 <= i < j < |ids| ==> ids[i] != ids[j]
    {
      assert revisions[..n + 1] == revisions[..n] + [revisions[n]];
      assert revisions[n] in revisions[..n + 1];
      if revisions[n].workItemId !in ids { ids := ids + [revisions[n].workItemId]; }
    }
    assert revisions[..|revisions|] == revisions;
  }

  /** What is stored after sweeping the windows one after the other, from an empty table. */
  function Sweeps(project: string, ws: seq<seq<Revision>>): seq<Row> {
    if ws == [] then []
    else
      var table := Sweeps(project, ws[..|ws| - 1]);
      table + Build(ws[|ws| - 1], PriorsFor(table, project, ws[|ws| - 1]))
  }

  /** Windows of one project, in time order, with no empty state. */
  ghost predicate Windows(project: string, ws: seq<seq<Revision>>) {
    && (forall i, r :: 0 <= i < |ws| && r in ws[i] ==> r.project == project && r.state != "")
    && (forall i, j, x, y :: 0 <= i < j < |ws| && x in ws[i] && y in ws[j] ==> x.changedAtMs <= y.changedAtMs)
  }

  /** At most one transition of an item in a whole second. */
  ghost predicate OnePerSecond(rows: seq<Row>) {
    forall i, j :: 0 <= i < j < |rows| ==> rows[i].changedAt < rows[j].changedAt
  }

  /** The same row, except that the dwell of `x` may be one second longer. */
  ghost predicate NearRow(x: Row, y: Row) {
    && x == y.(timeInPrevStateS := x.timeInPrevStateS)
    && y.timeInPrevStateS <= x.timeInPrevStateS <= y.timeInPrevStateS + 1
  }

  ghost predicate Near(xs: seq<Row>, ys: seq<Row>) {
    |xs| == |ys| && forall i :: 0 <= i < |xs| ==> NearRow(xs[i], ys[i])
  }

  /** The same rows, except that the dwell of the first may be one second longer. */
  ghost predicate NearFirst(xs: seq<Row>, ys: seq<Row>) {
    && |xs| == |ys|
    && (xs != [] ==> NearRow(xs[0], ys[0]))
    && (forall i :: 0 < i < |xs| ==> xs[i] == ys[i])
  }

  // ---- The builder, one window after another ----

  lemma {:induction false} PrevSplit(a: seq<Revision>, b: seq<Revision>, p: Option<Prior>)
    ensures PrevAfter(a + b, p) == PrevAfter(b, PrevAfter(a, p))
  {
    if b == [] {
      assert a + b == a;
    } else {
      assert (a + b)[..|a + b| - 1] == a + b[..|b| - 1];
      PrevSplit(a, b[..|b| - 1], p);
    }
  }

  /** With the exact previous state in hand, building in two parts is building at once. */
  lemma {:induction false} EmitSplit(a: seq<Revision>, b: seq<Revision>, p: Option<Prior>)
    ensures Emit(a + b, p) == Emit(a, p) + Emit(b, PrevAfter(a, p))
  {
    if b == [] {
      assert a + b == a;
    } else {
      hide RowFor, Same, Next;
      assert (a + b)[..|a + b| - 1] == a + b[..|b| - 1];
      EmitSplit(a, b[..|b| - 1], p);
      PrevSplit(a, b[..|b| - 1], p);
    }
  }

  function Floored(p: Option<Prior>): Option<Prior> {
    if p.Some? then Some(Prior(p.value.state, 1000 * Sec(p.value.changedAtMs))) else None
  }

  lemma {:induction false} SeededPrev(s: seq<Revision>, p: Option<Prior>)
    ensures PrevAfter(s, Floored(p)) == if Emit(s, p) == [] then Floored(PrevAfter(s, p)) else PrevAfter(s, p)
    ensures Emit(s, p) == [] ==> PrevAfter(s, p) == p
    ensures |Emit(s, Floored(p))| == |Emit(s, p)|
  {
    if s != [] { SeededPrev(s[..|s| - 1], p); }
  }

  lemma SeededRow(p: Option<Prior>, r: Revision)
    requires p.Some? ==> p.value.changedAtMs <= r.changedAtMs
    ensures NearRow(RowFor(Floored(p), r), RowFor(p, r))
  {
  }

  /** A prior floored to its second changes the first row only, and adds at most one second to its dwell. */
  lemma {:induction false} SeededNear(s: seq<Revision>, p: Option<Prior>)
    requires p.Some? ==> forall r :: r in s ==> p.value.changedAtMs <= r.changedAtMs
    ensures NearFirst(Emit(s, Floored(p)), Emit(s, p))
  {
    if s != [] {
      var n := |s| - 1;
      assert s[n] in s;
      SeededNear(s[..n], p);
      SeededPrev(s[..n], p);
      SeededRow(p, s[n]);
      hide RowFor, NearRow;
    }
  }

  // ---- What a sweep reads back ----

  lemma {:induction false} LatestIsLast(rows: seq<Row>)
    requires OnePerSecond(rows)
    ensures Latest(rows) == if rows == [] then None else Some(rows[|rows| - 1])
  {
    if rows != [] { LatestIsLast(rows[..|rows| - 1]); }
  }

  lemma {:induction false} PrevState(s: seq<Revision>, p: Option<Prior>)
    requires forall r :: r in s ==> r.state != ""
    requires p.Some? ==> p.value.state != ""
    ensures PrevAfter(s, p).Some? ==> PrevAfter(s, p).value.state != ""
    ensures s != [] ==> PrevAfter(s, p).Some?
  {
    if s != [] {
      assert s[|s| - 1] in s;
      PrevState(s[..|s| - 1], p);
    }
  }

  /** The prior read from rows near the true ones is the true previous state, floored to its second. */
  lemma ReadBack(stored: seq<Row>, s: seq<Revision>)
    requires Near(stored, Emit(s, None)) && OnePerSecond(Emit(s, None))
    requires forall r :: r in s ==> r.state != ""
    ensures var l := Latest(stored);
            (if l.Some? && l.value.toState != "" then Some(Prior(l.value.toState, 1000 * l.value.changedAt)) else None)
            == Floored(PrevAfter(s, None))
  {
    assert OnePerSecond(stored) by {
      forall i, j | 0 <= i < j < |stored| ensures stored[i].changedAt < stored[j].changedAt {
        assert NearRow(stored[i], Emit(s, None)[i]) && NearRow(stored[j], Emit(s, None)[j]);
      }
    }
    LatestIsLast(stored);
    LastRowIsPrev(s, None);
    PrevState(s, None);
    hide Emit, PrevAfter, Latest, OnePerSecond;
    if stored != [] { assert NearRow(stored[|stored| - 1], Emit(s, None)[|stored| - 1]); }
  }

  // ---- The whole history ----

  lemma {:induction false} OfItemAppend(a: seq<Revision>, b: seq<Revision>, k: Key)
    ensures OfItem(a + b, k) == OfItem(a, k) + OfItem(b, k)
  {
    if b == [] {
      assert a + b == a;
    } else {
      assert (a + b)[..|a + b| - 1] == a + b[..|b| - 1];
      OfItemAppend(a, b[..|b| - 1], k);
    }
  }

  /** Item `k` of `w`, in the order the builder takes. */
  function History(w: seq<Revision>, k: Key): seq<Revision> {
    SortByTime(OfItem(w, k))
  }

  lemma HistoryMembers(w: seq<Revision>, k: Key)
    ensures Sorted(History(w, k))
    ensures forall r :: r in History(w, k) <==> r in w && KeyOf(r) == k
  {
    OfItemMembers(w, k);
    SortedRevisions(OfItem(w, k));
  }

  lemma HistoryAppend(a: seq<Revision>, b: seq<Revision>, k: Key)
    requires forall x, y :: x in a && y in b ==> x.changedAtMs <= y.changedAtMs
    ensures History(a + b, k) == History(a, k) + History(b, k)
  {
    OfItemAppend(a, b, k);
    OfItemMembers(a, k);
    OfItemMembers(b, k);
    TimeOrders();
    SortAppends(OfItem(a, k), OfItem(b, k), ByTime);
  }

  lemma PrevIsEarlier(s: seq<Revision>, h: seq<Revision>)
    requires Sorted(s) && forall x, y :: x in s && y in h ==> x.changedAtMs <= y.changedAtMs
    ensures PrevAfter(s, None).Some? ==> forall r :: r in h ==> PrevAfter(s, None).value.changedAtMs <= r.changedAtMs
  {
    if s != [] {
      PrevInSpan(s);
      assert s[|s| - 1] in s;
    }
  }

  /** One sweep on top of stored rows that are near the rows of the history `a` so far. */
  lemma SweepStep(table: seq<Row>, project: string, a: seq<Revision>, w: seq<Revision>, k: Key)
    requires forall x, y :: x in a && y in w ==> x.changedAtMs <= y.changedAtMs
    requires forall r :: r in a ==> r.state != ""
    requires forall r :: r in w ==> r.project == project
    requires Near(RowsOf(table, k), Emit(History(a, k), None)) && OnePerSecond(Emit(History(a, k), None))
    ensures var q := PrevAfter(History(a, k), None);
            && Emit(History(a + w, k), None) == Emit(History(a, k), None) + Emit(History(w, k), q)
            && NearFirst(RowsOf(Build(w, PriorsFor(table, project, w)), k), Emit(History(w, k), q))
            && (q.None? ==> RowsOf(Build(w, PriorsFor(table, project, w)), k) == Emit(History(w, k), q))
  {
    HistoryAppend(a, w, k);
    EmitSplit(History(a, k), History(w, k), None);
    HistoryMembers(a, k);
    HistoryMembers(w, k);
    PrevIsEarlier(History(a, k), History(w, k));
    SeededNear(History(w, k), PrevAfter(History(a, k), None));
    ReadBack(RowsOf(table, k), History(a, k));
    BuildPerItem(w, PriorsFor(table, project, w), k);
    LookupFetched(table, project, w, k);
  }

  lemma LookupFetched(table: seq<Row>, project: string, w: seq<Revision>, k: Key)
    requires forall r :: r in w ==> r.project == project
    ensures History(w, k) != [] ==> Lookup(PriorsFor(table, project, w), k) == PriorOf(table, k)
  {
    HistoryMembers(w, k);
    hide PriorOf, History;
    if History(w, k) != [] {
      var r := History(w, k)[0];
      assert r in w && k == (project, r.workItemId);
    }
  }

  /** Row `i` of item `k` in the full build is the first that a window other than the item's first contributes. */
  ghost predicate Boundary(ws: seq<seq<Revision>>, k: Key, i: int) {
    i > 0 && exists m :: 0 < m < |ws| && i == |Emit(History(Flatten(ws[..m]), k), None)|
  }

  /** The same rows, except that at a boundary the dwell may be one second longer. */
  ghost predicate NearAtBoundaries(ws: seq<seq<Revision>>, k: Key, xs: seq<Row>, ys: seq<Row>) {
    && |xs| == |ys|
    && forall i :: 0 <= i < |xs| ==> xs[i] == ys[i] || (Boundary(ws, k, i) && NearRow(xs[i], ys[i]))
  }

  lemma BoundaryStays(ws: seq<seq<Revision>>, k: Key, i: int)
    requires ws != [] && Boundary(ws[..|ws| - 1], k, i)
    ensures Boundary(ws, k, i)
  {
    hide Emit, History, Flatten;
    var init := ws[..|ws| - 1];
    var m :| 0 < m < |init| && i == |Emit(History(Flatten(init[..m]), k), None)|;
    assert init[..m] == ws[..m];
  }

  lemma BoundaryHere(ws: seq<seq<Revision>>, k: Key)
    requires |ws| > 1 && Emit(History(Flatten(ws[..|ws| - 1]), k), None) != []
    ensures Boundary(ws, k, |Emit(History(Flatten(ws[..|ws| - 1]), k), None)|)
  {
  }

  /** One window more: `a` and `b` are stored, `c` and `d` are what the full build has in their place. */
  lemma NearAppend(ws: seq<seq<Revision>>, k: Key, a: seq<Row>, b: seq<Row>, c: seq<Row>, d: seq<Row>)
    requires ws != [] && c == Emit(History(Flatten(ws[..|ws| - 1]), k), None)
    requires NearAtBoundaries(ws[..|ws| - 1], k, a, c) && NearFirst(b, d) && (c == [] ==> b == d)
    ensures NearAtBoundaries(ws, k, a + b, c + d)
  {
    if |ws| == 1 { assert ws[..0] == []; }
    EmptyHistory(k);
    if c != [] { BoundaryHere(ws, k); }
    forall i | 0 <= i < |a + b|
      ensures (a + b)[i] == (c + d)[i] || (Boundary(ws, k, i) && NearRow((a + b)[i], (c + d)[i]))
    {
      if i < |a| && a[i] != c[i] { BoundaryStays(ws, k, i); }
    }
  }

  lemma EmptyHistory(k: Key)
    ensures Emit(History([], k), None) == []
  {
  }

  lemma AtBoundariesIsNear(ws: seq<seq<Revision>>, k: Key, xs: seq<Row>, ys: seq<Row>)
    requires NearAtBoundaries(ws, k, xs, ys)
    ensures Near(xs, ys)
  {
    hide Boundary;
  }

  lemma {:induction false} FlattenMembers(ws: seq<seq<Revision>>)
    ensures forall r :: r in Flatten(ws) ==> exists i :: 0 <= i < |ws| && r in ws[i]
  {
    if ws != [] {
      FlattenMembers(ws[..|ws| - 1]);
      forall r | r in Flatten(ws) ensures exists i :: 0 <= i < |ws| && r in ws[i] {
        if r in Flatten(ws[..|ws| - 1]) {
          var i :| 0 <= i < |ws| - 1 && r in ws[..|ws| - 1][i];
          assert r in ws[i];
        } else {
          assert r in ws[|ws| - 1];
        }
      }
    }
  }

  /**
   * Sweeping disjoint windows one after the other stores, for every item, the rows a full sweep builds from
   * the whole history, except that the first row a later window contributes may carry one second too much.
   */
  lemma {:induction false} IncrementalRefinesFull(project: string, ws: seq<seq<Revision>>, k: Key)
    requires Windows(project, ws)
    requires OnePerSecond(RowsOf(Build(Flatten(ws), map[]), k))
    ensures NearAtBoundaries(ws, k, RowsOf(Sweeps(project, ws), k), RowsOf(Build(Flatten(ws), map[]), k))
    decreases |ws|
  {
    BuildPerItem(Flatten(ws), map[], k);
    if ws != [] {
      var init, w := ws[..|ws| - 1], ws[|ws| - 1];
      var a, table := Flatten(init), Sweeps(project, init);
      BuildPerItem(a, map[], k);
      FlattenMembers(init);
      HistoryAppend(a, w, k);
      EmitSplit(History(a, k), History(w, k), None);
      var c, d := Emit(History(a, k), None), Emit(History(w, k), PrevAfter(History(a, k), None));
      PrefixOnePerSecond(c, d);
      IncrementalRefinesFull(project, init, k);
      AtBoundariesIsNear(init, k, RowsOf(table, k), c);
      SweepStep(table, project, a, w, k);
      LastRowIsPrev(History(a, k), None);
      var rows := Build(w, PriorsFor(table, project, w));
      RowsOfAppend(table, rows, k);
      NearAppend(ws, k, RowsOf(table, k), RowsOf(rows, k), c, d);
    }
  }

  lemma PrefixOnePerSecond(a: seq<Row>, b: seq<Row>)
    requires OnePerSecond(a + b)
    ensures OnePerSecond(a)
  {
    forall i, j | 0 <= i < j < |a| ensures a[i].changedAt < a[j].changedAt {
      assert a[i] == (a + b)[i] && a[j] == (a + b)[j];
    }
  }
}
