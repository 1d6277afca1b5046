/** State transitions of work items (packages/shared/src/ado-transition-builder.ts). */
module AdoTransitions {
  import opened Arithmetic
  import opened Sequences
  import opened Wrappers

  /** Milliseconds since the epoch throughout; a stored time is a whole second. */
  datatype Revision = Revision(
    project: string,
    workItemId: int,
    workItemType: string,
    assignedTo: Option<string>,
    changedBy: Option<string>,
    state: string,
    changedAtMs: int)

  datatype Prior = Prior(state: string, changedAtMs: int)

  /** The stored id of a row is its project, work item and `changedAt`, so it is not a field of its own. */
  datatype Row = Row(
    project: string,
    workItemId: int,
    workItemType: string,
    assignedTo: Option<string>,
    changedBy: Option<string>,
    fromState: string,
    toState: string,
    changedAt: int,
    timeInPrevStateS: int)

  type Key = (string, int)

  function KeyOf(r: Revision): Key {
    (r.project, r.workItemId)
  }

  function RowKey(x: Row): Key {
    (x.project, x.workItemId)
  }

  /** `Math.floor(ms / 1000)`: both `/` and the source's division round down here. */
  function Sec(ms: int): int {
    ms / 1000
  }

  // ---- Sorting and grouping ----

  predicate ByTime(a: Revision, b: Revision) {
    a.changedAtMs <= b.changedAtMs
  }

  ghost predicate Sorted(s: seq<Revision>) {
    Ordered(s, ByTime)
  }

  /** `sort((a, b) => a.changedAt - b.changedAt)`, which is stable. */
  function SortByTime(s: seq<Revision>): seq<Revision> {
    Sort(s, ByTime)
  }

  function OfItem(rs: seq<Revision>, k: Key): seq<Revision> {
    if rs == [] then []
    else OfItem(rs[..|rs| - 1], k) + if KeyOf(rs[|rs| - 1]) == k then [rs[|rs| - 1]] else []
  }

  /** The items in the order of their first revision. */
  function KeysOf(rs: seq<Revision>): seq<Key> {
    if rs == [] then []
    else
      var ks := KeysOf(rs[..|rs| - 1]);
      if KeyOf(rs[|rs| - 1]) in ks then ks else ks + [KeyOf(rs[|rs| - 1])]
  }

  // ---- One item ----

  predicate Same(p: Option<Prior>, r: Revision) {
    p.Some? && p.value.state == r.state
  }

  function RowFor(p: Option<Prior>, r: Revision): Row {
    Row(r.project, r.workItemId, r.workItemType, r.assignedTo, r.changedBy,
        if p.Some? then p.value.state else "", r.state, Sec(r.changedAtMs),
        if p.Some? then Max(0, Sec(r.changedAtMs - p.value.changedAtMs)) else 0)
  }

  function Next(p: Option<Prior>, r: Revision): Option<Prior> {
    if Same(p, r) then p else Some(Prior(r.state, r.changedAtMs))
  }

  /** `prevState` and `prevChangedMs` after the sorted revisions `s` of one item. */
  function PrevAfter(s: seq<Revision>, p: Option<Prior>): Option<Prior> {
    if s == [] then p else Next(PrevAfter(s[..|s| - 1], p), s[|s| - 1])
  }

  /** The rows of one item. */
  function Emit(s: seq<Revision>, p: Option<Prior>): seq<Row> {
    if s == [] then []
    else
      var q := PrevAfter(s[..|s| - 1], p);
      Emit(s[..|s| - 1], p) + if Same(q, s[|s| - 1]) then [] else [RowFor(q, s[|s| - 1])]
  }

  function Lookup(priors: map<Key, Prior>, k: Key): Option<Prior> {
    if k in priors then Some(priors[k]) else None
  }

  function ItemRows(rs: seq<Revision>, priors: map<Key, Prior>, k: Key): seq<Row> {
    Emit(SortByTime(OfItem(rs, k)), Lookup(priors, k))
  }

  function RowsFor(rs: seq<Revision>, priors: map<Key, Prior>, ks: seq<Key>): seq<Row> {
    if ks == [] then [] else RowsFor(rs, priors, ks[..|ks| - 1]) + ItemRows(rs, priors, ks[|ks| - 1])
  }

  function Build(rs: seq<Revision>, priors: map<Key, Prior>): seq<Row> {
    RowsFor(rs, priors, KeysOf(rs))
  }

  ghost predicate Grouped(rs: seq<Revision>, order: seq<Key>, byItem: map<Key, seq<Revision>>) {
    && order == KeysOf(rs)
    && (forall k :: k in byItem <==> k in order)
    && (forall k :: k in byItem ==> byItem[k] == OfItem(rs, k))
  }

  lemma {:induction false} Ungrouped(rs: seq<Revision>, k: Key)
    requires k !in KeysOf(rs)
    ensures OfItem(rs, k) == []
  {
    if rs != [] { Ungrouped(rs[..|rs| - 1], k); }
  }

  lemma GroupedStep(rs: seq<Revision>, r: Revision, order: seq<Key>, byItem: map<Key, seq<Revision>>)
    requires Grouped(rs, order, byItem)
    ensures KeyOf(r) in byItem ==> Grouped(rs + [r], order, byItem[KeyOf(r) := byItem[KeyOf(r)] + [r]])
    ensures KeyOf(r) !in byItem ==> Grouped(rs + [r], order + [KeyOf(r)], byItem[KeyOf(r) := [r]])
  {
    assert (rs + [r])[..|rs|] == rs;
    if KeyOf(r) !in byItem { Ungrouped(rs, KeyOf(r)); }
  }

  /** The JavaScript `Map` is a map with the order of its keys beside it. */
  method GroupByItem(revisions: seq<Revision>) returns (order: seq<Key>, byItem: map<Key, seq<Revision>>)
    ensures Grouped(revisions, order, byItem)
  {
    order, byItem := [], map[];
    for i := 0 to |revisions|
      invariant Grouped(revisions[..i], order, byItem)
    {
      var r := revisions[i];
      GroupedStep(revisions[..i], r, order, byItem);
      assert revisions[..i] + [r] == revisions[..i + 1];
      hide Grouped;
      var key := KeyOf(r);
      if key in byItem {
        byItem := byItem[key := byItem[key] + [r]];
      } else {
        byItem := byItem[key := [r]];
        order := order + [key];
      }
    }
    assert revisions[..|revisions|] == revisions;
  }

  method BuildAdoTransitions(revisions: seq<Revision>, priorStates: map<Key, Prior>) returns (out: seq<Row>)
    ensures out == Build(revisions, priorStates)
  {
    var order, byItem := GroupByItem(revisions);
    assert forall k :: k in order ==> k in byItem && byItem[k] == OfItem(revisions, k);
    hide RowsFor, Grouped, OfItem, SortByTime, Emit;
    out := [];
    RowsForNone(revisions, priorStates);
    for i := 0 to |order|
      invariant out == RowsFor(revisions, priorStates, order[..i])
    {
      var key := order[i];
      var rows := BuildItem(SortByTime(byItem[key]), Lookup(priorStates, key));
      RowsForMore(revisions, priorStates, order, i);
      out := out + rows;
    }
    assert order[..|order|] == order;
  }

  lemma RowsForNone(rs: seq<Revision>, priors: map<Key, Prior>)
    ensures RowsFor(rs, priors, []) == []
  {
  }

  lemma RowsForMore(rs: seq<Revision>, priors: map<Key, Prior>, ks: seq<Key>, i: nat)
    requires i < |ks|
    ensures RowsFor(rs, priors, ks[..i + 1]) == RowsFor(rs, priors, ks[..i]) + ItemRows(rs, priors, ks[i])
  {
    assert ks[..i + 1][..i] == ks[..i];
  }

  method BuildItem(sorted: seq<Revision>, prior: Option<Prior>) returns (out: seq<Row>)
    ensures out == Emit(sorted, prior)
  {
    out := [];
    var prevState := if prior.Some? then Some(prior.value.state) else None;
    var prevChangedMs := if prior.Some? then Some(prior.value.changedAtMs) else None;
    for i := 0 to |sorted|
      invariant prevState.Some? == prevChangedMs.Some?
      invariant PrevAfter(sorted[..i], prior)
             == if prevState.Some? then Some(Prior(prevState.value, prevChangedMs.value)) else None
      invariant out == Emit(sorted[..i], prior)
    {
      var r := sorted[i];
      assert sorted[..i + 1][..i] == sorted[..i];
      if prevState.Some? && r.state == prevState.value { continue; }
      var changedMs := r.changedAtMs;
      var timeInPrev := if prevChangedMs.Some? then Max(0, Sec(changedMs - prevChangedMs.value)) else 0;
      out := out + [Row(r.project, r.workItemId, r.workItemType, r.assignedTo, r.changedBy,
                        if prevState.Some? then prevState.value else "", r.state, Sec(changedMs), timeInPrev)];
      prevState := Some(r.state);
      prevChangedMs := Some(changedMs);
    }
    assert sorted[..|sorted|] == sorted;
  }

  // ---- Sorting ----

  lemma TimeOrders()
    ensures Preorder(ByTime)
  {
  }

  lemma SortedRevisions(s: seq<Revision>)
    ensures Sorted(SortByTime(s)) && |SortByTime(s)| == |s| && forall r :: r in SortByTime(s) <==> r in s
  {
    TimeOrders();
    hide Preorder;
    SortSorts(s, ByTime);
    SortMembers(s, ByTime);
  }

  ghost predicate DistinctTimes(s: seq<Revision>) {
    forall i, j :: 0 <= i < j < |s| ==> s[i].changedAtMs != s[j].changedAtMs
  }

  // ---- The rows of one item, in the output of a whole build ----

  function RowsOf(rows: seq<Row>, k: Key): seq<Row> {
    if rows == [] then []
    else RowsOf(rows[..|rows| - 1], k) + if RowKey(rows[|rows| - 1]) == k then [rows[|rows| - 1]] else []
  }

  lemma {:induction false} RowsOfAppend(a: seq<Row>, b: seq<Row>, k: Key)
    ensures RowsOf(a + b, k) == RowsOf(a, k) + RowsOf(b, k)
  {
    if b == [] {
      assert a + b == a;
    } else {
      assert (a + b)[..|a + b| - 1] == a + b[..|b| - 1];
      RowsOfAppend(a, b[..|b| - 1], k);
    }
  }

  lemma {:induction false} RowsOfOne(rows: seq<Row>, own: Key, k: Key)
    requires forall x :: x in rows ==> RowKey(x) == own
    ensures RowsOf(rows, k) == if k == own then rows else []
  {
    if rows != [] {
      RowsOfOne(rows[..|rows| - 1], own, k);
      assert rows == rows[..|rows| - 1] + [rows[|rows| - 1]];
    }
  }

  lemma {:induction false} OfItemMembers(rs: seq<Revision>, k: Key)
    ensures forall r :: r in OfItem(rs, k) <==> r in rs && KeyOf(r) == k
  {
    if rs != [] {
      OfItemMembers(rs[..|rs| - 1], k);
      assert rs == rs[..|rs| - 1] + [rs[|rs| - 1]];
    }
  }

  lemma {:induction false} EmitKeys(s: seq<Revision>, p: Option<Prior>, k: Key)
    requires forall r :: r in s ==> KeyOf(r) == k
    ensures forall x :: x in Emit(s, p) ==> RowKey(x) == k
  {
    if s != [] {
      assert s[|s| - 1] in s;
      EmitKeys(s[..|s| - 1], p, k);
    }
  }

  lemma ItemRowsKeys(rs: seq<Revision>, priors: map<Key, Prior>, k: Key)
    ensures forall x :: x in ItemRows(rs, priors, k) ==> RowKey(x) == k
  {
    OfItemMembers(rs, k);
    SortedRevisions(OfItem(rs, k));
    EmitKeys(SortByTime(OfItem(rs, k)), Lookup(priors, k), k);
  }

  ghost predicate DistinctKeys(ks: seq<Key>) {
    forall i, j :: 0 <= i < j < |ks| ==> ks[i] != ks[j]
  }

  lemma {:induction false} KeysDistinct(rs: seq<Revision>)
    ensures DistinctKeys(KeysOf(rs))
  {
    if rs != [] { KeysDistinct(rs[..|rs| - 1]); }
  }

  lemma RowsForLast(rs: seq<Revision>, priors: map<Key, Prior>, ks: seq<Key>, k: Key)
    requires ks != []
    ensures RowsOf(RowsFor(rs, priors, ks), k)
            == RowsOf(RowsFor(rs, priors, ks[..|ks| - 1]), k)
               + if k == ks[|ks| - 1] then ItemRows(rs, priors, k) else []
  {
    hide ItemRows, RowsOf;
    var n := |ks| - 1;
    RowsOfAppend(RowsFor(rs, priors, ks[..n]), ItemRows(rs, priors, ks[n]), k);
    ItemRowsKeys(rs, priors, ks[n]);
    RowsOfOne(ItemRows(rs, priors, ks[n]), ks[n], k);
  }

  lemma KeysLast(ks: seq<Key>, k: Key)
    requires ks != [] && DistinctKeys(ks)
    ensures DistinctKeys(ks[..|ks| - 1])
    ensures k in ks <==> k in ks[..|ks| - 1] || k == ks[|ks| - 1]
    ensures !(k in ks[..|ks| - 1] && k == ks[|ks| - 1])
  {
    assert ks == ks[..|ks| - 1] + [ks[|ks| - 1]];
  }

  lemma {:induction false} RowsForOne(rs: seq<Revision>, priors: map<Key, Prior>, ks: seq<Key>, k: Key)
    requires DistinctKeys(ks)
    ensures RowsOf(RowsFor(rs, priors, ks), k) == if k in ks then ItemRows(rs, priors, k) else []
  {
    if ks != [] {
      hide ItemRows, RowsOf, RowsFor;
      var n := |ks| - 1;
      RowsForOne(rs, priors, ks[..n], k);
      RowsForLast(rs, priors, ks, k);
      KeysLast(ks, k);
      var rows := ItemRows(rs, priors, k);
      assert rows + [] == rows && [] + rows == rows;
    }
  }

  /** The rows of every item are those of its own sorted revisions: other items have no part in them. */
  lemma BuildPerItem(rs: seq<Revision>, priors: map<Key, Prior>, k: Key)
    ensures RowsOf(Build(rs, priors), k) == ItemRows(rs, priors, k)
  {
    KeysDistinct(rs);
    RowsForOne(rs, priors, KeysOf(rs), k);
    if k !in KeysOf(rs) { Ungrouped(rs, k); }
  }

  // ---- Replay ----

  function StateOf(p: Option<Prior>): Option<string> {
    if p.Some? then Some(p.value.state) else None
  }

  /** The state read off the rows at second `at`: that of the last row stamped at or before it. */
  function Replayed(rows: seq<Row>, before: Option<string>, at: int): Option<string> {
    if rows == [] then before
    else if rows[|rows| - 1].changedAt <= at then Some(rows[|rows| - 1].toState)
    else Replayed(rows[..|rows| - 1], before, at)
  }

  /** The state after the last revision of second `at` or earlier. */
  function Observed(s: seq<Revision>, before: Option<string>, at: int): Option<string> {
    if s == [] then before
    else if Sec(s[|s| - 1].changedAtMs) <= at then Some(s[|s| - 1].state)
    else Observed(s[..|s| - 1], before, at)
  }

  lemma SecMonotone(a: int, b: int)
    requires a <= b
    ensures Sec(a) <= Sec(b)
  {
  }

  lemma {:induction false} LastRowIsPrev(s: seq<Revision>, p: Option<Prior>)
    ensures Emit(s, p) == [] ==> PrevAfter(s, p) == p
    ensures Emit(s, p) != [] ==> PrevAfter(s, p).Some? && var x := Emit(s, p)[|Emit(s, p)| - 1];
              x.toState == PrevAfter(s, p).value.state && x.changedAt == Sec(PrevAfter(s, p).value.changedAtMs)
  {
    if s != [] { LastRowIsPrev(s[..|s| - 1], p); }
  }

  lemma {:induction false} RowSeconds(s: seq<Revision>, p: Option<Prior>, at: int)
    requires forall r :: r in s ==> Sec(r.changedAtMs) <= at
    ensures forall x :: x in Emit(s, p) ==> x.changedAt <= at
  {
    if s != [] { RowSeconds(s[..|s| - 1], p, at); }
  }

  lemma ReplayedAppend(rows: seq<Row>, x: Row, before: Option<string>, at: int)
    ensures Replayed(rows + [x], before, at)
            == if x.changedAt <= at then Some(x.toState) else Replayed(rows, before, at)
  {
    assert (rows + [x])[..|rows|] == rows;
  }

  /** Once every row is stamped by `at`, the replay ends in the state `PrevAfter` carries. */
  lemma ReplayedAll(s: seq<Revision>, p: Option<Prior>, at: int)
    requires forall r :: r in s ==> Sec(r.changedAtMs) <= at
    ensures Replayed(Emit(s, p), StateOf(p), at) == StateOf(PrevAfter(s, p))
  {
    RowSeconds(s, p, at);
    LastRowIsPrev(s, p);
    hide Emit, PrevAfter;
    if Emit(s, p) != [] { assert Emit(s, p)[|Emit(s, p)| - 1] in Emit(s, p); }
  }

  lemma ReplayLast(s: seq<Revision>, p: Option<Prior>, r: Revision, at: int)
    requires forall x :: x in s ==> x.changedAtMs <= r.changedAtMs
    ensures var q := PrevAfter(s, p);
            var rows := Emit(s, p) + if Same(q, r) then [] else [RowFor(q, r)];
            Replayed(rows, StateOf(p), at)
            == if Sec(r.changedAtMs) <= at then Some(r.state) else Replayed(Emit(s, p), StateOf(p), at)
  {
    hide Emit, PrevAfter, Replayed;
    var q := PrevAfter(s, p);
    if Same(q, r) {
      assert Emit(s, p) + [] == Emit(s, p);
      if Sec(r.changedAtMs) <= at {
        forall x | x in s ensures Sec(x.changedAtMs) <= at { SecMonotone(x.changedAtMs, r.changedAtMs); }
        ReplayedAll(s, p, at);
      }
    } else {
      ReplayedAppend(Emit(s, p), RowFor(q, r), StateOf(p), at);
    }
  }

  lemma {:induction false} ReplayMatches(s: seq<Revision>, p: Option<Prior>, at: int)
    requires Sorted(s)
    ensures Replayed(Emit(s, p), StateOf(p), at) == Observed(s, StateOf(p), at)
  {
    if s != [] {
      hide Replayed, Sec, RowFor, Same;
      ReplayMatches(s[..|s| - 1], p, at);
      ReplayLast(s[..|s| - 1], p, s[|s| - 1], at);
    }
  }

  /** `r` is a latest revision of item `k` by second `at`. */
  ghost predicate LatestBy(rs: seq<Revision>, k: Key, at: int, r: Revision) {
    && r in rs && KeyOf(r) == k && Sec(r.changedAtMs) <= at
    && forall q :: q in rs && KeyOf(q) == k && Sec(q.changedAtMs) <= at ==> q.changedAtMs <= r.changedAtMs
  }

  /** The index of the last revision of second `at` or earlier, or -1. */
  function LastBy(s: seq<Revision>, at: int): (i: int)
    ensures -1 <= i < |s|
    ensures i >= 0 ==> Sec(s[i].changedAtMs) <= at
    ensures forall j :: i < j < |s| ==> Sec(s[j].changedAtMs) > at
  {
    if s == [] then -1
    else if Sec(s[|s| - 1].changedAtMs) <= at then |s| - 1
    else LastBy(s[..|s| - 1], at)
  }

  lemma {:induction false} ObservedIsLast(s: seq<Revision>, before: Option<string>, at: int)
    ensures Observed(s, before, at) == if LastBy(s, at) < 0 then before else Some(s[LastBy(s, at)].state)
  {
    if s != [] { ObservedIsLast(s[..|s| - 1], before, at); }
  }

  lemma LastIsLatestBy(rs: seq<Revision>, k: Key, s: seq<Revision>, at: int)
    requires Sorted(s) && LastBy(s, at) >= 0
    requires forall r :: r in s <==> r in rs && KeyOf(r) == k
    ensures LatestBy(rs, k, at, s[LastBy(s, at)])
  {
    var i := LastBy(s, at);
    hide LastBy, Sec;
    assert s[i] in s;
  }

  /** Replaying what was emitted for an item gives, at every second, the state of a latest revision by then. */
  lemma ReplayRecoversState(rs: seq<Revision>, priors: map<Key, Prior>, k: Key, at: int)
    ensures var state := Replayed(RowsOf(Build(rs, priors), k), StateOf(Lookup(priors, k)), at);
            || (exists r :: LatestBy(rs, k, at, r) && state == Some(r.state))
            || (state == StateOf(Lookup(priors, k)) && forall r :: r in rs && KeyOf(r) == k ==> Sec(r.changedAtMs) > at)
  {
    var s := SortByTime(OfItem(rs, k));
    var p := Lookup(priors, k);
    BuildPerItem(rs, priors, k);
    SortedRevisions(OfItem(rs, k));
    OfItemMembers(rs, k);
    ReplayMatches(s, p, at);
    ObservedIsLast(s, StateOf(p), at);
    hide Build, RowsOf, Sec, SortByTime, OfItem, Replayed, Observed;
    if LastBy(s, at) >= 0 { LastIsLatestBy(rs, k, s, at); }
  }

  /** The position of the first revision of an item, or the number of revisions. */
  ghost function FirstOf(rs: seq<Revision>, k: Key): (n: nat)
    ensures n <= |rs|
  {
    if rs == [] then 0
    else if FirstOf(rs[..|rs| - 1], k) < |rs| - 1 || KeyOf(rs[|rs| - 1]) == k then FirstOf(rs[..|rs| - 1], k)
    else |rs|
  }

  /** The items are taken in the order in which they first appear. */
  lemma {:induction false} ItemsInOrderOfAppearance(rs: seq<Revision>)
    ensures forall k :: k in KeysOf(rs) <==> FirstOf(rs, k) < |rs|
    ensures forall i, j :: 0 <= i < j < |KeysOf(rs)| ==> FirstOf(rs, KeysOf(rs)[i]) < FirstOf(rs, KeysOf(rs)[j])
  {
    if rs != [] {
      var init := rs[..|rs| - 1];
      ItemsInOrderOfAppearance(init);
      assert forall k :: FirstOf(init, k) < |init| ==> FirstOf(rs, k) == FirstOf(init, k);
      assert forall i :: 0 <= i < |KeysOf(init)| ==> KeysOf(init)[i] in KeysOf(init);
    }
  }

  // ---- Where the rows come from ----

  /** The row reports this revision. */
  ghost predicate Reports(x: Row, r: Revision) {
    && RowKey(x) == KeyOf(r) && x.toState == r.state && x.changedAt == Sec(r.changedAtMs)
    && x.workItemType == r.workItemType && x.assignedTo == r.assignedTo && x.changedBy == r.changedBy
  }

  /** What the row says of the state before: that one, which is another, and the whole seconds spent in it. */
  ghost predicate ChangesFrom(q: Option<Prior>, r: Revision, x: Row) {
    if q.None? then x.fromState == "" && x.timeInPrevStateS == 0
    else
      && x.fromState == q.value.state != r.state
      && x.timeInPrevStateS == Max(0, Sec(r.changedAtMs - q.value.changedAtMs))
  }

  /** The state that the last of these revisions brought, or the prior one. */
  ghost function Brought(s: seq<Revision>, at: seq<nat>, p: Option<Prior>): Option<Prior> {
    if at == [] || at[|at| - 1] >= |s| then p
    else Some(Prior(s[at[|at| - 1]].state, s[at[|at| - 1]].changedAtMs))
  }

  /** Row `i` reports revision `at[i]` as a change; a revision in between repeats the state in force. */
  ghost predicate Picks(s: seq<Revision>, p: Option<Prior>, rows: seq<Row>, at: seq<nat>)
    decreases |rows|
  {
    && |at| == |rows|
    && if rows == [] then forall r :: r in s ==> Same(p, r)
       else
         var n := |rows| - 1;
         && at[n] < |s|
         && Picks(s[..at[n]], p, rows[..n], at[..n])
         && Reports(rows[n], s[at[n]]) && ChangesFrom(Brought(s[..at[n]], at[..n], p), s[at[n]], rows[n])
         && forall i :: at[n] < i < |s| ==> s[i].state == s[at[n]].state
  }

  lemma PicksSame(s: seq<Revision>, r: Revision, p: Option<Prior>, rows: seq<Row>, at: seq<nat>)
    requires Picks(s, p, rows, at) && Same(Brought(s, at, p), r)
    ensures Picks(s + [r], p, rows, at) && Brought(s + [r], at, p) == Brought(s, at, p)
  {
    if rows != [] { assert (s + [r])[..at[|rows| - 1]] == s[..at[|rows| - 1]]; }
    hide Reports, ChangesFrom;
  }

  lemma PicksNext(s: seq<Revision>, r: Revision, p: Option<Prior>, rows: seq<Row>, at: seq<nat>, x: Row)
    requires Picks(s, p, rows, at) && Reports(x, r) && ChangesFrom(Brought(s, at, p), r, x)
    ensures Picks(s + [r], p, rows + [x], at + [|s|])
    ensures Brought(s + [r], at + [|s|], p) == Some(Prior(r.state, r.changedAtMs))
  {
    assert (s + [r])[..|s|] == s && (rows + [x])[..|rows|] == rows && (at + [|s|])[..|at|] == at;
    hide Reports, ChangesFrom;
  }

  lemma RowReports(q: Option<Prior>, r: Revision)
    requires !Same(q, r)
    ensures Reports(RowFor(q, r), r) && ChangesFrom(q, r, RowFor(q, r))
  {
  }

  lemma EmitLast(init: seq<Revision>, r: Revision, p: Option<Prior>)
    ensures var q := PrevAfter(init, p);
            && Emit(init + [r], p) == (if Same(q, r) then Emit(init, p) else Emit(init, p) + [RowFor(q, r)])
            && PrevAfter(init + [r], p) == Next(q, r)
  {
    assert (init + [r])[..|init|] == init;
  }

  lemma PicksNone(p: Option<Prior>)
    ensures Picks([], p, Emit([], p), []) && Brought([], [], p) == PrevAfter([], p)
  {
  }

  /** The rows of an item are its changes of state, one by one and in order, each with the fields of its revision. */
  lemma {:induction false} EmitPicks(s: seq<Revision>, p: Option<Prior>) returns (at: seq<nat>)
    ensures Picks(s, p, Emit(s, p), at) && Brought(s, at, p) == PrevAfter(s, p)
  {
    hide Picks, Emit, Brought, PrevAfter, Reports, ChangesFrom, RowFor;
    if s == [] {
      at := [];
      PicksNone(p);
    } else {
      var init, r := s[..|s| - 1], s[|s| - 1];
      var q := PrevAfter(init, p);
      at := EmitPicks(init, p);
      EmitLast(init, r, p);
      assert s == init + [r];
      if Same(q, r) {
        PicksSame(init, r, p, Emit(init, p), at);
      } else {
        RowReports(q, r);
        PicksNext(init, r, p, Emit(init, p), at, RowFor(q, r));
        at := at + [|init|];
      }
    }
  }

  lemma {:induction false} PickedReports(s: seq<Revision>, p: Option<Prior>, rows: seq<Row>, at: seq<nat>, i: nat)
    requires Picks(s, p, rows, at) && i < |rows|
    ensures at[i] < |s| && Reports(rows[i], s[at[i]])
    decreases |rows|
  {
    if i < |rows| - 1 { PickedReports(s[..at[|rows| - 1]], p, rows[..|rows| - 1], at[..|rows| - 1], i); }
  }

  /** The revisions of an item at one instant, in the order in which they came. */
  function AtInstant(rs: seq<Revision>, k: Key, t: int): seq<Revision> {
    if rs == [] then []
    else
      var r := rs[|rs| - 1];
      AtInstant(rs[..|rs| - 1], k, t) + if KeyOf(r) == k && r.changedAtMs == t then [r] else []
  }

  lemma {:induction false} PlaceIsStable(s: seq<Revision>, x: Revision, k: Key, t: int)
    ensures AtInstant(Place(s, x, ByTime), k, t) == AtInstant(s + [x], k, t)
  {
    if s != [] && !ByTime(s[|s| - 1], x) {
      var init, last := s[..|s| - 1], s[|s| - 1];
      PlaceIsStable(init, x, k, t);
      var placed := Place(init, x, ByTime);
      assert (placed + [last])[..|placed|] == placed;
      assert (s + [x])[..|s|] == s && (init + [x])[..|init|] == init;
      assert last.changedAtMs != x.changedAtMs;
    }
  }

  /** Sorting an item's revisions leaves those of one instant in the order in which they came. */
  lemma {:induction false} SortIsStable(s: seq<Revision>, k: Key, t: int)
    ensures AtInstant(SortByTime(s), k, t) == AtInstant(s, k, t)
  {
    if s != [] {
      var init, x := s[..|s| - 1], s[|s| - 1];
      var sorted := SortByTime(init);
      SortIsStable(init, k, t);
      PlaceIsStable(sorted, x, k, t);
      assert (sorted + [x])[..|sorted|] == sorted;
      hide Place;
    }
  }

  lemma {:induction false} OfItemAtInstant(rs: seq<Revision>, k: Key, t: int)
    ensures AtInstant(OfItem(rs, k), k, t) == AtInstant(rs, k, t)
  {
    if rs != [] {
      var own := OfItem(rs[..|rs| - 1], k);
      OfItemAtInstant(rs[..|rs| - 1], k, t);
      assert (own + [rs[|rs| - 1]])[..|own|] == own;
      assert own + [] == own;
    }
  }

  /**
   Each item's rows are exactly the changes among its revisions in time order, those of one instant in the order in
   which they came, after the prior state if the item has one.
   */
  lemma RowsReportChanges(rs: seq<Revision>, priors: map<Key, Prior>, k: Key) returns (s: seq<Revision>, at: seq<nat>)
    ensures forall i, j :: 0 <= i < j < |s| ==> s[i].changedAtMs <= s[j].changedAtMs
    ensures forall r :: r in s <==> r in rs && KeyOf(r) == k
    ensures forall t: int :: AtInstant(s, k, t) == AtInstant(rs, k, t)
    ensures Picks(s, Lookup(priors, k), RowsOf(Build(rs, priors), k), at)
  {
    s := SortByTime(OfItem(rs, k));
    BuildPerItem(rs, priors, k);
    SortedRevisions(OfItem(rs, k));
    OfItemMembers(rs, k);
    at := EmitPicks(s, Lookup(priors, k));
    hide SortByTime, Picks, OfItem, AtInstant, Build, RowsOf;
    forall t: int ensures AtInstant(s, k, t) == AtInstant(rs, k, t) {
      SortIsStable(OfItem(rs, k), k, t);
      OfItemAtInstant(rs, k, t);
    }
  }

  lemma {:induction false} InRowsOf(rows: seq<Row>, x: Row)
    ensures x in RowsOf(rows, RowKey(x)) <==> x in rows
  {
    if rows != [] {
      InRowsOf(rows[..|rows| - 1], x);
      assert rows == rows[..|rows| - 1] + [rows[|rows| - 1]];
    }
  }

  /** Every row of the output, taken by itself, reports a revision of the input. */
  lemma EveryRowReports(rs: seq<Revision>, priors: map<Key, Prior>, x: Row)
    requires x in Build(rs, priors)
    ensures exists r :: r in rs && Reports(x, r)
  {
    var k := RowKey(x);
    InRowsOf(Build(rs, priors), x);
    var s, at := RowsReportChanges(rs, priors, k);
    hide Build, RowsOf;
    var rows := RowsOf(Build(rs, priors), k);
    var i :| 0 <= i < |rows| && rows[i] == x;
    PickedReports(s, Lookup(priors, k), rows, at, i);
    assert s[at[i]] in s && Reports(x, s[at[i]]);
  }

  // ---- Chains ----

  ghost predicate Chained(rows: seq<Row>, p: Option<Prior>) {
    && (forall i :: 0 < i < |rows| ==> rows[i].fromState == rows[i - 1].toState && rows[i].fromState != rows[i].toState)
    && (rows != [] ==> rows[0].fromState == if p.Some? then p.value.state else "")
    && (rows != [] && p.Some? ==> rows[0].fromState != rows[0].toState)
  }

  lemma ChainedMore(rows: seq<Row>, x: Row, p: Option<Prior>)
    requires Chained(rows, p)
    requires x.fromState == if rows != [] then rows[|rows| - 1].toState else if p.Some? then p.value.state else ""
    requires rows != [] || p.Some? ==> x.fromState != x.toState
    ensures Chained(rows + [x], p)
  {
  }

  lemma {:induction false} EmitChained(s: seq<Revision>, p: Option<Prior>)
    ensures Chained(Emit(s, p), p)
  {
    hide Emit, PrevAfter, Chained;
    if s == [] {
      EmptyChained(p);
    } else {
      var init, r := s[..|s| - 1], s[|s| - 1];
      EmitChained(init, p);
      LastRowIsPrev(init, p);
      EmitLast(init, r, p);
      assert s == init + [r];
      if !Same(PrevAfter(init, p), r) { ChainedMore(Emit(init, p), RowFor(PrevAfter(init, p), r), p); }
    }
  }

  lemma EmptyChained(p: Option<Prior>)
    ensures Chained(Emit([], p), p)
  {
  }

  /** `from_state` is the previous `to_state`, and a row is a real change of state. */
  lemma RowsChain(rs: seq<Revision>, priors: map<Key, Prior>, k: Key)
    ensures Chained(RowsOf(Build(rs, priors), k), Lookup(priors, k))
  {
    BuildPerItem(rs, priors, k);
    EmitChained(SortByTime(OfItem(rs, k)), Lookup(priors, k));
  }

  // ---- Dwell ----

  function Dwell(rows: seq<Row>): int {
    if rows == [] then 0 else Dwell(rows[..|rows| - 1]) + rows[|rows| - 1].timeInPrevStateS
  }

  lemma {:induction false} PrevInSpan(s: seq<Revision>)
    requires Sorted(s) && s != []
    ensures PrevAfter(s, None).Some?
        && s[0].changedAtMs <= PrevAfter(s, None).value.changedAtMs <= s[|s| - 1].changedAtMs
    ensures Emit(s, None) != []
  {
    if |s| > 1 {
      PrevInSpan(s[..|s| - 1]);
    }
  }

  lemma RowLoss(q: Prior, r: Revision)
    requires q.changedAtMs <= r.changedAtMs
    ensures var t := RowFor(Some(q), r).timeInPrevStateS;
            1000 * t <= r.changedAtMs - q.changedAtMs <= 1000 * t + 999
  {
  }

  lemma DwellAppend(rows: seq<Row>, x: Row)
    ensures Dwell(rows + [x]) == Dwell(rows) + x.timeInPrevStateS
  {
    assert (rows + [x])[..|rows|] == rows;
  }

  /** Every dwell loses less than one second to rounding. */
  lemma {:induction false} DwellLoss(s: seq<Revision>)
    requires Sorted(s) && s != []
    ensures PrevAfter(s, None).Some?
    ensures var span := PrevAfter(s, None).value.changedAtMs - s[0].changedAtMs;
            var rows := Emit(s, None);
            && |rows| >= 1 && (|rows| == 1 ==> Dwell(rows) == 0)
            && 1000 * Dwell(rows) <= span <= 1000 * Dwell(rows) + 999 * (|rows| - 1)
  {
    if |s| > 1 {
      var n := |s| - 1;
      hide RowFor, Dwell;
      DwellLoss(s[..n]);
      PrevInSpan(s[..n]);
      var q := PrevAfter(s[..n], None);
      assert q.value.changedAtMs <= s[n].changedAtMs;
      var rows := Emit(s[..n], None);
      if Same(q, s[n]) {
        assert Emit(s, None) == rows;
      } else {
        RowLoss(q.value, s[n]);
        DwellAppend(rows, RowFor(q, s[n]));
        assert Emit(s, None) == rows + [RowFor(q, s[n])];
      }
    }
  }

  lemma FloorBounds(total: int, span: int, n: int)
    requires n >= 2 && 1000 * total <= span <= 1000 * total + 999 * (n - 1)
    ensures Sec(span) - (n - 2) <= total <= Sec(span)
  {
  }

  /** Without a prior, `n >= 2` rows account for the item's whole history up to `n - 2` seconds of rounding. */
  lemma DwellsSumToSpan(rs: seq<Revision>, k: Key)
    requires OfItem(rs, k) != []
    ensures var rows := RowsOf(Build(rs, map[]), k);
            var s := SortByTime(OfItem(rs, k));
            && s != [] && PrevAfter(s, None).Some?
            && var span := PrevAfter(s, None).value.changedAtMs - s[0].changedAtMs;
            && (|rows| == 1 ==> Dwell(rows) == 0)
            && (|rows| >= 2 ==> Sec(span) - (|rows| - 2) <= Dwell(rows) <= Sec(span))
  {
    hide Build, RowsOf, Emit, PrevAfter, Dwell, Sec, SortByTime, OfItem;
    var s := SortByTime(OfItem(rs, k));
    BuildPerItem(rs, map[], k);
    SortedRevisions(OfItem(rs, k));
    DwellLoss(s);
    var span := PrevAfter(s, None).value.changedAtMs - s[0].changedAtMs;
    if |Emit(s, None)| >= 2 { FloorBounds(Dwell(Emit(s, None)), span, |Emit(s, None)|); }
  }

  // ---- Input order ----

  lemma {:induction false} RowsCount(rows: seq<Row>, x: Row)
    ensures multiset(rows)[x] == multiset(RowsOf(rows, RowKey(x)))[x]
  {
    if rows != [] {
      RowsCount(rows[..|rows| - 1], x);
      assert rows == rows[..|rows| - 1] + [rows[|rows| - 1]];
    }
  }

  lemma {:induction false} ItemCount(rs: seq<Revision>, k: Key, r: Revision)
    ensures multiset(OfItem(rs, k))[r] == if KeyOf(r) == k then multiset(rs)[r] else 0
  {
    if rs != [] {
      ItemCount(rs[..|rs| - 1], k, r);
      assert rs == rs[..|rs| - 1] + [rs[|rs| - 1]];
    }
  }

  lemma DistinctOnce(a: seq<Revision>, i: int)
    requires DistinctTimes(a) && 0 <= i < |a|
    ensures multiset(a)[a[i]] == 1
  {
    assert a == a[..i] + [a[i]] + a[i + 1..];
    assert a[i] !in a[..i] && a[i] !in a[i + 1..];
  }

  lemma TwiceCounts(b: seq<Revision>, i: int, j: int)
    requires 0 <= i < j < |b| && b[i] == b[j]
    ensures multiset(b)[b[i]] >= 2
  {
    assert b == b[..j] + [b[j]] + b[j + 1..];
    assert b[i] in b[..j];
  }

  lemma DistinctPermutes(a: seq<Revision>, b: seq<Revision>)
    requires DistinctTimes(a) && multiset(a) == multiset(b)
    ensures DistinctTimes(b)
  {
    forall i, j | 0 <= i < j < |b| ensures b[i].changedAtMs != b[j].changedAtMs {
      assert b[i] in multiset(a) && b[j] in multiset(a);
      var x :| 0 <= x < |a| && a[x] == b[i];
      var y :| 0 <= y < |a| && a[y] == b[j];
      if x == y {
        TwiceCounts(b, i, j);
        DistinctOnce(a, x);
      }
    }
  }

  lemma ItemOrder(a: seq<Revision>, b: seq<Revision>, k: Key)
    requires multiset(a) == multiset(b) && DistinctTimes(OfItem(a, k))
    ensures SortByTime(OfItem(a, k)) == SortByTime(OfItem(b, k))
  {
    forall r ensures multiset(OfItem(a, k))[r] == multiset(OfItem(b, k))[r] {
      ItemCount(a, k, r);
      ItemCount(b, k, r);
    }
    var x, y := OfItem(a, k), OfItem(b, k);
    assert multiset(x) == multiset(y);
    TimeOrders();
    hide OfItem, Preorder;
    SortSorts(x, ByTime);
    SortSorts(y, ByTime);
    DistinctPermutes(x, SortByTime(x));
    assert Strict(SortByTime(x), ByTime);
    OrderIsUnique(SortByTime(x), SortByTime(y), ByTime);
  }

  /** With no two revisions of an item at one instant, the rows do not depend on the order of the input. */
  lemma InputOrderDoesNotMatter(a: seq<Revision>, b: seq<Revision>, priors: map<Key, Prior>)
    requires multiset(a) == multiset(b) && forall k :: DistinctTimes(OfItem(a, k))
    ensures multiset(Build(a, priors)) == multiset(Build(b, priors))
  {
    hide Build, RowsOf, OfItem, SortByTime, DistinctTimes;
    forall x: Row ensures multiset(Build(a, priors))[x] == multiset(Build(b, priors))[x] {
      var k := RowKey(x);
      assert DistinctTimes(OfItem(a, k));
      ItemOrder(a, b, k);
      BuildPerItem(a, priors, k);
      BuildPerItem(b, priors, k);
      RowsCount(Build(a, priors), x);
      RowsCount(Build(b, priors), x);
    }
  }
}
