/** Removal, deletion and purge bookkeeping (apps/worker/src/jira-promote.service.ts). */
module JiraDeletion {
  import opened Sequences
  import opened Wrappers

  const MAX_DELETION_PROBES_PER_RUN: nat := 200
  const MASS_DELETION_FLOOR: nat := 20

  /** A board and a Jira project key on it. */
  datatype Place = Place(boardId: string, projectKey: string)

  /** A row of the board; its id is its position in the table. */
  datatype Row = Row(
    place: Place,
    jiraKey: Option<string>,
    jiraType: string,
    removed: bool,
    deletedAt: Option<int>,
    purgedAt: Option<int>)

  /** An entry of `payload.epics` or of `payload.issues`. */
  datatype Item = Item(key: string, projectKey: string, jiraType: string, epic: bool)

  datatype Existence = Exists | Deleted | Unknown

  datatype Source = Source(
    place: Place,
    instanceId: string,
    skipped: bool,
    allowedTypes: set<string>,
    excludedKeys: set<string>,
    allowedKeys: Option<set<string>>)

  /** How the purge at the end of a run goes. */
  datatype Purge = NoPurge | PurgeThrows | StampThrows | PurgeDone

  /**
   * `verify` holds what a probe of each key answers; without it there is no deletion detection. `stops` says after
   * how many of a board's deletions a database call throws, where one does.
   */
  datatype Options = Options(
    instanceId: string,
    syncedProjectKeys: Option<set<string>>,
    verify: Option<map<string, Existence>>,
    allowMassDeletion: bool,
    purge: Purge,
    stops: map<Place, nat>,
    now: int)

  datatype Target = Target(id: nat, jiraKey: string)

  // ---- The payload ----

  function PayloadKeys(payload: seq<Item>, projectKey: string): set<string> {
    set i | 0 <= i < |payload| && payload[i].projectKey == projectKey :: payload[i].key
  }

  predicate Promotable(item: Item, s: Source) {
    && item.projectKey == s.place.projectKey
    && (if item.epic then "Epic" in s.allowedTypes else item.jiraType != "Epic" && item.jiraType in s.allowedTypes)
    && item.key !in s.excludedKeys
    && (s.allowedKeys.None? || item.key in s.allowedKeys.value)
  }

  // ---- Rows ----

  /** The row of `place` with this key among the first `n`. */
  function Find(rows: seq<Row>, n: nat, place: Place, key: string): (r: Option<nat>)
    requires n <= |rows|
    ensures r.Some? ==> r.value < n && rows[r.value].place == place && rows[r.value].jiraKey == Some(key)
  {
    if n == 0 then None
    else if rows[n - 1].place == place && rows[n - 1].jiraKey == Some(key) then Some(n - 1)
    else Find(rows, n - 1, place, key)
  }

  predicate Within(ids: seq<nat>, n: nat) {
    forall j :: 0 <= j < |ids| ==> ids[j] < n
  }

  function Existing(rows: seq<Row>, place: Place): (r: seq<nat>)
    ensures Within(r, |rows|)
  {
    ExistingBelow(rows, |rows|, place)
  }

  function ExistingBelow(rows: seq<Row>, n: nat, place: Place): (r: seq<nat>)
    requires n <= |rows|
    ensures Within(r, n)
    ensures forall i: nat :: i in r <==> i < n && rows[i].place == place
  {
    if n == 0 then []
    else ExistingBelow(rows, n - 1, place) + if rows[n - 1].place == place then [n - 1] else []
  }

  /** What is fixed about every row outside the deletion pass. */
  ghost predicate Preserves(rows: seq<Row>, z: seq<Row>) {
    && |rows| <= |z|
    && (forall i :: 0 <= i < |rows| ==> z[i] == rows[i].(removed := z[i].removed))
    && (forall i :: |rows| <= i < |z| ==> z[i].deletedAt.None? && z[i].purgedAt.None?)
  }

  /** One promoted item: `n` is the size of the table when the board was read. `None` where the database throws. */
  function PromoteItem(rows: seq<Row>, n: nat, item: Item, s: Source): (z: Option<seq<Row>>)
    requires n <= |rows|
    ensures z.Some? ==> Preserves(rows, z.value)
  {
    var existing := Find(rows, n, s.place, item.key);
    if existing.Some? then Some(rows[existing.value := rows[existing.value].(removed := false)])
    else if Find(rows, |rows|, s.place, item.key).Some? then None
    else Some(rows + [Row(s.place, Some(item.key), if item.epic then "Epic" else item.jiraType, false, None, None)])
  }

  lemma PreservesAgain(rows: seq<Row>, y: seq<Row>, z: seq<Row>)
    requires Preserves(rows, y) && Preserves(y, z)
    ensures Preserves(rows, z)
  {
    forall i | |rows| <= i < |z| ensures z[i].deletedAt.None? && z[i].purgedAt.None? {
      if i < |y| { assert z[i] == y[i].(removed := z[i].removed); }
    }
  }

  /** The rows after the items so far, and whether every database call went through. */
  datatype Promotion = Promotion(rows: seq<Row>, ok: bool)

  function PromoteItems(rows: seq<Row>, items: seq<Item>, s: Source): (z: Promotion)
    ensures Preserves(rows, z.rows)
  {
    if items == [] then Promotion(rows, true)
    else
      var y := PromoteItems(rows, items[..|items| - 1], s);
      var item := items[|items| - 1];
      if !y.ok || !Promotable(item, s) then y
      else
        var z := PromoteItem(y.rows, |rows|, item, s);
        if z.None? then y.(ok := false)
        else
          PreservesAgain(rows, y.rows, z.value);
          Promotion(z.value, true)
  }

  function SeenKeys(items: seq<Item>, s: Source): set<string> {
    set i | 0 <= i < |items| && Promotable(items[i], s) :: items[i].key
  }

  /** `jiraKey: { notIn: seenKeys }` does not match a row without a key. */
  predicate DropsOut(row: Row, s: Source, seen: set<string>) {
    row.place == s.place && row.jiraType in s.allowedTypes && row.jiraKey.Some? && row.jiraKey.value !in seen
  }

  function MarkRemoved(rows: seq<Row>, s: Source, seen: set<string>): (z: seq<Row>)
    ensures Preserves(rows, z)
  {
    seq(|rows|, i requires 0 <= i < |rows| => if DropsOut(rows[i], s, seen) then rows[i].(removed := true) else rows[i])
  }

  // ---- Deletion ----

  predicate InDeletionScope(s: Source, o: Options) {
    (o.syncedProjectKeys.None? || s.place.projectKey in o.syncedProjectKeys.value) && o.instanceId == s.instanceId
  }

  predicate Unpurged(row: Row) {
    row.jiraKey.Some? && row.jiraKey.value != "" && row.deletedAt.Some? && row.purgedAt.None?
  }

  function Outstanding(rows: seq<Row>, ids: seq<nat>): seq<Target>
    requires Within(ids, |rows|)
  {
    if ids == [] then []
    else
      var i := ids[|ids| - 1];
      Outstanding(rows, ids[..|ids| - 1]) + if Unpurged(rows[i]) then [Target(i, rows[i].jiraKey.value)] else []
  }

  predicate IsCandidate(row: Row, payloadKeys: set<string>) {
    row.jiraKey.Some? && row.deletedAt.None? && row.jiraKey.value !in payloadKeys
  }

  function Candidates(rows: seq<Row>, ids: seq<nat>, payloadKeys: set<string>): seq<Target>
    requires Within(ids, |rows|)
  {
    if ids == [] then []
    else
      var i := ids[|ids| - 1];
      Candidates(rows, ids[..|ids| - 1], payloadKeys)
      + if IsCandidate(rows[i], payloadKeys) then [Target(i, rows[i].jiraKey.value)] else []
  }

  predicate KeyLeq(a: string, b: string) {
    a == "" || (b != "" && (a[0] < b[0] || (a[0] == b[0] && KeyLeq(a[1..], b[1..]))))
  }

  predicate ByKey(a: Target, b: Target) {
    KeyLeq(a.jiraKey, b.jiraKey)
  }

  function Probing(candidates: seq<Target>): seq<Target> {
    var sorted := Sort(candidates, ByKey);
    if MAX_DELETION_PROBES_PER_RUN < |sorted| then sorted[..MAX_DELETION_PROBES_PER_RUN] else sorted
  }

  predicate ConfirmedGone(verify: map<string, Existence>, key: string) {
    key in verify && verify[key] == Deleted
  }

  function Gone(probing: seq<Target>, verify: map<string, Existence>): seq<Target> {
    if probing == [] then []
    else
      Gone(probing[..|probing| - 1], verify)
      + if ConfirmedGone(verify, probing[|probing| - 1].jiraKey) then [probing[|probing| - 1]] else []
  }

  function SyncedRows(rows: seq<Row>, ids: seq<nat>): nat
    requires Within(ids, |rows|)
  {
    if ids == [] then 0
    else SyncedRows(rows, ids[..|ids| - 1]) + if rows[ids[|ids| - 1]].jiraKey.Some? then 1 else 0
  }

  /** `gone > synced * 0.5`, and at least the floor. */
  predicate Withheld(gone: nat, synced: nat, o: Options) {
    !o.allowMassDeletion && gone >= MASS_DELETION_FLOOR && 2 * gone > synced
  }

  /** The deletions one board source confirms in a run, from the rows as they were read. */
  function Confirmed(rows: seq<Row>, ids: seq<nat>, payloadKeys: set<string>, o: Options): seq<Target>
    requires Within(ids, |rows|)
  {
    if o.verify.None? then []
    else
      var gone := Gone(Probing(Candidates(rows, ids, payloadKeys)), o.verify.value);
      if Withheld(|gone|, SyncedRows(rows, ids), o) then [] else gone
  }

  function MarkDeleted(rows: seq<Row>, confirmed: seq<Target>, now: int): (z: seq<Row>)
    ensures |z| == |rows|
  {
    if confirmed == [] then rows
    else
      var y := MarkDeleted(rows, confirmed[..|confirmed| - 1], now);
      var t := confirmed[|confirmed| - 1];
      if t.id < |y| then y[t.id := y[t.id].(removed := true, deletedAt := Some(now))] else y
  }

  /** Whether the deletions of a board are cut short: only one that has something to delete can throw. */
  predicate Stopped(place: Place, confirmed: seq<Target>, o: Options) {
    confirmed != [] && place in o.stops && o.stops[place] <= |confirmed|
  }

  /** The deletions that are written before a database call throws: all of them, unless one does. */
  function Written(place: Place, confirmed: seq<Target>, o: Options): seq<Target> {
    if Stopped(place, confirmed, o) then confirmed[..o.stops[place]] else confirmed
  }

  // ---- A run ----

  /** What one board source leaves: the rows, what it adds to the purge list, and whether it went through. */
  datatype Visit = Visit(rows: seq<Row>, targets: seq<Target>, marked: seq<Target>, ok: bool)

  function VisitSource(rows: seq<Row>, s: Source, payload: seq<Item>, o: Options): Visit {
    var ids := Existing(rows, s.place);
    var keys := PayloadKeys(payload, s.place.projectKey);
    var outstanding := if InDeletionScope(s, o) then Outstanding(rows, ids) else [];
    if s.skipped then Visit(rows, [], [], true)
    else if keys == {} && ids != [] then Visit(rows, outstanding, [], true)
    else
      var promoted := PromoteItems(rows, payload, s);
      if !promoted.ok then Visit(promoted.rows, [], [], false)
      else
        var swept := MarkRemoved(promoted.rows, s, SeenKeys(payload, s));
        var confirmed := if InDeletionScope(s, o) then Confirmed(rows, ids, keys, o) else [];
        var marked := Written(s.place, confirmed, o);
        Visit(MarkDeleted(swept, marked, o.now), outstanding + marked, marked, !Stopped(s.place, confirmed, o))
  }

  /** The sources in order; one that throws ends the run before the purge. */
  function VisitAll(
    rows: seq<Row>, sources: seq<Source>, payload: seq<Item>, o: Options): (seq<Row>, seq<Target>, bool) {
    if sources == [] then (rows, [], true)
    else
      var (y, targets, ok) := VisitAll(rows, sources[..|sources| - 1], payload, o);
      if !ok then (y, targets, false)
      else
        var v := VisitSource(y, sources[|sources| - 1], payload, o);
        (v.rows, targets + v.targets, v.ok)
  }

  function Stamp(rows: seq<Row>, targets: seq<Target>, now: int): (z: seq<Row>)
    ensures |z| == |rows|
  {
    seq(|rows|, i requires 0 <= i < |rows| =>
      if exists t :: t in targets && t.id == i then rows[i].(purgedAt := Some(now)) else rows[i])
  }

  /** The table, and every key whose analytics rows have been dropped at some time. */
  datatype Store = Store(rows: seq<Row>, purged: set<string>)

  function KeysOf(targets: seq<Target>): set<string> {
    set t | t in targets :: t.jiraKey
  }

  function PurgeAnalytics(d: Store, targets: seq<Target>, o: Options): Store {
    if targets == [] || o.purge.NoPurge? || o.purge.PurgeThrows? then d
    else if o.purge.StampThrows? then d.(purged := d.purged + KeysOf(targets))
    else Store(Stamp(d.rows, targets, o.now), d.purged + KeysOf(targets))
  }

  datatype Run = Run(sources: seq<Source>, payload: seq<Item>, options: Options)

  function PromoteAll(d: Store, r: Run): Store {
    var (rows, targets, ok) := VisitAll(d.rows, r.sources, r.payload, r.options);
    if ok then PurgeAnalytics(d.(rows := rows), targets, r.options) else d.(rows := rows)
  }

  // ---- The deletion pass ----

  ghost predicate Listed(rows: seq<Row>, payloadKeys: set<string>, ids: seq<nat>, t: Target) {
    t.id in ids && t.id < |rows| && IsCandidate(rows[t.id], payloadKeys) && rows[t.id].jiraKey == Some(t.jiraKey)
  }

  lemma {:induction false} CandidatesListed(rows: seq<Row>, ids: seq<nat>, payloadKeys: set<string>)
    requires Within(ids, |rows|)
    ensures forall t :: t in Candidates(rows, ids, payloadKeys) <==> Listed(rows, payloadKeys, ids, t)
  {
    if ids != [] {
      CandidatesListed(rows, ids[..|ids| - 1], payloadKeys);
      assert ids == ids[..|ids| - 1] + [ids[|ids| - 1]];
      hide IsCandidate;
    }
  }

  lemma {:induction false} KeyLeqTotal(a: string, b: string)
    ensures KeyLeq(a, b) || KeyLeq(b, a)
    decreases |a|
  {
    if a != "" && b != "" { KeyLeqTotal(a[1..], b[1..]); }
  }

  lemma {:induction false} KeyLeqTransitive(a: string, b: string, c: string)
    requires KeyLeq(a, b) && KeyLeq(b, c)
    ensures KeyLeq(a, c)
    decreases |a|
  {
    if a != "" && a[0] == b[0] && b[0] == c[0] { KeyLeqTransitive(a[1..], b[1..], c[1..]); }
  }

  lemma KeyOrders()
    ensures Preorder(ByKey)
  {
    forall a: Target, b: Target ensures ByKey(a, b) || ByKey(b, a) { KeyLeqTotal(a.jiraKey, b.jiraKey); }
    forall a: Target, b: Target, c: Target | ByKey(a, b) && ByKey(b, c) ensures ByKey(a, c) {
      KeyLeqTransitive(a.jiraKey, b.jiraKey, c.jiraKey);
    }
  }

  lemma {:induction false} GoneMembers(probing: seq<Target>, verify: map<string, Existence>)
    ensures forall t :: t in Gone(probing, verify) <==> t in probing && ConfirmedGone(verify, t.jiraKey)
    ensures |Gone(probing, verify)| <= |probing|
  {
    if probing != [] {
      GoneMembers(probing[..|probing| - 1], verify);
      assert probing == probing[..|probing| - 1] + [probing[|probing| - 1]];
      hide ConfirmedGone;
    }
  }

  lemma ProbingMembers(candidates: seq<Target>)
    ensures |Probing(candidates)| <= MAX_DELETION_PROBES_PER_RUN
    ensures forall t :: t in Probing(candidates) ==> t in candidates
    ensures |candidates| <= MAX_DELETION_PROBES_PER_RUN ==>
              |Probing(candidates)| == |candidates| && forall t :: t in candidates ==> t in Probing(candidates)
  {
    KeyOrders();
    SortMembers(candidates, ByKey);
    hide Sort;
  }

  /**
   * What one board source confirms in a run: only rows whose key is absent from the payload and whose own probe said
   * deleted, at most 200 of them, and unless overridden fewer than 20 or at most half of the synced rows.
   */
  lemma ConfirmedIsSound(rows: seq<Row>, ids: seq<nat>, payloadKeys: set<string>, o: Options)
    requires Within(ids, |rows|)
    ensures var c := Confirmed(rows, ids, payloadKeys, o);
            && (c != [] ==> o.verify.Some?)
            && (forall t :: t in c ==> Listed(rows, payloadKeys, ids, t) && ConfirmedGone(o.verify.value, t.jiraKey))
            && |c| <= MAX_DELETION_PROBES_PER_RUN
            && (o.allowMassDeletion || |c| < MASS_DELETION_FLOOR || 2 * |c| <= SyncedRows(rows, ids))
  {
    CandidatesListed(rows, ids, payloadKeys);
    ProbingMembers(Candidates(rows, ids, payloadKeys));
    if o.verify.Some? { GoneMembers(Probing(Candidates(rows, ids, payloadKeys)), o.verify.value); }
    hide Candidates, Probing, Gone, SyncedRows, Listed, ConfirmedGone;
  }

  /** With few enough candidates and no mass deletion, exactly the rows that are gone are confirmed. */
  lemma ConfirmedIsComplete(rows: seq<Row>, ids: seq<nat>, payloadKeys: set<string>, o: Options, t: Target)
    requires Within(ids, |rows|) && o.verify.Some?
    requires |Candidates(rows, ids, payloadKeys)| <= MAX_DELETION_PROBES_PER_RUN
    requires o.allowMassDeletion || |Candidates(rows, ids, payloadKeys)| < MASS_DELETION_FLOOR
    ensures t in Confirmed(rows, ids, payloadKeys, o)
            <==> Listed(rows, payloadKeys, ids, t) && ConfirmedGone(o.verify.value, t.jiraKey)
  {
    var candidates := Candidates(rows, ids, payloadKeys);
    CandidatesListed(rows, ids, payloadKeys);
    ProbingMembers(candidates);
    GoneMembers(Probing(candidates), o.verify.value);
    hide Candidates, Probing, Gone, SyncedRows, Listed, ConfirmedGone;
  }

  lemma {:induction false} MarkDeletedRows(rows: seq<Row>, confirmed: seq<Target>, now: int)
    ensures var z := MarkDeleted(rows, confirmed, now);
            forall i :: 0 <= i < |rows| ==>
              z[i] == if exists t :: t in confirmed && t.id == i
                      then rows[i].(removed := true, deletedAt := Some(now)) else rows[i]
  {
    if confirmed != [] {
      MarkDeletedRows(rows, confirmed[..|confirmed| - 1], now);
      assert confirmed == confirmed[..|confirmed| - 1] + [confirmed[|confirmed| - 1]];
    }
  }

  /** A candidate that is left for a later run comes after every one that is probed in this one. */
  lemma ProbedComeFirst(candidates: seq<Target>, p: Target, later: Target)
    requires p in Probing(candidates) && later in candidates && later !in Probing(candidates)
    ensures KeyLeq(p.jiraKey, later.jiraKey)
    ensures |Probing(candidates)| == MAX_DELETION_PROBES_PER_RUN
  {
    var sorted := Sort(candidates, ByKey);
    KeyOrders();
    SortSorts(candidates, ByKey);
    SortMembers(candidates, ByKey);
    hide Sort, KeyLeq, Preorder;
    var n := MAX_DELETION_PROBES_PER_RUN;
    if |sorted| <= n {
      assert false;
    } else {
      var i :| 0 <= i < n && sorted[..n][i] == p;
      var j :| 0 <= j < |sorted| && sorted[j] == later;
      assert forall k :: 0 <= k < n ==> sorted[..n][k] == sorted[k];
      assert ByKey(sorted[i], sorted[j]);
    }
  }

  // ---- One run ----

  /** Why a run may mark a row deleted. */
  ghost predicate Justifies(s: Source, row: Row, payload: seq<Item>, o: Options) {
    && !s.skipped && InDeletionScope(s, o) && s.place == row.place
    && row.jiraKey.Some? && PayloadKeys(payload, s.place.projectKey) != {}
    && row.jiraKey.value !in PayloadKeys(payload, s.place.projectKey)
    && o.verify.Some? && ConfirmedGone(o.verify.value, row.jiraKey.value)
  }

  ghost predicate Justified(row: Row, sources: seq<Source>, payload: seq<Item>, o: Options) {
    exists s :: s in sources && Justifies(s, row, payload, o)
  }

  predicate WasDeleted(rows: seq<Row>, i: nat) {
    i < |rows| && rows[i].deletedAt.Some?
  }

  ghost predicate SameRow(a: Row, b: Row) {
    a.place == b.place && a.jiraKey == b.jiraKey && a.jiraType == b.jiraType && a.purgedAt == b.purgedAt
  }

  /** How rows may change before the purge of a run. */
  ghost predicate Moves(rows: seq<Row>, z: seq<Row>, sources: seq<Source>, payload: seq<Item>, o: Options) {
    && |rows| <= |z|
    && (forall i :: 0 <= i < |rows| ==> SameRow(rows[i], z[i]))
    && (forall i :: 0 <= i < |rows| && rows[i].deletedAt.Some? ==> z[i].deletedAt == rows[i].deletedAt)
    && (forall i :: |rows| <= i < |z| ==> z[i].purgedAt.None?)
    && (forall i: nat :: i < |z| && z[i].deletedAt.Some? && !WasDeleted(rows, i) ==>
          z[i].deletedAt == Some(o.now) && Justified(z[i], sources, payload, o))
  }

  ghost predicate GoodTarget(z: seq<Row>, t: Target) {
    t.id < |z| && z[t.id].jiraKey == Some(t.jiraKey) && z[t.id].deletedAt.Some?
  }

  ghost predicate Targets(z: seq<Row>, targets: seq<Target>) {
    forall t :: t in targets ==> GoodTarget(z, t)
  }

  lemma {:induction false} OutstandingMembers(rows: seq<Row>, ids: seq<nat>)
    requires Within(ids, |rows|)
    ensures forall t :: t in Outstanding(rows, ids) <==>
              t.id in ids && t.id < |rows| && Unpurged(rows[t.id]) && rows[t.id].jiraKey == Some(t.jiraKey)
  {
    if ids != [] {
      OutstandingMembers(rows, ids[..|ids| - 1]);
      assert ids == ids[..|ids| - 1] + [ids[|ids| - 1]];
      hide Unpurged;
    }
  }

  lemma DeletionMoves(rows: seq<Row>, swept: seq<Row>, c: seq<Target>, s: Source, payload: seq<Item>, o: Options)
    requires Preserves(rows, swept)
    requires forall t :: t in c ==> t.id < |rows| && rows[t.id].deletedAt.None? && Justifies(s, rows[t.id], payload, o)
    ensures Moves(rows, MarkDeleted(swept, c, o.now), [s], payload, o)
  {
    var z := MarkDeleted(swept, c, o.now);
    MarkDeletedRows(swept, c, o.now);
    hide MarkDeleted;
    forall i: nat | i < |z| && z[i].deletedAt.Some? && !WasDeleted(rows, i)
      ensures z[i].deletedAt == Some(o.now) && Justified(z[i], [s], payload, o)
    {
      var t :| t in c && t.id == i;
      assert Justifies(s, z[i], payload, o);
      assert s in [s];
    }
  }

  lemma ConfirmedJustified(rows: seq<Row>, s: Source, payload: seq<Item>, o: Options, t: Target)
    requires !s.skipped && InDeletionScope(s, o)
    requires !(PayloadKeys(payload, s.place.projectKey) == {} && Existing(rows, s.place) != [])
    requires t in Confirmed(rows, Existing(rows, s.place), PayloadKeys(payload, s.place.projectKey), o)
             || t in Written(s.place,
                 Confirmed(rows, Existing(rows, s.place), PayloadKeys(payload, s.place.projectKey), o), o)
    ensures t.id < |rows| && rows[t.id].deletedAt.None? && Justifies(s, rows[t.id], payload, o)
    ensures rows[t.id].jiraKey == Some(t.jiraKey)
  {
    var ids, keys := Existing(rows, s.place), PayloadKeys(payload, s.place.projectKey);
    ConfirmedIsSound(rows, ids, keys, o);
    hide Confirmed, PayloadKeys, SyncedRows;
    assert Listed(rows, keys, ids, t);
  }

  lemma PreservedMoves(rows: seq<Row>, swept: seq<Row>, sources: seq<Source>, payload: seq<Item>, o: Options)
    requires Preserves(rows, swept)
    ensures Moves(rows, swept, sources, payload, o)
  {
    hide Justified;
  }

  lemma SweepPreserves(rows: seq<Row>, s: Source, payload: seq<Item>)
    ensures Preserves(rows, MarkRemoved(PromoteItems(rows, payload, s).rows, s, SeenKeys(payload, s)))
  {
    PreservesAgain(rows, PromoteItems(rows, payload, s).rows,
                   MarkRemoved(PromoteItems(rows, payload, s).rows, s, SeenKeys(payload, s)));
  }

  /** Whatever a board source does, only a justified row is marked deleted, and marks are never taken back. */
  lemma VisitMoves(rows: seq<Row>, s: Source, payload: seq<Item>, o: Options)
    ensures Moves(rows, VisitSource(rows, s, payload, o).rows, [s], payload, o)
  {
    var v := VisitSource(rows, s, payload, o);
    var ids, keys := Existing(rows, s.place), PayloadKeys(payload, s.place.projectKey);
    if s.skipped || (keys == {} && ids != []) {
      PreservedMoves(rows, rows, [s], payload, o);
    } else if !PromoteItems(rows, payload, s).ok {
      PreservedMoves(rows, PromoteItems(rows, payload, s).rows, [s], payload, o);
    } else {
      SweepPreserves(rows, s, payload);
      hide Moves, Preserves, MarkRemoved, PromoteItems, Justifies, Outstanding;
      forall t | t in v.marked
        ensures t.id < |rows| && rows[t.id].deletedAt.None? && Justifies(s, rows[t.id], payload, o)
      {
        ConfirmedJustified(rows, s, payload, o, t);
      }
      hide Confirmed;
      DeletionMoves(rows, MarkRemoved(PromoteItems(rows, payload, s).rows, s, SeenKeys(payload, s)),
                    v.marked, s, payload, o);
    }
  }

  /**
   * The rows a visit marks deleted are the listed ones, no more and no fewer, and there is a cap on them. In a visit
   * that goes through the list is all that was confirmed, and where the database throws it is a beginning of it.
   */
  lemma VisitMarksExactly(rows: seq<Row>, s: Source, payload: seq<Item>, o: Options, i: nat)
    requires i < |rows| && rows[i].deletedAt.None?
    ensures var v := VisitSource(rows, s, payload, o);
            && |v.rows| >= |rows|
            && (v.rows[i].deletedAt.Some? <==> exists t :: t in v.marked && t.id == i)
            && |v.marked| <= MAX_DELETION_PROBES_PER_RUN
            && (o.allowMassDeletion || |v.marked| < MASS_DELETION_FLOOR
                || 2 * |v.marked| <= SyncedRows(rows, Existing(rows, s.place)))
    ensures var v := VisitSource(rows, s, payload, o);
            var keys := PayloadKeys(payload, s.place.projectKey);
            !s.skipped && !(keys == {} && Existing(rows, s.place) != []) && InDeletionScope(s, o) ==>
              && v.marked <= Confirmed(rows, Existing(rows, s.place), keys, o)
              && (v.ok ==> v.marked == Confirmed(rows, Existing(rows, s.place), keys, o))
  {
    var v := VisitSource(rows, s, payload, o);
    ConfirmedIsSound(rows, Existing(rows, s.place), PayloadKeys(payload, s.place.projectKey), o);
    SweepPreserves(rows, s, payload);
    var swept := MarkRemoved(PromoteItems(rows, payload, s).rows, s, SeenKeys(payload, s));
    MarkDeletedRows(swept, v.marked, o.now);
    hide Confirmed, MarkRemoved, PromoteItems, PayloadKeys, Outstanding, SyncedRows, Existing, MarkDeleted;
  }

  lemma JustifiedMore(row: Row, a: seq<Source>, b: seq<Source>, payload: seq<Item>, o: Options)
    requires Justified(row, a, payload, o) && forall s :: s in a ==> s in b
    ensures Justified(row, b, payload, o)
  {
    var s :| s in a && Justifies(s, row, payload, o);
    assert s in b;
  }

  lemma MovesCompose(
    rows: seq<Row>, y: seq<Row>, z: seq<Row>, a: seq<Source>, s: Source, payload: seq<Item>, o: Options)
    requires Moves(rows, y, a, payload, o) && Moves(y, z, [s], payload, o)
    ensures Moves(rows, z, a + [s], payload, o)
  {
    forall i: nat | i < |z| && z[i].deletedAt.Some? && !WasDeleted(rows, i)
      ensures z[i].deletedAt == Some(o.now) && Justified(z[i], a + [s], payload, o)
    {
      if WasDeleted(y, i) {
        assert Justified(y[i], a, payload, o);
        SameJustified(y[i], z[i], a, payload, o);
        JustifiedMore(z[i], a, a + [s], payload, o);
      } else {
        JustifiedMore(z[i], [s], a + [s], payload, o);
      }
    }
    hide Justified;
    forall i | |rows| <= i < |z| ensures z[i].purgedAt.None? {
      if i < |y| { assert SameRow(y[i], z[i]); }
    }
    forall i | 0 <= i < |rows| ensures SameRow(rows[i], z[i]) {
      assert SameRow(rows[i], y[i]) && SameRow(y[i], z[i]);
    }
  }

  lemma SameJustified(a: Row, b: Row, sources: seq<Source>, payload: seq<Item>, o: Options)
    requires SameRow(a, b) && Justified(a, sources, payload, o)
    ensures Justified(b, sources, payload, o)
  {
    var s :| s in sources && Justifies(s, a, payload, o);
    assert Justifies(s, b, payload, o);
  }

  lemma {:induction false} RunMoves(rows: seq<Row>, sources: seq<Source>, payload: seq<Item>, o: Options)
    ensures Moves(rows, VisitAll(rows, sources, payload, o).0, sources, payload, o)
  {
    if sources == [] {
      PreservedMoves(rows, rows, [], payload, o);
    } else {
      var init, s := sources[..|sources| - 1], sources[|sources| - 1];
      assert sources == init + [s];
      RunMoves(rows, init, payload, o);
      var y := VisitAll(rows, init, payload, o).0;
      PreservedMoves(y, y, [s], payload, o);
      VisitMoves(y, s, payload, o);
      hide Moves, VisitSource;
      MovesCompose(rows, y, VisitAll(rows, sources, payload, o).0, init, s, payload, o);
    }
  }

  // ---- The purge list ----

  /** A row whose purge is outstanding and which the run may look at. */
  ghost predicate Retries(rows: seq<Row>, i: nat, sources: seq<Source>, o: Options) {
    i < |rows| && Unpurged(rows[i])
    && exists s :: s in sources && !s.skipped && InDeletionScope(s, o) && s.place == rows[i].place
  }

  ghost predicate Targeted(targets: seq<Target>, i: nat) {
    exists t :: t in targets && t.id == i
  }

  lemma TargetsKept(
    rows: seq<Row>, z: seq<Row>, sources: seq<Source>, payload: seq<Item>, o: Options, targets: seq<Target>)
    requires Moves(rows, z, sources, payload, o) && Targets(rows, targets)
    ensures Targets(z, targets)
  {
    hide Justified;
    forall t | t in targets ensures GoodTarget(z, t) {
      assert GoodTarget(rows, t);
      assert SameRow(rows[t.id], z[t.id]);
    }
  }

  lemma OutstandingTargets(rows: seq<Row>, s: Source)
    ensures Targets(rows, Outstanding(rows, Existing(rows, s.place)))
    ensures forall i: nat :: i < |rows| && rows[i].place == s.place && Unpurged(rows[i]) ==>
              Targeted(Outstanding(rows, Existing(rows, s.place)), i)
  {
    var ids := Existing(rows, s.place);
    OutstandingMembers(rows, ids);
    hide Outstanding;
    forall i: nat | i < |rows| && rows[i].place == s.place && Unpurged(rows[i])
      ensures Targeted(Outstanding(rows, ids), i)
    {
      assert Target(i, rows[i].jiraKey.value) in Outstanding(rows, ids);
    }
  }

  /** The purge list of one visit: rows that are marked deleted, the outstanding ones among them. */
  lemma VisitTargets(rows: seq<Row>, s: Source, payload: seq<Item>, o: Options)
    ensures var v := VisitSource(rows, s, payload, o);
            && Targets(v.rows, v.targets)
            && (v.ok ==> forall i: nat :: Retries(rows, i, [s], o) ==> Targeted(v.targets, i))
  {
    var v := VisitSource(rows, s, payload, o);
    VisitMoves(rows, s, payload, o);
    OutstandingTargets(rows, s);
    var ids, keys := Existing(rows, s.place), PayloadKeys(payload, s.place.projectKey);
    var outstanding := Outstanding(rows, ids);
    hide Outstanding, Moves;
    TargetsKept(rows, v.rows, [s], payload, o, outstanding);
    forall t | t in v.targets ensures GoodTarget(v.rows, t) {
      if t !in outstanding { ConfirmedTarget(rows, s, payload, o, t); }
    }
    forall i: nat | v.ok && Retries(rows, i, [s], o) ensures Targeted(v.targets, i) {
      assert Targeted(outstanding, i);
      var t :| t in outstanding && t.id == i;
      assert t in v.targets;
    }
  }

  lemma ConfirmedTarget(rows: seq<Row>, s: Source, payload: seq<Item>, o: Options, t: Target)
    requires t in VisitSource(rows, s, payload, o).marked
    ensures GoodTarget(VisitSource(rows, s, payload, o).rows, t)
  {
    var v := VisitSource(rows, s, payload, o);
    ConfirmedJustified(rows, s, payload, o, t);
    SweepPreserves(rows, s, payload);
    var swept := MarkRemoved(PromoteItems(rows, payload, s).rows, s, SeenKeys(payload, s));
    MarkDeletedRows(swept, v.marked, o.now);
    hide Confirmed, MarkRemoved, PromoteItems, Justifies, PayloadKeys, Outstanding;
    assert v.rows == MarkDeleted(swept, v.marked, o.now);
  }

  lemma RetriesLast(rows: seq<Row>, y: seq<Row>, init: seq<Source>, s: Source, payload: seq<Item>, o: Options, i: nat)
    requires Retries(rows, i, init + [s], o) && Moves(rows, y, init, payload, o)
    ensures Retries(rows, i, init, o) || Retries(y, i, [s], o)
  {
    hide Justified, InDeletionScope;
    var x :| x in init + [s] && !x.skipped && InDeletionScope(x, o) && x.place == rows[i].place;
    if x !in init {
      assert x in [s];
      assert SameRow(rows[i], y[i]);
    }
  }

  lemma {:induction false} RunTargets(rows: seq<Row>, sources: seq<Source>, payload: seq<Item>, o: Options)
    ensures var (z, targets, ok) := VisitAll(rows, sources, payload, o);
            && Targets(z, targets)
            && (ok ==> forall i: nat :: Retries(rows, i, sources, o) ==> Targeted(targets, i))
  {
    if sources == [] {
    } else {
      var init, s := sources[..|sources| - 1], sources[|sources| - 1];
      assert sources == init + [s];
      RunTargets(rows, init, payload, o);
      RunMoves(rows, init, payload, o);
      var (y, before, ok) := VisitAll(rows, init, payload, o);
      var v := VisitSource(y, s, payload, o);
      if ok {
        VisitTargets(y, s, payload, o);
        VisitMoves(y, s, payload, o);
        hide VisitSource, Moves, Retries;
        TargetsKept(y, v.rows, [s], payload, o, before);
        forall i: nat | v.ok && Retries(rows, i, sources, o) ensures Targeted(before + v.targets, i) {
          RetriesLast(rows, y, init, s, payload, o, i);
          var t :| t in before + v.targets && t.id == i;
        }
      }
    }
  }

  // ---- Runs ----

  /** A stamp is true: the row is deleted, and its key's analytics rows have been dropped. */
  ghost predicate StampsAreTrue(d: Store) {
    forall i :: 0 <= i < |d.rows| && d.rows[i].purgedAt.Some? ==>
      d.rows[i].deletedAt.Some? && d.rows[i].jiraKey.Some? && d.rows[i].jiraKey.value in d.purged
  }

  lemma StampedRow(rows: seq<Row>, targets: seq<Target>, now: int, i: nat)
    requires i < |rows|
    ensures Stamp(rows, targets, now)[i] == if Targeted(targets, i) then rows[i].(purgedAt := Some(now)) else rows[i]
  {
  }

  lemma MovedStamps(d: Store, z: seq<Row>, r: Run)
    requires StampsAreTrue(d) && Moves(d.rows, z, r.sources, r.payload, r.options)
    ensures StampsAreTrue(d.(rows := z))
  {
    hide Justified;
    forall i | 0 <= i < |z| && z[i].purgedAt.Some?
      ensures z[i].deletedAt.Some? && z[i].jiraKey.Some? && z[i].jiraKey.value in d.purged
    {
      assert SameRow(d.rows[i], z[i]);
    }
  }

  lemma PurgedStamps(d: Store, targets: seq<Target>, o: Options)
    requires StampsAreTrue(d) && Targets(d.rows, targets)
    ensures StampsAreTrue(PurgeAnalytics(d, targets, o))
  {
    var z := PurgeAnalytics(d, targets, o);
    if targets != [] && o.purge.PurgeDone? {
      forall i: nat | i < |z.rows| && z.rows[i].purgedAt.Some?
        ensures z.rows[i].deletedAt.Some? && z.rows[i].jiraKey.Some? && z.rows[i].jiraKey.value in z.purged
      {
        StampedRow(d.rows, targets, o.now, i);
        if Targeted(targets, i) {
          var t :| t in targets && t.id == i;
          assert GoodTarget(d.rows, t);
          assert t.jiraKey in KeysOf(targets);
        }
      }
    }
  }

  /** What one whole run keeps. */
  lemma StampsStep(d: Store, r: Run)
    requires StampsAreTrue(d)
    ensures StampsAreTrue(PromoteAll(d, r)) && d.purged <= PromoteAll(d, r).purged
  {
    var (z, targets, ok) := VisitAll(d.rows, r.sources, r.payload, r.options);
    RunMoves(d.rows, r.sources, r.payload, r.options);
    RunTargets(d.rows, r.sources, r.payload, r.options);
    hide VisitAll, Moves, StampsAreTrue, Targets;
    MovedStamps(d, z, r);
    PurgedStamps(d.(rows := z), targets, r.options);
  }

  /** A mark, once made, is never changed or taken back, and one made in this run is justified by this run. */
  lemma MarksStep(d: Store, r: Run, i: nat)
    ensures |d.rows| <= |PromoteAll(d, r).rows|
    ensures i < |d.rows| ==> PromoteAll(d, r).rows[i].jiraKey == d.rows[i].jiraKey
                             && PromoteAll(d, r).rows[i].place == d.rows[i].place
    ensures WasDeleted(d.rows, i) ==> PromoteAll(d, r).rows[i].deletedAt == d.rows[i].deletedAt
    ensures WasDeleted(PromoteAll(d, r).rows, i) && !WasDeleted(d.rows, i) ==>
              Justified(PromoteAll(d, r).rows[i], r.sources, r.payload, r.options)
  {
    var (z, targets, ok) := VisitAll(d.rows, r.sources, r.payload, r.options);
    RunMoves(d.rows, r.sources, r.payload, r.options);
    if i < |z| {
      StampedRow(z, targets, r.options.now, i);
      hide VisitAll, Justified;
      if i < |d.rows| { assert SameRow(d.rows[i], z[i]); }
      if WasDeleted(z, i) && !WasDeleted(d.rows, i) { JustifiedDespiteStamp(z[i], r); }
    }
  }

  lemma JustifiedDespiteStamp(row: Row, r: Run)
    requires Justified(row, r.sources, r.payload, r.options)
    ensures forall at :: Justified(row.(purgedAt := at), r.sources, r.payload, r.options)
  {
    var s :| s in r.sources && Justifies(s, row, r.payload, r.options);
    forall at ensures Justified(row.(purgedAt := at), r.sources, r.payload, r.options) {
      assert Justifies(s, row.(purgedAt := at), r.payload, r.options);
    }
  }

  ghost function After(d: Store, runs: seq<Run>): Store {
    if runs == [] then d else PromoteAll(After(d, runs[..|runs| - 1]), runs[|runs| - 1])
  }

  /** Over any runs a stamp implies a completed purge. */
  lemma {:induction false} StampsStayTrue(d: Store, runs: seq<Run>)
    requires StampsAreTrue(d)
    ensures StampsAreTrue(After(d, runs))
  {
    if runs != [] {
      StampsStayTrue(d, runs[..|runs| - 1]);
      StampsStep(After(d, runs[..|runs| - 1]), runs[|runs| - 1]);
    }
  }

  /** Run number `n` of `runs` is the one that marks row `i` deleted. */
  ghost predicate MarkedBy(d: Store, runs: seq<Run>, n: nat, i: nat) {
    n < |runs| && WasDeleted(After(d, runs[..n + 1]).rows, i) && !WasDeleted(After(d, runs[..n]).rows, i)
  }

  lemma {:induction false} MarkStays(d: Store, runs: seq<Run>, m: nat, n: nat, i: nat)
    requires m <= n <= |runs| && WasDeleted(After(d, runs[..m]).rows, i)
    ensures WasDeleted(After(d, runs[..n]).rows, i)
    ensures After(d, runs[..n]).rows[i].deletedAt == After(d, runs[..m]).rows[i].deletedAt
    decreases n
  {
    if m < n {
      MarkStays(d, runs, m, n - 1, i);
      assert runs[..n][..n - 1] == runs[..n - 1];
      MarksStep(After(d, runs[..n - 1]), runs[n - 1], i);
    }
  }

  /** A row is marked deleted at most once, and only by a run that justifies it. */
  lemma MarkedAtMostOnce(d: Store, runs: seq<Run>, m: nat, n: nat, i: nat)
    requires MarkedBy(d, runs, m, i)
    ensures Justified(After(d, runs[..m + 1]).rows[i], runs[m].sources, runs[m].payload, runs[m].options)
    ensures MarkedBy(d, runs, n, i) ==> n == m
  {
    assert runs[..m + 1][..m] == runs[..m];
    MarksStep(After(d, runs[..m]), runs[m], i);
    if MarkedBy(d, runs, n, i) {
      if m < n { MarkStays(d, runs, m + 1, n, i); }
      if n < m { MarkStays(d, runs, n + 1, m, i); }
    }
  }

  /**
   * A deleted row without a stamp is on the purge list of every run that reaches the purge and has an unskipped
   * source in scope at its place, whatever the payload: it is stamped if the purge completes and stays listed if not.
   */
  lemma OutstandingPurgeIsRetried(d: Store, r: Run, i: nat)
    requires Retries(d.rows, i, r.sources, r.options) && VisitAll(d.rows, r.sources, r.payload, r.options).2
    ensures i < |PromoteAll(d, r).rows|
    ensures r.options.purge.PurgeDone? ==>
              PromoteAll(d, r).rows[i].purgedAt == Some(r.options.now)
                  && d.rows[i].jiraKey.value in PromoteAll(d, r).purged
    ensures !r.options.purge.PurgeDone? ==> Unpurged(PromoteAll(d, r).rows[i])
  {
    var (z, targets, ok) := VisitAll(d.rows, r.sources, r.payload, r.options);
    RunMoves(d.rows, r.sources, r.payload, r.options);
    RunTargets(d.rows, r.sources, r.payload, r.options);
    hide VisitAll, Justified;
    assert Targeted(targets, i);
    var t :| t in targets && t.id == i;
    assert GoodTarget(z, t) && SameRow(d.rows[i], z[i]);
    StampedRow(z, targets, r.options.now, i);
    assert t.jiraKey in KeysOf(targets);
  }

  /** An empty payload never stops a run short of its purge, and deletes nothing. */
  lemma {:induction false} EmptyPayloadJudgesNothing(rows: seq<Row>, sources: seq<Source>, o: Options)
    ensures VisitAll(rows, sources, [], o).2
    ensures var z := VisitAll(rows, sources, [], o).0;
            |rows| <= |z| && forall i :: 0 <= i < |rows| ==> z[i].deletedAt == rows[i].deletedAt
  {
    EmptyPayloadRuns(rows, sources, o);
    RunMoves(rows, sources, [], o);
    var z := VisitAll(rows, sources, [], o).0;
    hide VisitAll;
    forall i | 0 <= i < |rows| ensures z[i].deletedAt == rows[i].deletedAt {
      if z[i].deletedAt.Some? && rows[i].deletedAt.None? {
        assert false;
      }
    }
  }

  lemma {:induction false} EmptyPayloadRuns(rows: seq<Row>, sources: seq<Source>, o: Options)
    ensures VisitAll(rows, sources, [], o).2
  {
    if sources != [] { EmptyPayloadRuns(rows, sources[..|sources| - 1], o); }
  }
}
