/** Promotion of work items to one board (apps/worker/src/azure-devops-promote.service.ts). */
module AdoPromote {
  import opened Sequences
  import opened Strings
  import opened Wrappers

  /** Row ids are the database's: `Minted` ones are made in this run. */
  datatype Id = Given(name: string) | Minted(n: nat)

  datatype Item = Item(
    adoId: int,
    kind: string,
    title: string,
    state: string,
    description: Option<string>,
    assignedTo: Option<string>,
    areaPath: Option<string>,
    dueDate: Option<int>)

  datatype Row = Row(
    adoProject: string,
    name: string,
    description: Option<string>,
    statusId: Option<Id>,
    status: string,
    owner: string,
    assignee: string,
    dueDate: Option<int>,
    groupId: Id,
    syncedFields: Option<set<string>>,
    overriddenFields: set<string>,
    removed: bool)

  datatype Status = Status(id: Id, caption: string, color: string, order: int)

  datatype Group = Group(id: Id, name: string, position: int)

  datatype Change = Change(adoId: int, fromStatus: Option<string>, toStatus: string)

  /** What the database holds for one board; `(boardId, adoWorkItemId)` is unique, so the rows are a map. */
  datatype Data = Data(
    rows: map<int, Row>,
    statuses: seq<Status>,
    groups: seq<Group>,
    changes: seq<Change>,
    minted: nat)

  datatype Config = Config(
    boardId: string,
    adoProject: string,
    statusMapping: map<string, string>,
    defaultSyncedFields: set<string>,
    allowedWorkItemTypes: seq<string>,
    areaPaths: seq<string>,
    excludedAdoIds: set<int>,
    wiqlIds: Option<set<int>>,
    targetGroupId: Option<Id>,
    palette: seq<string>)

  /** An entry of the status cache, in the order of a JavaScript `Map`. */
  datatype Cached = Cached(key: string, id: Id, caption: string, color: string)

  /** The state carried from batch to batch; `failed` once a database call has thrown. */
  datatype Memory = Memory(
    config: Config,
    projectByAdoId: map<int, Row>,
    statusCache: seq<Cached>,
    groupId: Option<Id>,
    created: nat,
    updated: nat,
    markedRemoved: nat,
    failed: bool)

  datatype Board = Board(data: Data, memory: Memory)

  /** A board with the ids seen so far; promoting an item does not look at them. */
  datatype Run = Run(board: Board, seenAdoIds: seq<int>)

  // ---- Labels ----

  const LEGACY_STATUS_LABELS: map<string, string> :=
    map["NOT_STARTED" := "Not Started", "IN_PROGRESS" := "In Progress", "AT_RISK" := "At Risk",
        "BLOCKED" := "Blocked", "DONE" := "Done"]

  const LABEL_TO_ENUM: map<string, string> :=
    map["not started" := "NOT_STARTED", "in progress" := "IN_PROGRESS", "at risk" := "AT_RISK",
        "blocked" := "BLOCKED", "done" := "DONE"]

  predicate IsHex(c: char) {
    '0' <= c <= '9' || 'a' <= c <= 'f' || 'A' <= c <= 'F'
  }

  predicate IsUuid(s: string) {
    && |s| == 36
    && forall i :: 0 <= i < 36 ==> if i == 8 || i == 13 || i == 18 || i == 23 then s[i] == '-' else IsHex(s[i])
  }

  // ---- The status cache ----

  function Get(cache: seq<Cached>, key: string): Option<Cached> {
    if cache == [] then None else if cache[0].key == key then Some(cache[0]) else Get(cache[1..], key)
  }

  function Put(cache: seq<Cached>, e: Cached): seq<Cached> {
    if cache == [] then [e] else if cache[0].key == e.key then [e] + cache[1..] else [cache[0]] + Put(cache[1..], e)
  }

  function ById(cache: seq<Cached>, id: Id): Option<Cached> {
    if cache == [] then None else if cache[0].id == id then Some(cache[0]) else ById(cache[1..], id)
  }

  function LoadStatusCache(statuses: seq<Status>): seq<Cached> {
    if statuses == [] then []
    else
      var s := statuses[|statuses| - 1];
      Put(LoadStatusCache(statuses[..|statuses| - 1]), Cached(Lower(s.caption), s.id, s.caption, s.color))
  }

  function ToLegacyEnum(id: Id, cache: seq<Cached>): string {
    var s := ById(cache, id);
    if s.Some? && Lower(s.value.caption) in LABEL_TO_ENUM then LABEL_TO_ENUM[Lower(s.value.caption)] else "NOT_STARTED"
  }

  function LabelFromCache(id: Id, cache: seq<Cached>): Option<string> {
    var s := ById(cache, id);
    if s.Some? then Some(s.value.caption) else None
  }

  function Count(cache: seq<Cached>, color: string): nat {
    if cache == [] then 0 else Count(cache[..|cache| - 1], color) + if cache[|cache| - 1].color == color then 1 else 0
  }

  /** The first of the least used colors of `palette`, or `best` when none is used less. */
  function LeastUsed(palette: seq<string>, cache: seq<Cached>, best: string): string {
    if palette == [] then best
    else if Count(cache, palette[0]) < Count(cache, best) then LeastUsed(palette[1..], cache, palette[0])
    else LeastUsed(palette[1..], cache, best)
  }

  function PickUnusedColor(palette: seq<string>, cache: seq<Cached>): string {
    if palette == [] then "" else LeastUsed(palette[1..], cache, palette[0])
  }

  function NextOrder(statuses: seq<Status>): int {
    if statuses == [] then 0
    else
      var rest := NextOrder(statuses[..|statuses| - 1]);
      var last := statuses[|statuses| - 1].order + 1;
      if |statuses| == 1 || rest < last then last else rest
  }

  function NextPosition(groups: seq<Group>): int {
    if groups == [] then 0
    else
      var rest := NextPosition(groups[..|groups| - 1]);
      var last := groups[|groups| - 1].position + 1;
      if |groups| == 1 || rest < last then last else rest
  }

  /** The status an item's state resolves to without creating one. */
  function KnownStatus(state: string, config: Config, cache: seq<Cached>): Option<Id> {
    var mapped := if state in config.statusMapping then config.statusMapping[state] else "";
    var byUuid := if IsUuid(mapped) then ById(cache, Given(mapped)) else None;
    var byEnum := if mapped in LEGACY_STATUS_LABELS then Get(cache, Lower(LEGACY_STATUS_LABELS[mapped])) else None;
    var byLabel := if mapped != "" then Get(cache, Lower(mapped)) else None;
    if byUuid.Some? then Some(byUuid.value.id)
    else if byEnum.Some? then Some(byEnum.value.id)
    else if byLabel.Some? then Some(byLabel.value.id)
    else
      var byName := Get(cache, Lower(state));
      if byName.Some? then Some(byName.value.id) else None
  }

  function UpsertBoardStatus(b: Board, caption: string): Board {
    var color := PickUnusedColor(b.memory.config.palette, b.memory.statusCache);
    var id := Minted(b.data.minted);
    Board(b.data.(statuses := b.data.statuses + [Status(id, caption, color, NextOrder(b.data.statuses))],
                  minted := b.data.minted + 1),
          b.memory.(statusCache := Put(b.memory.statusCache, Cached(Lower(caption), id, caption, color))))
  }

  function ResolveStatusId(b: Board, state: string): (Board, Id) {
    var known := KnownStatus(state, b.memory.config, b.memory.statusCache);
    if known.Some? then (b, known.value) else (UpsertBoardStatus(b, state), Minted(b.data.minted))
  }

  // ---- Groups ----

  function GroupNamed(groups: seq<Group>, name: string): Option<Id> {
    if groups == [] then None else if groups[0].name == name then Some(groups[0].id) else GroupNamed(groups[1..], name)
  }

  function EnsureDefaultGroup(d: Data, name: string): (Data, Id) {
    var existing := GroupNamed(d.groups, name);
    if existing.Some? then (d, existing.value)
    else
      (d.(groups := d.groups + [Group(Minted(d.minted), name, NextPosition(d.groups))], minted := d.minted + 1),
       Minted(d.minted))
  }

  function EnsureGroup(b: Board): (Board, Id) {
    if b.memory.groupId.Some? then (b, b.memory.groupId.value)
    else
      var (d, id) := EnsureDefaultGroup(b.data, b.memory.config.adoProject);
      (Board(d, b.memory.(groupId := Some(id))), id)
  }

  // ---- Filters ----

  predicate OnBoard(m: Memory, item: Item) {
    item.adoId in m.projectByAdoId
  }

  predicate TypeAllowed(m: Memory, item: Item) {
    m.config.allowedWorkItemTypes == [] || OnBoard(m, item) || item.kind in m.config.allowedWorkItemTypes
  }

  predicate WiqlAllowed(m: Memory, item: Item) {
    m.config.wiqlIds.None? || OnBoard(m, item) || item.adoId in m.config.wiqlIds.value
  }

  predicate AreaAllowed(m: Memory, item: Item) {
    var area := if item.areaPath.Some? then item.areaPath.value else "";
    m.config.areaPaths == [] || OnBoard(m, item) || exists p :: p in m.config.areaPaths && p <= area
  }

  predicate Passes(m: Memory, item: Item) {
    TypeAllowed(m, item) && WiqlAllowed(m, item) && item.adoId !in m.config.excludedAdoIds && AreaAllowed(m, item)
  }

  // ---- Items ----

  function Text(o: Option<string>): string {
    if o.Some? then o.value else ""
  }

  function Created(b: Board, item: Item, statusId: Id, legacy: string, groupId: Id): Row {
    Row(b.memory.config.adoProject, item.title, item.description, Some(statusId), legacy, Text(item.assignedTo),
        Text(item.assignedTo), item.dueDate, groupId, Some(b.memory.config.defaultSyncedFields), {}, false)
  }

  /** `shouldSync`: an override always wins, and only name, status and owner are gated by the allow-list. */
  predicate Syncs(key: string, synced: set<string>, overridden: set<string>) {
    key !in overridden && (key in {"name", "status", "owner"} ==> key in synced)
  }

  /** `existing` is the row as it was snapshotted, `row` the one in the database. */
  function Updated(row: Row, existing: Row, m: Memory, item: Item, statusId: Id, legacy: string): Row {
    var synced := if existing.syncedFields.Some? then existing.syncedFields.value else m.config.defaultSyncedFields;
    var over := existing.overriddenFields;
    row.(removed := false,
         name := if Syncs("name", synced, over) then item.title else row.name,
         statusId := if Syncs("status", synced, over) then Some(statusId) else row.statusId,
         status := if Syncs("status", synced, over) then legacy else row.status,
         assignee := if "owner" in synced then Text(item.assignedTo) else row.assignee,
         owner := if Syncs("owner", synced, over) then Text(item.assignedTo) else row.owner,
         description := if Syncs("description", synced, over) then item.description else row.description,
         dueDate := if Syncs("dueDate", synced, over) then item.dueDate else row.dueDate)
  }

  predicate StatusChanges(existing: Row, m: Memory, legacy: string) {
    var synced := if existing.syncedFields.Some? then existing.syncedFields.value else m.config.defaultSyncedFields;
    Syncs("status", synced, existing.overriddenFields) && legacy != existing.status
  }

  function OldLabel(existing: Row, cache: seq<Cached>): string {
    var caption := if existing.statusId.Some? then LabelFromCache(existing.statusId.value, cache) else None;
    if caption.Some? then caption.value else existing.status
  }

  function NewLabel(statusId: Id, legacy: string, cache: seq<Cached>): string {
    var caption := LabelFromCache(statusId, cache);
    if caption.Some? then caption.value else legacy
  }

  function CreateItem(b: Board, item: Item, statusId: Id): Board {
    var legacy := ToLegacyEnum(statusId, b.memory.statusCache);
    var (g, groupId) := EnsureGroup(b);
    if item.adoId in g.data.rows then g.(memory := g.memory.(failed := true))
    else
      Board(g.data.(rows := g.data.rows[item.adoId := Created(g, item, statusId, legacy, groupId)],
                    changes := g.data.changes
                      + [Change(item.adoId, None, NewLabel(statusId, legacy, g.memory.statusCache))]),
            g.memory.(created := g.memory.created + 1))
  }

  function UpdateItem(b: Board, item: Item, statusId: Id): Board
    requires OnBoard(b.memory, item)
  {
    var legacy := ToLegacyEnum(statusId, b.memory.statusCache);
    var existing := b.memory.projectByAdoId[item.adoId];
    if item.adoId !in b.data.rows then b.(memory := b.memory.(failed := true))
    else
      Board(b.data.(rows := b.data.rows[item.adoId :=
                      Updated(b.data.rows[item.adoId], existing, b.memory, item, statusId, legacy)],
                    changes := b.data.changes +
                      if StatusChanges(existing, b.memory, legacy)
                      then [Change(item.adoId, Some(OldLabel(existing, b.memory.statusCache)),
                                   NewLabel(statusId, legacy, b.memory.statusCache))]
                      else []),
            b.memory.(updated := b.memory.updated + 1))
  }

  /** One work item of a batch. */
  function Promote(b: Board, item: Item): Board {
    if b.memory.failed || !Passes(b.memory, item) then b
    else
      var (r, statusId) := ResolveStatusId(b, item.state);
      if OnBoard(r.memory, item) then UpdateItem(r, item, statusId) else CreateItem(r, item, statusId)
  }

  function PromoteAll(b: Board, items: seq<Item>): Board {
    if items == [] then b else Promote(PromoteAll(b, items[..|items| - 1]), items[|items| - 1])
  }

  function AdoIds(items: seq<Item>): seq<int> {
    seq(|items|, i requires 0 <= i < |items| => items[i].adoId)
  }

  /** Every item of the batch is seen before any filter looks at it. */
  function ProcessBatch(r: Run, items: seq<Item>): Run {
    Run(PromoteAll(r.board, items), r.seenAdoIds + AdoIds(items))
  }

  function InitBoardState(d: Data, config: Config): Run {
    Run(Board(d, Memory(config, (map id | id in d.rows && d.rows[id].adoProject == config.adoProject :: d.rows[id]),
                        LoadStatusCache(d.statuses), config.targetGroupId, 0, 0, 0, false)), [])
  }

  /** The rows `finalizeBoard` marks: snapshotted, never seen, and not marked yet. */
  function Marked(r: Run): set<int> {
    set id | && id in r.board.data.rows && id in r.board.memory.projectByAdoId && id !in r.seenAdoIds
             && r.board.data.rows[id].adoProject == r.board.memory.config.adoProject && !r.board.data.rows[id].removed
  }

  function WithRemoved(rows: map<int, Row>, marked: set<int>): map<int, Row> {
    map id | id in rows :: if id in marked then rows[id].(removed := true) else rows[id]
  }

  function FinalizeBoard(r: Run): Run {
    if r.board.memory.failed then r
    else
      var marked := Marked(r);
      r.(board := Board(r.board.data.(rows := WithRemoved(r.board.data.rows, marked)),
                        r.board.memory.(markedRemoved := r.board.memory.markedRemoved + |marked|)))
  }

  // ---- One batch after another ----

  lemma {:induction false} PromoteAllAppend(b: Board, xs: seq<Item>, ys: seq<Item>)
    ensures PromoteAll(b, xs + ys) == PromoteAll(PromoteAll(b, xs), ys)
  {
    if ys == [] {
      assert xs + ys == xs;
    } else {
      hide Promote;
      assert (xs + ys)[..|xs + ys| - 1] == xs + ys[..|ys| - 1];
      PromoteAllAppend(b, xs, ys[..|ys| - 1]);
    }
  }

  lemma ProcessAppend(r: Run, xs: seq<Item>, ys: seq<Item>)
    ensures ProcessBatch(r, xs + ys) == ProcessBatch(ProcessBatch(r, xs), ys)
  {
    hide PromoteAll;
    PromoteAllAppend(r.board, xs, ys);
    assert r.seenAdoIds + AdoIds(xs + ys) == r.seenAdoIds + AdoIds(xs) + AdoIds(ys);
  }

  function ProcessBatches(r: Run, batches: seq<seq<Item>>): Run {
    if batches == [] then r else ProcessBatch(ProcessBatches(r, batches[..|batches| - 1]), batches[|batches| - 1])
  }

  /** However the items are cut into batches, a board ends in the state that one batch of all of them leaves. */
  lemma {:induction false} BatchingDoesNotMatter(r: Run, batches: seq<seq<Item>>)
    ensures ProcessBatches(r, batches) == ProcessBatch(r, Flatten(batches))
  {
    if batches == [] {
      assert r.seenAdoIds + [] == r.seenAdoIds;
    } else {
      hide ProcessBatch;
      BatchingDoesNotMatter(r, batches[..|batches| - 1]);
      ProcessAppend(r, Flatten(batches[..|batches| - 1]), batches[|batches| - 1]);
    }
  }

  // ---- What one item touches ----

  lemma UpsertKeeps(b: Board, state: string)
    ensures var r := ResolveStatusId(b, state).0;
            && r.data.rows == b.data.rows && r.data.groups == b.data.groups
            && r.memory == b.memory.(statusCache := r.memory.statusCache)
  {
    hide KnownStatus, PickUnusedColor, Put, NextOrder;
  }

  lemma GroupKeeps(b: Board)
    ensures var g := EnsureGroup(b).0;
            && g.data.rows == b.data.rows && g.data.statuses == b.data.statuses
            && g.memory == b.memory.(groupId := Some(EnsureGroup(b).1))
  {
    hide GroupNamed, NextPosition;
  }

  /** The row an item leaves, and that it leaves every other row alone. */
  ghost predicate Touches(b: Board, z: Board, item: Item) {
    && z.memory.config == b.memory.config && z.memory.projectByAdoId == b.memory.projectByAdoId
    && z.memory.markedRemoved == b.memory.markedRemoved
    && (forall id :: id != item.adoId ==> (id in z.data.rows <==> id in b.data.rows))
    && (forall id :: id != item.adoId && id in b.data.rows ==> z.data.rows[id] == b.data.rows[id])
    && (item.adoId in b.data.rows ==> item.adoId in z.data.rows)
    && (item.adoId in b.data.rows ==> z.data.rows[item.adoId].adoProject == b.data.rows[item.adoId].adoProject)
    && (b.memory.failed ==> z == b)
  }

  lemma CreateTouches(b: Board, item: Item, statusId: Id)
    requires !b.memory.failed
    ensures var z := CreateItem(b, item, statusId);
            && Touches(b, z, item)
            && (item.adoId in b.data.rows <==> z.memory.failed)
            && (item.adoId in b.data.rows ==> z.data.rows == b.data.rows)
            && (item.adoId !in b.data.rows ==>
                  && item.adoId in z.data.rows && !z.data.rows[item.adoId].removed
                  && z.data.rows[item.adoId].statusId == Some(statusId)
                  && z.memory.created == b.memory.created + 1 && z.memory.updated == b.memory.updated)
  {
    GroupKeeps(b);
    hide EnsureGroup, ToLegacyEnum, NewLabel;
  }

  lemma UpdateTouches(b: Board, item: Item, statusId: Id)
    requires !b.memory.failed && OnBoard(b.memory, item)
    ensures var z := UpdateItem(b, item, statusId);
            && Touches(b, z, item)
            && (item.adoId !in b.data.rows <==> z.memory.failed)
            && (item.adoId !in b.data.rows ==> z.data.rows == b.data.rows)
            && (item.adoId in b.data.rows ==>
                  && !z.data.rows[item.adoId].removed
                  && z.memory.updated == b.memory.updated + 1 && z.memory.created == b.memory.created)
  {
    hide ToLegacyEnum, NewLabel, OldLabel, StatusChanges, Syncs, Text;
  }

  /** What promoting one item does to the rows, and when it fails. */
  lemma PromoteTouches(b: Board, item: Item)
    requires !b.memory.failed
    ensures var z := Promote(b, item);
            && Touches(b, z, item)
            && (!Passes(b.memory, item) ==> z == b)
            && (z.memory.failed
                <==> Passes(b.memory, item) && (OnBoard(b.memory, item) <==> item.adoId !in b.data.rows))
            && (z.memory.failed ==> z.data.rows == b.data.rows)
            && (Passes(b.memory, item) && !z.memory.failed ==>
                  && item.adoId in z.data.rows && !z.data.rows[item.adoId].removed
                  && z.memory.created + z.memory.updated == b.memory.created + b.memory.updated + 1
                  && z.memory.updated == b.memory.updated + if OnBoard(b.memory, item) then 1 else 0)
  {
    UpsertKeeps(b, item.state);
    var (r, statusId) := ResolveStatusId(b, item.state);
    hide ResolveStatusId, CreateItem, UpdateItem, Passes;
    if Passes(b.memory, item) {
      if OnBoard(r.memory, item) { UpdateTouches(r, item, statusId); } else { CreateTouches(r, item, statusId); }
    }
  }

  // ---- A whole board ----

  ghost predicate PassedIn(m: Memory, items: seq<Item>, id: int) {
    exists i :: 0 <= i < |items| && items[i].adoId == id && Passes(m, items[i])
  }

  lemma PassedInLast(m: Memory, items: seq<Item>, id: int)
    requires items != []
    ensures PassedIn(m, items, id) <==>
              PassedIn(m, items[..|items| - 1], id) || (items[|items| - 1].adoId == id && Passes(m, items[|items| - 1]))
  {
    hide Passes;
    var init := items[..|items| - 1];
    if PassedIn(m, items, id) {
      var i :| 0 <= i < |items| && items[i].adoId == id && Passes(m, items[i]);
      if i < |init| { assert init[i] == items[i]; }
    }
    if PassedIn(m, init, id) {
      var i :| 0 <= i < |init| && init[i].adoId == id && Passes(m, init[i]);
      assert init[i] == items[i];
    }
  }

  function Passing(m: Memory, items: seq<Item>): nat {
    if items == [] then 0 else Passing(m, items[..|items| - 1]) + if Passes(m, items[|items| - 1]) then 1 else 0
  }

  /** The filters read the configuration and the snapshot only, and neither changes. */
  lemma PassesFixed(m: Memory, n: Memory, item: Item)
    requires n.config == m.config && n.projectByAdoId == m.projectByAdoId
    ensures Passes(n, item) == Passes(m, item) && OnBoard(n, item) == OnBoard(m, item)
  {
  }

  ghost predicate SameSetup(b: Board, z: Board) {
    && z.memory.config == b.memory.config && z.memory.projectByAdoId == b.memory.projectByAdoId
    && z.memory.markedRemoved == b.memory.markedRemoved
  }

  /** The rows after `items`, in terms of the rows before and of the filters. */
  ghost predicate RowsMatch(b: Board, z: Board, items: seq<Item>) {
    && (forall id :: id in z.data.rows <==> id in b.data.rows || PassedIn(b.memory, items, id))
    && (forall id :: id in b.data.rows ==> z.data.rows[id].adoProject == b.data.rows[id].adoProject)
    && (forall id :: id in z.data.rows ==>
          z.data.rows[id].removed == (id in b.data.rows && b.data.rows[id].removed && !PassedIn(b.memory, items, id)))
  }

  ghost predicate CountsMatch(b: Board, z: Board, items: seq<Item>) {
    z.memory.created + z.memory.updated == b.memory.created + b.memory.updated + Passing(b.memory, items)
  }

  ghost predicate RowsAfter(b: Board, z: Board, items: seq<Item>) {
    SameSetup(b, z) && RowsMatch(b, z, items) && CountsMatch(b, z, items)
  }

  lemma RowsMatchStep(b: Board, y: Board, items: seq<Item>)
    requires items != [] && !y.memory.failed && SameSetup(b, y) && RowsMatch(b, y, items[..|items| - 1])
    requires !Promote(y, items[|items| - 1]).memory.failed
    ensures RowsMatch(b, Promote(y, items[|items| - 1]), items)
  {
    var item := items[|items| - 1];
    PromoteTouches(y, item);
    PassesFixed(b.memory, y.memory, item);
    if Passes(b.memory, item) {
      hide Promote, OnBoard, Passes;
      RowsMatchPromoted(b, y, Promote(y, item), items);
    } else {
      hide Promote, OnBoard, Passes;
      RowsMatchSkipped(b, y, items);
    }
  }

  /** The last item did not pass the filters, and no row changed. */
  lemma RowsMatchSkipped(b: Board, y: Board, items: seq<Item>)
    requires items != [] && RowsMatch(b, y, items[..|items| - 1]) && !Passes(b.memory, items[|items| - 1])
    ensures RowsMatch(b, y, items)
  {
    forall id ensures PassedIn(b.memory, items, id) <==> PassedIn(b.memory, items[..|items| - 1], id) {
      PassedInLast(b.memory, items, id);
    }
    hide PassedIn, Passes;
  }

  /** The last item passed: its own row was created, or updated in place, and is not removed. */
  lemma RowsMatchPromoted(b: Board, y: Board, z: Board, items: seq<Item>)
    requires items != [] && RowsMatch(b, y, items[..|items| - 1]) && Passes(b.memory, items[|items| - 1])
    requires Touches(y, z, items[|items| - 1])
    requires items[|items| - 1].adoId in z.data.rows && !z.data.rows[items[|items| - 1].adoId].removed
    ensures RowsMatch(b, z, items)
  {
    forall id
      ensures PassedIn(b.memory, items, id) <==>
              PassedIn(b.memory, items[..|items| - 1], id) || id == items[|items| - 1].adoId
    {
      PassedInLast(b.memory, items, id);
    }
    hide PassedIn, Passes;
  }

  lemma RowsAfterStep(b: Board, y: Board, items: seq<Item>)
    requires items != [] && !y.memory.failed && RowsAfter(b, y, items[..|items| - 1])
    requires !Promote(y, items[|items| - 1]).memory.failed
    ensures RowsAfter(b, Promote(y, items[|items| - 1]), items)
  {
    RowsMatchStep(b, y, items);
    PromoteTouches(y, items[|items| - 1]);
    PassesFixed(b.memory, y.memory, items[|items| - 1]);
    hide RowsMatch, Passes, Promote, OnBoard;
  }

  lemma FailedSticks(b: Board, items: seq<Item>)
    requires items != [] && PromoteAll(b, items[..|items| - 1]).memory.failed
    ensures PromoteAll(b, items).memory.failed
  {
  }

  lemma {:induction false} RowsAfterAll(b: Board, items: seq<Item>)
    requires !PromoteAll(b, items).memory.failed
    ensures !b.memory.failed && RowsAfter(b, PromoteAll(b, items), items)
  {
    hide Promote;
    if items == [] {
    } else {
      if PromoteAll(b, items[..|items| - 1]).memory.failed { FailedSticks(b, items); }
      RowsAfterAll(b, items[..|items| - 1]);
      RowsAfterStep(b, PromoteAll(b, items[..|items| - 1]), items);
    }
  }

  function Promoted(d: Data, c: Config, items: seq<Item>): Run {
    FinalizeBoard(ProcessBatch(InitBoardState(d, c), items))
  }

  lemma SeenIds(items: seq<Item>, id: int)
    ensures id in AdoIds(items) <==> exists i :: 0 <= i < |items| && items[i].adoId == id
  {
    if i :| 0 <= i < |items| && items[i].adoId == id { assert AdoIds(items)[i] == id; }
  }

  /** Where the removed flag of every row ends up. */
  lemma RemovedExactly(d: Data, c: Config, items: seq<Item>)
    requires !Promoted(d, c, items).board.memory.failed
    ensures var z := Promoted(d, c, items).board;
            var m := InitBoardState(d, c).board.memory;
            && (forall id :: id in z.data.rows <==> id in d.rows || PassedIn(m, items, id))
            && (forall id :: id in z.data.rows ==>
                  z.data.rows[id].removed ==
                  (id in d.rows
                   && if d.rows[id].adoProject == c.adoProject && id !in AdoIds(items) then true
                      else d.rows[id].removed && !PassedIn(m, items, id)))
  {
    var b := InitBoardState(d, c).board;
    RowsAfterAll(b, items);
    hide PromoteAll;
    var y := PromoteAll(b, items);
    forall id ensures PassedIn(b.memory, items, id) ==> id in AdoIds(items) { SeenIds(items, id); }
    hide Passes, PassedIn, AdoIds, Passing;
    assert forall id :: id in b.memory.projectByAdoId <==> id in d.rows && d.rows[id].adoProject == c.adoProject;
    assert [] + AdoIds(items) == AdoIds(items);
  }

  /** A row that the promotion marked: not removed before, removed after. */
  ghost predicate NewlyMarked(d: Data, z: Data, id: int) {
    id in d.rows && !d.rows[id].removed && id in z.rows && z.rows[id].removed
  }

  /**
   * Which rows are marked removed depends on the unfiltered stream alone: for two configurations of a board that
   * differ in any of their filters, mappings or exclusions, the same rows are marked.
   */
  lemma RemovalIgnoresFilters(d: Data, c: Config, e: Config, items: seq<Item>, id: int)
    requires c.boardId == e.boardId && c.adoProject == e.adoProject
    requires !Promoted(d, c, items).board.memory.failed && !Promoted(d, e, items).board.memory.failed
    ensures NewlyMarked(d, Promoted(d, c, items).board.data, id) <==>
              id in d.rows && d.rows[id].adoProject == c.adoProject && !d.rows[id].removed && id !in AdoIds(items)
    ensures NewlyMarked(d, Promoted(d, c, items).board.data, id)
        <==> NewlyMarked(d, Promoted(d, e, items).board.data, id)
  {
    RemovedExactly(d, c, items);
    RemovedExactly(d, e, items);
    hide Promoted, PassedIn, AdoIds;
  }

  /** An item that a board cannot take: new to the snapshot, and its id is already in the table. */
  ghost predicate Collides(m: Memory, d: Data, items: seq<Item>, i: int) {
    && 0 <= i < |items| && Passes(m, items[i]) && !OnBoard(m, items[i])
    && (items[i].adoId in d.rows || PassedIn(m, items[..i], items[i].adoId))
  }

  lemma FailsAtLast(b: Board, items: seq<Item>)
    requires items != [] && !PromoteAll(b, items[..|items| - 1]).memory.failed
    requires forall id :: id in b.memory.projectByAdoId ==> id in b.data.rows
    ensures PromoteAll(b, items).memory.failed <==> Collides(b.memory, b.data, items, |items| - 1)
  {
    var y, item := PromoteAll(b, items[..|items| - 1]), items[|items| - 1];
    RowsAfterAll(b, items[..|items| - 1]);
    PromoteTouches(y, item);
    PassesFixed(b.memory, y.memory, item);
    hide Promote, Passes, PassedIn;
  }

  /** A promotion fails exactly when some new item's id is taken, by another project or earlier in the stream. */
  lemma {:induction false} FailsExactly(b: Board, items: seq<Item>)
    requires !b.memory.failed && forall id :: id in b.memory.projectByAdoId ==> id in b.data.rows
    ensures PromoteAll(b, items).memory.failed <==> exists i :: Collides(b.memory, b.data, items, i)
  {
    hide Promote, Passes, PassedIn;
    if items == [] {
    } else {
      var init := items[..|items| - 1];
      FailsExactly(b, init);
      forall i | 0 <= i < |init|
        ensures Collides(b.memory, b.data, items, i) <==> Collides(b.memory, b.data, init, i)
      {
        assert items[..i] == init[..i];
      }
      if PromoteAll(b, init).memory.failed {
        FailedSticks(b, items);
        var i :| Collides(b.memory, b.data, init, i);
        assert Collides(b.memory, b.data, items, i);
      } else {
        FailsAtLast(b, items);
        assert forall i :: Collides(b.memory, b.data, items, i) ==>
            i == |items| - 1 || Collides(b.memory, b.data, init, i);
      }
    }
  }

  // ---- The group of new rows ----

  /** No group was made, or one was: for the first new row, on a board that had none of that name. */
  ghost predicate LazyGroup(b: Board, z: Board) {
    && z.memory.config == b.memory.config && b.memory.created <= z.memory.created
    && (b.memory.groupId.Some? ==> z.memory.groupId == b.memory.groupId)
    && (z.memory.groupId != b.memory.groupId ==> z.memory.groupId.Some? && z.memory.created > b.memory.created)
    && (z.data.groups == b.data.groups
        || (b.memory.groupId.None? && z.memory.groupId.Some?
            && GroupNamed(b.data.groups, b.memory.config.adoProject).None?
            && exists g: Group :: z.data.groups == b.data.groups + [g] && g.name == b.memory.config.adoProject))
  }

  lemma PromoteIsLazy(b: Board, item: Item)
    requires !Promote(b, item).memory.failed
    ensures LazyGroup(b, Promote(b, item))
  {
    UpsertKeeps(b, item.state);
    var (r, statusId) := ResolveStatusId(b, item.state);
    hide ResolveStatusId, Passes, Updated, Created, ToLegacyEnum, NewLabel, OldLabel, StatusChanges, GroupNamed,
        NextPosition;
  }

  lemma LazyCompose(b: Board, y: Board, z: Board)
    requires LazyGroup(b, y) && LazyGroup(y, z)
    ensures LazyGroup(b, z)
  {
    hide GroupNamed;
  }

  /** A board gets at most one group, and none unless a row was created that needed it. */
  lemma {:induction false} GroupIsLazy(b: Board, items: seq<Item>)
    requires !PromoteAll(b, items).memory.failed
    ensures LazyGroup(b, PromoteAll(b, items))
  {
    hide Promote, LazyGroup;
    if items == [] {
      LazyNothing(b);
    } else {
      var y := PromoteAll(b, items[..|items| - 1]);
      if y.memory.failed { FailedSticks(b, items); }
      GroupIsLazy(b, items[..|items| - 1]);
      PromoteIsLazy(y, items[|items| - 1]);
      LazyCompose(b, y, PromoteAll(b, items));
    }
  }

  lemma LazyNothing(b: Board)
    ensures LazyGroup(b, b)
  {
  }
}
