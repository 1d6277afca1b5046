/**
 What a promotion leaves in the rows of a board (apps/worker/src/azure-devops-promote.service.ts), in terms of the rows
 before, the configuration and the unfiltered stream.
 */
module AdoPromoteFields {
  import opened Strings
  import opened Wrappers
  import opened AdoPromote
  import opened AdoPromoteStatuses

  // ---- The filters ----

  /** What governs which items a board takes in. */
  ghost predicate InScope(c: Config, item: Item) {
    && (c.allowedWorkItemTypes == [] || item.kind in c.allowedWorkItemTypes)
    && (c.wiqlIds.None? || item.adoId in c.wiqlIds.value)
    && item.adoId !in c.excludedAdoIds
    && (c.areaPaths == [] || exists p :: p in c.areaPaths && p <= Text(item.areaPath))
  }

  /** A card on the board is outside every filter but the exclusions; anything else has to be in scope. */
  lemma FiltersGovernAdditions(m: Memory, item: Item)
    ensures OnBoard(m, item) ==> (Passes(m, item) <==> item.adoId !in m.config.excludedAdoIds)
    ensures !OnBoard(m, item) ==> (Passes(m, item) <==> InScope(m.config, item))
  {
  }

  // ---- Rows that were there ----

  /** The row after `item`: what is overridden or not synced is kept, everything else is the item's. */
  ghost predicate Follows(row: Row, existing: Row, defaults: set<string>, item: Item, z: Row) {
    var synced := if existing.syncedFields.Some? then existing.syncedFields.value else defaults;
    var over := existing.overriddenFields;
    && z.name == (if "name" in over || "name" !in synced then row.name else item.title)
    && z.owner == (if "owner" in over || "owner" !in synced then row.owner else Text(item.assignedTo))
    && z.assignee == (if "owner" in synced then Text(item.assignedTo) else row.assignee)
    && z.description == (if "description" in over then row.description else item.description)
    && z.dueDate == (if "dueDate" in over then row.dueDate else item.dueDate)
    && ("status" in over || "status" !in synced ==> z.statusId == row.statusId && z.status == row.status)
    && z.adoProject == row.adoProject && z.groupId == row.groupId
    && z.syncedFields == row.syncedFields && z.overriddenFields == row.overriddenFields && !z.removed
  }

  /** A synced status is the one the item's state resolves to on the board as the item finds it. */
  ghost predicate TakesStatus(existing: Row, defaults: set<string>, b: Board, item: Item, z: Row) {
    var synced := if existing.syncedFields.Some? then existing.syncedFields.value else defaults;
    var (r, id) := ResolveStatusId(b, item.state);
    "status" !in existing.overriddenFields && "status" in synced ==>
      z.statusId == Some(id) && z.status == ToLegacyEnum(id, r.memory.statusCache)
  }

  lemma UpdateFollows(row: Row, existing: Row, m: Memory, item: Item, statusId: Id, legacy: string)
    ensures var z := Updated(row, existing, m, item, statusId, legacy);
            Follows(row, existing, m.config.defaultSyncedFields, item, z)
    ensures var z := Updated(row, existing, m, item, statusId, legacy);
            var synced := if existing.syncedFields.Some? then existing.syncedFields.value
                          else m.config.defaultSyncedFields;
            "status" !in existing.overriddenFields && "status" in synced ==>
              z.statusId == Some(statusId) && z.status == legacy
  {
    hide Text;
  }

  lemma FollowsAgain(row: Row, existing: Row, defaults: set<string>, i: Item, y: Row, j: Item, z: Row)
    requires Follows(row, existing, defaults, i, y) && Follows(y, existing, defaults, j, z)
    ensures Follows(row, existing, defaults, j, z)
  {
    hide Text;
  }

  /** The position of the last item of the stream with this id, or -1. */
  ghost function LastOf(items: seq<Item>, id: int): (k: int)
    ensures -1 <= k < |items|
  {
    if items == [] then -1
    else if items[|items| - 1].adoId == id then |items| - 1
    else LastOf(items[..|items| - 1], id)
  }

  lemma PromoteFollows(b: Board, item: Item)
    requires OnBoard(b.memory, item) && item.adoId in b.data.rows && !Promote(b, item).memory.failed
    ensures var z, id := Promote(b, item), item.adoId;
            var existing, defaults := b.memory.projectByAdoId[id], b.memory.config.defaultSyncedFields;
            && (id in b.memory.config.excludedAdoIds ==> z == b)
            && (id !in b.memory.config.excludedAdoIds ==>
                  && id in z.data.rows && Follows(b.data.rows[id], existing, defaults, item, z.data.rows[id])
                  && TakesStatus(existing, defaults, b, item, z.data.rows[id]))
  {
    FiltersGovernAdditions(b.memory, item);
    if Passes(b.memory, item) {
      var (r, statusId) := ResolveStatusId(b, item.state);
      var legacy := ToLegacyEnum(statusId, r.memory.statusCache);
      UpsertKeeps(b, item.state);
      var existing := b.memory.projectByAdoId[item.adoId];
      UpdateFollows(b.data.rows[item.adoId], existing, r.memory, item, statusId, legacy);
      hide ResolveStatusId, Passes, Updated, ToLegacyEnum, NewLabel, OldLabel, StatusChanges, Follows, InScope;
      assert Promote(b, item) == UpdateItem(r, item, statusId);
    }
  }

  /** The row of one id of the snapshot, after a prefix of the stream. */
  ghost predicate RowExactly(b: Board, items: seq<Item>, id: int)
    requires id in b.memory.projectByAdoId && id in b.data.rows
  {
    var z := PromoteAll(b, items).data.rows;
    var row, existing := b.data.rows[id], b.memory.projectByAdoId[id];
    var defaults, k := b.memory.config.defaultSyncedFields, LastOf(items, id);
    && id in z
    && if id in b.memory.config.excludedAdoIds || k == -1 then z[id] == row
       else
         && Follows(row, existing, defaults, items[k], z[id])
         && TakesStatus(existing, defaults, PromoteAll(b, items[..k]), items[k], z[id])
  }

  lemma OwnItem(b: Board, items: seq<Item>, id: int)
    requires items != [] && items[|items| - 1].adoId == id
    requires !PromoteAll(b, items).memory.failed && id in b.memory.projectByAdoId && id in b.data.rows
    requires SameSetup(b, PromoteAll(b, items[..|items| - 1])) && RowExactly(b, items[..|items| - 1], id)
    ensures RowExactly(b, items, id)
  {
    var init, item := items[..|items| - 1], items[|items| - 1];
    var y, row, existing := PromoteAll(b, init), b.data.rows[id], b.memory.projectByAdoId[id];
    var defaults, k := b.memory.config.defaultSyncedFields, LastOf(init, id);
    assert PromoteAll(b, items) == Promote(y, item);
    hide PromoteAll, Promote;
    PromoteFollows(y, item);
    if id !in b.memory.config.excludedAdoIds && k != -1 {
      FollowsAgain(row, existing, defaults, init[k], y.data.rows[id], item, Promote(y, item).data.rows[id]);
    }
  }

  lemma OtherItem(b: Board, items: seq<Item>, id: int)
    requires items != [] && items[|items| - 1].adoId != id
    requires id in b.memory.projectByAdoId && id in b.data.rows
    requires RowExactly(b, items[..|items| - 1], id) && !PromoteAll(b, items[..|items| - 1]).memory.failed
    ensures RowExactly(b, items, id)
  {
    var init, item := items[..|items| - 1], items[|items| - 1];
    var k := LastOf(init, id);
    assert PromoteAll(b, items) == Promote(PromoteAll(b, init), item);
    assert k >= 0 ==> items[..k] == init[..k];
    hide PromoteAll, Promote, Follows, TakesStatus;
    PromoteTouches(PromoteAll(b, init), item);
  }

  lemma {:induction false} RowsExactly(b: Board, items: seq<Item>, id: int)
    requires !PromoteAll(b, items).memory.failed && id in b.memory.projectByAdoId && id in b.data.rows
    ensures RowExactly(b, items, id)
  {
    if items != [] {
      var init := items[..|items| - 1];
      hide Promote;
      if PromoteAll(b, init).memory.failed { FailedSticks(b, items); }
      RowsExactly(b, init, id);
      RowsAfterAll(b, init);
      hide PromoteAll, RowExactly, RowsMatch, CountsMatch;
      if items[|items| - 1].adoId == id { OwnItem(b, items, id); } else { OtherItem(b, items, id); }
    }
  }

  /**
   Every row of the project that was on the board ends with the fields of the last item of the unfiltered stream that
   has its id, except for what its user overrode or the allow-list leaves out; a row that is excluded, or that no item
   names, keeps all of its fields but the removed flag.
   */
  lemma CardsFollowTheirItems(d: Data, c: Config, items: seq<Item>, id: int)
    requires id in d.rows && d.rows[id].adoProject == c.adoProject
    requires !Promoted(d, c, items).board.memory.failed
    ensures var z, k := Promoted(d, c, items).board.data.rows, LastOf(items, id);
            && id in z
            && if id in c.excludedAdoIds || k == -1 then z[id] == d.rows[id].(removed := z[id].removed)
               else
                 && Follows(d.rows[id], d.rows[id], c.defaultSyncedFields, items[k], z[id])
                 && TakesStatus(d.rows[id], c.defaultSyncedFields,
                                PromoteAll(InitBoardState(d, c).board, items[..k]), items[k], z[id])
  {
    var b := InitBoardState(d, c).board;
    RowsExactly(b, items, id);
    RemovedExactly(d, c, items);
    LastOfSeen(items, id);
    hide PromoteAll, Follows, TakesStatus, PassedIn, AdoIds, LoadStatusCache;
    assert [] + AdoIds(items) == AdoIds(items);
  }

  lemma {:induction false} LastOfSeen(items: seq<Item>, id: int)
    ensures LastOf(items, id) >= 0 <==> id in AdoIds(items)
    ensures LastOf(items, id) >= 0 ==> items[LastOf(items, id)].adoId == id
    ensures forall i :: LastOf(items, id) < i < |items| ==> items[i].adoId != id
  {
    if items != [] {
      var init := items[..|items| - 1];
      LastOfSeen(init, id);
      SeenIds(init, id);
      SeenIds(items, id);
      hide AdoIds;
      assert forall i :: 0 <= i < |init| ==> init[i] == items[i];
    }
  }

  // ---- Rows that are new ----

  /** A new row has the fields of its item, in the group of the board, with nothing overridden. */
  ghost predicate Brought(c: Config, g: Option<Id>, item: Item, z: Row) {
    && z.name == item.title && z.description == item.description && z.dueDate == item.dueDate
    && z.owner == Text(item.assignedTo) && z.assignee == Text(item.assignedTo)
    && z.adoProject == c.adoProject && Some(z.groupId) == g
    && z.syncedFields == Some(c.defaultSyncedFields) && z.overriddenFields == {} && !z.removed
  }

  ghost predicate BroughtStatus(b: Board, item: Item, z: Row) {
    var (r, id) := ResolveStatusId(b, item.state);
    z.statusId == Some(id) && z.status == ToLegacyEnum(id, r.memory.statusCache)
  }

  lemma PromoteBrings(b: Board, item: Item)
    requires !OnBoard(b.memory, item) && item.adoId !in b.data.rows && !b.memory.failed
    requires InScope(b.memory.config, item)
    ensures var z := Promote(b, item);
            && !z.memory.failed && item.adoId in z.data.rows
            && Brought(b.memory.config, z.memory.groupId, item, z.data.rows[item.adoId])
            && BroughtStatus(b, item, z.data.rows[item.adoId])
            && (b.memory.groupId.Some? ==> z.memory.groupId == b.memory.groupId)
  {
    FiltersGovernAdditions(b.memory, item);
    UpsertKeeps(b, item.state);
    var (r, statusId) := ResolveStatusId(b, item.state);
    GroupKeeps(r);
    hide ResolveStatusId, Passes, ToLegacyEnum, NewLabel, Text, EnsureDefaultGroup, InScope;
    assert Promote(b, item) == CreateItem(r, item, statusId);
  }

  lemma GroupStays(b: Board, item: Item)
    ensures b.memory.groupId.Some? ==> Promote(b, item).memory.groupId == b.memory.groupId
  {
    UpsertKeeps(b, item.state);
    hide ResolveStatusId, Passes, ToLegacyEnum, NewLabel, OldLabel, StatusChanges, Updated, Created, EnsureDefaultGroup;
  }

  /** The new row stems from item `k` of the stream. */
  ghost predicate Stems(b: Board, items: seq<Item>, id: int, k: int) {
    && 0 <= k < |items| && items[k].adoId == id && InScope(b.memory.config, items[k])
    && var z := PromoteAll(b, items);
       && id in z.data.rows && Brought(b.memory.config, z.memory.groupId, items[k], z.data.rows[id])
       && BroughtStatus(PromoteAll(b, items[..k]), items[k], z.data.rows[id])
  }

  lemma StemsStays(b: Board, items: seq<Item>, id: int, k: int)
    requires items != [] && !PromoteAll(b, items).memory.failed && id !in b.memory.projectByAdoId
    requires SameSetup(b, PromoteAll(b, items[..|items| - 1]))
    requires Stems(b, items[..|items| - 1], id, k)
    ensures Stems(b, items, id, k)
  {
    var init, item := items[..|items| - 1], items[|items| - 1];
    var y := PromoteAll(b, init);
    assert PromoteAll(b, items) == Promote(y, item);
    assert items[..k] == init[..k];
    if y.memory.failed { FailedSticks(b, items); }
    hide PromoteAll;
    GroupStays(y, item);
    PromoteTouches(y, item);
    hide Promote, BroughtStatus, InScope, Passes;
  }

  lemma StemsHere(b: Board, items: seq<Item>, id: int)
    requires items != [] && !PromoteAll(b, items).memory.failed && id !in b.memory.projectByAdoId
    requires SameSetup(b, PromoteAll(b, items[..|items| - 1]))
    requires id !in PromoteAll(b, items[..|items| - 1]).data.rows && id in PromoteAll(b, items).data.rows
    ensures Stems(b, items, id, |items| - 1)
  {
    var init, item := items[..|items| - 1], items[|items| - 1];
    var y := PromoteAll(b, init);
    assert PromoteAll(b, items) == Promote(y, item);
    if y.memory.failed { FailedSticks(b, items); }
    hide PromoteAll;
    PromoteTouches(y, item);
    FiltersGovernAdditions(y.memory, item);
    hide Promote, BroughtStatus, InScope, Passes;
    assert item.adoId == id;
    PromoteBrings(y, item);
  }

  lemma {:induction false} NewRowsStem(b: Board, items: seq<Item>, id: int)
    requires !PromoteAll(b, items).memory.failed && id !in b.memory.projectByAdoId
    requires id !in b.data.rows && id in PromoteAll(b, items).data.rows
    ensures exists k :: Stems(b, items, id, k)
  {
    var init := items[..|items| - 1];
    hide Promote;
    if PromoteAll(b, init).memory.failed { FailedSticks(b, items); }
    RowsAfterAll(b, init);
    var before := PromoteAll(b, init).data.rows;
    if id in before {
      NewRowsStem(b, init, id);
      hide PromoteAll, Stems, RowsMatch, CountsMatch;
      var k :| Stems(b, init, id, k);
      StemsStays(b, items, id, k);
    } else {
      hide PromoteAll, Stems, RowsMatch, CountsMatch;
      StemsHere(b, items, id);
    }
  }

  /**
   Which rows are new, and what is in them: exactly the ids of in-scope items are added, and a new row has the fields
   of its item and the default allow-list.
   */
  lemma NewCardsAreTheItemsInScope(d: Data, c: Config, items: seq<Item>, id: int)
    requires id !in d.rows && !Promoted(d, c, items).board.memory.failed
    ensures var z, b := Promoted(d, c, items).board, InitBoardState(d, c).board;
            && (id in z.data.rows <==> exists k :: 0 <= k < |items| && items[k].adoId == id && InScope(c, items[k]))
            && (id in z.data.rows ==>
                  exists k :: Stems(b, items, id, k) && Brought(c, z.memory.groupId, items[k], z.data.rows[id]))
  {
    var b := InitBoardState(d, c).board;
    RowsAfterAll(b, items);
    RemovedExactly(d, c, items);
    forall k | 0 <= k < |items| && items[k].adoId == id ensures Passes(b.memory, items[k]) <==> InScope(c, items[k]) {
      FiltersGovernAdditions(b.memory, items[k]);
    }
    if id in PromoteAll(b, items).data.rows { NewRowsStem(b, items, id); }
    hide PromoteAll, Passes, InScope, AdoIds, LoadStatusCache, BroughtStatus;
  }

  // ---- The group of new rows ----

  predicate Names(g: Group, id: Id, name: string) {
    g.id == id && g.name == name
  }

  /** The group that new rows go to is the configured one, or one of the board's that is named after the project. */
  ghost predicate GroupTrue(b: Board, target: Option<Id>) {
    if target.Some? then b.memory.groupId == target
    else b.memory.groupId.Some? ==>
      exists g :: g in b.data.groups && Names(g, b.memory.groupId.value, b.memory.config.adoProject)
  }

  lemma {:induction false} GroupNamedIsThere(groups: seq<Group>, name: string)
    ensures GroupNamed(groups, name).Some? ==>
              exists g :: g in groups && Names(g, GroupNamed(groups, name).value, name)
    ensures GroupNamed(groups, name).None? ==> forall g :: g in groups ==> g.name != name
  {
    if groups != [] {
      GroupNamedIsThere(groups[1..], name);
      if groups[0].name == name {
        assert Names(groups[0], groups[0].id, name);
      } else if GroupNamed(groups[1..], name).Some? {
        var g :| g in groups[1..] && Names(g, GroupNamed(groups[1..], name).value, name);
        assert g in groups;
      }
    }
  }

  lemma {:induction false} NextPositionIsAbove(groups: seq<Group>)
    ensures forall g :: g in groups ==> g.position < NextPosition(groups)
  {
    if groups != [] {
      NextPositionIsAbove(groups[..|groups| - 1]);
      assert groups == groups[..|groups| - 1] + [groups[|groups| - 1]];
    }
  }

  lemma EnsureGroupTrue(b: Board, target: Option<Id>)
    requires GroupTrue(b, target)
    ensures GroupTrue(EnsureGroup(b).0, target) && Some(EnsureGroup(b).1) == EnsureGroup(b).0.memory.groupId
    ensures forall g :: g in EnsureGroup(b).0.data.groups && g !in b.data.groups ==>
              forall h :: h in b.data.groups ==> h.position < g.position
  {
    var name := b.memory.config.adoProject;
    GroupNamedIsThere(b.data.groups, name);
    NextPositionIsAbove(b.data.groups);
    hide GroupNamed, NextPosition;
    if b.memory.groupId.None? && GroupNamed(b.data.groups, name).None? {
      var z := EnsureGroup(b).0;
      var g := z.data.groups[|b.data.groups|];
      assert g in z.data.groups && Names(g, Minted(b.data.minted), name);
    }
  }

  lemma PromoteGroupTrue(b: Board, item: Item, target: Option<Id>)
    requires GroupTrue(b, target)
    ensures GroupTrue(Promote(b, item), target)
  {
    UpsertKeeps(b, item.state);
    var r := ResolveStatusId(b, item.state).0;
    assert GroupTrue(r, target);
    EnsureGroupTrue(r, target);
    hide ResolveStatusId, Passes, ToLegacyEnum, NewLabel, OldLabel, StatusChanges, Updated, Created, EnsureGroup;
  }

  /** New rows of a promotion go to the configured group, or to a group of the board named after the project. */
  lemma {:induction false} NewRowsGoToTheirGroup(d: Data, c: Config, items: seq<Item>)
    ensures var z := PromoteAll(InitBoardState(d, c).board, items);
            GroupTrue(z, c.targetGroupId) && z.memory.config == c
  {
    if items != [] {
      var y := PromoteAll(InitBoardState(d, c).board, items[..|items| - 1]);
      NewRowsGoToTheirGroup(d, c, items[..|items| - 1]);
      PromoteGroupTrue(y, items[|items| - 1], c.targetGroupId);
      if !y.memory.failed { PromoteTouches(y, items[|items| - 1]); }
      hide Promote, GroupTrue;
    }
  }

  // ---- The counters ----

  /** How many new cards, and how many updates of cards that were there, the items of a stream amount to. */
  ghost function Additions(m: Memory, items: seq<Item>): nat {
    if items == [] then 0
    else
      var item := items[|items| - 1];
      Additions(m, items[..|items| - 1]) + if !OnBoard(m, item) && InScope(m.config, item) then 1 else 0
  }

  ghost function Refreshes(m: Memory, items: seq<Item>): nat {
    if items == [] then 0
    else
      var item := items[|items| - 1];
      Refreshes(m, items[..|items| - 1]) + if OnBoard(m, item) && item.adoId !in m.config.excludedAdoIds then 1 else 0
  }

  lemma PromoteCounts(b: Board, item: Item)
    requires !Promote(b, item).memory.failed
    ensures var z := Promote(b, item).memory;
            && z.created ==
               b.memory.created + (if !OnBoard(b.memory, item) && InScope(b.memory.config, item) then 1 else 0)
            && z.updated ==
               b.memory.updated
               + (if OnBoard(b.memory, item) && item.adoId !in b.memory.config.excludedAdoIds then 1 else 0)
            && z.markedRemoved == b.memory.markedRemoved
  {
    PromoteTouches(b, item);
    FiltersGovernAdditions(b.memory, item);
    hide Promote, Passes, InScope;
  }

  lemma {:induction false} CountersAdd(b: Board, items: seq<Item>)
    requires !PromoteAll(b, items).memory.failed
    ensures var z := PromoteAll(b, items).memory;
            && z.created == b.memory.created + Additions(b.memory, items)
            && z.updated == b.memory.updated + Refreshes(b.memory, items)
            && z.markedRemoved == b.memory.markedRemoved
  {
    if items != [] {
      var init, item := items[..|items| - 1], items[|items| - 1];
      var y := PromoteAll(b, init);
      hide Promote;
      if y.memory.failed { FailedSticks(b, items); }
      CountersAdd(b, init);
      RowsAfterAll(b, init);
      assert SameSetup(b, y);
      hide RowsAfter;
      PromoteCounts(y, item);
      hide InScope;
    }
  }

  /** What a promotion reports: the in-scope items that were new, the updates, and the rows newly marked as removed. */
  lemma CountersAreTrue(d: Data, c: Config, items: seq<Item>)
    requires !Promoted(d, c, items).board.memory.failed
    ensures var z, m := Promoted(d, c, items).board, InitBoardState(d, c).board.memory;
            && z.memory.created == Additions(m, items) && z.memory.updated == Refreshes(m, items)
            && z.memory.markedRemoved == |NewlyMarkedIds(d, z.data)|
  {
    CountersAdd(InitBoardState(d, c).board, items);
    MarkedAreNew(d, c, items);
    hide PromoteAll, Additions, Refreshes, NewlyMarkedIds;
  }

  ghost function NewlyMarkedIds(d: Data, z: Data): set<int> {
    set id | id in d.rows && NewlyMarked(d, z, id)
  }

  lemma MarkedAreNew(d: Data, c: Config, items: seq<Item>)
    requires !Promoted(d, c, items).board.memory.failed
    ensures Marked(ProcessBatch(InitBoardState(d, c), items))
            == NewlyMarkedIds(d, Promoted(d, c, items).board.data)
  {
    hide Promoted, Marked, ProcessBatch, InitBoardState, NewlyMarked;
    forall id
      ensures id in Marked(ProcessBatch(InitBoardState(d, c), items))
              <==> id in NewlyMarkedIds(d, Promoted(d, c, items).board.data)
    {
      MarkedIsNew(d, c, items, id);
    }
  }

  lemma MarkedIsNew(d: Data, c: Config, items: seq<Item>, id: int)
    requires !Promoted(d, c, items).board.memory.failed
    ensures id in Marked(ProcessBatch(InitBoardState(d, c), items))
            <==> id in d.rows && NewlyMarked(d, Promoted(d, c, items).board.data, id)
  {
    RemovalIgnoresFilters(d, c, c, items, id);
    RowsAfterAll(InitBoardState(d, c).board, items);
    SeenIds(items, id);
    forall x | PassedIn(InitBoardState(d, c).board.memory, items, x) ensures x in AdoIds(items) { SeenIds(items, x); }
    hide PromoteAll, Passes, PassedIn, AdoIds, NewlyMarked, Passing, LoadStatusCache, Promoted;
    assert [] + AdoIds(items) == AdoIds(items);
  }

  /** A board whose promotion failed is not finalized: no row is marked removed that was not before. */
  lemma FailedPromotionMarksNothing(d: Data, c: Config, items: seq<Item>, id: int)
    requires Promoted(d, c, items).board.memory.failed
    ensures !NewlyMarked(d, Promoted(d, c, items).board.data, id)
  {
    NothingIsMarkedUnfinished(InitBoardState(d, c).board, items, id);
  }

  lemma {:induction false} NothingIsMarkedUnfinished(b: Board, items: seq<Item>, id: int)
    ensures id in b.data.rows && !b.data.rows[id].removed ==>
              var z := PromoteAll(b, items).data.rows; id in z && !z[id].removed
  {
    if items != [] {
      var init, item := items[..|items| - 1], items[|items| - 1];
      var y := PromoteAll(b, init);
      NothingIsMarkedUnfinished(b, init, id);
      if y.memory.failed {
        assert Promote(y, item) == y;
      } else {
        PromoteTouches(y, item);
      }
      hide Promote, Passes;
    }
  }
}
