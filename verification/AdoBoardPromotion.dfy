/** The promotion state of one board, as it is mutated (apps/worker/src/azure-devops-promote.service.ts). */
module AdoBoardPromotion {
  import opened Wrappers
  import opened AdoPromote
  import opened Strings

  class BoardPromotion {
    const config: Config
    const projectByAdoId: map<int, Row>
    var rows: map<int, Row>
    var statuses: seq<Status>
    var groups: seq<Group>
    var changes: seq<Change>
    var minted: nat
    var statusCache: seq<Cached>
    var groupId: Option<Id>
    var seenAdoIds: seq<int>
    var created: nat
    var updated: nat
    var markedRemoved: nat
    var failed: bool

    ghost function View(): Board
      reads this
    {
      Board(Data(rows, statuses, groups, changes, minted),
            Memory(config, projectByAdoId, statusCache, groupId, created, updated, markedRemoved, failed))
    }

    constructor (d: Data, c: Config)
      ensures Run(View(), seenAdoIds) == InitBoardState(d, c)
    {
      config := c;
      projectByAdoId := map id | id in d.rows && d.rows[id].adoProject == c.adoProject :: d.rows[id];
      rows, statuses, groups, changes, minted := d.rows, d.statuses, d.groups, d.changes, d.minted;
      statusCache := LoadStatusCache(d.statuses);
      groupId := c.targetGroupId;
      seenAdoIds := [];
      created, updated, markedRemoved, failed := 0, 0, 0, false;
    }

    /** Counts the uses of every palette color, then takes the first least used one. */
    method PickColor() returns (best: string)
      ensures best == PickUnusedColor(config.palette, statusCache)
    {
      var palette := config.palette;
      if |palette| == 0 { return ""; }
      var counts := CountColors(palette);
      best := palette[0];
      for i := 1 to |palette|
        invariant best in counts && counts[best] == Count(statusCache, best)
        invariant LeastUsed(palette[1..], statusCache, palette[0]) == LeastUsed(palette[i..], statusCache, best)
      {
        hide Count;
        assert palette[i] in palette && palette[i..][1..] == palette[i + 1..];
        if counts[palette[i]] < counts[best] { best := palette[i]; }
      }
    }

    method CountColors(palette: seq<string>) returns (counts: map<string, nat>)
      ensures forall color :: color in palette <==> color in counts
      ensures forall color :: color in counts ==> counts[color] == Count(statusCache, color)
    {
      counts := map color | color in palette :: 0;
      for i := 0 to |statusCache|
        invariant forall color :: color in palette <==> color in counts
        invariant forall color :: color in counts ==> counts[color] == Count(statusCache[..i], color)
      {
        var s := statusCache[i];
        assert statusCache[..i + 1][..i] == statusCache[..i];
        if s.color in counts { counts := counts[s.color := counts[s.color] + 1]; }
      }
      assert statusCache[..|statusCache|] == statusCache;
    }

    method Upsert(caption: string) returns (id: Id)
      modifies this
      ensures View() == UpsertBoardStatus(old(View()), caption) && id == Minted(old(minted))
      ensures seenAdoIds == old(seenAdoIds)
    {
      var color := PickColor();
      hide PickUnusedColor, NextOrder, AdoPromote.Put, Lower;
      id := Minted(minted);
      statuses := statuses + [Status(id, caption, color, NextOrder(statuses))];
      minted := minted + 1;
      statusCache := Put(statusCache, Cached(Lower(caption), id, caption, color));
    }

    method Resolve(state: string) returns (id: Id)
      modifies this
      ensures (View(), id) == ResolveStatusId(old(View()), state)
      ensures seenAdoIds == old(seenAdoIds)
    {
      var mapped := if state in config.statusMapping then config.statusMapping[state] else "";
      if mapped != "" {
        if IsUuid(mapped) {
          var byUuid := ById(statusCache, Given(mapped));
          if byUuid.Some? { return byUuid.value.id; }
        }
        if mapped in LEGACY_STATUS_LABELS {
          var byEnum := Get(statusCache, Lower(LEGACY_STATUS_LABELS[mapped]));
          if byEnum.Some? { return byEnum.value.id; }
        }
        var byLabel := Get(statusCache, Lower(mapped));
        if byLabel.Some? { return byLabel.value.id; }
      }
      var byName := Get(statusCache, Lower(state));
      if byName.Some? { return byName.value.id; }
      id := Upsert(state);
    }

    method DefaultGroup() returns (id: Id)
      modifies this
      ensures (View(), id) == EnsureGroup(old(View()))
      ensures seenAdoIds == old(seenAdoIds)
    {
      hide GroupNamed, NextPosition;
      if groupId.Some? { return groupId.value; }
      var existing := GroupNamed(groups, config.adoProject);
      if existing.Some? {
        id := existing.value;
      } else {
        id := Minted(minted);
        groups := groups + [Group(id, config.adoProject, NextPosition(groups))];
        minted := minted + 1;
      }
      groupId := Some(id);
    }

    method Create(item: Item, statusId: Id)
      modifies this
      ensures View() == CreateItem(old(View()), item, statusId)
      ensures seenAdoIds == old(seenAdoIds)
    {
      hide EnsureGroup, ToLegacyEnum, NewLabel, AdoPromote.Created;
      var legacy := ToLegacyEnum(statusId, statusCache);
      ghost var b := View();
      var group := DefaultGroup();
      GroupKeeps(b);
      ghost var g := View();
      if item.adoId in rows {
        failed := true;
        return;
      }
      rows := rows[item.adoId := CreatedRow(item, statusId, legacy, group)];
      created := created + 1;
      changes := changes + [Change(item.adoId, None, NewLabel(statusId, legacy, statusCache))];
      assert rows[item.adoId] == AdoPromote.Created(g, item, statusId, legacy, group);
    }

    function CreatedRow(item: Item, statusId: Id, legacy: string, group: Id): (r: Row)
      reads this
      ensures r == AdoPromote.Created(View(), item, statusId, legacy, group)
    {
      Row(config.adoProject, item.title, item.description, Some(statusId), legacy, Text(item.assignedTo),
          Text(item.assignedTo), item.dueDate, group, Some(config.defaultSyncedFields), {}, false)
    }

    /** Field by field, what the update call writes. */
    method UpdatedRow(existing: Row, row: Row, item: Item, statusId: Id, legacy: string) returns (r: Row, status: bool)
      ensures r == Updated(row, existing, View().memory, item, statusId, legacy)
      ensures status == Syncs("status", if existing.syncedFields.Some? then existing.syncedFields.value
                                        else config.defaultSyncedFields, existing.overriddenFields)
    {
      var synced := if existing.syncedFields.Some? then existing.syncedFields.value else config.defaultSyncedFields;
      var over := existing.overriddenFields;
      hide Syncs, Text;
      status := Syncs("status", synced, over);
      r := row.(removed := false);
      if Syncs("name", synced, over) { r := r.(name := item.title); }
      if status { r := r.(statusId := Some(statusId), status := legacy); }
      if "owner" in synced { r := r.(assignee := Text(item.assignedTo)); }
      if Syncs("owner", synced, over) { r := r.(owner := Text(item.assignedTo)); }
      if Syncs("description", synced, over) { r := r.(description := item.description); }
      if Syncs("dueDate", synced, over) { r := r.(dueDate := item.dueDate); }
    }

    method Update(item: Item, statusId: Id)
      requires OnBoard(View().memory, item)
      modifies this
      ensures View() == UpdateItem(old(View()), item, statusId)
      ensures seenAdoIds == old(seenAdoIds)
    {
      hide ToLegacyEnum, NewLabel, OldLabel, Syncs, Updated;
      var legacy := ToLegacyEnum(statusId, statusCache);
      var existing := projectByAdoId[item.adoId];
      if item.adoId !in rows {
        failed := true;
        return;
      }
      var row, status := UpdatedRow(existing, rows[item.adoId], item, statusId, legacy);
      rows := rows[item.adoId := row];
      updated := updated + 1;
      if status && legacy != existing.status {
        changes := changes
            + [Change(item.adoId, Some(OldLabel(existing, statusCache)), NewLabel(statusId, legacy, statusCache))];
      }
    }

    method PromoteItem(item: Item)
      requires !failed && Passes(View().memory, item)
      modifies this
      ensures View() == Promote(old(View()), item)
      ensures seenAdoIds == old(seenAdoIds)
    {
      ghost var b := View();
      UpsertKeeps(b, item.state);
      hide ResolveStatusId, CreateItem, UpdateItem, Passes;
      var statusId := Resolve(item.state);
      if item.adoId in projectByAdoId { Update(item, statusId); } else { Create(item, statusId); }
    }

    /** The batch behind the four filters, each of which is skipped when it is not configured. */
    method Select(items: seq<Item>) returns (workItems: seq<Item>)
      ensures workItems == Selected(View().memory, items)
    {
      workItems := [];
      ghost var m := View().memory;
      for i := 0 to |items|
        invariant workItems == Selected(m, items[..i])
      {
        var item := items[i];
        var onBoard := item.adoId in projectByAdoId;
        var area := if item.areaPath.Some? then item.areaPath.value else "";
        assert items[..i + 1][..i] == items[..i];
        if |config.allowedWorkItemTypes| > 0 && !(onBoard || item.kind in config.allowedWorkItemTypes) { continue; }
        if config.wiqlIds.Some? && !(onBoard || item.adoId in config.wiqlIds.value) { continue; }
        if item.adoId in config.excludedAdoIds { continue; }
        if |config.areaPaths| > 0 && !(onBoard || exists p :: p in config.areaPaths && p <= area) { continue; }
        workItems := workItems + [item];
      }
      assert items[..|items|] == items;
    }

    method ProcessBatch(items: seq<Item>)
      requires !failed
      modifies this
      ensures Run(View(), seenAdoIds) == AdoPromote.ProcessBatch(old(Run(View(), seenAdoIds)), items)
    {
      ghost var b := View();
      hide AdoIds, Promote, Passes, Selected;
      seenAdoIds := seenAdoIds + AdoIds(items);
      var workItems := Select(items);
      SelectedPass(b.memory, items);
      SelectionIsEnough(b, items);
      for i := 0 to |workItems|
        invariant View() == PromoteAll(b, workItems[..i])
        invariant seenAdoIds == old(seenAdoIds) + AdoIds(items)
      {
        assert workItems[..i + 1][..i] == workItems[..i];
        PromoteKeepsFilters(b, workItems[..i]);
        PassesFixed(b.memory, View().memory, workItems[i]);
        if failed {
          FailedStays(b, workItems, i);
          return;
        }
        PromoteItem(workItems[i]);
      }
      assert workItems[..|workItems|] == workItems;
    }

    method Finalize()
      modifies this
      ensures Run(View(), seenAdoIds) == FinalizeBoard(old(Run(View(), seenAdoIds)))
    {
      if failed { return; }
      var candidates := set id | id in projectByAdoId && id !in seenAdoIds;
      if candidates == {} {
        assert Marked(Run(View(), seenAdoIds)) == {};
        assert WithRemoved(rows, {}) == rows;
        return;
      }
      var marked := set id | id in rows && id in candidates && rows[id].adoProject == config.adoProject
          && !rows[id].removed;
      assert marked == Marked(Run(View(), seenAdoIds));
      rows := WithRemoved(rows, marked);
      markedRemoved := markedRemoved + |marked|;
    }
  }

  function Selected(m: Memory, items: seq<Item>): seq<Item> {
    if items == [] then []
    else Selected(m, items[..|items| - 1]) + if Passes(m, items[|items| - 1]) then [items[|items| - 1]] else []
  }

  lemma {:induction false} SelectedPass(m: Memory, items: seq<Item>)
    ensures forall x :: x in Selected(m, items) ==> Passes(m, x)
  {
    hide Passes;
    if items != [] { SelectedPass(m, items[..|items| - 1]); }
  }

  lemma {:induction false} PromoteKeepsFilters(b: Board, items: seq<Item>)
    ensures var z := PromoteAll(b, items);
            z.memory.config == b.memory.config && z.memory.projectByAdoId == b.memory.projectByAdoId
  {
    if items != [] {
      var y := PromoteAll(b, items[..|items| - 1]);
      PromoteKeepsFilters(b, items[..|items| - 1]);
      if !y.memory.failed { PromoteTouches(y, items[|items| - 1]); }
    }
  }

  /** Filtering the batch first and promoting what is left is promoting the batch: the filters do not move. */
  lemma {:induction false} SelectionIsEnough(b: Board, items: seq<Item>)
    ensures PromoteAll(b, Selected(b.memory, items)) == PromoteAll(b, items)
  {
    if items != [] {
      var init, item := items[..|items| - 1], items[|items| - 1];
      SelectionIsEnough(b, init);
      PromoteKeepsFilters(b, init);
      PassesFixed(b.memory, PromoteAll(b, init).memory, item);
      var s := Selected(b.memory, init);
      if Passes(b.memory, item) {
        assert (s + [item])[..|s|] == s;
      } else {
        assert Selected(b.memory, items) == s;
      }
    }
  }

  lemma {:induction false} FailedStays(b: Board, items: seq<Item>, i: nat)
    requires i <= |items| && PromoteAll(b, items[..i]).memory.failed
    ensures PromoteAll(b, items) == PromoteAll(b, items[..i])
    decreases |items|
  {
    if i == |items| {
      assert items[..i] == items;
    } else {
      assert items[..|items| - 1][..i] == items[..i];
      FailedStays(b, items[..|items| - 1], i);
    }
  }
}
