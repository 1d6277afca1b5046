/**
 How an item's state becomes a status of the board, and what is recorded of it
 (apps/worker/src/azure-devops-promote.service.ts). With labels that differ up to case, the status cache is the list
 of the board's statuses, so everything can be said of the board alone.
 */
module AdoPromoteLabels {
  import opened Strings
  import opened Wrappers
  import opened AdoPromote
  import opened AdoPromoteStatuses

  // ---- The cache is the board's list ----

  function CachedOf(s: Status): Cached {
    Cached(Lower(s.caption), s.id, s.caption, s.color)
  }

  function CacheOf(statuses: seq<Status>): seq<Cached> {
    seq(|statuses|, i requires 0 <= i < |statuses| => CachedOf(statuses[i]))
  }

  lemma {:induction false} PutNew(cache: seq<Cached>, e: Cached)
    requires forall x :: x in cache ==> x.key != e.key
    ensures Put(cache, e) == cache + [e]
  {
    if cache != [] { PutNew(cache[1..], e); }
  }

  lemma CacheAppend(statuses: seq<Status>, s: Status)
    requires forall t :: t in statuses ==> Lower(t.caption) != Lower(s.caption)
    ensures Put(CacheOf(statuses), CachedOf(s)) == CacheOf(statuses + [s])
  {
    PutNew(CacheOf(statuses), CachedOf(s));
    hide Put, Lower;
    assert CacheOf(statuses + [s]) == CacheOf(statuses) + [CachedOf(s)];
  }

  lemma {:induction false} LoadIsList(statuses: seq<Status>)
    requires DistinctLabels(statuses)
    ensures LoadStatusCache(statuses) == CacheOf(statuses)
  {
    if statuses != [] {
      var init, s := statuses[..|statuses| - 1], statuses[|statuses| - 1];
      LoadIsList(init);
      assert statuses == init + [s];
      CacheAppend(init, s);
    }
  }

  /** The cache of the board lists its statuses, whose labels differ. */
  ghost predicate Listed(b: Board) {
    b.memory.statusCache == CacheOf(b.data.statuses) && DistinctLabels(b.data.statuses)
  }

  lemma ListedMirrors(b: Board)
    requires Listed(b)
    ensures Mirrors(b)
  {
    hide Lower;
    forall e | e in b.memory.statusCache ensures exists s :: s in b.data.statuses && Matches(e, s) {
      var i :| 0 <= i < |b.data.statuses| && b.memory.statusCache[i] == e;
      assert b.data.statuses[i] in b.data.statuses && Matches(e, b.data.statuses[i]);
    }
    forall s | s in b.data.statuses ensures Get(b.memory.statusCache, Lower(s.caption)).Some? {
      var i :| 0 <= i < |b.data.statuses| && b.data.statuses[i] == s;
      GetAt(b.memory.statusCache, i);
    }
  }

  lemma {:induction false} GetAt(cache: seq<Cached>, i: nat)
    requires i < |cache|
    ensures Get(cache, cache[i].key).Some?
  {
    if i > 0 { GetAt(cache[1..], i - 1); }
  }

  lemma ResolveListed(b: Board, state: string)
    requires Listed(b)
    ensures Listed(ResolveStatusId(b, state).0)
  {
    ListedMirrors(b);
    if KnownStatus(state, b.memory.config, b.memory.statusCache).None? {
      UnknownIsNew(b, state);
      UpsertMirrors(b, state);
      var s := ResolveStatusId(b, state).0.data.statuses[|b.data.statuses|];
      hide KnownStatus, PickUnusedColor, NextOrder, Put, CacheOf, Mirrors;
      CacheAppend(b.data.statuses, s);
    }
  }

  lemma PromoteListed(b: Board, item: Item)
    requires Listed(b)
    ensures Listed(Promote(b, item))
  {
    ResolveListed(b, item.state);
    var (r, statusId) := ResolveStatusId(b, item.state);
    GroupKeeps(r);
    hide ResolveStatusId, Passes, ToLegacyEnum, NewLabel, OldLabel, StatusChanges, Updated, Created, EnsureGroup,
      CacheOf, DistinctLabels;
  }

  /** On a board whose labels differ up to case, the cache lists exactly the statuses of the board at every point. */
  lemma {:induction false} CacheListsTheBoard(d: Data, c: Config, items: seq<Item>)
    requires DistinctLabels(d.statuses)
    ensures Listed(PromoteAll(InitBoardState(d, c).board, items))
  {
    if items == [] {
      LoadIsList(d.statuses);
    } else {
      CacheListsTheBoard(d, c, items[..|items| - 1]);
      PromoteListed(PromoteAll(InitBoardState(d, c).board, items[..|items| - 1]), items[|items| - 1]);
      hide Promote, Listed;
    }
  }

  // ---- Which status a state resolves to ----

  predicate Labelled(s: Status, caption: string) {
    Lower(s.caption) == Lower(caption)
  }

  /** A status of the board called this, up to case. */
  ghost predicate Called(statuses: seq<Status>, caption: string) {
    exists s :: s in statuses && Labelled(s, caption)
  }

  /** This is the id of the status called that. */
  ghost predicate IsCalled(statuses: seq<Status>, id: Id, caption: string) {
    exists s :: s in statuses && HasId(s, id) && Labelled(s, caption)
  }

  lemma {:induction false} GetIsCalled(statuses: seq<Status>, caption: string)
    ensures var e := Get(CacheOf(statuses), Lower(caption));
            && (e.Some? <==> Called(statuses, caption))
            && (e.Some? ==> IsCalled(statuses, e.value.id, caption))
  {
    if statuses != [] {
      GetIsCalled(statuses[1..], caption);
      assert CacheOf(statuses)[1..] == CacheOf(statuses[1..]);
      assert CacheOf(statuses)[0] == CachedOf(statuses[0]);
      hide Lower, CacheOf;
      assert forall s :: s in statuses <==> s == statuses[0] || s in statuses[1..];
      if Labelled(statuses[0], caption) { assert HasId(statuses[0], statuses[0].id); }
    }
  }

  lemma {:induction false} ByIdIsThere(statuses: seq<Status>, id: Id)
    ensures ById(CacheOf(statuses), id).Some? <==> OnThisBoard(statuses, id)
    ensures ById(CacheOf(statuses), id).Some? ==>
              exists s :: s in statuses && HasId(s, id) && s.caption == ById(CacheOf(statuses), id).value.caption
    ensures ById(CacheOf(statuses), id).Some? ==> ById(CacheOf(statuses), id).value.id == id
  {
    if statuses != [] {
      ByIdIsThere(statuses[1..], id);
      assert CacheOf(statuses)[1..] == CacheOf(statuses[1..]);
      assert CacheOf(statuses)[0] == CachedOf(statuses[0]);
      hide Lower, CacheOf;
      assert forall s :: s in statuses <==> s == statuses[0] || s in statuses[1..];
      if HasId(statuses[0], id) { assert statuses[0] in statuses; }
    }
  }

  function Mapped(c: Config, state: string): string {
    if state in c.statusMapping then c.statusMapping[state] else ""
  }

  /** The mapping of the state names a status of the board by its id. */
  ghost predicate MapsToId(b: Board, state: string) {
    IsUuid(Mapped(b.memory.config, state)) && OnThisBoard(b.data.statuses, Given(Mapped(b.memory.config, state)))
  }

  /** The mapping is an old enum value, under whose label the board has a status. */
  ghost predicate MapsToEnum(b: Board, state: string) {
    var mapped := Mapped(b.memory.config, state);
    mapped in LEGACY_STATUS_LABELS && Called(b.data.statuses, LEGACY_STATUS_LABELS[mapped])
  }

  ghost predicate MapsToLabel(b: Board, state: string) {
    Mapped(b.memory.config, state) != "" && Called(b.data.statuses, Mapped(b.memory.config, state))
  }

  /**
   The order in which a state is resolved, told of the board: a mapped id that exists, then the label of a mapped enum
   value, then a mapped label, then a status called like the state; only where all four fail is a status made, which is
   called like the state, comes after all others, and has a color no other one of the palette is used less than.
   */
  lemma ResolutionOrder(b: Board, state: string)
    requires Listed(b)
    ensures var (r, id) := ResolveStatusId(b, state);
            var mapped, statuses := Mapped(b.memory.config, state), b.data.statuses;
            if MapsToId(b, state) then r == b && id == Given(mapped)
            else if MapsToEnum(b, state) then r == b && IsCalled(statuses, id, LEGACY_STATUS_LABELS[mapped])
            else if MapsToLabel(b, state) then r == b && IsCalled(statuses, id, mapped)
            else if Called(statuses, state) then r == b && IsCalled(statuses, id, state)
            else
              && |r.data.statuses| == |statuses| + 1 && statuses <= r.data.statuses
              && IsNew(statuses, r.data.statuses[|statuses|], id, state, b.memory.config.palette)
  {
    var mapped := Mapped(b.memory.config, state);
    ByIdIsThere(b.data.statuses, Given(mapped));
    if mapped in LEGACY_STATUS_LABELS { GetIsCalled(b.data.statuses, LEGACY_STATUS_LABELS[mapped]); }
    GetIsCalled(b.data.statuses, mapped);
    GetIsCalled(b.data.statuses, state);
    NextOrderIsAbove(b.data.statuses);
    if b.memory.config.palette != [] { NewColor(b.data.statuses, b.memory.config.palette); }
    hide Called, IsCalled, OnThisBoard, CacheOf, Get, ById, Put, PickUnusedColor, NextOrder, IsUuid, Lower;
  }

  function Uses(statuses: seq<Status>, color: string): nat {
    if statuses == [] then 0 else Uses(statuses[1..], color) + if statuses[0].color == color then 1 else 0
  }

  ghost predicate IsNew(statuses: seq<Status>, s: Status, id: Id, caption: string, palette: seq<string>) {
    && s.id == id && s.caption == caption
    && (forall t :: t in statuses ==> t.order < s.order)
    && (palette != [] ==>
          s.color in palette && forall color :: color in palette ==> Uses(statuses, s.color) <= Uses(statuses, color))
  }

  lemma {:induction false} NextOrderIsAbove(statuses: seq<Status>)
    ensures forall s :: s in statuses ==> s.order < NextOrder(statuses)
  {
    if statuses != [] {
      NextOrderIsAbove(statuses[..|statuses| - 1]);
      assert statuses == statuses[..|statuses| - 1] + [statuses[|statuses| - 1]];
    }
  }

  lemma {:induction false} UsesLast(statuses: seq<Status>, s: Status, color: string)
    ensures Uses(statuses + [s], color) == Uses(statuses, color) + if s.color == color then 1 else 0
  {
    if statuses == [] {
      assert [] + [s] == [s];
    } else {
      assert (statuses + [s])[1..] == statuses[1..] + [s];
      UsesLast(statuses[1..], s, color);
    }
  }

  lemma {:induction false} CountIsUses(statuses: seq<Status>, color: string)
    ensures Count(CacheOf(statuses), color) == Uses(statuses, color)
  {
    if statuses != [] {
      var init, s := statuses[..|statuses| - 1], statuses[|statuses| - 1];
      CountIsUses(init, color);
      assert statuses == init + [s];
      UsesLast(init, s, color);
      assert CacheOf(statuses)[..|statuses| - 1] == CacheOf(init);
    }
  }

  lemma NewColor(statuses: seq<Status>, palette: seq<string>)
    requires palette != []
    ensures var color := PickUnusedColor(palette, CacheOf(statuses));
            color in palette && forall other :: other in palette ==> Uses(statuses, color) <= Uses(statuses, other)
  {
    PickedColorIsLeastUsed(palette, CacheOf(statuses), "");
    CountIsUses(statuses, PickUnusedColor(palette, CacheOf(statuses)));
    forall other | other in palette ensures Count(CacheOf(statuses), other) == Uses(statuses, other) {
      CountIsUses(statuses, other);
    }
    hide Count, Uses, PickUnusedColor;
  }

  // ---- The old enum beside a status, and the record of changes ----

  /** What the old enum column says of a label: one of the five it knows, or not started. */
  function EnumOf(caption: string): string {
    if Lower(caption) in LABEL_TO_ENUM then LABEL_TO_ENUM[Lower(caption)] else "NOT_STARTED"
  }

  lemma EnumMatchesLabel(statuses: seq<Status>, id: Id)
    requires OnThisBoard(statuses, id)
    ensures exists s :: s in statuses && HasId(s, id) && ToLegacyEnum(id, CacheOf(statuses)) == EnumOf(s.caption)
    ensures exists s :: s in statuses && HasId(s, id) && LabelFromCache(id, CacheOf(statuses)) == Some(s.caption)
  {
    ByIdIsThere(statuses, id);
    hide ById, CacheOf, Lower;
  }

  /** The label a person saw beside a row: that of its status, or its old enum when the status is gone. */
  ghost predicate ShownAs(statuses: seq<Status>, row: Row, text: string) {
    if row.statusId.Some? && OnThisBoard(statuses, row.statusId.value)
    then exists s :: s in statuses && HasId(s, row.statusId.value) && s.caption == text
    else text == row.status
  }

  ghost predicate StatusSynced(existing: Row, defaults: set<string>) {
    var synced := if existing.syncedFields.Some? then existing.syncedFields.value else defaults;
    "status" !in existing.overriddenFields && "status" in synced
  }

  /**
   What one promoted item records: for a new row the label it came with; for an update, exactly when its status is
   synced and the old enum moves, the label before and the label after; nothing otherwise.
   */
  lemma ChangesAreRecorded(b: Board, item: Item)
    requires Listed(b) && !b.memory.failed && !Promote(b, item).memory.failed
    ensures var z, id := Promote(b, item), item.adoId;
            if !Passes(b.memory, item) then z.data.changes == b.data.changes
            else if !OnBoard(b.memory, item) then
              && id in z.data.rows && |z.data.changes| == |b.data.changes| + 1 && b.data.changes <= z.data.changes
              && var change := z.data.changes[|b.data.changes|];
                 change.adoId == id && change.fromStatus.None?
                 && ShownAs(z.data.statuses, z.data.rows[id], change.toStatus)
            else
              var existing := b.memory.projectByAdoId[id];
              && id in z.data.rows
              && if StatusSynced(existing, b.memory.config.defaultSyncedFields)
                    && z.data.rows[id].status != existing.status
                 then
                   && |z.data.changes| == |b.data.changes| + 1 && b.data.changes <= z.data.changes
                   && var change := z.data.changes[|b.data.changes|];
                      change.adoId == id && change.fromStatus.Some?
                      && ShownAs(z.data.statuses, existing, change.fromStatus.value)
                      && ShownAs(z.data.statuses, z.data.rows[id], change.toStatus)
                 else z.data.changes == b.data.changes
  {
    if Passes(b.memory, item) {
      var (r, statusId) := ResolveStatusId(b, item.state);
      ListedMirrors(b);
      ResolvedIsOnBoard(b, item.state);
      ResolveListed(b, item.state);
      UpsertKeeps(b, item.state);
      assert r.data.changes == b.data.changes;
      if OnBoard(r.memory, item) { RecordsUpdate(r, item, statusId); } else { RecordsNew(r, item, statusId); }
      hide ResolveStatusId, CreateItem, UpdateItem, ShownAs, Listed, Mirrors, OnThisBoard;
    }
  }

  lemma RecordsNew(b: Board, item: Item, statusId: Id)
    requires Listed(b) && OnThisBoard(b.data.statuses, statusId) && !CreateItem(b, item, statusId).memory.failed
    requires !b.memory.failed
    ensures var z, id := CreateItem(b, item, statusId), item.adoId;
            && id in z.data.rows && |z.data.changes| == |b.data.changes| + 1 && b.data.changes <= z.data.changes
            && var change := z.data.changes[|b.data.changes|];
               change.adoId == id && change.fromStatus.None?
               && ShownAs(z.data.statuses, z.data.rows[id], change.toStatus)
  {
    GroupKeeps(b);
    GroupKeepsChanges(b);
    EnumMatchesLabel(b.data.statuses, statusId);
    hide EnsureGroup, ToLegacyEnum, LabelFromCache, OnThisBoard, CacheOf;
  }

  lemma GroupKeepsChanges(b: Board)
    ensures EnsureGroup(b).0.data.changes == b.data.changes
  {
    hide GroupNamed, NextPosition;
  }

  lemma RecordsUpdate(b: Board, item: Item, statusId: Id)
    requires Listed(b) && OnThisBoard(b.data.statuses, statusId) && OnBoard(b.memory, item)
    requires !b.memory.failed && !UpdateItem(b, item, statusId).memory.failed
    ensures var z, id := UpdateItem(b, item, statusId), item.adoId;
            var existing := b.memory.projectByAdoId[id];
            && id in z.data.rows
            && if StatusSynced(existing, b.memory.config.defaultSyncedFields)
                  && z.data.rows[id].status != existing.status
               then
                 && |z.data.changes| == |b.data.changes| + 1 && b.data.changes <= z.data.changes
                 && var change := z.data.changes[|b.data.changes|];
                    change.adoId == id && change.fromStatus.Some?
                    && ShownAs(z.data.statuses, existing, change.fromStatus.value)
                    && ShownAs(z.data.statuses, z.data.rows[id], change.toStatus)
               else z.data.changes == b.data.changes
  {
    var existing := b.memory.projectByAdoId[item.adoId];
    EnumMatchesLabel(b.data.statuses, statusId);
    if existing.statusId.Some? { ByIdIsThere(b.data.statuses, existing.statusId.value); }
    hide ToLegacyEnum, OnThisBoard, CacheOf, Text, ById;
  }

  // ---- Identities ----

  predicate Below(id: Id, n: nat) {
    id.Minted? ==> id.n < n
  }

  /** Ids that were made are below the next one, and no two statuses, nor two groups, share an id. */
  ghost predicate IdsApart(d: Data) {
    && (forall s :: s in d.statuses ==> Below(s.id, d.minted))
    && (forall g :: g in d.groups ==> Below(g.id, d.minted))
    && (forall i, j :: 0 <= i < j < |d.statuses| ==> d.statuses[i].id != d.statuses[j].id)
    && (forall i, j :: 0 <= i < j < |d.groups| ==> d.groups[i].id != d.groups[j].id)
  }

  lemma ResolveIdsApart(b: Board, state: string)
    requires IdsApart(b.data)
    ensures IdsApart(ResolveStatusId(b, state).0.data)
  {
    hide KnownStatus, PickUnusedColor, NextOrder, Put, Lower;
    var z := ResolveStatusId(b, state).0.data;
    forall i | 0 <= i < |b.data.statuses|
      ensures z.statuses[i] == b.data.statuses[i] && Below(z.statuses[i].id, b.data.minted)
    {
      assert b.data.statuses[i] in b.data.statuses;
    }
  }

  lemma GroupIdsApart(b: Board)
    requires IdsApart(b.data)
    ensures IdsApart(EnsureGroup(b).0.data)
  {
    hide GroupNamed, NextPosition;
    var z := EnsureGroup(b).0.data;
    forall i | 0 <= i < |b.data.groups|
      ensures z.groups[i] == b.data.groups[i] && Below(z.groups[i].id, b.data.minted)
    {
      assert b.data.groups[i] in b.data.groups;
    }
  }

  lemma PromoteIdsApart(b: Board, item: Item)
    requires IdsApart(b.data)
    ensures IdsApart(Promote(b, item).data)
  {
    ResolveIdsApart(b, item.state);
    var r := ResolveStatusId(b, item.state).0;
    GroupIdsApart(r);
    hide IdsApart, ResolveStatusId, Passes, ToLegacyEnum, NewLabel, OldLabel, StatusChanges, Updated, Created;
    IdsApartOf(b.data);
    IdsApartOf(r.data);
    IdsApartOf(EnsureGroup(r).0.data);
    hide EnsureGroup;
  }

  /** It is a property of the statuses, the groups and the counter alone. */
  lemma IdsApartOf(d: Data)
    ensures forall e: Data :: e.statuses == d.statuses && e.groups == d.groups && e.minted == d.minted ==>
              (IdsApart(e) <==> IdsApart(d))
  {
  }

  /** A promotion never gives one id to two statuses of a board, nor to two groups. */
  lemma {:induction false} IdsStayApart(d: Data, c: Config, items: seq<Item>)
    requires IdsApart(d)
    ensures IdsApart(PromoteAll(InitBoardState(d, c).board, items).data)
  {
    if items != [] {
      IdsStayApart(d, c, items[..|items| - 1]);
      PromoteIdsApart(PromoteAll(InitBoardState(d, c).board, items[..|items| - 1]), items[|items| - 1]);
      hide Promote, IdsApart;
    }
  }
}
