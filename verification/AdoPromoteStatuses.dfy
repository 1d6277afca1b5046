/** The statuses a promotion creates (apps/worker/src/azure-devops-promote.service.ts). */
module AdoPromoteStatuses {
  import opened Wrappers
  import opened AdoPromote
  import opened Strings

  /** No two statuses of a board have the same label up to case. */
  ghost predicate DistinctLabels(statuses: seq<Status>) {
    forall i, j :: 0 <= i < j < |statuses| ==> Lower(statuses[i].caption) != Lower(statuses[j].caption)
  }

  predicate Matches(e: Cached, s: Status) {
    s.id == e.id && s.caption == e.caption && Lower(s.caption) == e.key
  }

  ghost predicate Backed(cache: seq<Cached>, statuses: seq<Status>) {
    forall e :: e in cache ==> exists s :: s in statuses && Matches(e, s)
  }

  ghost predicate Complete(cache: seq<Cached>, statuses: seq<Status>) {
    forall s :: s in statuses ==> Get(cache, Lower(s.caption)).Some?
  }

  /** The cache holds the statuses of the board, and none but those. */
  ghost predicate Mirrors(b: Board) {
    Backed(b.memory.statusCache, b.data.statuses) && Complete(b.memory.statusCache, b.data.statuses)
  }

  predicate HasId(s: Status, id: Id) {
    s.id == id
  }

  ghost predicate OnThisBoard(statuses: seq<Status>, id: Id) {
    exists s :: s in statuses && HasId(s, id)
  }

  /** Every row's status is one of the board's. */
  ghost predicate StatusesExist(d: Data) {
    forall id :: id in d.rows && d.rows[id].statusId.Some? ==> OnThisBoard(d.statuses, d.rows[id].statusId.value)
  }

  lemma {:induction false} GetPut(cache: seq<Cached>, e: Cached, key: string)
    ensures Get(Put(cache, e), key) == if key == e.key then Some(e) else Get(cache, key)
  {
    if cache != [] { GetPut(cache[1..], e, key); }
  }

  lemma {:induction false} PutMembers(cache: seq<Cached>, e: Cached)
    ensures forall x :: x in Put(cache, e) ==> x == e || x in cache
  {
    if cache != [] { PutMembers(cache[1..], e); }
  }

  lemma {:induction false} GetMember(cache: seq<Cached>, key: string)
    ensures Get(cache, key).Some? ==> Get(cache, key).value in cache && Get(cache, key).value.key == key
  {
    if cache != [] { GetMember(cache[1..], key); }
  }

  lemma {:induction false} ByIdMember(cache: seq<Cached>, id: Id)
    ensures ById(cache, id).Some? ==> ById(cache, id).value in cache && ById(cache, id).value.id == id
  {
    if cache != [] { ByIdMember(cache[1..], id); }
  }

  lemma BackedPut(cache: seq<Cached>, statuses: seq<Status>, e: Cached, s: Status)
    requires Backed(cache, statuses) && Matches(e, s)
    ensures Backed(Put(cache, e), statuses + [s])
  {
    PutMembers(cache, e);
    hide Put, Matches;
    forall x | x in Put(cache, e) ensures exists t :: t in statuses + [s] && Matches(x, t) {
      if x == e {
        assert s in statuses + [s];
      } else {
        var t :| t in statuses && Matches(x, t);
        assert t in statuses + [s];
      }
    }
  }

  lemma CompletePut(cache: seq<Cached>, statuses: seq<Status>, e: Cached, s: Status)
    requires Complete(cache, statuses) && Matches(e, s)
    ensures Complete(Put(cache, e), statuses + [s])
  {
    forall t | t in statuses + [s] ensures Get(Put(cache, e), Lower(t.caption)).Some? {
      GetPut(cache, e, Lower(t.caption));
    }
  }

  lemma {:induction false} LoadMirrors(statuses: seq<Status>)
    ensures Backed(LoadStatusCache(statuses), statuses) && Complete(LoadStatusCache(statuses), statuses)
  {
    if statuses != [] {
      var s := statuses[|statuses| - 1];
      var e := Cached(Lower(s.caption), s.id, s.caption, s.color);
      LoadMirrors(statuses[..|statuses| - 1]);
      assert statuses == statuses[..|statuses| - 1] + [s];
      BackedPut(LoadStatusCache(statuses[..|statuses| - 1]), statuses[..|statuses| - 1], e, s);
      CompletePut(LoadStatusCache(statuses[..|statuses| - 1]), statuses[..|statuses| - 1], e, s);
    }
  }

  /** A state that no status of the board is called gets a new one; any other resolves to one that is there. */
  lemma ResolvedIsOnBoard(b: Board, state: string)
    requires Mirrors(b)
    ensures var (r, id) := ResolveStatusId(b, state);
            && OnThisBoard(r.data.statuses, id) && Mirrors(r)
            && b.data.statuses <= r.data.statuses
            && (DistinctLabels(b.data.statuses) ==> DistinctLabels(r.data.statuses))
            && (r.data.statuses != b.data.statuses ==>
                  forall s :: s in b.data.statuses ==> Lower(s.caption) != Lower(state))
  {
    var known := KnownStatus(state, b.memory.config, b.memory.statusCache);
    if known.Some? {
      KnownIsCached(b, state);
    } else {
      UnknownIsNew(b, state);
      UpsertMirrors(b, state);
    }
  }

  lemma KnownIsCached(b: Board, state: string)
    requires Mirrors(b) && KnownStatus(state, b.memory.config, b.memory.statusCache).Some?
    ensures OnThisBoard(b.data.statuses, KnownStatus(state, b.memory.config, b.memory.statusCache).value)
  {
    var config, cache := b.memory.config, b.memory.statusCache;
    var mapped := if state in config.statusMapping then config.statusMapping[state] else "";
    var id := KnownStatus(state, config, cache).value;
    ByIdMember(cache, Given(mapped));
    if mapped in LEGACY_STATUS_LABELS { GetMember(cache, Lower(LEGACY_STATUS_LABELS[mapped])); }
    GetMember(cache, Lower(mapped));
    GetMember(cache, Lower(state));
    hide Get, ById, IsUuid, Lower;
    assert exists e :: e in cache && e.id == id;
    var e :| e in cache && e.id == id;
    var s :| s in b.data.statuses && Matches(e, s);
    assert HasId(s, id);
  }

  lemma UnknownIsNew(b: Board, state: string)
    requires Mirrors(b) && KnownStatus(state, b.memory.config, b.memory.statusCache).None?
    ensures forall s :: s in b.data.statuses ==> Lower(s.caption) != Lower(state)
  {
    hide Lower, IsUuid, ById, Get;
    assert Get(b.memory.statusCache, Lower(state)).None?;
  }

  lemma UpsertMirrors(b: Board, state: string)
    requires Mirrors(b) && forall s :: s in b.data.statuses ==> Lower(s.caption) != Lower(state)
    ensures var r := UpsertBoardStatus(b, state);
            && Mirrors(r) && b.data.statuses <= r.data.statuses && OnThisBoard(r.data.statuses, Minted(b.data.minted))
            && (DistinctLabels(b.data.statuses) ==> DistinctLabels(r.data.statuses))
  {
    hide PickUnusedColor, Put, NextOrder, Lower, Get;
    var r := UpsertBoardStatus(b, state);
    var s := r.data.statuses[|b.data.statuses|];
    var color := PickUnusedColor(b.memory.config.palette, b.memory.statusCache);
    var e := Cached(Lower(state), Minted(b.data.minted), state, color);
    assert Matches(e, s);
    BackedPut(b.memory.statusCache, b.data.statuses, e, s);
    CompletePut(b.memory.statusCache, b.data.statuses, e, s);
    assert s in r.data.statuses && HasId(s, Minted(b.data.minted));
  }

  ghost predicate Sound(b: Board) {
    Mirrors(b) && StatusesExist(b.data)
  }

  lemma OnMore(a: seq<Status>, c: seq<Status>, id: Id)
    requires a <= c && OnThisBoard(a, id)
    ensures OnThisBoard(c, id)
  {
    var s :| s in a && HasId(s, id);
    assert s in c;
  }

  lemma CreateSound(b: Board, item: Item, statusId: Id)
    requires Sound(b) && OnThisBoard(b.data.statuses, statusId)
    ensures Sound(CreateItem(b, item, statusId)) && CreateItem(b, item, statusId).data.statuses == b.data.statuses
  {
    GroupKeeps(b);
    hide EnsureGroup, ToLegacyEnum, NewLabel, Backed, Complete, OnThisBoard;
  }

  lemma UpdateSound(b: Board, item: Item, statusId: Id)
    requires Sound(b) && OnThisBoard(b.data.statuses, statusId) && OnBoard(b.memory, item)
    ensures Sound(UpdateItem(b, item, statusId)) && UpdateItem(b, item, statusId).data.statuses == b.data.statuses
  {
    hide ToLegacyEnum, NewLabel, OldLabel, StatusChanges, Syncs, Text, Backed, Complete, OnThisBoard;
  }

  lemma PromoteSound(b: Board, item: Item)
    requires Sound(b)
    ensures var z := Promote(b, item);
            && Sound(z) && b.data.statuses <= z.data.statuses
            && (DistinctLabels(b.data.statuses) ==> DistinctLabels(z.data.statuses))
  {
    ResolvedIsOnBoard(b, item.state);
    UpsertKeeps(b, item.state);
    var (r, statusId) := ResolveStatusId(b, item.state);
    hide ResolveStatusId, CreateItem, UpdateItem, Passes, DistinctLabels, Mirrors, OnThisBoard;
    forall id | id in r.data.rows && r.data.rows[id].statusId.Some?
      ensures OnThisBoard(r.data.statuses, r.data.rows[id].statusId.value)
    {
      OnMore(b.data.statuses, r.data.statuses, r.data.rows[id].statusId.value);
    }
    hide StatusesExist;
    if !b.memory.failed && Passes(b.memory, item) {
      if OnBoard(r.memory, item) { UpdateSound(r, item, statusId); } else { CreateSound(r, item, statusId); }
    }
  }

  lemma {:induction false} PromoteAllSound(b: Board, items: seq<Item>)
    requires Sound(b)
    ensures var z := PromoteAll(b, items);
            && Sound(z) && b.data.statuses <= z.data.statuses
            && (DistinctLabels(b.data.statuses) ==> DistinctLabels(z.data.statuses))
  {
    if items != [] {
      hide Sound, DistinctLabels, Promote;
      PromoteAllSound(b, items[..|items| - 1]);
      PromoteSound(PromoteAll(b, items[..|items| - 1]), items[|items| - 1]);
    }
  }

  /**
   * After any promotion every row's status is one of the board's, no status is lost, and no two statuses have come
   * to share a label: a state that several items carry gets one status.
   */
  lemma StatusesStaySound(d: Data, c: Config, items: seq<Item>)
    requires StatusesExist(d)
    ensures var z := PromoteAll(InitBoardState(d, c).board, items);
            && StatusesExist(z.data) && d.statuses <= z.data.statuses
            && (DistinctLabels(d.statuses) ==> DistinctLabels(z.data.statuses))
  {
    LoadMirrors(d.statuses);
    assert Sound(InitBoardState(d, c).board);
    PromoteAllSound(InitBoardState(d, c).board, items);
  }

  // ---- Colors ----

  lemma {:induction false} LeastUsedIsLeast(palette: seq<string>, cache: seq<Cached>, best: string)
    ensures var r := LeastUsed(palette, cache, best);
            && (r == best || r in palette)
            && Count(cache, r) <= Count(cache, best)
            && (forall color :: color in palette ==> Count(cache, r) <= Count(cache, color))
            && (r == best || Count(cache, r) < Count(cache, best))
  {
    if palette != [] {
      hide Count;
      LeastUsedIsLeast(palette[1..], cache, if Count(cache, palette[0]) < Count(cache, best) then palette[0] else best);
    }
  }

  /** The color picked is of the palette, no color of it is used less, and an unused one is taken while there is one. */
  lemma PickedColorIsLeastUsed(palette: seq<string>, cache: seq<Cached>, unused: string)
    requires palette != []
    ensures PickUnusedColor(palette, cache) in palette
    ensures forall color :: color in palette ==> Count(cache, PickUnusedColor(palette, cache)) <= Count(cache, color)
    ensures unused in palette && Count(cache, unused) == 0 ==> Count(cache, PickUnusedColor(palette, cache)) == 0
  {
    LeastUsedIsLeast(palette[1..], cache, palette[0]);
    hide Count, LeastUsed;
    assert forall color :: color in palette ==> color == palette[0] || color in palette[1..];
  }
}
