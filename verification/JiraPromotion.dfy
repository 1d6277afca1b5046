/** The promotion of a payload to the boards of a connection, as it runs (apps/worker/src/jira-promote.service.ts). */
module JiraPromotion {
  import opened Wrappers
  import opened JiraDeletion

  class JiraPromoteService {
    var rows: seq<Row>
    var purged: set<string>

    ghost function View(): Store
      reads this
    {
      Store(rows, purged)
    }

    constructor (d: Store)
      ensures View() == d
    {
      rows, purged := d.rows, d.purged;
    }

    /** Rows a later run still has to purge: collected before any new detection. */
    method CollectOutstanding(snapshot: seq<Row>, ids: seq<nat>) returns (targets: seq<Target>)
      requires Within(ids, |snapshot|)
      ensures targets == Outstanding(snapshot, ids)
    {
      targets := [];
      for n := 0 to |ids|
        invariant targets == Outstanding(snapshot, ids[..n])
      {
        assert ids[..n + 1][..n] == ids[..n];
        var row := snapshot[ids[n]];
        if Unpurged(row) { targets := targets + [Target(ids[n], row.jiraKey.value)]; }
      }
      assert ids[..|ids|] == ids;
    }

    method CollectCandidates(snapshot: seq<Row>, ids: seq<nat>, payloadKeys: set<string>)
      returns (candidates: seq<Target>, synced: nat)
      requires Within(ids, |snapshot|)
      ensures candidates == Candidates(snapshot, ids, payloadKeys) && synced == SyncedRows(snapshot, ids)
    {
      candidates, synced := [], 0;
      for n := 0 to |ids|
        invariant candidates == Candidates(snapshot, ids[..n], payloadKeys)
        invariant synced == SyncedRows(snapshot, ids[..n])
      {
        assert ids[..n + 1][..n] == ids[..n];
        var row := snapshot[ids[n]];
        if IsCandidate(row, payloadKeys) { candidates := candidates + [Target(ids[n], row.jiraKey.value)]; }
        if row.jiraKey.Some? { synced := synced + 1; }
      }
      assert ids[..|ids|] == ids;
    }

    method Probe(probing: seq<Target>, verify: map<string, Existence>) returns (gone: seq<Target>)
      ensures gone == Gone(probing, verify)
    {
      gone := [];
      for n := 0 to |probing|
        invariant gone == Gone(probing[..n], verify)
      {
        assert probing[..n + 1][..n] == probing[..n];
        if ConfirmedGone(verify, probing[n].jiraKey) { gone := gone + [probing[n]]; }
      }
      assert probing[..|probing|] == probing;
    }

    /**
     * Probed first, written second: nothing is written while the verdict is still being assembled. A database call
     * that throws leaves what was written and ends the run.
     */
    method MarkDeletedIssues(place: Place, snapshot: seq<Row>, ids: seq<nat>, payloadKeys: set<string>, o: Options)
      returns (marked: seq<Target>, ok: bool)
      requires Within(ids, |snapshot|)
      modifies this`rows
      ensures marked == Written(place, Confirmed(snapshot, ids, payloadKeys, o), o)
      ensures ok == !Stopped(place, Confirmed(snapshot, ids, payloadKeys, o), o)
      ensures rows == MarkDeleted(old(rows), marked, o.now)
    {
      if o.verify.None? { return [], true; }
      var candidates, synced := CollectCandidates(snapshot, ids, payloadKeys);
      hide Candidates, SyncedRows, Gone, Probing;
      var gone := Probe(Probing(candidates), o.verify.value);
      if Withheld(|gone|, synced, o) { return [], true; }
      marked, ok := WriteDeletions(place, gone, o);
    }

    /** The writes of one row after the other, until a call throws. */
    method WriteDeletions(place: Place, gone: seq<Target>, o: Options) returns (marked: seq<Target>, ok: bool)
      modifies this`rows
      ensures marked == Written(place, gone, o) && ok == !Stopped(place, gone, o)
      ensures rows == MarkDeleted(old(rows), marked, o.now)
    {
      ghost var was := rows;
      marked := [];
      for n := 0 to |gone|
        invariant marked == gone[..n] && rows == MarkDeleted(was, gone[..n], o.now)
        invariant place in o.stops ==> n <= o.stops[place]
      {
        assert gone[..n + 1][..n] == gone[..n];
        if place in o.stops && o.stops[place] == n { return marked, false; }
        var id := gone[n].id;
        if id < |rows| { rows := rows[id := rows[id].(removed := true, deletedAt := Some(o.now))]; }
        marked := marked + [gone[n]];
      }
      assert gone[..|gone|] == gone;
      ok := !(|gone| > 0 && place in o.stops && o.stops[place] == |gone|);
    }

    /** Creates and updates the rows of the items that pass the source's filters; false where the database throws. */
    method PromoteItemsOf(payload: seq<Item>, s: Source) returns (ok: bool)
      modifies this`rows
      ensures Promotion(rows, ok) == PromoteItems(old(rows), payload, s)
    {
      ghost var was := rows;
      var n := |rows|;
      hide Promotable, PromoteItem;
      for i := 0 to |payload|
        invariant PromoteItems(was, payload[..i], s) == Promotion(rows, true)
        invariant n == |was| <= |rows|
      {
        assert payload[..i + 1][..i] == payload[..i];
        var item := payload[i];
        if !Promotable(item, s) { continue; }
        var z := PromoteItem(rows, n, item, s);
        if z.None? {
          PromotionStaysFailed(was, payload, s, i + 1);
          return false;
        }
        rows := z.value;
      }
      assert payload[..|payload|] == payload;
      ok := true;
    }

    method VisitBoardSource(s: Source, payload: seq<Item>, o: Options) returns (targets: seq<Target>, ok: bool)
      modifies this`rows
      ensures var v := VisitSource(old(rows), s, payload, o);
              rows == v.rows && targets == v.targets && ok == v.ok
    {
      if s.skipped { return [], true; }
      var keys := PayloadKeys(payload, s.place.projectKey);
      var snapshot := rows;
      var ids := Existing(snapshot, s.place);
      var inScope := InDeletionScope(s, o);
      hide Outstanding, Confirmed, PromoteItems, MarkRemoved, MarkDeleted, SeenKeys, PayloadKeys, Existing;
      hide InDeletionScope;
      if keys == {} && |ids| > 0 {
        if !inScope { return [], true; }
        targets := CollectOutstanding(snapshot, ids);
        return targets, true;
      }
      ok := PromoteItemsOf(payload, s);
      if !ok { return [], false; }
      rows := MarkRemoved(rows, s, SeenKeys(payload, s));
      if !inScope {
        NothingMarked(rows, o.now);
        return [], true;
      }
      targets := CollectOutstanding(snapshot, ids);
      var marked;
      marked, ok := MarkDeletedIssues(s.place, snapshot, ids, keys, o);
      targets := targets + marked;
    }

    method Purge(targets: seq<Target>, o: Options)
      modifies this
      ensures View() == PurgeAnalytics(old(View()), targets, o)
    {
      if targets == [] || o.purge.NoPurge? || o.purge.PurgeThrows? { return; }
      purged := purged + KeysOf(targets);
      if o.purge.StampThrows? { return; }
      rows := Stamp(rows, targets, o.now);
    }

    /** Every source of the connection, then the purge; a source that throws ends the run before it. */
    method Promote(r: Run)
      modifies this
      ensures View() == PromoteAll(old(View()), r)
    {
      var purgeTargets: seq<Target> := [];
      ghost var was := rows;
      hide VisitSource, PurgeAnalytics;
      for n := 0 to |r.sources|
        invariant purged == old(purged)
        invariant VisitAll(was, r.sources[..n], r.payload, r.options) == (rows, purgeTargets, true)
      {
        assert r.sources[..n + 1][..n] == r.sources[..n];
        var targets, ok := VisitBoardSource(r.sources[n], r.payload, r.options);
        if !ok {
          VisitsStayFailed(was, r.sources, r.payload, r.options, n + 1);
          return;
        }
        purgeTargets := purgeTargets + targets;
      }
      assert r.sources[..|r.sources|] == r.sources;
      Purge(purgeTargets, r.options);
    }
  }

  lemma NothingMarked(rows: seq<Row>, now: int)
    ensures MarkDeleted(rows, [], now) == rows && forall ts: seq<Target> :: ts + [] == ts
  {
  }

  lemma {:induction false} PromotionStaysFailed(rows: seq<Row>, payload: seq<Item>, s: Source, n: nat)
    requires n <= |payload| && !PromoteItems(rows, payload[..n], s).ok
    ensures PromoteItems(rows, payload, s) == PromoteItems(rows, payload[..n], s)
    decreases |payload|
  {
    if n == |payload| {
      assert payload[..n] == payload;
    } else {
      assert payload[..|payload| - 1][..n] == payload[..n];
      PromotionStaysFailed(rows, payload[..|payload| - 1], s, n);
    }
  }

  lemma {:induction false} VisitsStayFailed(
    rows: seq<Row>, sources: seq<Source>, payload: seq<Item>, o: Options, n: nat)
    requires n <= |sources| && !VisitAll(rows, sources[..n], payload, o).2
    ensures VisitAll(rows, sources, payload, o) == VisitAll(rows, sources[..n], payload, o)
    decreases |sources|
  {
    if n == |sources| {
      assert sources[..n] == sources;
    } else {
      hide VisitSource;
      assert sources[..|sources| - 1][..n] == sources[..n];
      VisitsStayFailed(rows, sources[..|sources| - 1], payload, o, n);
    }
  }
}
