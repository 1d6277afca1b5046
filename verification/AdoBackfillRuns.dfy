/**
 * Commits that are turned on after pull requests (apps/worker/src/ado-intelligence-sync.handler.ts). Both streams are
 * on in every pass, and a pass backfills the repository only if it was eligible.
 */
module AdoLateCommits {
  import opened AdoBackfill
  import opened AdoBackfillSelection
  import opened Arithmetic
  import opened Wrappers

  const BOTH: Flags := Flags(true, true)

  predicate MayPick(r: Repo, repoId: string, p: Pass) {
    r.state.Some? && Eligible(CandidateFor(repoId, r.state.value, p.flags), p.floor)
  }

  /** Every pass has both streams on, and picks the repository only where selection can. */
  ghost predicate Legal(r: Repo, repoId: string, ps: seq<Pass>) {
    forall i :: 0 <= i < |ps| ==> ps[i].flags == BOTH && (ps[i].picked ==> MayPick(After(r, ps[..i]), repoId, ps[i]))
  }

  lemma LegalPrefix(r: Repo, repoId: string, ps: seq<Pass>)
    requires Legal(r, repoId, ps) && ps != []
    ensures Legal(r, repoId, ps[..|ps| - 1])
  {
    var qs := ps[..|ps| - 1];
    forall i | 0 <= i < |qs|
      ensures qs[i].flags == BOTH && (qs[i].picked ==> MayPick(After(r, qs[..i]), repoId, qs[i]))
    {
      assert qs[..i] == ps[..i];
    }
  }

  /** `picked` in a legal pass is what selection among any candidates can say of the repository. */
  lemma PickedIsLegal(r: Repo, repoId: string, p: Pass, cs: seq<Candidate>, limit: nat)
    requires r.state.Some? && UniqueIds(cs) && CandidateFor(repoId, r.state.value, p.flags) in cs
    requires repoId in SelectBackfillRepos(cs, p.floor, limit)
    ensures MayPick(r, repoId, p)
  {
    ChosenIsEligible(cs, CandidateFor(repoId, r.state.value, p.flags), p.floor, limit);
  }

  /** The pull requests are filled to the floor. */
  predicate PrsFilled(st: RepoState, floor: int) {
    st.prUntil.Some? && st.prUntil.value <= floor
  }

  /**
   * Once the pull requests are filled to the floor, and while the floor does not fall, no pass touches either cursor:
   * commits that still had to be backfilled never are.
   */
  lemma {:induction false} FilledPrsFreezeCommits(r: Repo, repoId: string, ps: seq<Pass>, floor: int)
    requires r.state.Some? && PrsFilled(r.state.value, floor) && Legal(r, repoId, ps)
    requires forall i :: 0 <= i < |ps| ==> floor <= ps[i].floor
    ensures var z := After(r, ps).state;
            && z.Some? && z.value.createdAt == r.state.value.createdAt
            && z.value.prUntil == r.state.value.prUntil && z.value.commitUntil == r.state.value.commitUntil
  {
    if ps != [] {
      LegalPrefix(r, repoId, ps);
      FilledPrsFreezeCommits(r, repoId, ps[..|ps| - 1], floor);
      assert !ps[|ps| - 1].picked;
    }
  }

  /** A chunk of both streams takes both cursors to one point. */
  lemma {:induction false} FilledMeets(r: Repo, repoId: string, ps: seq<Pass>)
    requires r.state.Some? && Legal(r, repoId, ps)
    ensures After(r, ps).state.Some?
    ensures var st := After(r, ps).state.value;
            if Filled(r, ps) == 0
            then PrCursor(st) == PrCursor(r.state.value) && CommitCursor(st) == CommitCursor(r.state.value)
            else PrCursor(st) == CommitCursor(st) == ChunkEnd(st, BOTH)
  {
    if ps != [] {
      LegalPrefix(r, repoId, ps);
      FilledMeets(r, repoId, ps[..|ps| - 1]);
    }
  }

  /** Nothing needs to be known of the pass that would come next. */
  function Idle(floor: int, chunkDays: int): Pass {
    var load := Load(false, {}, false, {}, false);
    Pass(BOTH, 0, load, false, false, 0, false, floor, chunkDays, load, false, false)
  }

  lemma CommitsBelowEnd(st: RepoState)
    ensures CommitCursor(st) <= ChunkEnd(st, BOTH)
  {
  }

  lemma IdleIsConfigured(floor: int, chunkDays: int)
    ensures var p := Idle(floor, chunkDays); p.flags == BOTH && p.floor == floor && p.chunkDays == chunkDays
    ensures BOTH.prs && BOTH.commits
  {
  }

  /** Otherwise every run with enough successful chunks takes the commits down to the floor. */
  lemma StartedCommitsReachTheFloor(r: Repo, repoId: string, ps: seq<Pass>, floor: int, chunkDays: int)
    requires r.state.Some? && Legal(r, repoId, ps) && Configured(ps, BOTH, floor, chunkDays) && chunkDays > 0
    requires CommitCursor(r.state.value) > floor
    requires var c := chunkDays * DAY_MS;
             Filled(r, ps) >= (ChunkEnd(r.state.value, BOTH) - floor + c - 1) / c
    ensures After(r, ps).state.Some? && CommitCursor(After(r, ps).state.value) == floor
  {
    hide *;
    CommitsBelowEnd(r.state.value);
    IdleIsConfigured(floor, chunkDays);
    FloorIsReached(r, ps, BOTH, floor, chunkDays, Idle(floor, chunkDays));
    FilledMeets(r, repoId, ps);
    EnoughIsSome(ChunkEnd(r.state.value, BOTH) - floor, chunkDays, Filled(r, ps));
  }

  lemma EnoughIsSome(d: int, chunkDays: int, n: nat)
    requires d > 0 && chunkDays > 0
    requires var c := chunkDays * DAY_MS; n >= (d + c - 1) / c
    ensures n >= 1
  {
    var c := chunkDays * DAY_MS;
    TimesMonotone(DAY_MS, 1, chunkDays);
    CeilPositive(d, c);
  }

  lemma CeilPositive(d: int, c: int)
    requires d > 0 && c > 0
    ensures (d + c - 1) / c >= 1
  {
    QuotientMonotone(c, d + c - 1, c);
  }

  lemma {:induction false} AfterCons(r: Repo, p: Pass, ps: seq<Pass>)
    ensures After(r, [p] + ps) == After(Sync(r, p), ps)
  {
    hide Sync;
    if ps == [] {
      assert [p] + ps == [p];
      assert [p][..0] == [];
    } else {
      assert ([p] + ps)[..|ps|] == [p] + ps[..|ps| - 1];
      AfterCons(r, p, ps[..|ps| - 1]);
    }
  }

  lemma LegalCons(r: Repo, repoId: string, p: Pass, ps: seq<Pass>)
    requires p.flags == BOTH && MayPick(r, repoId, p) && Legal(Sync(r, p), repoId, ps)
    ensures Legal(r, repoId, [p] + ps)
  {
    var qs := [p] + ps;
    hide Sync, MayPick;
    forall i | 0 <= i < |qs|
      ensures qs[i].flags == BOTH && (qs[i].picked ==> MayPick(After(r, qs[..i]), repoId, qs[i]))
    {
      if i > 0 {
        assert qs[..i] == [p] + ps[..i - 1];
        AfterCons(r, p, ps[..i - 1]);
        assert qs[i] == ps[i - 1];
      }
    }
  }

  /** A pass in which nothing fails. */
  function Smooth(floor: int, chunkDays: int): Pass {
    var load := Load(true, {}, true, {}, true);
    Pass(BOTH, 0, load, true, true, 0, true, floor, chunkDays, load, true, true)
  }

  lemma SmoothStep(r: Repo, floor: int, chunkDays: int)
    requires r.state.Some? && ChunkEnd(r.state.value, BOTH) > floor && chunkDays > 0
    ensures var z := Sync(r, Smooth(floor, chunkDays)).state;
            var start := ChunkStart(r.state.value, Smooth(floor, chunkDays));
            && z.Some? && z.value.prUntil == Some(start) && z.value.commitUntil == Some(start)
            && floor <= start < ChunkEnd(r.state.value, BOTH)
  {
  }

  lemma FinishingRun(r: Repo, repoId: string, floor: int, chunkDays: int) returns (ps: seq<Pass>)
    requires r.state.Some? && CommitCursor(r.state.value) > floor && !PrsFilled(r.state.value, floor) && chunkDays > 0
    ensures Legal(r, repoId, ps) && Configured(ps, BOTH, floor, chunkDays)
    ensures After(r, ps).state.Some? && CommitCursor(After(r, ps).state.value) <= floor
    decreases ChunkEnd(r.state.value, BOTH) - floor
  {
    var p := Smooth(floor, chunkDays);
    var z := Sync(r, p);
    SmoothStep(r, floor, chunkDays);
    assert MayPick(r, repoId, p);
    var rest: seq<Pass> := [];
    if CommitCursor(z.state.value) > floor { rest := FinishingRun(z, repoId, floor, chunkDays); }
    ps := [p] + rest;
    AfterCons(r, p, rest);
    LegalCons(r, repoId, p, rest);
  }

  ghost predicate Finishes(r: Repo, repoId: string, floor: int, chunkDays: int, ps: seq<Pass>) {
    && Legal(r, repoId, ps) && Configured(ps, BOTH, floor, chunkDays)
    && After(r, ps).state.Some? && CommitCursor(After(r, ps).state.value) <= floor
  }

  /**
   * Commits turned on with history still to fill can be taken to the floor if and only if the pull requests' own
   * walk has not ended there: selection does not look at the commits. When it has not, every run with enough
   * successful chunks gets there; when it has, no run does.
   */
  lemma LateCommitsAreFilledExactly(r: Repo, repoId: string, floor: int, chunkDays: int)
    requires r.state.Some? && CommitCursor(r.state.value) > floor && chunkDays > 0
    ensures (exists ps :: Finishes(r, repoId, floor, chunkDays, ps))
            <==> r.state.value.prUntil.None? || r.state.value.prUntil.value > floor
  {
    if PrsFilled(r.state.value, floor) {
      forall ps | Finishes(r, repoId, floor, chunkDays, ps) ensures false {
        FilledPrsFreezeCommits(r, repoId, ps, floor);
      }
    } else {
      var ps := FinishingRun(r, repoId, floor, chunkDays);
      assert Finishes(r, repoId, floor, chunkDays, ps);
    }
  }

  /**
   * The failing input: a repository synced for a year with commits off, its pull requests filled to the floor. From
   * the pass that turns commits on, whatever follows, the commits' backward walk never leaves the row's creation.
   */
  lemma CommitsTurnedOnLateNeverStart(repoId: string, ps: seq<Pass>, year: int)
    requires year == 365 * DAY_MS
    requires var st := RepoState(Some(2 * year), None, Some(year), None, year + 90 * DAY_MS);
             Legal(Repo(Some(st), {}), repoId, ps)
    requires forall i :: 0 <= i < |ps| ==> year <= ps[i].floor
    ensures var st := RepoState(Some(2 * year), None, Some(year), None, year + 90 * DAY_MS);
            var z := After(Repo(Some(st), {}), ps).state;
            z.Some? && z.value.commitUntil.None? && CommitCursor(z.value) == year + 90 * DAY_MS
  {
    var st := RepoState(Some(2 * year), None, Some(year), None, year + 90 * DAY_MS);
    FilledPrsFreezeCommits(Repo(Some(st), {}), repoId, ps, year);
  }
}

/**
 The two streams of one repository are kept apart: what a pass records of a stream depends on that stream alone, and a
 stream that is off keeps its watermark and its cursor.
 */
module AdoStreams {
  import opened AdoBackfill
  import opened Arithmetic
  import opened Wrappers

  /** A pass whose forward sweep went through, in all the streams that are on. */
  predicate Sweeps(p: Pass) {
    && (p.flags.prs || p.flags.commits) && p.upserted
    && (p.flags.prs ==> p.forward.fetched && p.forward.inserted && p.forward.reviewed)
    && (p.flags.commits ==> p.forwardCommits)
  }

  /** A pass whose backward chunk went through as well: there was one to fetch, and everything in it was stored. */
  predicate Fetches(r: Repo, p: Pass) {
    && Sweeps(p) && p.picked && p.updated && r.state.Some?
    && (p.flags.prs ==> p.back.fetched && p.back.inserted && p.back.reviewed)
    && (p.flags.commits ==> p.backCommits)
    && p.chunkDays > 0 && ChunkEnd(r.state.value, p.flags) > p.floor
  }

  /**
   The cursors move exactly when every step of the sweep and of the chunk went through in all the streams that are on
   and the floor was not reached yet; then those streams' cursors stand at the start of the chunk, the others stay.
   */
  lemma CursorsMoveExactly(r: Repo, p: Pass)
    requires r.state.Some? && p.chunkDays >= 0
    ensures var st, z := r.state.value, Sync(r, p).state;
            var start := Max(p.floor, ChunkEnd(st, p.flags) - p.chunkDays * DAY_MS);
            && z.Some?
            && (Fetches(r, p) ==> start < ChunkEnd(st, p.flags))
            && z.value.prUntil == (if Fetches(r, p) && p.flags.prs then Some(start) else st.prUntil)
            && z.value.commitUntil == (if Fetches(r, p) && p.flags.commits then Some(start) else st.commitUntil)
  {
  }

  /** The clock of the last pass that swept pull requests forward. */
  ghost function LastPrSweep(ps: seq<Pass>, before: Option<int>): Option<int> {
    if ps == [] then before
    else
      var p := ps[|ps| - 1];
      if Sweeps(p) && p.flags.prs then Some(p.now) else LastPrSweep(ps[..|ps| - 1], before)
  }

  ghost function LastCommitSweep(ps: seq<Pass>, before: Option<int>): Option<int> {
    if ps == [] then before
    else
      var p := ps[|ps| - 1];
      if Sweeps(p) && p.flags.commits then Some(p.now) else LastCommitSweep(ps[..|ps| - 1], before)
  }

  /** Over any run each watermark is the clock of the last pass that swept its stream, whatever else failed. */
  lemma {:induction false} WatermarksAreLastSweeps(r: Repo, ps: seq<Pass>)
    ensures var z := After(r, ps).state;
            && (r.state.Some? || (exists i :: 0 <= i < |ps| && Sweeps(ps[i])) <==> z.Some?)
            && (z.Some? ==>
                  && z.value.lastPr == LastPrSweep(ps, if r.state.Some? then r.state.value.lastPr else None)
                  && z.value.lastCommit ==
                     LastCommitSweep(ps, if r.state.Some? then r.state.value.lastCommit else None))
  {
    if ps != [] {
      var init := ps[..|ps| - 1];
      WatermarksAreLastSweeps(r, init);
      PassWatermarks(After(r, init), ps[|ps| - 1]);
      hide Sync, Sweeps;
      if After(r, init).state.None? { NeverSwept(init); }
      assert forall i :: 0 <= i < |init| ==> init[i] == ps[i];
    }
  }

  lemma PassWatermarks(r: Repo, p: Pass)
    ensures var z := Sync(r, p).state;
            && (z.Some? <==> r.state.Some? || Sweeps(p))
            && (z.Some? ==>
                  var lastPr := if r.state.Some? then r.state.value.lastPr else None;
                  var lastCommit := if r.state.Some? then r.state.value.lastCommit else None;
                  && z.value.lastPr == (if Sweeps(p) && p.flags.prs then Some(p.now) else lastPr)
                  && z.value.lastCommit == (if Sweeps(p) && p.flags.commits then Some(p.now) else lastCommit))
  {
  }

  lemma {:induction false} NeverSwept(ps: seq<Pass>)
    requires forall i :: 0 <= i < |ps| ==> !Sweeps(ps[i])
    ensures LastPrSweep(ps, None) == None && LastCommitSweep(ps, None) == None
  {
    if ps != [] {
      var init := ps[..|ps| - 1];
      assert forall i :: 0 <= i < |init| ==> init[i] == ps[i];
      NeverSwept(init);
    }
  }

  /**
   The row of a repository is created by its first pass that sweeps it, and the backward walk of pull requests is handed
   exactly the point 90 days before, where that sweep began; it has nothing to hand over for a stream that is off.
   */
  lemma FirstPassHandsOver(written: set<PullRequest>, p: Pass)
    ensures var z := Sync(Repo(None, written), p);
            && (z.state.Some? <==> Sweeps(p))
            && (Sweeps(p) ==>
                  var days := if p.flags.prs then Some(p.now - 90 * 24 * 60 * 60 * 1000) else None;
                  && z.state.value.prUntil == days && z.state.value.commitUntil.None?
                  && z.state.value.createdAt == p.createdAt)
            && (p.flags.prs ==> ForwardSince(None, p.now) == p.now - 90 * 24 * 60 * 60 * 1000)
  {
  }

  lemma OffPass(r: Repo, p: Pass)
    requires r.state.Some?
    ensures var st, z := r.state.value, Sync(r, p).state;
            && z.Some? && z.value.createdAt == st.createdAt
            && (!p.flags.prs ==> z.value.lastPr == st.lastPr && z.value.prUntil == st.prUntil)
            && (!p.flags.commits ==> z.value.lastCommit == st.lastCommit && z.value.commitUntil == st.commitUntil)
  {
  }

  /** A stream that stays off keeps its watermark and its cursor, whatever the other stream does meanwhile. */
  lemma {:induction false} OffStreamStaysPut(r: Repo, ps: seq<Pass>)
    requires r.state.Some?
    ensures var st, z := r.state.value, After(r, ps).state;
            && z.Some? && z.value.createdAt == st.createdAt
            && ((forall i :: 0 <= i < |ps| ==> !ps[i].flags.prs) ==>
                  z.value.lastPr == st.lastPr && z.value.prUntil == st.prUntil)
            && ((forall i :: 0 <= i < |ps| ==> !ps[i].flags.commits) ==>
                  z.value.lastCommit == st.lastCommit && z.value.commitUntil == st.commitUntil)
  {
    if ps != [] {
      OffStreamStaysPut(r, ps[..|ps| - 1]);
      OffPass(After(r, ps[..|ps| - 1]), ps[|ps| - 1]);
      hide Sync;
    }
  }

  /** A repository synced with commits off from its first pass starts its commit walk at the creation of its row. */
  lemma {:induction false} CommitWalkStartsAtCreation(ps: seq<Pass>)
    requires forall i :: 0 <= i < |ps| ==> !ps[i].flags.commits
    ensures var z := After(Repo(None, {}), ps).state;
            z.Some? ==>
              z.value.commitUntil.None? && z.value.lastCommit.None? && CommitCursor(z.value) == z.value.createdAt
  {
    if ps != [] {
      var r := After(Repo(None, {}), ps[..|ps| - 1]);
      CommitWalkStartsAtCreation(ps[..|ps| - 1]);
      if r.state.Some? { OffPass(r, ps[|ps| - 1]); }
    }
  }
}

/** Passes over all the repositories of a project, each of which chooses the ones to backfill. */
module AdoFleet {
  import opened AdoBackfill
  import opened AdoBackfillSelection
  import opened Wrappers

  type Fleet = map<string, Repo>

  /** One pass over the project; `passes` is what every repository meets in it. */
  datatype Round = Round(floor: int, limit: nat, passes: string -> Pass)

  function Cursor(st: RepoState, flags: Flags): Option<int> {
    CandidateFor("", st, flags).cursor
  }

  /** The repositories of the listing that have a state row, in its order. */
  ghost function CandidatesOf(f: Fleet, order: seq<string>, flags: Flags): seq<Candidate> {
    if order == [] then []
    else
      var id := order[|order| - 1];
      CandidatesOf(f, order[..|order| - 1], flags)
      + if id in f && f[id].state.Some? then [CandidateFor(id, f[id].state.value, flags)] else []
  }

  ghost function Chosen(f: Fleet, order: seq<string>, flags: Flags, r: Round): set<string> {
    SelectBackfillRepos(CandidatesOf(f, order, flags), r.floor, r.limit)
  }

  ghost function PassOf(f: Fleet, order: seq<string>, flags: Flags, r: Round, id: string): Pass {
    r.passes(id).(flags := flags, floor := r.floor, picked := id in Chosen(f, order, flags, r))
  }

  /** Repositories do not share state, so the order in which a pass takes them does not matter. */
  ghost function Pace(f: Fleet, order: seq<string>, flags: Flags, r: Round): Fleet {
    map id | id in f :: Sync(f[id], PassOf(f, order, flags, r, id))
  }

  ghost function Rounds(f: Fleet, order: seq<string>, flags: Flags, rs: seq<Round>): Fleet {
    if rs == [] then f else Pace(Rounds(f, order, flags, rs[..|rs| - 1]), order, flags, rs[|rs| - 1])
  }

  predicate HasCursor(f: Fleet, flags: Flags, id: string) {
    id in f && f[id].state.Some? && Cursor(f[id].state.value, flags).Some?
  }

  predicate Unstarted(f: Fleet, flags: Flags, id: string) {
    id in f && f[id].state.Some? && Cursor(f[id].state.value, flags).None?
  }

  lemma {:induction false} CandidateMembers(f: Fleet, order: seq<string>, flags: Flags)
    ensures forall c :: c in CandidatesOf(f, order, flags) <==>
              && c.repoId in order && c.repoId in f && f[c.repoId].state.Some?
              && c == CandidateFor(c.repoId, f[c.repoId].state.value, flags)
  {
    if order != [] {
      CandidateMembers(f, order[..|order| - 1], flags);
      assert order == order[..|order| - 1] + [order[|order| - 1]];
    }
  }

  /** While an unstarted repository is passed over, only unstarted ones are chosen. */
  lemma UnstartedFirst(f: Fleet, order: seq<string>, flags: Flags, r: Round, a: string, b: string)
    requires b in order && Unstarted(f, flags, b)
    requires a in Chosen(f, order, flags, r) && b !in Chosen(f, order, flags, r)
    ensures Unstarted(f, flags, a)
  {
    var cs := CandidatesOf(f, order, flags);
    var c := CandidateFor(b, f[b].state.value, flags);
    CandidateMembers(f, order, flags);
    hide CandidatesOf, SelectBackfillRepos;
    BreadthFirst(cs, r.floor, r.limit, a, c);
  }

  lemma PassCursors(r: Repo, p: Pass)
    requires p.flags.prs || p.flags.commits
    ensures Fills(r, p) || (r.state.Some? && Cursor(r.state.value, p.flags).Some?) ==>
              Sync(r, p).state.Some? && Cursor(Sync(r, p).state.value, p.flags).Some?
    ensures !p.picked && r.state.Some? && Cursor(r.state.value, p.flags).None? ==>
              Sync(r, p).state.Some? && Cursor(Sync(r, p).state.value, p.flags).None?
  {
  }

  /** A cursor is never taken back, a chunk sets it, and a repository that is not chosen keeps none. */
  lemma PaceCursors(f: Fleet, order: seq<string>, flags: Flags, r: Round, id: string)
    requires id in f && (flags.prs || flags.commits)
    ensures var z := Pace(f, order, flags, r);
            && id in z
            && (HasCursor(f, flags, id) ==> HasCursor(z, flags, id))
            && (Fills(f[id], PassOf(f, order, flags, r, id)) ==> HasCursor(z, flags, id))
            && (Unstarted(f, flags, id) && id !in Chosen(f, order, flags, r) ==> Unstarted(z, flags, id))
  {
    PassCursors(f[id], PassOf(f, order, flags, r, id));
    hide Chosen, Cursor, Sync, Fills;
  }

  lemma RoundsStep(f: Fleet, order: seq<string>, flags: Flags, rs: seq<Round>, n: nat)
    requires n < |rs|
    ensures Rounds(f, order, flags, rs[..n + 1]) == Pace(Rounds(f, order, flags, rs[..n]), order, flags, rs[n])
  {
    hide Pace;
    assert rs[..n + 1][..n] == rs[..n];
  }

  lemma {:induction false} CursorStays(
    f: Fleet, order: seq<string>, flags: Flags, rs: seq<Round>, m: nat, n: nat, id: string)
    requires m <= n <= |rs| && (flags.prs || flags.commits) && HasCursor(Rounds(f, order, flags, rs[..m]), flags, id)
    ensures HasCursor(Rounds(f, order, flags, rs[..n]), flags, id)
    decreases n
  {
    hide *;
    if m < n {
      CursorStays(f, order, flags, rs, m, n - 1, id);
      RoundsStep(f, order, flags, rs, n - 1);
      HasRepo(Rounds(f, order, flags, rs[..n - 1]), flags, id);
      PaceCursors(Rounds(f, order, flags, rs[..n - 1]), order, flags, rs[n - 1], id);
    }
  }

  lemma HasRepo(f: Fleet, flags: Flags, id: string)
    requires HasCursor(f, flags, id) || Unstarted(f, flags, id)
    ensures id in f && HasCursor(f, flags, id) != Unstarted(f, flags, id)
  {
  }

  lemma {:induction false} StaysUnstarted(
    f: Fleet, order: seq<string>, flags: Flags, rs: seq<Round>, n: nat, id: string)
    requires n <= |rs| && (flags.prs || flags.commits) && Unstarted(f, flags, id)
    requires forall k :: 0 <= k < n ==> id !in Chosen(Rounds(f, order, flags, rs[..k]), order, flags, rs[k])
    ensures Unstarted(Rounds(f, order, flags, rs[..n]), flags, id)
    decreases n
  {
    hide Chosen, Pace, Unstarted, HasCursor;
    if n == 0 {
      assert rs[..0] == [];
    } else {
      StaysUnstarted(f, order, flags, rs, n - 1, id);
      RoundsStep(f, order, flags, rs, n - 1);
      HasRepo(Rounds(f, order, flags, rs[..n - 1]), flags, id);
      PaceCursors(Rounds(f, order, flags, rs[..n - 1]), order, flags, rs[n - 1], id);
    }
  }

  /** Repository `id` gets a chunk in pass number `k`. */
  ghost predicate GetsChunk(f: Fleet, order: seq<string>, flags: Flags, rs: seq<Round>, k: nat, id: string) {
    && k < |rs| && id in Rounds(f, order, flags, rs[..k])
    && var g := Rounds(f, order, flags, rs[..k]); Fills(g[id], PassOf(g, order, flags, rs[k], id))
  }

  /** While an unstarted repository has never been chosen, no repository that has had a chunk is chosen again. */
  lemma NoSecondMeanwhile(
    f: Fleet, order: seq<string>, flags: Flags, rs: seq<Round>, i: nat, j: nat, a: string, b: string)
    requires (flags.prs || flags.commits) && b in order && Unstarted(f, flags, b)
    requires i < j < |rs| && GetsChunk(f, order, flags, rs, i, a)
    requires forall k :: 0 <= k <= j ==> b !in Chosen(Rounds(f, order, flags, rs[..k]), order, flags, rs[k])
    ensures a !in Chosen(Rounds(f, order, flags, rs[..j]), order, flags, rs[j])
  {
    var g, h := Rounds(f, order, flags, rs[..i]), Rounds(f, order, flags, rs[..j]);
    assert a in g && Fills(g[a], PassOf(g, order, flags, rs[i], a));
    hide *;
    StaysUnstarted(f, order, flags, rs, j, b);
    RoundsStep(f, order, flags, rs, i);
    PaceCursors(g, order, flags, rs[i], a);
    CursorStays(f, order, flags, rs, i + 1, j, a);
    HasRepo(h, flags, a);
    if a in Chosen(h, order, flags, rs[j]) { UnstartedFirst(h, order, flags, rs[j], a, b); }
  }

  /**
   * Over any passes, whatever fails in them: before a repository that has had a chunk is chosen for another one,
   * every listed repository that had none to begin with has been chosen, in that pass at the latest.
   */
  lemma FirstChunkBeforeAnySecond(
    f: Fleet, order: seq<string>, flags: Flags, rs: seq<Round>, i: nat, j: nat, a: string, b: string)
    requires (flags.prs || flags.commits) && b in order && Unstarted(f, flags, b)
    requires i < j < |rs| && GetsChunk(f, order, flags, rs, i, a)
    requires a in Chosen(Rounds(f, order, flags, rs[..j]), order, flags, rs[j])
    ensures exists k :: 0 <= k <= j && b in Chosen(Rounds(f, order, flags, rs[..k]), order, flags, rs[k])
  {
    hide *;
    if forall k :: 0 <= k <= j ==> b !in Chosen(Rounds(f, order, flags, rs[..k]), order, flags, rs[k]) {
      NoSecondMeanwhile(f, order, flags, rs, i, j, a, b);
    }
  }
}
