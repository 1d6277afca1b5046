/** Pull-request coverage of one repository (apps/worker/src/ado-intelligence-sync.handler.ts). */
module AdoBackfill {
  import opened Arithmetic
  import opened Wrappers

  const DAY_MS: int := 24 * 60 * 60 * 1000
  const FIRST_PR_SYNC_DAYS: int := 90

  type PullRequest = nat

  /** A row of `AdoRepoSyncState`; `prUntil` and `commitUntil` are the two backfill cursors. */
  datatype RepoState = RepoState(
    lastPr: Option<int>,
    lastCommit: Option<int>,
    prUntil: Option<int>,
    commitUntil: Option<int>,
    createdAt: int)

  /** The state row of a repository, and the pull requests stored for it. */
  datatype Repo = Repo(state: Option<RepoState>, written: set<PullRequest>)

  datatype Flags = Flags(prs: bool, commits: bool)

  /** What one fetch-and-store of pull requests met: a failed insert may have stored anything. */
  datatype Load = Load(fetched: bool, rows: set<PullRequest>, inserted: bool, partial: set<PullRequest>, reviewed: bool)

  /** One pass over the repository: its clock, its configuration, and the outcome of every await. */
  datatype Pass = Pass(
    flags: Flags,
    now: int,
    forward: Load,
    forwardCommits: bool,
    upserted: bool,
    createdAt: int,
    picked: bool,
    floor: int,
    chunkDays: int,
    back: Load,
    backCommits: bool,
    updated: bool)

  function Stored(l: Load): set<PullRequest> {
    if !l.fetched then {} else if l.inserted then l.rows else l.partial
  }

  predicate Landed(l: Load) {
    l.fetched && l.inserted && l.reviewed
  }

  function FirstSweepSince(now: int): int {
    now - FIRST_PR_SYNC_DAYS * DAY_MS
  }

  function ForwardSince(st: Option<RepoState>, now: int): int {
    if st.Some? && st.value.lastPr.Some? then st.value.lastPr.value else FirstSweepSince(now)
  }

  /** The hand-off to the backward walk is made where the row is created, and only there. */
  function Upserted(st: Option<RepoState>, flags: Flags, now: int, createdAt: int): RepoState {
    if st.None? then
      RepoState(if flags.prs then Some(now) else None, if flags.commits then Some(now) else None,
                if flags.prs then Some(FirstSweepSince(now)) else None, None, createdAt)
    else
      st.value.(lastPr := if flags.prs then Some(now) else st.value.lastPr,
                lastCommit := if flags.commits then Some(now) else st.value.lastCommit)
  }

  function Forward(r: Repo, p: Pass): (Repo, bool) {
    var swept := if p.flags.prs then r.(written := r.written + Stored(p.forward)) else r;
    if (p.flags.prs && !Landed(p.forward)) || (p.flags.commits && !p.forwardCommits) || !p.upserted then (swept, false)
    else (swept.(state := Some(Upserted(r.state, p.flags, p.now, p.createdAt))), true)
  }

  function PrCursor(st: RepoState): int {
    if st.prUntil.Some? then st.prUntil.value else st.createdAt
  }

  function CommitCursor(st: RepoState): int {
    if st.commitUntil.Some? then st.commitUntil.value else st.createdAt
  }

  function ChunkEnd(st: RepoState, flags: Flags): int {
    if flags.prs && flags.commits then Max(PrCursor(st), CommitCursor(st))
    else if flags.prs then PrCursor(st)
    else CommitCursor(st)
  }

  function ChunkStart(st: RepoState, p: Pass): int {
    Max(p.floor, ChunkEnd(st, p.flags) - p.chunkDays * DAY_MS)
  }

  function Rewound(st: RepoState, flags: Flags, start: int): RepoState {
    st.(prUntil := if flags.prs then Some(start) else st.prUntil,
        commitUntil := if flags.commits then Some(start) else st.commitUntil)
  }

  /** `snapshot` is the row as it was read before the pass; `r` already holds the forward sweep. */
  function Chunk(r: Repo, snapshot: RepoState, p: Pass): (Repo, bool)
    requires r.state.Some?
  {
    var start := ChunkStart(snapshot, p);
    if start >= ChunkEnd(snapshot, p.flags) then (r, false)
    else
      var filled := if p.flags.prs then r.(written := r.written + Stored(p.back)) else r;
      if (p.flags.prs && !Landed(p.back)) || (p.flags.commits && !p.backCommits) || !p.updated then (filled, false)
      else (filled.(state := Some(Rewound(r.state.value, p.flags, start))), true)
  }

  function Sync(r: Repo, p: Pass): Repo {
    if !p.flags.prs && !p.flags.commits then r
    else
      var (f, ok) := Forward(r, p);
      if ok && p.picked && r.state.Some? then Chunk(f, r.state.value, p).0 else f
  }

  class RepoSync {
    var state: Option<RepoState>
    var written: set<PullRequest>
    var reposProcessed: nat
    var backfillReposProcessed: nat
    var errors: nat

    ghost function View(): Repo
      reads this
    {
      Repo(state, written)
    }

    constructor ()
      ensures View() == Repo(None, {}) && reposProcessed == 0 && backfillReposProcessed == 0 && errors == 0
    {
      state, written := None, {};
      reposProcessed, backfillReposProcessed, errors := 0, 0, 0;
    }

    /** Stores what a fetch returned; false where the source throws. */
    method Persist(l: Load) returns (ok: bool)
      modifies this`written
      ensures written == old(written) + Stored(l) && ok == Landed(l)
    {
      if !l.fetched { return false; }
      if |l.rows| > 0 || !l.inserted {
        written := written + if l.inserted then l.rows else l.partial;
      }
      ok := l.inserted && l.reviewed;
    }

    method BackfillRepoChunk(snapshot: RepoState, p: Pass) returns (ok: bool)
      requires state.Some?
      modifies this`written, this`state, this`backfillReposProcessed
      ensures View() == Chunk(old(View()), snapshot, p).0
      ensures backfillReposProcessed == old(backfillReposProcessed) + if Chunk(old(View()), snapshot, p).1 then 1 else 0
      ensures ok <==> Chunk(old(View()), snapshot, p).1 || ChunkStart(snapshot, p) >= ChunkEnd(snapshot, p.flags)
    {
      var chunkEnd := ChunkEnd(snapshot, p.flags);
      var chunkStart := ChunkStart(snapshot, p);
      if chunkStart >= chunkEnd { return true; }
      if p.flags.prs {
        var landed := Persist(p.back);
        if !landed { return false; }
      }
      if p.flags.commits && !p.backCommits { return false; }
      if !p.updated { return false; }
      state := Some(Rewound(state.value, p.flags, chunkStart));
      backfillReposProcessed := backfillReposProcessed + 1;
      ok := true;
    }

    method SweepForward(p: Pass) returns (ok: bool)
      modifies this`written, this`state, this`reposProcessed
      ensures (View(), ok) == Forward(old(View()), p)
      ensures reposProcessed == old(reposProcessed) + if ok then 1 else 0
    {
      if p.flags.prs {
        var landed := Persist(p.forward);
        if !landed { return false; }
      }
      if p.flags.commits && !p.forwardCommits { return false; }
      if !p.upserted { return false; }
      state := Some(Upserted(state, p.flags, p.now, p.createdAt));
      reposProcessed := reposProcessed + 1;
      ok := true;
    }

    /** The body of the loop over repositories; a failed backfill does not undo the forward sweep. */
    method SyncRepo(p: Pass)
      modifies this
      ensures View() == Sync(old(View()), p)
    {
      if !p.flags.prs && !p.flags.commits { return; }
      var snapshot := state;
      var ok := SweepForward(p);
      if !ok {
        errors := errors + 1;
        return;
      }
      if p.picked && snapshot.Some? {
        var filled := BackfillRepoChunk(snapshot.value, p);
        if !filled { errors := errors + 1; }
      }
    }
  }

  // ---- Coverage ----

  /** The creation time of every pull request there will ever be. */
  type World = map<PullRequest, int>

  ghost predicate Covers(w: World, written: set<PullRequest>, since: int, until: int) {
    forall x :: x in w && since <= w[x] < until ==> x in written
  }

  /** A fetch that returns at all returns everything created in its window. */
  ghost predicate Complete(w: World, l: Load, since: int, until: int) {
    l.fetched ==> Covers(w, l.rows, since, until)
  }

  /** The windows the two fetches of a pass ask for. */
  ghost predicate Honest(w: World, r: Repo, p: Pass) {
    && Complete(w, p.forward, ForwardSince(r.state, p.now), p.now)
    && (r.state.Some? ==> Complete(w, p.back, ChunkStart(r.state.value, p), ChunkEnd(r.state.value, p.flags)))
  }

  /** No gap: everything created between the backfill cursor and the forward watermark is stored. */
  ghost predicate NoGap(w: World, r: Repo) {
    r.state.Some? ==>
      var st := r.state.value;
      if st.lastPr.Some? then Covers(w, r.written, PrCursor(st), st.lastPr.value) else st.prUntil.None?
  }

  /**
   * A row created while pull requests were off has no hand-off. Turning them on later leaves no gap only if
   * the first sweep reaches back to where the row was created.
   */
  predicate HandedOff(r: Repo, p: Pass) {
    r.state.Some? && r.state.value.lastPr.None? && p.flags.prs ==> FirstSweepSince(p.now) <= r.state.value.createdAt
  }

  lemma CoversMore(w: World, a: set<PullRequest>, b: set<PullRequest>, since: int, mid: int, until: int)
    requires Covers(w, a, since, mid) && Covers(w, b, mid, until)
    ensures Covers(w, a + b, since, until)
  {
  }

  lemma ForwardKeepsNoGap(w: World, r: Repo, p: Pass)
    requires NoGap(w, r) && Honest(w, r, p) && HandedOff(r, p)
    ensures NoGap(w, Forward(r, p).0)
  {
    if Forward(r, p).1 && p.flags.prs && r.state.Some? && r.state.value.lastPr.Some? {
      CoversMore(w, r.written, p.forward.rows, PrCursor(r.state.value), r.state.value.lastPr.value, p.now);
    }
  }

  lemma ChunkKeepsNoGap(w: World, r: Repo, p: Pass)
    requires NoGap(w, r) && Honest(w, r, p) && HandedOff(r, p)
    requires Forward(r, p).1 && r.state.Some?
    ensures NoGap(w, Chunk(Forward(r, p).0, r.state.value, p).0)
  {
    ForwardKeepsNoGap(w, r, p);
    var f, snapshot := Forward(r, p).0, r.state.value;
    if Chunk(f, snapshot, p).1 && p.flags.prs {
      assert PrCursor(f.state.value) == PrCursor(snapshot) <= ChunkEnd(snapshot, p.flags);
      assert Covers(w, f.written, PrCursor(snapshot), p.now);
    }
  }

  /** One pass, whatever failed in it, opens no gap. */
  lemma NoGapStep(w: World, r: Repo, p: Pass)
    requires NoGap(w, r) && Honest(w, r, p) && HandedOff(r, p)
    ensures NoGap(w, Sync(r, p))
  {
    ForwardKeepsNoGap(w, r, p);
    if Forward(r, p).1 && r.state.Some? { ChunkKeepsNoGap(w, r, p); }
  }

  ghost function After(r: Repo, ps: seq<Pass>): Repo {
    if ps == [] then r else Sync(After(r, ps[..|ps| - 1]), ps[|ps| - 1])
  }

  ghost predicate HonestRun(w: World, r: Repo, ps: seq<Pass>) {
    forall i :: 0 <= i < |ps| ==> Honest(w, After(r, ps[..i]), ps[i]) && HandedOff(After(r, ps[..i]), ps[i])
  }

  lemma HonestPrefix(w: World, r: Repo, ps: seq<Pass>)
    requires HonestRun(w, r, ps) && ps != []
    ensures HonestRun(w, r, ps[..|ps| - 1])
  {
    var qs := ps[..|ps| - 1];
    forall i | 0 <= i < |qs| ensures Honest(w, After(r, qs[..i]), qs[i]) && HandedOff(After(r, qs[..i]), qs[i]) {
      assert qs[..i] == ps[..i];
    }
  }

  /** Any number of passes, each failing anywhere or nowhere, opens no gap. */
  lemma {:induction false} CoverageHasNoGap(w: World, r: Repo, ps: seq<Pass>)
    requires NoGap(w, r) && HonestRun(w, r, ps)
    ensures NoGap(w, After(r, ps))
  {
    if ps != [] {
      HonestPrefix(w, r, ps);
      CoverageHasNoGap(w, r, ps[..|ps| - 1]);
      NoGapStep(w, After(r, ps[..|ps| - 1]), ps[|ps| - 1]);
    }
  }

  /** A row created with pull requests on is handed off, and stays so. */
  lemma {:induction false} CreatedOnStaysHandedOff(r: Repo, ps: seq<Pass>, p: Pass)
    requires r.state.None? || r.state.value.lastPr.Some?
    requires forall i :: 0 <= i < |ps| ==> ps[i].flags.prs
    ensures After(r, ps).state.None? || After(r, ps).state.value.lastPr.Some?
    ensures HandedOff(After(r, ps), p)
  {
    if ps != [] { CreatedOnStaysHandedOff(r, ps[..|ps| - 1], p); }
  }

  /** Every pass asked honestly, of a repository that has never been synced. */
  ghost predicate HonestFromStart(w: World, ps: seq<Pass>) {
    forall i :: 0 <= i < |ps| ==> Honest(w, After(Repo(None, {}), ps[..i]), ps[i])
  }

  /** With pull requests on from the first pass, nothing else is needed: no gap ever opens. */
  lemma SyncedFromTheStartHasNoGap(w: World, ps: seq<Pass>)
    requires HonestFromStart(w, ps) && forall i :: 0 <= i < |ps| ==> ps[i].flags.prs
    ensures NoGap(w, After(Repo(None, {}), ps))
  {
    var r := Repo(None, {});
    forall i | 0 <= i < |ps| ensures HandedOff(After(r, ps[..i]), ps[i]) { CreatedOnStaysHandedOff(r, ps[..i], ps[i]); }
    CoverageHasNoGap(w, r, ps);
  }

  /** The load of a fetch that returns exactly its window and is stored. */
  ghost function Exactly(w: World, since: int, until: int): Load {
    Load(true, set x | x in w && since <= w[x] < until, true, {}, true)
  }

  /** A pass whose fetches return exactly the windows they ask for, and are stored. */
  ghost function Serving(w: World, st: RepoState, p: Pass): Pass {
    p.(forward := Exactly(w, ForwardSince(Some(st), p.now), p.now),
       back := Exactly(w, ChunkStart(st, p), ChunkEnd(st, p.flags)))
  }

  ghost predicate CoversEveryWorld(st: RepoState, written: set<PullRequest>, p: Pass) {
    forall w: World :: NoGap(w, Sync(Repo(Some(st), written), Serving(w, st, p)))
  }

  lemma ReachingBackCovers(st: RepoState, written: set<PullRequest>, p: Pass)
    requires st.lastPr.None? && st.prUntil.None? && HandedOff(Repo(Some(st), written), p)
    ensures CoversEveryWorld(st, written, p)
  {
    forall w: World ensures NoGap(w, Sync(Repo(Some(st), written), Serving(w, st, p))) {
      NoGapStep(w, Repo(Some(st), written), Serving(w, st, p));
    }
  }

  /** There is always another pull request. */
  lemma AboveAll(written: set<PullRequest>) returns (pr: PullRequest)
    ensures forall x :: x in written ==> x < pr
  {
    if written == {} {
      pr := 0;
    } else {
      var y :| y in written;
      var z := AboveAll(written - {y});
      pr := Max(z, y + 1);
      forall x | x in written ensures x < pr {
        if x != y { assert x in written - {y}; }
      }
    }
  }

  lemma NotReachingBackMisses(st: RepoState, written: set<PullRequest>, p: Pass, pr: PullRequest)
    requires st.lastPr.None? && st.prUntil.None? && CommitCursor(st) <= st.createdAt < FirstSweepSince(p.now)
    requires p.flags.prs && p.upserted && (p.flags.commits ==> p.forwardCommits) && pr !in written
    ensures !CoversEveryWorld(st, written, p)
  {
    var w: World := map[pr := st.createdAt];
    var q := Serving(w, st, p);
    var z := Sync(Repo(Some(st), written), q);
    assert ChunkEnd(st, p.flags) == st.createdAt;
    assert pr !in q.forward.rows && pr !in q.back.rows;
    assert z.state.Some? && z.state.value.lastPr == Some(p.now) && PrCursor(z.state.value) <= w[pr] < p.now;
    assert pr !in z.written;
    assert !NoGap(w, z);
  }

  /**
   * The hand-off condition is exact: a successful forward sweep over a row that never swept pull requests leaves no
   * gap in every world if and only if it reaches back to the creation of the row, whether or not the pass backfills,
   * and whatever is stored already.
   */
  lemma LateSwitchOnCoversExactly(st: RepoState, written: set<PullRequest>, p: Pass)
    requires st.lastPr.None? && st.prUntil.None? && CommitCursor(st) <= st.createdAt
    requires p.flags.prs && p.upserted && (p.flags.commits ==> p.forwardCommits)
    ensures CoversEveryWorld(st, written, p) <==> FirstSweepSince(p.now) <= st.createdAt
  {
    if FirstSweepSince(p.now) <= st.createdAt {
      ReachingBackCovers(st, written, p);
    } else {
      var pr := AboveAll(written);
      NotReachingBackMisses(st, written, p, pr);
    }
  }

  /** The cursors of a row are never above its creation, in any run of passes over a repository new to the database. */
  lemma {:induction false} CursorsStayBelowCreation(ps: seq<Pass>)
    requires forall i :: 0 <= i < |ps| ==> ps[i].now <= ps[i].createdAt
    ensures var st := After(Repo(None, {}), ps).state;
            st.Some? ==> PrCursor(st.value) <= st.value.createdAt && CommitCursor(st.value) <= st.value.createdAt
  {
    if ps != [] { CursorsStayBelowCreation(ps[..|ps| - 1]); }
  }

  // ---- Progress ----

  /** Whether a pass moves the backfill cursor. */
  predicate Fills(r: Repo, p: Pass) {
    && (p.flags.prs || p.flags.commits)
    && Forward(r, p).1 && p.picked && r.state.Some?
    && Chunk(Forward(r, p).0, r.state.value, p).1
  }

  ghost function Filled(r: Repo, ps: seq<Pass>): nat {
    if ps == [] then 0
    else Filled(r, ps[..|ps| - 1]) + if Fills(After(r, ps[..|ps| - 1]), ps[|ps| - 1]) then 1 else 0
  }

  /** Passes of one configuration: the same streams, the same floor, the same chunk. */
  ghost predicate Configured(ps: seq<Pass>, flags: Flags, floor: int, chunkDays: int) {
    forall i :: 0 <= i < |ps| ==> ps[i].flags == flags && ps[i].floor == floor && ps[i].chunkDays == chunkDays
  }

  lemma CursorStep(r: Repo, p: Pass)
    requires r.state.Some? && (p.flags.prs || p.flags.commits)
    ensures Sync(r, p).state.Some?
    ensures ChunkEnd(Sync(r, p).state.value, p.flags)
            == if Fills(r, p) then ChunkStart(r.state.value, p) else ChunkEnd(r.state.value, p.flags)
    ensures Fills(r, p) ==> ChunkStart(r.state.value, p) < ChunkEnd(r.state.value, p.flags)
  {
  }

  lemma OneChunkMore(floor: int, m: int, n: nat, c: int)
    requires c >= 0
    ensures Max(floor, Max(floor, m - n * c) - c) == Max(floor, m - (n + 1) * c)
  {
  }

  /** The larger cursor after a run, by the number of chunks that succeeded in it: a failed pass costs nothing. */
  lemma {:induction false} CursorClosedForm(r: Repo, ps: seq<Pass>, flags: Flags, floor: int, chunkDays: int)
    requires r.state.Some? && (flags.prs || flags.commits) && Configured(ps, flags, floor, chunkDays) && chunkDays > 0
    requires floor <= ChunkEnd(r.state.value, flags)
    ensures After(r, ps).state.Some?
    ensures ChunkEnd(After(r, ps).state.value, flags)
            == Max(floor, ChunkEnd(r.state.value, flags) - Filled(r, ps) * (chunkDays * DAY_MS))
  {
    if ps == [] {
    } else {
      hide Sync, Fills, ChunkEnd, Max;
      var qs, p := ps[..|ps| - 1], ps[|ps| - 1];
      CursorClosedForm(r, qs, flags, floor, chunkDays);
      CursorStep(After(r, qs), p);
      OneChunkMore(floor, ChunkEnd(r.state.value, flags), Filled(r, qs), chunkDays * DAY_MS);
    }
  }

  /** The floor is reached within `ceil(distance / chunk)` successful chunks, and then nothing is fetched any more. */
  lemma FloorIsReached(r: Repo, ps: seq<Pass>, flags: Flags, floor: int, chunkDays: int, p: Pass)
    requires r.state.Some? && (flags.prs || flags.commits) && Configured(ps, flags, floor, chunkDays) && chunkDays > 0
    requires floor <= ChunkEnd(r.state.value, flags)
    requires var c := chunkDays * DAY_MS;
             Filled(r, ps) >= (ChunkEnd(r.state.value, flags) - floor + c - 1) / c
    requires p.flags == flags && p.floor == floor && p.chunkDays == chunkDays
    ensures After(r, ps).state.Some? && ChunkEnd(After(r, ps).state.value, flags) == floor
    ensures !Fills(After(r, ps), p)
  {
    hide Sync, Fills, ChunkEnd, After, Filled;
    CursorClosedForm(r, ps, flags, floor, chunkDays);
    var c := chunkDays * DAY_MS;
    CeilEnough(ChunkEnd(r.state.value, flags) - floor, c, Filled(r, ps));
    CursorStep(After(r, ps), p);
  }

  lemma CeilEnough(d: int, c: int, n: int)
    requires d >= 0 && c > 0 && n >= (d + c - 1) / c
    ensures n * c >= d
  {
    var q := (d + c - 1) / c;
    assert q * c + (d + c - 1) % c == d + c - 1;
    assert n * c >= q * c;
  }
}

/** Which repositories get a chunk in a pass (`selectBackfillRepos`). */
module AdoBackfillSelection {
  import opened Wrappers
  import opened AdoBackfill
  import opened Sequences

  datatype Candidate = Candidate(repoId: string, cursor: Option<int>)

  /** The cursor offered for selection is the pull requests' one whenever they are synced. */
  function CandidateFor(repoId: string, st: RepoState, flags: Flags): Candidate {
    Candidate(repoId, if flags.prs then st.prUntil else st.commitUntil)
  }

  predicate Eligible(c: Candidate, floor: int) {
    c.cursor.None? || c.cursor.value > floor
  }

  /** The comparator returns at most 0: no cursor first, then the newer cursor first. */
  predicate Ahead(a: Candidate, b: Candidate) {
    a.cursor.None? || (b.cursor.Some? && a.cursor.value >= b.cursor.value)
  }

  function EligibleOnly(cs: seq<Candidate>, floor: int): seq<Candidate> {
    if cs == [] then []
    else EligibleOnly(cs[..|cs| - 1], floor) + if Eligible(cs[|cs| - 1], floor) then [cs[|cs| - 1]] else []
  }

  function Ranked(cs: seq<Candidate>): seq<Candidate> {
    Sort(cs, Ahead)
  }

  function Ids(cs: seq<Candidate>): set<string> {
    set c | c in cs :: c.repoId
  }

  function SelectBackfillRepos(cs: seq<Candidate>, floor: int, limit: nat): set<string> {
    var eligible := Ranked(EligibleOnly(cs, floor));
    Ids(if limit < |eligible| then eligible[..limit] else eligible)
  }

  lemma {:induction false} EligibleMembers(cs: seq<Candidate>, floor: int)
    ensures forall c :: c in EligibleOnly(cs, floor) <==> c in cs && Eligible(c, floor)
  {
    if cs != [] {
      EligibleMembers(cs[..|cs| - 1], floor);
      assert cs == cs[..|cs| - 1] + [cs[|cs| - 1]];
    }
  }

  lemma AheadOrders()
    ensures Preorder(Ahead)
  {
  }

  /** Everything in a prefix of the ranking is ahead of everything not in it. */
  lemma PrefixAhead(ranked: seq<Candidate>, n: nat, a: Candidate, b: Candidate)
    requires Ordered(ranked, Ahead) && n <= |ranked| && a in ranked[..n] && b in ranked && b !in ranked[..n]
    ensures Ahead(a, b) && n < |ranked|
  {
    var i :| 0 <= i < n && ranked[..n][i] == a;
    var j :| 0 <= j < |ranked| && ranked[j] == b;
    assert forall k :: 0 <= k < n ==> ranked[..n][k] == ranked[k];
    assert Ahead(ranked[i], ranked[j]);
  }

  lemma RankedMembers(cs: seq<Candidate>)
    ensures Ordered(Ranked(cs), Ahead) && |Ranked(cs)| == |cs| && forall c :: c in Ranked(cs) <==> c in cs
  {
    AheadOrders();
    hide Preorder;
    SortSorts(cs, Ahead);
    SortMembers(cs, Ahead);
  }

  /** An eligible repository that is passed over is behind every one that is chosen, and the budget is spent. */
  lemma BreadthFirst(cs: seq<Candidate>, floor: int, limit: nat, chosen: string, b: Candidate)
    requires chosen in SelectBackfillRepos(cs, floor, limit)
    requires b in cs && Eligible(b, floor) && b.repoId !in SelectBackfillRepos(cs, floor, limit)
    ensures |EligibleOnly(cs, floor)| > limit
    ensures exists a :: a in cs && a.repoId == chosen && Eligible(a, floor) && Ahead(a, b)
    ensures exists a :: a in cs && a.repoId == chosen && (a.cursor.Some? ==> floor < a.cursor.value)
                && (a.cursor.Some? ==> b.cursor.Some? && b.cursor.value <= a.cursor.value)
  {
    BehindInSelection(cs, floor, limit, chosen, b);
  }

  lemma BehindInSelection(cs: seq<Candidate>, floor: int, limit: nat, chosen: string, b: Candidate)
    requires chosen in SelectBackfillRepos(cs, floor, limit)
    requires b in cs && Eligible(b, floor) && b.repoId !in SelectBackfillRepos(cs, floor, limit)
    ensures |EligibleOnly(cs, floor)| > limit
    ensures exists a :: a in cs && a.repoId == chosen && Eligible(a, floor) && Ahead(a, b)
  {
    var ranked := Ranked(EligibleOnly(cs, floor));
    EligibleMembers(cs, floor);
    RankedMembers(EligibleOnly(cs, floor));
    hide EligibleOnly, Ranked, Ordered, Ahead;
    if limit >= |ranked| {
      assert false;
    } else {
      var a :| a in ranked[..limit] && a.repoId == chosen;
      PrefixAhead(ranked, limit, a, b);
      assert a in ranked;
    }
  }

  lemma {:induction false} IdsCount(cs: seq<Candidate>)
    ensures |Ids(cs)| <= |cs|
  {
    if cs != [] {
      IdsCount(cs[..|cs| - 1]);
      assert cs == cs[..|cs| - 1] + [cs[|cs| - 1]];
      assert Ids(cs) == Ids(cs[..|cs| - 1]) + {cs[|cs| - 1].repoId};
    }
  }

  /** Only eligible repositories are chosen, at most `limit` of them, and all of them when they fit. */
  lemma SelectionIsBounded(cs: seq<Candidate>, floor: int, limit: nat)
    ensures |SelectBackfillRepos(cs, floor, limit)| <= limit
    ensures SelectBackfillRepos(cs, floor, limit) <= Ids(EligibleOnly(cs, floor))
    ensures |EligibleOnly(cs, floor)| <= limit ==> SelectBackfillRepos(cs, floor, limit) == Ids(EligibleOnly(cs, floor))
  {
    var eligible := EligibleOnly(cs, floor);
    var ranked := Ranked(eligible);
    RankedMembers(eligible);
    hide EligibleOnly, Ranked;
    IdsCount(if limit < |ranked| then ranked[..limit] else ranked);
    assert Ids(ranked) == Ids(eligible);
  }

  ghost predicate UniqueIds(cs: seq<Candidate>) {
    forall a, b :: a in cs && b in cs && a.repoId == b.repoId ==> a == b
  }

  /** Among any candidates a chosen repository is eligible, and an eligible one is chosen if the budget allows. */
  lemma ChosenIsEligible(cs: seq<Candidate>, c: Candidate, floor: int, limit: nat)
    requires UniqueIds(cs) && c in cs
    ensures c.repoId in SelectBackfillRepos(cs, floor, limit) ==> Eligible(c, floor)
    ensures |EligibleOnly(cs, floor)| <= limit && Eligible(c, floor) ==>
        c.repoId in SelectBackfillRepos(cs, floor, limit)
  {
    SelectionIsBounded(cs, floor, limit);
    EligibleMembers(cs, floor);
    hide SelectBackfillRepos, EligibleOnly;
  }
}
