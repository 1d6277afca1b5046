/** The per-organization concurrency gate: a counter per organization and a shortcut for the capped ones. */
module OrgGate {
  import opened Wrappers

  datatype Gate = Gate(maxPerOrg: int, inFlight: map<string, int>, capped: map<string, int>)

  predicate Enabled(g: Gate) {
    g.maxPerOrg > 0
  }

  function InFlight(g: Gate, o: string): int {
    if o in g.inFlight then g.inFlight[o] else 0
  }

  function TryAcquire(g: Gate, o: string): (Gate, bool) {
    if !Enabled(g) then (g, true)
    else if InFlight(g, o) >= g.maxPerOrg then (g, false)
    else (g.(inFlight := g.inFlight[o := InFlight(g, o) + 1]), true)
  }

  function Release(g: Gate, o: string): Gate {
    if !Enabled(g) then g
    else
      var next := InFlight(g, o) - 1;
      g.(inFlight := if next <= 0 then g.inFlight - {o} else g.inFlight[o := next], capped := g.capped - {o})
  }

  function MarkCapped(g: Gate, o: string, until: int): Gate {
    if Enabled(g) then g.(capped := g.capped[o := until]) else g
  }

  function IsCappedUntil(g: Gate, o: string, now: int): (Gate, bool) {
    if o !in g.capped then (g, false)
    else if now >= g.capped[o] then (g.(capped := g.capped - {o}), false)
    else (g, true)
  }

  class OrgConcurrencyGate {
    const maxPerOrg: int
    var inFlightByOrg: map<string, int>
    var cappedUntilByOrg: map<string, int>

    ghost function View(): Gate
      reads this
    {
      Gate(maxPerOrg, inFlightByOrg, cappedUntilByOrg)
    }

    constructor (cap: int)
      ensures View() == Gate(cap, map[], map[])
    {
      maxPerOrg := cap;
      inFlightByOrg, cappedUntilByOrg := map[], map[];
    }

    method TryAcquireSlot(o: string) returns (ok: bool)
      modifies this
      ensures (View(), ok) == TryAcquire(old(View()), o)
    {
      if maxPerOrg <= 0 { return true; }
      var current := if o in inFlightByOrg then inFlightByOrg[o] else 0;
      if current >= maxPerOrg { return false; }
      inFlightByOrg := inFlightByOrg[o := current + 1];
      ok := true;
    }

    method ReleaseSlot(o: string)
      modifies this
      ensures View() == Release(old(View()), o)
    {
      if maxPerOrg <= 0 { return; }
      var current := if o in inFlightByOrg then inFlightByOrg[o] else 0;
      var next := current - 1;
      if next <= 0 {
        inFlightByOrg := inFlightByOrg - {o};
      } else {
        inFlightByOrg := inFlightByOrg[o := next];
      }
      cappedUntilByOrg := cappedUntilByOrg - {o};
    }

    method Mark(o: string, until: int)
      modifies this
      ensures View() == MarkCapped(old(View()), o, until)
    {
      if maxPerOrg > 0 { cappedUntilByOrg := cappedUntilByOrg[o := until]; }
    }

    method CheckCapped(o: string, now: int) returns (capped: bool)
      modifies this
      ensures (View(), capped) == IsCappedUntil(old(View()), o, now)
    {
      if o !in cappedUntilByOrg { return false; }
      if now >= cappedUntilByOrg[o] {
        cappedUntilByOrg := cappedUntilByOrg - {o};
        return false;
      }
      capped := true;
    }
  }
}

/** The memo of deferred jobs: a job index and an organization index, evicted one whole organization at a time. */
module JobMemos {
  import opened Wrappers

  datatype Entry = Entry(organization: string, deferrals: nat)

  /** `order` is the insertion order of the organization index, least recently seen first. */
  datatype Memo = Memo(byJob: map<string, Entry>, order: seq<string>, idsOf: map<string, set<string>>)

  const EMPTY := Memo(map[], [], map[])

  ghost predicate Distinct(s: seq<string>) {
    forall i, j :: 0 <= i < j < |s| ==> s[i] != s[j]
  }

  /** The organization index lists each of its organizations once. */
  ghost predicate OrderOk(m: Memo) {
    Distinct(m.order) && forall o :: o in m.order <==> o in m.idsOf
  }

  /** The two indexes are exact inverses of each other, and no organization is listed without a job. */
  ghost predicate IndexOk(m: Memo) {
    && (forall o :: o in m.idsOf ==> m.idsOf[o] != {})
    && (forall j :: j in m.byJob ==> m.byJob[j].organization in m.idsOf && j in m.idsOf[m.byJob[j].organization])
    && (forall o, j :: o in m.idsOf && j in m.idsOf[o] ==> j in m.byJob && m.byJob[j].organization == o)
  }

  ghost predicate Inverse(m: Memo) {
    OrderOk(m) && IndexOk(m)
  }

  function Without(s: seq<string>, o: string): seq<string> {
    if s == [] then [] else if s[0] == o then s[1..] else [s[0]] + Without(s[1..], o)
  }

  function Deferrals(m: Memo, job: string): nat {
    if job in m.byJob then m.byJob[job].deferrals else 0
  }

  /** The recording half of a deferral: bump the job, and make its organization the most recently seen. */
  function Touch(m: Memo, job: string, o: string): Memo {
    Memo(m.byJob[job := Entry(o, Deferrals(m, job) + 1)],
         if o in m.idsOf then Without(m.order, o) + [o] else m.order + [o],
         m.idsOf[o := (if o in m.idsOf then m.idsOf[o] else {}) + {job}])
  }

  function ForgetOrganization(m: Memo, o: string): Memo {
    if o !in m.idsOf then m
    else Memo(m.byJob - m.idsOf[o], Without(m.order, o), m.idsOf - {o})
  }

  function ForgetJob(m: Memo, job: string): Memo {
    if job !in m.byJob then m
    else
      var o := m.byJob[job].organization;
      var byJob := m.byJob - {job};
      if o !in m.idsOf then m.(byJob := byJob)
      else if m.idsOf[o] - {job} == {} then Memo(byJob, Without(m.order, o), m.idsOf - {o})
      else m.(byJob := byJob, idsOf := m.idsOf[o := m.idsOf[o] - {job}])
  }

  predicate Fits(m: Memo, maxOrganizations: nat, maxJobs: nat) {
    |m.idsOf| <= maxOrganizations && |m.byJob| <= maxJobs
  }

  /** The `n` least recently seen organizations. */
  function Oldest(m: Memo, n: nat): set<string>
    requires n <= |m.order|
  {
    set o | o in m.order[..n]
  }

  /** The memo without its `n` least recently seen organizations, each dropped with all of its jobs. */
  function DropFirst(m: Memo, n: nat): Memo
    requires n <= |m.order|
  {
    Memo(map j | j in m.byJob && m.byJob[j].organization !in Oldest(m, n) :: m.byJob[j],
         m.order[n..],
         m.idsOf - Oldest(m, n))
  }

  lemma {:induction false} WithoutMembers(s: seq<string>, o: string)
    requires Distinct(s)
    ensures Distinct(Without(s, o)) && forall x :: x in Without(s, o) <==> x in s && x != o
  {
    if s != [] {
      assert s == [s[0]] + s[1..];
      if s[0] == o {
        assert o !in s[1..];
      } else {
        assert Distinct(s[1..]);
        WithoutMembers(s[1..], o);
        assert s[0] !in s[1..];
      }
    }
  }

  lemma DropNone(m: Memo)
    ensures DropFirst(m, 0) == m
  {
    assert Oldest(m, 0) == {};
    assert m.order[0..] == m.order;
    assert DropFirst(m, 0).byJob == m.byJob && DropFirst(m, 0).idsOf == m.idsOf;
  }

  lemma DropFirstOrder(m: Memo, n: nat)
    requires OrderOk(m) && n <= |m.order|
    ensures OrderOk(DropFirst(m, n))
  {
    forall o
      ensures o in m.order[n..] <==> o in m.order && o !in Oldest(m, n)
    {
      assert m.order == m.order[..n] + m.order[n..];
    }
  }

  lemma DropFirstIndex(m: Memo, n: nat)
    requires IndexOk(m) && n <= |m.order|
    ensures IndexOk(DropFirst(m, n))
  {
    var gone := Oldest(m, n);
    DropSetIndex(m, gone, DropFirst(m, n));
  }

  lemma DropSetIndex(m: Memo, gone: set<string>, z: Memo)
    requires IndexOk(m) && z.idsOf == m.idsOf - gone
    requires z.byJob == map j | j in m.byJob && m.byJob[j].organization !in gone :: m.byJob[j]
    ensures IndexOk(z)
  {
  }

  lemma DropFirstInverse(m: Memo, n: nat)
    requires Inverse(m) && n <= |m.order|
    ensures Inverse(DropFirst(m, n))
  {
    DropFirstOrder(m, n);
    DropFirstIndex(m, n);
  }

  /** Forgetting the least recently seen organization drops one more. */
  lemma DropOneMore(m: Memo, n: nat)
    requires Inverse(m) && n < |m.order|
    ensures ForgetOrganization(DropFirst(m, n), m.order[n]) == DropFirst(m, n + 1)
  {
    var z, o, y := DropFirst(m, n), m.order[n], DropFirst(m, n + 1);
    assert z.order[0] == o && Without(z.order, o) == y.order;
    assert m.order[..n + 1] == m.order[..n] + [o];
    assert Oldest(m, n + 1) == Oldest(m, n) + {o};
    assert o in z.idsOf by { DropFirstOrder(m, n); assert o in z.order; }
    ForgetOneMore(m, Oldest(m, n), o, z, y);
  }

  lemma ForgetOneMore(m: Memo, gone: set<string>, o: string, z: Memo, y: Memo)
    requires IndexOk(m) && o in m.idsOf && o !in gone
    requires z.idsOf == m.idsOf - gone && y.idsOf == m.idsOf - (gone + {o})
    requires z.byJob == map j | j in m.byJob && m.byJob[j].organization !in gone :: m.byJob[j]
    requires y.byJob == map j | j in m.byJob && m.byJob[j].organization !in gone + {o} :: m.byJob[j]
    ensures z.byJob - z.idsOf[o] == y.byJob && z.idsOf - {o} == y.idsOf
  {
    forall j | j in z.byJob
      ensures j in z.idsOf[o] <==> z.byJob[j].organization == o
    {
    }
  }

  /** How many organizations must go before both bounds hold. */
  function EvictCount(m: Memo, maxOrganizations: nat, maxJobs: nat, n: nat): (r: nat)
    requires n <= |m.order|
    ensures n <= r <= |m.order|
    decreases |m.order| - n
  {
    if n == |m.order| || Fits(DropFirst(m, n), maxOrganizations, maxJobs) then n
    else EvictCount(m, maxOrganizations, maxJobs, n + 1)
  }

  lemma DropAllFits(m: Memo, maxOrganizations: nat, maxJobs: nat)
    requires Inverse(m)
    ensures Fits(DropFirst(m, |m.order|), maxOrganizations, maxJobs)
  {
    var z := DropFirst(m, |m.order|);
    assert m.order[..|m.order|] == m.order;
    assert Oldest(m, |m.order|) == m.idsOf.Keys;
    assert z.byJob == map[] && z.idsOf == map[];
  }

  /** The count is the least one: no shorter prefix of organizations would have been enough. */
  lemma {:induction false} EvictCountIsLeast(m: Memo, maxOrganizations: nat, maxJobs: nat, n: nat, k: nat)
    requires n <= |m.order| && n <= k < EvictCount(m, maxOrganizations, maxJobs, n)
    ensures !Fits(DropFirst(m, k), maxOrganizations, maxJobs)
    decreases k - n
  {
    if n < k { EvictCountIsLeast(m, maxOrganizations, maxJobs, n + 1, k); }
  }

  lemma {:induction false} EvictCountFits(m: Memo, maxOrganizations: nat, maxJobs: nat, n: nat)
    requires Inverse(m) && n <= |m.order|
    ensures var z := DropFirst(m, EvictCount(m, maxOrganizations, maxJobs, n));
            Inverse(z) && Fits(z, maxOrganizations, maxJobs)
    decreases |m.order| - n
  {
    if n == |m.order| {
      DropAllFits(m, maxOrganizations, maxJobs);
      DropFirstInverse(m, n);
    } else if Fits(DropFirst(m, n), maxOrganizations, maxJobs) {
      DropFirstInverse(m, n);
    } else {
      EvictCountFits(m, maxOrganizations, maxJobs, n + 1);
    }
  }

  /** The eviction loop has dropped `n` organizations, all of them necessary. */
  ghost predicate Evicting(m: Memo, n: nat, z: Memo, maxOrganizations: nat, maxJobs: nat) {
    && n <= |m.order| && z == DropFirst(m, n)
    && EvictCount(m, maxOrganizations, maxJobs, 0) == EvictCount(m, maxOrganizations, maxJobs, n)
  }

  lemma EvictingStep(m: Memo, n: nat, z: Memo, maxOrganizations: nat, maxJobs: nat)
    requires Inverse(m) && Evicting(m, n, z, maxOrganizations, maxJobs) && !Fits(z, maxOrganizations, maxJobs)
    ensures z.order != []
    ensures Evicting(m, n + 1, ForgetOrganization(z, z.order[0]), maxOrganizations, maxJobs)
    ensures |ForgetOrganization(z, z.order[0]).order| < |z.order|
  {
    if n == |m.order| { DropAllFits(m, maxOrganizations, maxJobs); }
    DropOneMore(m, n);
  }

  function Recorded(m: Memo, job: string, o: string, maxOrganizations: nat, maxJobs: nat): Memo {
    var t := Touch(m, job, o);
    DropFirst(t, EvictCount(t, maxOrganizations, maxJobs, 0))
  }

  class JobMemo {
    const maxOrganizations: nat
    const maxJobs: nat
    var byJobId: map<string, Entry>
    var organizationOrder: seq<string>
    var jobIdsByOrg: map<string, set<string>>

    ghost function View(): Memo
      reads this
    {
      Memo(byJobId, organizationOrder, jobIdsByOrg)
    }

    constructor (organizations: nat, jobs: nat)
      ensures View() == EMPTY && maxOrganizations == organizations && maxJobs == jobs
    {
      maxOrganizations, maxJobs := organizations, jobs;
      byJobId, organizationOrder, jobIdsByOrg := map[], [], map[];
    }

    /** A job whose organization changed since it was remembered is outside what the indexes support. */
    method RecordDeferral(job: string, o: string) returns (deferrals: nat)
      requires Inverse(View()) && (job in byJobId ==> byJobId[job].organization == o)
      modifies this
      ensures deferrals == Deferrals(old(View()), job) + 1
      ensures View() == Recorded(old(View()), job, o, maxOrganizations, maxJobs)
    {
      ghost var was := View();
      deferrals := (if job in byJobId then byJobId[job].deferrals else 0) + 1;
      byJobId := byJobId[job := Entry(o, deferrals)];
      if o in jobIdsByOrg {
        organizationOrder := Without(organizationOrder, o) + [o];
        jobIdsByOrg := jobIdsByOrg[o := jobIdsByOrg[o] + {job}];
      } else {
        organizationOrder := organizationOrder + [o];
        jobIdsByOrg := jobIdsByOrg[o := {job}];
      }
      assert View() == Touch(was, job, o) by { assert {} + {job} == {job}; }
      TouchInverse(was, job, o);
      Evict();
    }

    method Forget(job: string)
      modifies this
      ensures View() == ForgetJob(old(View()), job)
    {
      if job !in byJobId { return; }
      var o := byJobId[job].organization;
      byJobId := byJobId - {job};
      if o !in jobIdsByOrg { return; }
      var ids := jobIdsByOrg[o] - {job};
      if ids == {} {
        organizationOrder := Without(organizationOrder, o);
        jobIdsByOrg := jobIdsByOrg - {o};
      } else {
        jobIdsByOrg := jobIdsByOrg[o := ids];
      }
    }

    method ForgetWhole(o: string)
      modifies this
      ensures View() == ForgetOrganization(old(View()), o)
    {
      if o !in jobIdsByOrg { return; }
      byJobId := byJobId - jobIdsByOrg[o];
      organizationOrder := Without(organizationOrder, o);
      jobIdsByOrg := jobIdsByOrg - {o};
    }

    /** Drops the least recently seen organizations until both bounds hold, and not one more. */
    method Evict()
      requires Inverse(View())
      modifies this
      ensures View() == DropFirst(old(View()), EvictCount(old(View()), maxOrganizations, maxJobs, 0))
      ensures Inverse(View()) && Fits(View(), maxOrganizations, maxJobs)
    {
      ghost var m := View();
      ghost var n := 0;
      DropNone(m);
      while |jobIdsByOrg| > maxOrganizations || |byJobId| > maxJobs
        invariant Evicting(m, n, View(), maxOrganizations, maxJobs)
        decreases |organizationOrder|
      {
        if organizationOrder == [] { break; }
        EvictingStep(m, n, View(), maxOrganizations, maxJobs);
        ForgetWhole(organizationOrder[0]);
        n := n + 1;
      }
      assert EvictCount(m, maxOrganizations, maxJobs, n) == n;
      EvictCountFits(m, maxOrganizations, maxJobs, 0);
    }
  }

  lemma TouchOrder(m: Memo, job: string, o: string)
    requires OrderOk(m)
    ensures OrderOk(Touch(m, job, o))
  {
    WithoutMembers(m.order, o);
    var rest := if o in m.idsOf then Without(m.order, o) else m.order;
    assert Distinct(rest) && o !in rest;
    assert forall x :: x in rest <==> x in m.order && x != o;
    AppendDistinct(rest, o);
  }

  lemma AppendDistinct(s: seq<string>, o: string)
    requires Distinct(s) && o !in s
    ensures Distinct(s + [o]) && forall x :: x in s + [o] <==> x in s || x == o
  {
  }

  lemma TouchIndex(m: Memo, job: string, o: string)
    requires IndexOk(m) && (job in m.byJob ==> m.byJob[job].organization == o)
    ensures IndexOk(Touch(m, job, o))
  {
  }

  lemma TouchInverse(m: Memo, job: string, o: string)
    requires Inverse(m) && (job in m.byJob ==> m.byJob[job].organization == o)
    ensures Inverse(Touch(m, job, o))
  {
    TouchOrder(m, job, o);
    TouchIndex(m, job, o);
  }

  lemma ForgetJobIndex(m: Memo, job: string)
    requires IndexOk(m)
    ensures IndexOk(ForgetJob(m, job))
  {
    if job in m.byJob {
      var o := m.byJob[job].organization;
      var rest := m.idsOf[o] - {job};
      assert forall j :: j in rest ==> j in m.byJob && j != job && m.byJob[j].organization == o;
    }
  }

  lemma ForgetJobInverse(m: Memo, job: string)
    requires Inverse(m)
    ensures Inverse(ForgetJob(m, job)) && job !in ForgetJob(m, job).byJob
  {
    ForgetJobIndex(m, job);
    assert OrderOk(ForgetJob(m, job)) by {
      if job in m.byJob { WithoutMembers(m.order, m.byJob[job].organization); }
    }
  }

  /** Recording keeps the indexes inverse exactly when the job was not remembered under another organization. */
  lemma TouchKeepsInverseExactly(m: Memo, job: string, o: string)
    requires Inverse(m)
    ensures Inverse(Touch(m, job, o)) <==> (job in m.byJob ==> m.byJob[job].organization == o)
  {
    var z := Touch(m, job, o);
    if job in m.byJob && m.byJob[job].organization != o {
      var other := m.byJob[job].organization;
      assert other in z.idsOf && job in z.idsOf[other] && z.byJob[job].organization == o;
    } else {
      TouchInverse(m, job, o);
    }
  }

  /** Eviction drops whole organizations: what is left is every job of the organizations that are left. */
  lemma EvictionKeepsOrganizationsWhole(m: Memo, job: string, o: string, maxOrganizations: nat, maxJobs: nat, j: string)
    requires Inverse(m) && (job in m.byJob ==> m.byJob[job].organization == o)
    ensures var t := Touch(m, job, o);
            var z := Recorded(m, job, o, maxOrganizations, maxJobs);
            && Inverse(z) && Fits(z, maxOrganizations, maxJobs)
            && (j in t.byJob ==> (j in z.byJob <==> t.byJob[j].organization in z.idsOf))
            && (j in z.byJob ==> j in t.byJob && z.byJob[j] == t.byJob[j])
            && (forall x :: x in z.idsOf ==> x in t.idsOf && z.idsOf[x] == t.idsOf[x])
  {
    TouchInverse(m, job, o);
    DropKeepsWhole(Touch(m, job, o), maxOrganizations, maxJobs, j);
  }

  lemma DropKeepsWhole(t: Memo, maxOrganizations: nat, maxJobs: nat, j: string)
    requires Inverse(t)
    ensures var z := DropFirst(t, EvictCount(t, maxOrganizations, maxJobs, 0));
            && Inverse(z) && Fits(z, maxOrganizations, maxJobs)
            && (j in t.byJob ==> (j in z.byJob <==> t.byJob[j].organization in z.idsOf))
            && (j in z.byJob ==> j in t.byJob && z.byJob[j] == t.byJob[j])
            && (forall x :: x in z.idsOf ==> x in t.idsOf && z.idsOf[x] == t.idsOf[x])
  {
    EvictCountFits(t, maxOrganizations, maxJobs, 0);
    DropFirstKeepsWhole(t, EvictCount(t, maxOrganizations, maxJobs, 0), j);
  }

  lemma DropFirstKeepsWhole(t: Memo, n: nat, j: string)
    requires Inverse(t) && n <= |t.order|
    ensures var z := DropFirst(t, n);
            && (j in t.byJob ==> (j in z.byJob <==> t.byJob[j].organization in z.idsOf))
            && (j in z.byJob ==> j in t.byJob && z.byJob[j] == t.byJob[j])
            && (forall x :: x in z.idsOf ==> x in t.idsOf && z.idsOf[x] == t.idsOf[x])
  {
  }

  /** Every remembered job keeps its organization, and the recorded one has the organization given. */
  lemma RecordedOwner(m: Memo, job: string, o: string, maxOrganizations: nat, maxJobs: nat, j: string)
    requires j in Recorded(m, job, o, maxOrganizations, maxJobs).byJob
    ensures j == job || j in m.byJob
    ensures Recorded(m, job, o, maxOrganizations, maxJobs).byJob[j].organization ==
            if j == job then o else m.byJob[j].organization
  {
  }

  lemma RecordedInverse(m: Memo, job: string, o: string, maxOrganizations: nat, maxJobs: nat)
    requires Inverse(m) && (job in m.byJob ==> m.byJob[job].organization == o)
    ensures Inverse(Recorded(m, job, o, maxOrganizations, maxJobs))
  {
    TouchInverse(m, job, o);
    EvictCountFits(Touch(m, job, o), maxOrganizations, maxJobs, 0);
  }

  lemma LastOnly(t: Memo, o: string)
    requires Inverse(t) && t.order != [] && t.order[|t.order| - 1] == o
    ensures o in t.idsOf
    ensures DropFirst(t, |t.order| - 1).idsOf.Keys == {o}
    ensures DropFirst(t, |t.order| - 1).byJob.Keys == t.idsOf[o]
  {
    var last := |t.order| - 1;
    assert o in t.order;
    assert t.order == t.order[..last] + [o];
    assert Oldest(t, last) == t.idsOf.Keys - {o} by {
      forall x ensures x in Oldest(t, last) <==> x in t.idsOf && x != o {
        assert x in t.order <==> x in t.order[..last] || x == o;
      }
    }
  }

  /** The job just deferred stays remembered exactly when its own organization's backlog fits by itself. */
  lemma DeferredJobIsKeptExactly(m: Memo, job: string, o: string, maxOrganizations: nat, maxJobs: nat)
    requires Inverse(m) && (job in m.byJob ==> m.byJob[job].organization == o)
    ensures job in Recorded(m, job, o, maxOrganizations, maxJobs).byJob <==>
            maxOrganizations >= 1 && |Touch(m, job, o).idsOf[o]| <= maxJobs
  {
    var t := Touch(m, job, o);
    TouchInverse(m, job, o);
    assert t.order[|t.order| - 1] == o && t.byJob[job].organization == o;
    LastKeptExactly(t, job, o, maxOrganizations, maxJobs);
  }

  lemma LastKeptExactly(t: Memo, job: string, o: string, maxOrganizations: nat, maxJobs: nat)
    requires Inverse(t) && t.order != [] && t.order[|t.order| - 1] == o && job in t.byJob
        && t.byJob[job].organization == o
    ensures o in t.idsOf
    ensures job in DropFirst(t, EvictCount(t, maxOrganizations, maxJobs, 0)).byJob <==>
            maxOrganizations >= 1 && |t.idsOf[o]| <= maxJobs
  {
    var last, n := |t.order| - 1, EvictCount(t, maxOrganizations, maxJobs, 0);
    LastOnly(t, o);
    LastFits(t, o, maxOrganizations, maxJobs);
    KeptUnlessAllDropped(t, job, o, n);
    if n == |t.order| {
      EvictCountIsLeast(t, maxOrganizations, maxJobs, 0, last);
    } else {
      assert Fits(DropFirst(t, n), maxOrganizations, maxJobs) by { EvictCountFits(t, maxOrganizations, maxJobs, 0); }
      FitsShrinks(t, n, last, maxOrganizations, maxJobs);
    }
  }

  lemma LastFits(t: Memo, o: string, maxOrganizations: nat, maxJobs: nat)
    requires t.order != [] && o in t.idsOf
    requires DropFirst(t, |t.order| - 1).idsOf.Keys == {o} && DropFirst(t, |t.order| - 1).byJob.Keys == t.idsOf[o]
    ensures Fits(DropFirst(t, |t.order| - 1), maxOrganizations, maxJobs)
        <==> maxOrganizations >= 1 && |t.idsOf[o]| <= maxJobs
  {
    var y := DropFirst(t, |t.order| - 1);
    assert |y.idsOf| == |y.idsOf.Keys| == 1 && |y.byJob| == |y.byJob.Keys|;
  }

  lemma KeptUnlessAllDropped(t: Memo, job: string, o: string, n: nat)
    requires OrderOk(t) && t.order != [] && t.order[|t.order| - 1] == o && n <= |t.order|
    requires job in t.byJob && t.byJob[job].organization == o
    ensures job in DropFirst(t, n).byJob <==> n < |t.order|
  {
    if n == |t.order| { assert o in t.order[..n]; } else { assert o !in t.order[..n]; }
  }

  /** Dropping more organizations never makes a memo that fits overflow. */
  lemma FitsShrinks(m: Memo, a: nat, b: nat, maxOrganizations: nat, maxJobs: nat)
    requires a <= b <= |m.order| && Fits(DropFirst(m, a), maxOrganizations, maxJobs)
    ensures Fits(DropFirst(m, b), maxOrganizations, maxJobs)
  {
    var x, y := DropFirst(m, a), DropFirst(m, b);
    assert m.order[..b][..a] == m.order[..a];
    assert Oldest(m, a) <= Oldest(m, b);
    assert y.byJob.Keys <= x.byJob.Keys && y.idsOf.Keys <= x.idsOf.Keys;
    SmallerSet(y.byJob.Keys, x.byJob.Keys);
    SmallerSet(y.idsOf.Keys, x.idsOf.Keys);
  }

  lemma SmallerSet(a: set<string>, b: set<string>)
    requires a <= b
    ensures |a| <= |b|
  {
    assert |b| == |a| + |b - a| by { assert a + (b - a) == b; }
  }
}

/** Any number of gated processors sharing one gate, each with its own memo, with jobs in flight at once. */
module GatedProcessors {
  import opened Wrappers
  import opened OrgGate
  import opened JobMemos

  /** Where one attempt at a job is suspended. */
  datatype Attempt =
    | Resolving(p: nat, job: string)
    | Running(p: nat, job: string, organization: string)
    | Ungated
    | Finished

  /** The bounds of a memo, and how long a refusal is remembered. */
  datatype Settings = Settings(maxOrganizations: nat, maxJobs: nat, retryDelay: int)

  datatype System = System(gate: Gate, memos: map<nat, Memo>, attempts: map<nat, Attempt>)

  datatype Event =
    | Arrive(a: nat, p: nat, job: string, now: int)
    | Resolved(a: nat, ok: bool, now: int)
    | Done(a: nat)

  function Start(cap: int, processors: set<nat>): System {
    System(Gate(cap, map[], map[]), map p | p in processors :: EMPTY, map[])
  }

  predicate CanHappen(s: System, e: Event) {
    match e
    case Arrive(a, p, _, _) => a !in s.attempts && p in s.memos
    case Resolved(a, _, _) => a in s.attempts && s.attempts[a].Resolving? && s.attempts[a].p in s.memos
    case Done(a) => a in s.attempts && (s.attempts[a].Running? || s.attempts[a].Ungated?)
  }

  const DEFERRAL_WARN_THRESHOLD: nat := 60

  /** How one segment of a gated job ends. */
  datatype Outcome =
    | RunUngated
    | NeedsOwner
    | Admitted
    | Deferred(deferrals: nat, warn: bool, fromCache: bool)

  /** What one segment leaves of the gate and of its processor's memo, and how it ends. */
  datatype Segment = Segment(gate: Gate, memo: Memo, outcome: Outcome)

  function Deferring(g: Gate, m: Memo, c: Settings, job: string, o: string, fromCache: bool): Segment {
    var deferrals := Deferrals(m, job) + 1;
    Segment(g, Recorded(m, job, o, c.maxOrganizations, c.maxJobs),
            Deferred(deferrals, deferrals == DEFERRAL_WARN_THRESHOLD, fromCache))
  }

  /** The first segment: the shortcut is consulted only for a job the memo remembers. */
  function Entering(g: Gate, m: Memo, c: Settings, job: string, now: int): Segment {
    if !Enabled(g) then Segment(g, m, RunUngated)
    else if job !in m.byJob then Segment(g, m, NeedsOwner)
    else
      var o := m.byJob[job].organization;
      var (after, capped) := IsCappedUntil(g, o, now);
      if capped then Deferring(after, m, c, job, o, true) else Segment(after, m, NeedsOwner)
  }

  /** The second segment, once the owner is known: admit, or mark the organization capped and defer. */
  function Deciding(g: Gate, m: Memo, c: Settings, job: string, o: string, now: int): Segment {
    var (after, admitted) := TryAcquire(g, o);
    if admitted then Segment(after, ForgetJob(m, job), Admitted)
    else Deferring(MarkCapped(after, o, now + c.retryDelay), m, c, job, o, false)
  }

  function AttemptAfter(r: Outcome, p: nat, job: string, o: string): Attempt {
    match r
    case RunUngated => Ungated
    case NeedsOwner => Resolving(p, job)
    case Admitted => Running(p, job, o)
    case Deferred(_, _, _) => Finished
  }

  function Apply(s: System, l: Segment, a: nat, p: nat, job: string, o: string): System {
    System(l.gate, s.memos[p := l.memo], s.attempts[a := AttemptAfter(l.outcome, p, job, o)])
  }

  /** `owner` is the organization a job belongs to, which never changes. */
  function Step(s: System, c: Settings, owner: string -> string, e: Event): System
    requires CanHappen(s, e)
  {
    match e
    case Arrive(a, p, job, now) => Apply(s, Entering(s.gate, s.memos[p], c, job, now), a, p, job, "")
    case Resolved(a, ok, now) =>
      var p, job := s.attempts[a].p, s.attempts[a].job;
      if !ok then s.(attempts := s.attempts[a := Finished])
      else Apply(s, Deciding(s.gate, s.memos[p], c, job, owner(job), now), a, p, job, owner(job))
    case Done(a) =>
      var t := s.(attempts := s.attempts[a := Finished]);
      if s.attempts[a].Running? then t.(gate := Release(s.gate, s.attempts[a].organization)) else t
  }

  ghost predicate Runs(s: System, c: Settings, owner: string -> string, es: seq<Event>)
    decreases |es|
  {
    es == [] || (CanHappen(s, es[0]) && Runs(Step(s, c, owner, es[0]), c, owner, es[1..]))
  }

  ghost function After(s: System, c: Settings, owner: string -> string, es: seq<Event>): System
    requires Runs(s, c, owner, es)
    decreases |es|
  {
    if es == [] then s else After(Step(s, c, owner, es[0]), c, owner, es[1..])
  }

  /** The attempts that hold a slot of the organization. */
  function Holding(attempts: map<nat, Attempt>, o: string): set<nat> {
    set a | a in attempts && attempts[a].Running? && attempts[a].organization == o
  }

  /** The counter counts the running jobs, and is dropped rather than kept at zero. */
  ghost predicate CountsExact(s: System) {
    forall o :: InFlight(s.gate, o) == |Holding(s.attempts, o)|
        && (o in s.gate.inFlight <==> Holding(s.attempts, o) != {})
  }

  /** A marked organization is at its cap at this moment. */
  ghost predicate CappedMeansFull(s: System) {
    forall o :: o in s.gate.capped ==> |Holding(s.attempts, o)| == s.gate.maxPerOrg
  }

  ghost predicate NeverOverCap(s: System) {
    forall o :: |Holding(s.attempts, o)| <= s.gate.maxPerOrg
  }

  ghost predicate MemoTrue(m: Memo, owner: string -> string) {
    Inverse(m) && forall j :: j in m.byJob ==> m.byJob[j].organization == owner(j)
  }

  ghost predicate MemosTrue(s: System, owner: string -> string) {
    forall p :: p in s.memos ==> MemoTrue(s.memos[p], owner)
  }

  ghost predicate GateInv(s: System) {
    Enabled(s.gate) && CountsExact(s) && CappedMeansFull(s) && NeverOverCap(s)
  }

  lemma HoldingMoves(attempts: map<nat, Attempt>, a: nat, to: Attempt, o: string)
    requires a in attempts ==> !attempts[a].Running?
    ensures Holding(attempts[a := to], o) ==
            Holding(attempts, o) + if to.Running? && to.organization == o then {a} else {}
    ensures a !in Holding(attempts, o)
  {
  }

  lemma HoldingReleases(attempts: map<nat, Attempt>, a: nat, o: string)
    requires a in attempts && attempts[a].Running?
    ensures Holding(attempts[a := Finished], o) == Holding(attempts, o) - {a}
    ensures a in Holding(attempts, o) <==> attempts[a].organization == o
  {
  }

  lemma NoSlotMoves(s: System, z: System, a: nat, to: Attempt)
    requires GateInv(s) && (a in s.attempts ==> !s.attempts[a].Running?) && !to.Running?
    requires z.attempts == s.attempts[a := to]
    requires z.gate.inFlight == s.gate.inFlight && z.gate.maxPerOrg == s.gate.maxPerOrg
    requires forall o :: o in z.gate.capped ==> o in s.gate.capped || InFlight(s.gate, o) >= s.gate.maxPerOrg
    ensures GateInv(z)
  {
    forall o ensures Holding(z.attempts, o) == Holding(s.attempts, o) { HoldingMoves(s.attempts, a, to, o); }
  }

  lemma AcquireStep(s: System, z: System, a: nat, to: Attempt)
    requires GateInv(s) && a in s.attempts && !s.attempts[a].Running? && to.Running?
    requires z.attempts == s.attempts[a := to] && (z.gate, true) == TryAcquire(s.gate, to.organization)
    ensures GateInv(z)
  {
    forall o
      ensures |Holding(z.attempts, o)| == |Holding(s.attempts, o)| + (if to.organization == o then 1 else 0)
      ensures Holding(z.attempts, o) != {} <==> Holding(s.attempts, o) != {} || to.organization == o
    {
      HoldingMoves(s.attempts, a, to, o);
    }
    assert InFlight(s.gate, to.organization) < s.gate.maxPerOrg;
    assert z.gate.capped == s.gate.capped && z.gate.maxPerOrg == s.gate.maxPerOrg;
    assert |Holding(s.attempts, to.organization)| < s.gate.maxPerOrg;
    assert to.organization !in s.gate.capped;
    hide Holding;
  }

  lemma ReleaseStep(s: System, z: System, a: nat)
    requires GateInv(s) && a in s.attempts && s.attempts[a].Running?
    requires z.attempts == s.attempts[a := Finished] && z.gate == Release(s.gate, s.attempts[a].organization)
    ensures GateInv(z)
  {
    forall o ensures Holding(z.attempts, o) == Holding(s.attempts, o) - {a}
        && (a in Holding(s.attempts, o) <==> s.attempts[a].organization == o)
    {
      HoldingReleases(s.attempts, a, o);
    }
  }

  /** The first segment takes no slot, and marks nobody. */
  lemma EnteringGate(g: Gate, m: Memo, c: Settings, job: string, now: int)
    ensures var l := Entering(g, m, c, job, now);
            && l.gate.inFlight == g.inFlight && l.gate.maxPerOrg == g.maxPerOrg
            && l.gate.capped.Keys <= g.capped.Keys && !l.outcome.Admitted?
  {
  }

  /** The second segment takes a slot exactly when the gate grants it, and otherwise marks a full organization. */
  lemma DecidingGate(g: Gate, m: Memo, c: Settings, job: string, o: string, now: int)
    ensures var l := Deciding(g, m, c, job, o, now);
            && (l.outcome.Admitted? <==> TryAcquire(g, o).1)
            && (l.outcome.Admitted? ==> l.gate == TryAcquire(g, o).0)
            && (!l.outcome.Admitted? ==>
                  && l.gate.inFlight == g.inFlight && l.gate.maxPerOrg == g.maxPerOrg && !l.outcome.NeedsOwner?
                      && !l.outcome.RunUngated?
                  && forall x :: x in l.gate.capped ==> x in g.capped || (x == o && InFlight(g, o) >= g.maxPerOrg))
  {
  }

  lemma GateInvApply(s: System, l: Segment, a: nat, p: nat, job: string, o: string)
    requires GateInv(s) && (a in s.attempts ==> !s.attempts[a].Running?)
    requires l.outcome.Admitted? ==> a in s.attempts && (l.gate, true) == TryAcquire(s.gate, o)
    requires !l.outcome.Admitted? ==>
               && l.gate.inFlight == s.gate.inFlight && l.gate.maxPerOrg == s.gate.maxPerOrg
               && forall x :: x in l.gate.capped ==> x in s.gate.capped || InFlight(s.gate, x) >= s.gate.maxPerOrg
    ensures GateInv(Apply(s, l, a, p, job, o))
  {
    var z := Apply(s, l, a, p, job, o);
    if l.outcome.Admitted? { AcquireStep(s, z, a, z.attempts[a]); } else { NoSlotMoves(s, z, a, z.attempts[a]); }
  }

  lemma GateInvStep(s: System, c: Settings, owner: string -> string, e: Event)
    requires GateInv(s) && CanHappen(s, e)
    ensures GateInv(Step(s, c, owner, e))
  {
    match e
    case Arrive(a, p, job, now) =>
      EnteringGate(s.gate, s.memos[p], c, job, now);
      GateInvApply(s, Entering(s.gate, s.memos[p], c, job, now), a, p, job, "");
    case Resolved(a, ok, now) =>
      var p, job := s.attempts[a].p, s.attempts[a].job;
      if ok {
        DecidingGate(s.gate, s.memos[p], c, job, owner(job), now);
        GateInvApply(s, Deciding(s.gate, s.memos[p], c, job, owner(job), now), a, p, job, owner(job));
      } else {
        NoSlotMoves(s, Step(s, c, owner, e), a, Finished);
      }
    case Done(a) =>
      var z := Step(s, c, owner, e);
      if s.attempts[a].Running? { ReleaseStep(s, z, a); } else { NoSlotMoves(s, z, a, Finished); }
  }

  lemma MemoRecorded(m: Memo, c: Settings, owner: string -> string, job: string)
    requires MemoTrue(m, owner)
    ensures MemoTrue(Recorded(m, job, owner(job), c.maxOrganizations, c.maxJobs), owner)
  {
    var z := Recorded(m, job, owner(job), c.maxOrganizations, c.maxJobs);
    assert Inverse(z) by { RecordedInverse(m, job, owner(job), c.maxOrganizations, c.maxJobs); }
    forall j | j in z.byJob
      ensures z.byJob[j].organization == owner(j)
    {
      RecordedOwner(m, job, owner(job), c.maxOrganizations, c.maxJobs, j);
    }
  }

  lemma MemoForgot(m: Memo, owner: string -> string, job: string)
    requires MemoTrue(m, owner)
    ensures MemoTrue(ForgetJob(m, job), owner)
  {
    ForgetJobInverse(m, job);
  }

  lemma MemosMove(s: System, z: System, owner: string -> string, p: nat)
    requires MemosTrue(s, owner) && p in s.memos && p in z.memos && z.memos == s.memos[p := z.memos[p]]
    requires MemoTrue(z.memos[p], owner)
    ensures MemosTrue(z, owner)
  {
  }

  lemma MemosStep(s: System, c: Settings, owner: string -> string, e: Event)
    requires MemosTrue(s, owner) && CanHappen(s, e)
    ensures MemosTrue(Step(s, c, owner, e), owner)
  {
    match e
    case Arrive(a, p, job, now) =>
      assert MemoTrue(s.memos[p], owner);
      SegmentMemos(s.gate, s.memos[p], c, owner, job, now);
      MemosMove(s, Step(s, c, owner, e), owner, p);
    case Resolved(a, ok, now) =>
      var p, job := s.attempts[a].p, s.attempts[a].job;
      assert MemoTrue(s.memos[p], owner);
      if ok {
        SegmentMemos(s.gate, s.memos[p], c, owner, job, now);
        MemosMove(s, Step(s, c, owner, e), owner, p);
      }
    case Done(a) =>
  }

  lemma SegmentMemos(g: Gate, m: Memo, c: Settings, owner: string -> string, job: string, now: int)
    requires MemoTrue(m, owner)
    ensures MemoTrue(Entering(g, m, c, job, now).memo, owner)
    ensures MemoTrue(Deciding(g, m, c, job, owner(job), now).memo, owner)
  {
    MemoRecorded(m, c, owner, job);
    MemoForgot(m, owner, job);
    SegmentMemoCases(g, m, c, job, owner(job), now);
  }

  /** A segment records the job, forgets it, or leaves the memo as it was. */
  lemma SegmentMemoCases(g: Gate, m: Memo, c: Settings, job: string, o: string, now: int)
    requires job in m.byJob ==> m.byJob[job].organization == o
    ensures Entering(g, m, c, job, now).memo == m
        || Entering(g, m, c, job, now).memo == Recorded(m, job, o, c.maxOrganizations, c.maxJobs)
    ensures var z := Deciding(g, m, c, job, o, now).memo;
            z == ForgetJob(m, job) || z == Recorded(m, job, o, c.maxOrganizations, c.maxJobs)
  {
  }

  lemma {:induction false} InvRun(s: System, c: Settings, owner: string -> string, es: seq<Event>)
    requires GateInv(s) && MemosTrue(s, owner) && Runs(s, c, owner, es)
    ensures GateInv(After(s, c, owner, es)) && MemosTrue(After(s, c, owner, es), owner)
    decreases |es|
  {
    if es != [] {
      GateInvStep(s, c, owner, es[0]);
      MemosStep(s, c, owner, es[0]);
      InvRun(Step(s, c, owner, es[0]), c, owner, es[1..]);
    }
  }

  lemma StartInv(cap: int, processors: set<nat>, owner: string -> string)
    requires cap > 0
    ensures GateInv(Start(cap, processors)) && MemosTrue(Start(cap, processors), owner)
  {
  }

  /**
   The shortcut never changes the decision: whenever an arriving job is deferred from the memo, exactly
   `maxPerOrg` jobs of its own organization are running, so asking the gate would have refused it too.
   */
  lemma CachedDeferralAgreesWithSlowPath(
    cap: int, processors: set<nat>, c: Settings, owner: string -> string, es: seq<Event>, a: nat, p: nat, job: string,
        now: int)
    requires cap > 0 && Runs(Start(cap, processors), c, owner, es)
    requires CanHappen(After(Start(cap, processors), c, owner, es), Arrive(a, p, job, now))
    ensures var z := After(Start(cap, processors), c, owner, es);
            Step(z, c, owner, Arrive(a, p, job, now)).attempts[a].Finished? ==>
              && |Holding(z.attempts, owner(job))| == cap
              && !TryAcquire(z.gate, owner(job)).1
  {
    StartInv(cap, processors, owner);
    InvRun(Start(cap, processors), c, owner, es);
    CapConstant(Start(cap, processors), c, owner, es);
  }

  lemma {:induction false} CapConstant(s: System, c: Settings, owner: string -> string, es: seq<Event>)
    requires Runs(s, c, owner, es)
    ensures After(s, c, owner, es).gate.maxPerOrg == s.gate.maxPerOrg
    decreases |es|
  {
    if es != [] { CapConstant(Step(s, c, owner, es[0]), c, owner, es[1..]); }
  }

  /**
   In every run an organization never has more than `maxPerOrg` jobs running across all processors, the
   counter is exactly the number running, and only organizations with a running job are tracked or marked.
   */
  lemma GateIsExact(cap: int, processors: set<nat>, c: Settings, owner: string -> string, es: seq<Event>, o: string)
    requires cap > 0 && Runs(Start(cap, processors), c, owner, es)
    ensures var z := After(Start(cap, processors), c, owner, es);
            && InFlight(z.gate, o) == |Holding(z.attempts, o)| <= cap
            && z.gate.capped.Keys <= z.gate.inFlight.Keys
            && |z.gate.capped| <= |z.gate.inFlight|
            && (o in z.gate.capped ==> |Holding(z.attempts, o)| == cap)
            && (!TryAcquire(z.gate, o).1 <==> |Holding(z.attempts, o)| == cap)
  {
    var z := After(Start(cap, processors), c, owner, es);
    StartInv(cap, processors, owner);
    InvRun(Start(cap, processors), c, owner, es);
    CapConstant(Start(cap, processors), c, owner, es);
    forall x | x in z.gate.capped ensures x in z.gate.inFlight {
      assert |Holding(z.attempts, x)| == cap;
    }
    SmallerSet(z.gate.capped.Keys, z.gate.inFlight.Keys);
    assert |z.gate.capped| == |z.gate.capped.Keys| && |z.gate.inFlight| == |z.gate.inFlight.Keys|;
  }

  // ---- One processor as the object that runs ----

  class GatedProcessor {
    const gate: OrgConcurrencyGate
    const memo: JobMemo
    const retryDelay: int

    constructor (g: OrgConcurrencyGate, m: JobMemo, delay: int)
      ensures gate == g && memo == m && retryDelay == delay
    {
      gate, memo, retryDelay := g, m, delay;
    }

    function Bounds(): Settings {
      Settings(memo.maxOrganizations, memo.maxJobs, retryDelay)
    }

    method Defer(job: string, o: string, fromCache: bool) returns (r: Outcome)
      requires Inverse(memo.View()) && (job in memo.byJobId ==> memo.byJobId[job].organization == o)
      modifies memo
      ensures Segment(gate.View(), memo.View(), r)
          == Deferring(gate.View(), old(memo.View()), Bounds(), job, o, fromCache)
    {
      var deferrals := memo.RecordDeferral(job, o);
      r := Deferred(deferrals, deferrals == DEFERRAL_WARN_THRESHOLD, fromCache);
    }

    /** The first segment of a job: up to the point where its owner has to be loaded. */
    method Enter(job: string, now: int) returns (r: Outcome)
      requires Inverse(memo.View())
      modifies gate, memo
      ensures Segment(gate.View(), memo.View(), r) == Entering(old(gate.View()), old(memo.View()), Bounds(), job, now)
    {
      if gate.maxPerOrg <= 0 { return RunUngated; }
      if job !in memo.byJobId { return NeedsOwner; }
      var o := memo.byJobId[job].organization;
      var capped := gate.CheckCapped(o, now);
      if !capped { return NeedsOwner; }
      r := Defer(job, o, true);
    }

    /** The second segment, once the owner is known. */
    method Decide(job: string, o: string, now: int) returns (r: Outcome)
      requires Inverse(memo.View()) && (job in memo.byJobId ==> memo.byJobId[job].organization == o)
      modifies gate, memo
      ensures Segment(gate.View(), memo.View(), r)
          == Deciding(old(gate.View()), old(memo.View()), Bounds(), job, o, now)
    {
      hide Deferring, Deferrals, Recorded, ForgetJob, MarkCapped;
      var ok := gate.TryAcquireSlot(o);
      assert memo.View() == old(memo.View());
      if ok {
        memo.Forget(job);
        return Admitted;
      }
      r := Refuse(job, o, now);
    }

    /** Remembers the refusal so that the organization's other jobs skip the lookup, and defers this one. */
    method Refuse(job: string, o: string, now: int) returns (r: Outcome)
      requires Inverse(memo.View()) && (job in memo.byJobId ==> memo.byJobId[job].organization == o)
      modifies gate, memo
      ensures gate.View() == MarkCapped(old(gate.View()), o, now + retryDelay)
      ensures Segment(gate.View(), memo.View(), r) == Deferring(gate.View(), old(memo.View()), Bounds(), job, o, false)
    {
      hide Deferring, Deferrals, Recorded;
      gate.Mark(o, now + retryDelay);
      assert memo.View() == old(memo.View());
      r := Defer(job, o, false);
    }

    /** The `finally` of an admitted job, whether it succeeded or threw. */
    method Leave(o: string)
      modifies gate
      ensures gate.View() == Release(old(gate.View()), o)
    {
      gate.ReleaseSlot(o);
    }
  }
}
