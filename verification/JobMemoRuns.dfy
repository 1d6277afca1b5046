/**
 The memo of deferred jobs over whole runs (apps/worker/src/org-gated-processor.ts): in which order organizations
 stand, which of them an eviction drops, and what the number beside a job counts.
 */
module JobMemoRuns {
  import opened Wrappers
  import opened JobMemos

  // ---- One operation ----

  lemma {:induction false} WithoutSplit(a: seq<string>, o: string, b: seq<string>)
    requires o !in a
    ensures Without(a + [o] + b, o) == a + b
  {
    if a == [] {
      assert a + [o] + b == [o] + b;
    } else {
      assert (a + [o] + b)[1..] == a[1..] + [o] + b;
      WithoutSplit(a[1..], o, b);
    }
  }

  lemma {:induction false} SplitAt(s: seq<string>, o: string) returns (a: seq<string>, b: seq<string>)
    requires o in s
    ensures s == a + [o] + b && o !in a
  {
    if s[0] == o {
      a, b := [], s[1..];
    } else {
      a, b := SplitAt(s[1..], o);
      a := [s[0]] + a;
    }
  }

  lemma DistinctSplit(s: seq<string>, a: seq<string>, o: string, b: seq<string>)
    requires Distinct(s) && s == a + [o] + b
    ensures o !in a && o !in b
  {
    forall i | 0 <= i < |a| ensures a[i] != o { assert s[i] == a[i] && s[|a|] == o; }
    forall i | 0 <= i < |b| ensures b[i] != o { assert s[|a| + 1 + i] == b[i] && s[|a|] == o; }
  }

  /** A deferral moves its organization to the end, and every other one keeps its place among the rest. */
  lemma TouchMovesToEnd(m: Memo, job: string, o: string, a: seq<string>, b: seq<string>)
    requires OrderOk(m)
    ensures m.order == a + [o] + b ==> Touch(m, job, o).order == a + b + [o]
    ensures o !in m.order ==> Touch(m, job, o).order == m.order + [o]
  {
    if m.order == a + [o] + b {
      DistinctSplit(m.order, a, o, b);
      WithoutSplit(a, o, b);
      assert o in m.order;
    }
  }

  /** Forgetting an organization's last job takes the organization out where it stands; any other leaves the order. */
  lemma ForgetTakesOut(m: Memo, job: string, a: seq<string>, o: string, b: seq<string>)
    requires Inverse(m) && job in m.byJob
    ensures m.order == a + [o] + b && m.idsOf[o] == {job} ==> ForgetJob(m, job).order == a + b
    ensures m.idsOf[m.byJob[job].organization] != {job} ==> ForgetJob(m, job).order == m.order
  {
    if m.order == a + [o] + b {
      assert o in m.order;
      DistinctSplit(m.order, a, o, b);
      WithoutSplit(a, o, b);
    }
    var own := m.byJob[job].organization;
    if m.idsOf[own] - {job} == {} { assert m.idsOf[own] == {job}; }
  }

  // ---- Runs ----

  datatype Event = Deferral(job: string) | Forgetting(job: string)

  /** `maxOrganizations` and `maxJobs` bound the memo; `owner` is the organization of a job, which never changes. */
  datatype Setting = Setting(maxOrganizations: nat, maxJobs: nat, owner: string -> string)

  ghost function Step(m: Memo, c: Setting, e: Event): Memo {
    match e
    case Deferral(job) => Recorded(m, job, c.owner(job), c.maxOrganizations, c.maxJobs)
    case Forgetting(job) => ForgetJob(m, job)
  }

  ghost function After(c: Setting, es: seq<Event>): Memo {
    if es == [] then EMPTY else Step(After(c, es[..|es| - 1]), c, es[|es| - 1])
  }

  /** When the organization last had a job deferred: a position in the run, or -1. */
  ghost function LastDeferral(c: Setting, es: seq<Event>, o: string): int {
    if es == [] then -1
    else if es[|es| - 1].Deferral? && c.owner(es[|es| - 1].job) == o then |es| - 1
    else LastDeferral(c, es[..|es| - 1], o)
  }

  ghost predicate Owned(m: Memo, c: Setting) {
    Inverse(m) && forall j :: j in m.byJob ==> m.byJob[j].organization == c.owner(j)
  }

  /** Organizations stand in the order of their last deferrals. */
  ghost predicate ByLastDeferral(c: Setting, es: seq<Event>, order: seq<string>) {
    && (forall i :: 0 <= i < |order| ==> 0 <= LastDeferral(c, es, order[i]) < |es|)
    && (forall i, j :: 0 <= i < j < |order| ==> LastDeferral(c, es, order[i]) < LastDeferral(c, es, order[j]))
  }

  lemma {:induction false} LastDeferralBound(c: Setting, es: seq<Event>, o: string)
    ensures -1 <= LastDeferral(c, es, o) < |es|
  {
    if es != [] { LastDeferralBound(c, es[..|es| - 1], o); }
  }

  lemma OwnedStep(m: Memo, c: Setting, e: Event)
    requires Owned(m, c)
    ensures Owned(Step(m, c, e), c)
  {
    match e
    case Deferral(job) =>
      RecordedInverse(m, job, c.owner(job), c.maxOrganizations, c.maxJobs);
      forall j | j in Step(m, c, e).byJob ensures Step(m, c, e).byJob[j].organization == c.owner(j) {
        RecordedOwner(m, job, c.owner(job), c.maxOrganizations, c.maxJobs, j);
      }
    case Forgetting(job) => ForgetJobInverse(m, job);
  }

  lemma {:induction false} OwnedRun(c: Setting, es: seq<Event>)
    ensures Owned(After(c, es), c)
  {
    if es != [] {
      OwnedRun(c, es[..|es| - 1]);
      OwnedStep(After(c, es[..|es| - 1]), c, es[|es| - 1]);
    }
  }

  lemma ByLastDeferralDrop(c: Setting, es: seq<Event>, order: seq<string>, n: nat)
    requires ByLastDeferral(c, es, order) && n <= |order|
    ensures ByLastDeferral(c, es, order[n..])
  {
  }

  /** One event more, of which `rest` are the organizations it does not defer. */
  lemma ByLastDeferralKept(c: Setting, es: seq<Event>, e: Event, rest: seq<string>)
    requires ByLastDeferral(c, es, rest)
    requires forall o :: o in rest ==> !(e.Deferral? && c.owner(e.job) == o)
    ensures ByLastDeferral(c, es + [e], rest)
  {
    assert (es + [e])[..|es|] == es;
    forall i | 0 <= i < |rest| ensures LastDeferral(c, es + [e], rest[i]) == LastDeferral(c, es, rest[i]) {
      assert rest[i] in rest;
    }
    hide LastDeferral;
  }

  lemma ByLastDeferralTakeOut(c: Setting, es: seq<Event>, a: seq<string>, o: string, b: seq<string>)
    requires ByLastDeferral(c, es, a + [o] + b)
    ensures ByLastDeferral(c, es, a + b)
  {
    var s, z := a + [o] + b, a + b;
    hide LastDeferral;
    forall i | 0 <= i < |z| ensures z[i] == s[if i < |a| then i else i + 1] {
    }
  }

  lemma TouchKeepsOrder(m: Memo, c: Setting, es: seq<Event>, job: string)
    requires OrderOk(m) && ByLastDeferral(c, es, m.order)
    ensures ByLastDeferral(c, es + [Deferral(job)], Touch(m, job, c.owner(job)).order)
  {
    var o, e := c.owner(job), Deferral(job);
    var rest := m.order;
    if o in m.order {
      var a, b := SplitAt(m.order, o);
      TouchMovesToEnd(m, job, o, a, b);
      DistinctSplit(m.order, a, o, b);
      ByLastDeferralTakeOut(c, es, a, o, b);
      rest := a + b;
    } else {
      TouchMovesToEnd(m, job, o, [], []);
    }
    assert Touch(m, job, o).order == rest + [o] && o !in rest;
    hide Touch, OrderOk;
    ByLastDeferralKept(c, es, e, rest);
    assert LastDeferral(c, es + [e], o) == |es|;
    forall i | 0 <= i < |rest| ensures LastDeferral(c, es + [e], rest[i]) < |es| {
      assert rest[i] != o && (es + [e])[..|es|] == es;
      LastDeferralBound(c, es, rest[i]);
    }
    hide LastDeferral;
  }

  lemma ForgetKeepsOrder(m: Memo, c: Setting, es: seq<Event>, job: string)
    requires Inverse(m) && ByLastDeferral(c, es, m.order)
    ensures ByLastDeferral(c, es + [Forgetting(job)], ForgetJob(m, job).order)
  {
    var rest := m.order;
    if job in m.byJob {
      var o := m.byJob[job].organization;
      assert o in m.order;
      var a, b := SplitAt(m.order, o);
      ForgetTakesOut(m, job, a, o, b);
      if m.idsOf[o] == {job} {
        ByLastDeferralTakeOut(c, es, a, o, b);
        rest := a + b;
      }
    }
    assert ForgetJob(m, job).order == rest;
    ByLastDeferralKept(c, es, Forgetting(job), rest);
  }

  /** In every run the organizations stand in the order in which they were last deferred. */
  lemma {:induction false} OrderIsByLastDeferral(c: Setting, es: seq<Event>)
    ensures ByLastDeferral(c, es, After(c, es).order)
  {
    if es != [] {
      var init, e := es[..|es| - 1], es[|es| - 1];
      var m := After(c, init);
      OwnedRun(c, init);
      OrderIsByLastDeferral(c, init);
      assert es == init + [e];
      hide After, LastDeferral;
      match e
      case Deferral(job) =>
        TouchKeepsOrder(m, c, init, job);
        var t := Touch(m, job, c.owner(job));
        hide Touch, ByLastDeferral;
        ByLastDeferralDrop(c, es, t.order, EvictCount(t, c.maxOrganizations, c.maxJobs, 0));
        assert Step(m, c, e).order == t.order[EvictCount(t, c.maxOrganizations, c.maxJobs, 0)..];
        StepIsLast(c, es);
      case Forgetting(job) =>
        ForgetKeepsOrder(m, c, init, job);
        StepIsLast(c, es);
    }
  }

  lemma StepIsLast(c: Setting, es: seq<Event>)
    requires es != []
    ensures After(c, es) == Step(After(c, es[..|es| - 1]), c, es[|es| - 1])
  {
  }

  /** Of two organizations in the memo, the one that stands first is the one whose last deferral is older. */
  lemma StandsBeforeExactly(c: Setting, es: seq<Event>, i: nat, j: nat)
    requires i < |After(c, es).order| && j < |After(c, es).order|
    ensures var order := After(c, es).order;
            i < j <==> LastDeferral(c, es, order[i]) < LastDeferral(c, es, order[j])
  {
    OrderIsByLastDeferral(c, es);
    hide After, LastDeferral;
  }

  /** An organization that a deferral evicts was last seen before every organization that stays. */
  lemma EvictedIsLeastRecent(c: Setting, es: seq<Event>, job: string, gone: string, kept: string)
    requires gone in After(c, es).idsOf || gone == c.owner(job)
    requires gone !in After(c, es + [Deferral(job)]).idsOf && kept in After(c, es + [Deferral(job)]).idsOf
    ensures LastDeferral(c, es + [Deferral(job)], gone) < LastDeferral(c, es + [Deferral(job)], kept)
  {
    var all := es + [Deferral(job)];
    var m, o := After(c, es), c.owner(job);
    assert all[..|es|] == es;
    StepIsLast(c, all);
    OwnedRun(c, es);
    OwnedRun(c, all);
    OrderIsByLastDeferral(c, es);
    TouchKeepsOrder(m, c, es, job);
    TouchOrder(m, job, o);
    var t := Touch(m, job, o);
    var n := EvictCount(t, c.maxOrganizations, c.maxJobs, 0);
    assert After(c, all).order == t.order[n..] && After(c, all).idsOf == t.idsOf - Oldest(t, n);
    assert gone in t.order[..n] && kept in t.order[n..];
    hide After, LastDeferral, Touch;
  }

  // ---- How often a job was put off ----

  ghost function Deferred(es: seq<Event>, job: string): nat {
    if es == [] then 0 else Deferred(es[..|es| - 1], job) + if es[|es| - 1] == Deferral(job) then 1 else 0
  }

  lemma CountStep(m: Memo, c: Setting, e: Event, job: string)
    requires job in Step(m, c, e).byJob
    ensures Deferrals(Step(m, c, e), job) == Deferrals(m, job) + if e == Deferral(job) then 1 else 0
    ensures job !in m.byJob ==> e == Deferral(job)
  {
    match e
    case Deferral(j) => RecordedCount(m, j, c.owner(j), c.maxOrganizations, c.maxJobs, job);
    case Forgetting(j) => ForgottenCount(m, j, job);
  }

  lemma RecordedCount(m: Memo, j: string, o: string, maxOrganizations: nat, maxJobs: nat, job: string)
    requires job in Recorded(m, j, o, maxOrganizations, maxJobs).byJob
    ensures Deferrals(Recorded(m, j, o, maxOrganizations, maxJobs), job)
            == Deferrals(m, job) + if j == job then 1 else 0
    ensures job !in m.byJob ==> j == job
  {
    hide EvictCount, Oldest, Without;
  }

  lemma ForgottenCount(m: Memo, j: string, job: string)
    requires job in ForgetJob(m, j).byJob
    ensures Deferrals(ForgetJob(m, j), job) == Deferrals(m, job) && job in m.byJob && j != job
  {
    hide Without;
  }

  /** Whether the memo knows the job after the first `i` events. */
  ghost predicate Knows(c: Setting, es: seq<Event>, i: nat, job: string)
    requires i <= |es|
  {
    job in After(c, es[..i]).byJob
  }

  /** The memo did not know the job at position `k`, and has known it ever since. */
  ghost predicate KnownSince(c: Setting, es: seq<Event>, k: nat, job: string) {
    && k < |es| && !Knows(c, es, k, job)
    && forall i :: k < i <= |es| ==> Knows(c, es, i, job)
  }

  lemma KnowsInit(c: Setting, es: seq<Event>, i: nat, job: string)
    requires i < |es|
    ensures Knows(c, es[..|es| - 1], i, job) == Knows(c, es, i, job)
  {
    assert es[..|es| - 1][..i] == es[..i];
  }

  lemma KnownSinceInit(c: Setting, es: seq<Event>, k: nat, job: string)
    requires KnownSince(c, es, k, job) && k < |es| - 1
    ensures KnownSince(c, es[..|es| - 1], k, job)
  {
    var init := es[..|es| - 1];
    hide Knows;
    KnowsInit(c, es, k, job);
    forall i | k < i < |es| ensures Knows(c, init, i, job) { KnowsInit(c, es, i, job); }
  }

  lemma KnownSinceLast(c: Setting, es: seq<Event>, k: nat, job: string)
    requires KnownSince(c, es, k, job)
    ensures job in After(c, es).byJob && (k == |es| - 1 ==> job !in After(c, es[..|es| - 1]).byJob)
  {
    hide After;
    assert es[..|es|] == es && Knows(c, es, |es|, job);
  }

  lemma DeferredLast(es: seq<Event>, k: nat, job: string)
    requires k < |es|
    ensures Deferred(es[k..], job)
            == Deferred(es[..|es| - 1][k..], job) + if es[|es| - 1] == Deferral(job) then 1 else 0
  {
    assert es[k..][..|es[k..]| - 1] == es[..|es| - 1][k..];
  }

  /** The number beside a remembered job counts its deferrals since the memo last did not know it. */
  lemma {:induction false} DeferralsAreCounted(c: Setting, es: seq<Event>, k: nat, job: string)
    requires KnownSince(c, es, k, job)
    ensures Deferrals(After(c, es), job) == Deferred(es[k..], job) > 0
    decreases |es|
  {
    assert Deferred([], job) == 0;
    hide After, Step, KnownSince, Deferred;
    StepIsLast(c, es);
    KnownSinceLast(c, es, k, job);
    CountStep(After(c, es[..|es| - 1]), c, es[|es| - 1], job);
    DeferredLast(es, k, job);
    if k < |es| - 1 {
      KnownSinceInit(c, es, k, job);
      DeferralsAreCounted(c, es[..|es| - 1], k, job);
    } else {
      assert es[..|es| - 1][k..] == [];
    }
  }
}
