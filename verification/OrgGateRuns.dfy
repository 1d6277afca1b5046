/**
 How a gated job is decided, segment by segment and over whole runs (apps/worker/src/org-gated-processor.ts and
 apps/worker/src/org-concurrency-gate.ts).
 */
module GatedProcessorRuns {
  import opened Wrappers
  import opened OrgGate
  import opened JobMemos
  import opened GatedProcessors
  import JobMemoRuns

  // ---- One job ----

  /** The organization is marked, and the mark has not expired. */
  predicate MarkedAt(g: Gate, o: string, now: int) {
    o in g.capped && now < g.capped[o]
  }

  /**
   The first segment, case by case: without a cap the job runs and nothing is touched; it is deferred without its owner
   being loaded exactly when the memo remembers it under an organization whose mark has not expired; anything else goes
   on to load the owner, and drops the mark of a remembered job's organization at most.
   */
  lemma ArrivalExactly(g: Gate, m: Memo, c: Settings, job: string, now: int)
    ensures var l := Entering(g, m, c, job, now);
            && (l.outcome.RunUngated? <==> g.maxPerOrg <= 0)
            && (l.outcome.Deferred? <==>
                g.maxPerOrg > 0 && job in m.byJob && MarkedAt(g, m.byJob[job].organization, now))
            && (l.outcome.Deferred? ==>
                  l.gate == g && l.outcome.fromCache && l.outcome.deferrals == m.byJob[job].deferrals + 1
                  && (l.outcome.warn <==> l.outcome.deferrals == 60))
            && (!l.outcome.Deferred? ==> l.memo == m && l.gate.inFlight == g.inFlight)
            && (l.outcome.RunUngated? ==> l.gate == g)
            && (l.outcome.NeedsOwner? ==>
                  forall o :: MarkedAt(l.gate, o, now) <==> MarkedAt(g, o, now))
  {
    hide Recorded;
  }

  /**
   The second segment: the job is admitted exactly while its organization has a free slot, takes that slot and is
   forgotten; otherwise it is deferred, and its organization is marked for the retry delay from now.
   */
  lemma DecisionExactly(g: Gate, m: Memo, c: Settings, job: string, o: string, now: int)
    requires g.maxPerOrg > 0
    ensures var l := Deciding(g, m, c, job, o, now);
            && (l.outcome.Admitted? <==> InFlight(g, o) < g.maxPerOrg)
            && (l.outcome.Admitted? ==>
                  && job !in l.memo.byJob && (forall j :: j != job ==> (j in l.memo.byJob <==> j in m.byJob))
                  && l.gate.inFlight == g.inFlight[o := InFlight(g, o) + 1] && l.gate.capped == g.capped)
            && (!l.outcome.Admitted? ==>
                  && l.outcome.Deferred? && !l.outcome.fromCache && l.gate.inFlight == g.inFlight
                  && l.outcome.deferrals == (if job in m.byJob then m.byJob[job].deferrals else 0) + 1
                  && (l.outcome.warn <==> l.outcome.deferrals == 60)
                  && (forall t: int :: MarkedAt(l.gate, o, t) <==> t < now + c.retryDelay)
                  && (forall x :: x != o ==> (x in l.gate.capped <==> x in g.capped)))
  {
    ForgetsOne(m, job);
    hide ForgetJob, Recorded, InFlight;
  }

  lemma ForgetsOne(m: Memo, job: string)
    ensures job !in ForgetJob(m, job).byJob
    ensures forall j :: j != job ==> (j in ForgetJob(m, job).byJob <==> j in m.byJob)
  {
    hide Without;
  }

  // ---- Why an organization is marked ----

  /** The event finds the gate full for this organization. */
  ghost predicate Refuses(y: System, owner: string -> string, e: Event, o: string) {
    && e.Resolved? && e.ok && e.a in y.attempts && y.attempts[e.a].Resolving?
    && owner(y.attempts[e.a].job) == o && !TryAcquire(y.gate, o).1
  }

  /** The event gives back a slot of this organization. */
  ghost predicate GivesBack(y: System, e: Event, o: string) {
    e.Done? && e.a in y.attempts && y.attempts[e.a].Running? && y.attempts[e.a].organization == o
  }

  lemma MarkStep(y: System, c: Settings, owner: string -> string, e: Event, o: string)
    requires CanHappen(y, e) && y.gate.maxPerOrg > 0
    ensures var z := Step(y, c, owner, e);
            o in z.gate.capped ==>
              || (Refuses(y, owner, e, o) && z.gate.capped[o] == e.now + c.retryDelay)
              || (o in y.gate.capped && z.gate.capped[o] == y.gate.capped[o] && !GivesBack(y, e, o))
  {
    hide Recorded, ForgetJob;
  }

  lemma {:induction false} RunsLast(s: System, c: Settings, owner: string -> string, es: seq<Event>)
    requires Runs(s, c, owner, es) && es != []
    ensures Runs(s, c, owner, es[..|es| - 1])
    ensures var y := After(s, c, owner, es[..|es| - 1]);
            CanHappen(y, es[|es| - 1]) && After(s, c, owner, es) == Step(y, c, owner, es[|es| - 1])
    decreases |es|
  {
    hide Step, CanHappen;
    if |es| == 1 {
      assert es[1..] == [];
    } else {
      RunsLast(Step(s, c, owner, es[0]), c, owner, es[1..]);
      assert es[1..][..|es| - 2] == es[..|es| - 1][1..];
    }
  }

  /** The state in front of event number `i` of a run. */
  ghost function Front(s: System, c: Settings, owner: string -> string, es: seq<Event>, i: nat): System
    requires i <= |es| && Runs(s, c, owner, es)
  {
    RunsPrefix(s, c, owner, es, i);
    After(s, c, owner, es[..i])
  }

  lemma {:induction false} RunsPrefix(s: System, c: Settings, owner: string -> string, es: seq<Event>, i: nat)
    requires i <= |es| && Runs(s, c, owner, es)
    ensures Runs(s, c, owner, es[..i])
    decreases |es|
  {
    if i < |es| {
      RunsLast(s, c, owner, es);
      RunsPrefix(s, c, owner, es[..|es| - 1], i);
      assert es[..|es| - 1][..i] == es[..i];
    } else {
      assert es[..i] == es;
    }
  }

  /** The organization was refused at event `i`, and no slot of it has been given back since. */
  ghost predicate RefusedAt(s: System, c: Settings, owner: string -> string, es: seq<Event>, i: nat, o: string)
    requires Runs(s, c, owner, es)
  {
    && i < |es| && Refuses(Front(s, c, owner, es, i), owner, es[i], o)
    && forall j :: i < j < |es| ==> !GivesBack(Front(s, c, owner, es, j), es[j], o)
  }

  lemma FrontOfInit(s: System, c: Settings, owner: string -> string, es: seq<Event>, i: nat)
    requires Runs(s, c, owner, es) && i < |es|
    ensures Runs(s, c, owner, es[..|es| - 1])
    ensures Front(s, c, owner, es[..|es| - 1], i) == Front(s, c, owner, es, i)
  {
    RunsLast(s, c, owner, es);
    assert es[..|es| - 1][..i] == es[..i];
  }

  lemma RefusedStays(s: System, c: Settings, owner: string -> string, es: seq<Event>, i: nat, o: string)
    requires Runs(s, c, owner, es) && es != [] && Runs(s, c, owner, es[..|es| - 1])
    requires RefusedAt(s, c, owner, es[..|es| - 1], i, o)
    requires !GivesBack(Front(s, c, owner, es, |es| - 1), es[|es| - 1], o)
    ensures RefusedAt(s, c, owner, es, i, o)
  {
    var init := es[..|es| - 1];
    hide Front, Refuses, GivesBack;
    FrontOfInit(s, c, owner, es, i);
    forall j | i < j < |es| ensures !GivesBack(Front(s, c, owner, es, j), es[j], o) {
      if j < |es| - 1 {
        FrontOfInit(s, c, owner, es, j);
        assert !GivesBack(Front(s, c, owner, init, j), init[j], o);
      }
    }
  }

  /** In every run a mark stems from a refusal since which no slot was given back, and expires a retry delay later. */
  lemma {:induction false} MarkHasCause(
    s: System, c: Settings, owner: string -> string, es: seq<Event>, o: string) returns (i: nat)
    requires Runs(s, c, owner, es) && s.gate.maxPerOrg > 0 && s.gate.capped == map[]
    requires o in After(s, c, owner, es).gate.capped
    ensures RefusedAt(s, c, owner, es, i, o)
    ensures After(s, c, owner, es).gate.capped[o] == es[i].now + c.retryDelay
    decreases |es|
  {
    var init, e := es[..|es| - 1], es[|es| - 1];
    RunsLast(s, c, owner, es);
    CapConstant(s, c, owner, init);
    var y := After(s, c, owner, init);
    MarkStep(y, c, owner, e, o);
    assert Front(s, c, owner, es, |es| - 1) == y;
    hide Step, Refuses, GivesBack, Front;
    if Refuses(y, owner, e, o) && After(s, c, owner, es).gate.capped[o] == e.now + c.retryDelay {
      i := |es| - 1;
    } else {
      i := MarkHasCause(s, c, owner, init, o);
      RefusedStays(s, c, owner, es, i, o);
    }
  }

  /**
   A job deferred without loading its owner: less than a retry delay earlier a job of the same organization found every
   slot taken, and no slot of it has been given back since.
   */
  lemma CachedDeferralHasCause(
    cap: int, processors: set<nat>, c: Settings, owner: string -> string, es: seq<Event>, a: nat, p: nat, job: string,
    now: int)
    returns (i: nat)
    requires cap > 0 && Runs(Start(cap, processors), c, owner, es)
    requires CanHappen(After(Start(cap, processors), c, owner, es), Arrive(a, p, job, now))
    requires var z := After(Start(cap, processors), c, owner, es);
             Entering(z.gate, z.memos[p], c, job, now).outcome.Deferred?
    ensures RefusedAt(Start(cap, processors), c, owner, es, i, owner(job)) && now < es[i].now + c.retryDelay
  {
    var s := Start(cap, processors);
    var z := After(s, c, owner, es);
    StartInv(cap, processors, owner);
    InvRun(s, c, owner, es);
    ArrivalExactly(z.gate, z.memos[p], c, job, now);
    assert MemoTrue(z.memos[p], owner);
    hide Entering, Runs, After;
    i := MarkHasCause(s, c, owner, es, owner(job));
  }

  // ---- The memo of a processor ----

  function SettingOf(c: Settings, owner: string -> string): JobMemoRuns.Setting {
    JobMemoRuns.Setting(c.maxOrganizations, c.maxJobs, owner)
  }

  lemma EnteringMemo(g: Gate, m: Memo, c: Settings, owner: string -> string, job: string, now: int)
    requires MemoTrue(m, owner)
    ensures var l := Entering(g, m, c, job, now);
            l.memo == if l.outcome.Deferred? then Recorded(m, job, owner(job), c.maxOrganizations, c.maxJobs) else m
  {
    hide Recorded, Inverse;
  }

  lemma DecidingMemo(g: Gate, m: Memo, c: Settings, job: string, o: string, now: int)
    ensures var l := Deciding(g, m, c, job, o, now);
            l.memo == if l.outcome.Admitted? then ForgetJob(m, job)
                      else Recorded(m, job, o, c.maxOrganizations, c.maxJobs)
  {
    hide Recorded, ForgetJob;
  }

  /** What one event does to the memo of one processor: nothing, a deferral, or that a job is forgotten. */
  lemma MemoStep(y: System, c: Settings, owner: string -> string, e: Event, p: nat)
    returns (ms: seq<JobMemoRuns.Event>)
    requires CanHappen(y, e) && MemosTrue(y, owner) && p in y.memos
    ensures p in Step(y, c, owner, e).memos && |ms| <= 1
    ensures Step(y, c, owner, e).memos[p]
            == if ms == [] then y.memos[p] else JobMemoRuns.Step(y.memos[p], SettingOf(c, owner), ms[0])
  {
    var m := y.memos[p];
    assert MemoTrue(m, owner);
    ms := [];
    hide Recorded, ForgetJob, Entering, Deciding, MemosTrue, MemoTrue;
    match e
    case Arrive(a, q, job, now) =>
      if q == p {
        EnteringMemo(y.gate, m, c, owner, job, now);
        if Entering(y.gate, m, c, job, now).outcome.Deferred? { ms := [JobMemoRuns.Deferral(job)]; }
      }
    case Resolved(a, ok, now) =>
      var job := y.attempts[a].job;
      if y.attempts[a].p == p && ok {
        DecidingMemo(y.gate, m, c, job, owner(job), now);
        var l := Deciding(y.gate, m, c, job, owner(job), now);
        ms := [if l.outcome.Admitted? then JobMemoRuns.Forgetting(job) else JobMemoRuns.Deferral(job)];
      }
    case Done(a) =>
  }

  lemma MemoRunMore(setting: JobMemoRuns.Setting, ms: seq<JobMemoRuns.Event>, more: seq<JobMemoRuns.Event>)
    requires |more| <= 1
    ensures JobMemoRuns.After(setting, ms + more)
            == if more == [] then JobMemoRuns.After(setting, ms)
               else JobMemoRuns.Step(JobMemoRuns.After(setting, ms), setting, more[0])
  {
    if more == [] {
      assert ms + more == ms;
    } else {
      assert more == [more[0]] && (ms + more)[..|ms|] == ms;
    }
  }

  lemma MemosStayTrue(cap: int, processors: set<nat>, c: Settings, owner: string -> string, es: seq<Event>)
    requires cap > 0 && Runs(Start(cap, processors), c, owner, es)
    ensures MemosTrue(After(Start(cap, processors), c, owner, es), owner)
  {
    StartInv(cap, processors, owner);
    InvRun(Start(cap, processors), c, owner, es);
  }

  /** At every point of every run the memo of a processor is what some run of deferrals and forgettings leaves. */
  lemma {:induction false} MemoIsARun(
    cap: int, processors: set<nat>, c: Settings, owner: string -> string, es: seq<Event>, p: nat)
    returns (ms: seq<JobMemoRuns.Event>)
    requires cap > 0 && Runs(Start(cap, processors), c, owner, es) && p in processors
    ensures p in After(Start(cap, processors), c, owner, es).memos
    ensures After(Start(cap, processors), c, owner, es).memos[p] == JobMemoRuns.After(SettingOf(c, owner), ms)
    decreases |es|
  {
    var s := Start(cap, processors);
    if es == [] {
      ms := [];
    } else {
      var init, e := es[..|es| - 1], es[|es| - 1];
      hide *;
      RunsLast(s, c, owner, es);
      ms := MemoIsARun(cap, processors, c, owner, init, p);
      MemosStayTrue(cap, processors, c, owner, init);
      var more := MemoStep(After(s, c, owner, init), c, owner, e, p);
      MemoRunMore(SettingOf(c, owner), ms, more);
      ms := ms + more;
    }
  }

  /** So the organizations in it stand in the order of their last deferrals. */
  lemma MemoStandsInOrder(
    cap: int, processors: set<nat>, c: Settings, owner: string -> string, es: seq<Event>, p: nat)
    returns (ms: seq<JobMemoRuns.Event>)
    requires cap > 0 && Runs(Start(cap, processors), c, owner, es) && p in processors
    ensures var z := After(Start(cap, processors), c, owner, es);
            && p in z.memos && z.memos[p] == JobMemoRuns.After(SettingOf(c, owner), ms)
            && JobMemoRuns.ByLastDeferral(SettingOf(c, owner), ms, z.memos[p].order)
  {
    hide *;
    ms := MemoIsARun(cap, processors, c, owner, es, p);
    JobMemoRuns.OrderIsByLastDeferral(SettingOf(c, owner), ms);
  }
}
