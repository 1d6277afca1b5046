/** What becomes of one rotation: when `authenticate()` starts one, that none is dropped, and where it ends up. */
module BridgeRotations {
  import opened Arithmetic
  import opened Wrappers
  import opened BridgeSegments
  import opened BridgeRuns

  // ---- Which calls start a rotation ----

  /** The mounted session was last pointed at this text. */
  predicate RunsOn(s: System, text: string) {
    s.f.client.Some? && s.f.client.value in s.credential && s.credential[s.f.client.value].text == text
  }

  /**
   A call goes on to its preflight exactly when an agent was found and the mounted session does not already run on
   that text; it is then the newest, under a generation that no token had. Any other call changes nothing.
   */
  lemma AuthenticateStartsExactly(s: System, t: CallId, text: string)
    requires CredentialMatches(s) && Enabled(s, AuthenticateCalled(t, text))
    ensures var z := Step(s, AuthenticateCalled(t, text));
            && (z.calls[t].Preflighting? <==> s.f.agentDetected && !RunsOn(s, text))
            && (z.calls[t].Preflighting? ==>
                  && Current(z, t) && z.calls[t].token == Token(text, s.f.authGeneration + 1)
                  && z.f == s.f.(authGeneration := s.f.authGeneration + 1))
            && (!z.calls[t].Preflighting? ==> z.calls[t].Finished? && z.f == s.f)
  {
  }

  // ---- An accepted token is kept ----

  /** The call that moves installs nothing, or the token it carries. */
  ghost predicate InstallsToken(s: System, s': System, t: CallId) {
    || s'.f.authenticated == s.f.authenticated
    || s'.f.authenticated.None?
    || (Carries(s, t) && s'.f.authenticated == Some(s.calls[t].token))
  }

  lemma SwapInstallsStep(s: System, e: Event)
    requires Enabled(s, e) && SwapEvent(e)
    ensures InstallsToken(s, Step(s, e), e.t)
  {
  }

  lemma CallInstallsStep(s: System, e: Event)
    requires Enabled(s, e) && !SwapEvent(e) && !e.StopCalled?
    ensures InstallsToken(s, Step(s, e), e.t)
  {
  }

  predicate Agrees(o: Option<Token>, token: Token) {
    o.Some? && o.value.generation == token.generation ==> o.value == token
  }

  /** Every token of this generation that is installed, queued or with a call is this token. */
  ghost predicate KnownAs(s: System, token: Token) {
    && token.generation <= s.f.authGeneration
    && Agrees(s.f.authenticated, token) && Agrees(s.f.pending, token)
    && (forall t :: Carries(s, t) && Gen(s, t) == token.generation ==> s.calls[t].token == token)
  }

  lemma KnownAsMove(s: System, s': System, t: CallId, p: Phase, token: Token)
    requires KnownAs(s, token) && Moves(s, s', t, p) && s.f.authGeneration <= s'.f.authGeneration
    requires TakesToken(s, s', t, p) && GivesToken(s, s', t, p) && InstallsToken(s, s', t)
    ensures KnownAs(s', token)
  {
    OtherCarries(s, s', t, p);
    hide Moves;
  }

  lemma KnownAsStep(s: System, e: Event, token: Token)
    requires KnownAs(s, token) && RetiredGone(s) && Enabled(s, e) && !e.StopCalled?
    ensures KnownAs(Step(s, e), token)
  {
    MoveStep(s, e);
    if SwapEvent(e) {
      SwapTakesStep(s, e);
      SwapGivesStep(s, e);
      SwapInstallsStep(s, e);
    } else {
      CallTakesStep(s, e);
      CallGivesStep(s, e);
      CallInstallsStep(s, e);
    }
    hide Step, Enabled, Moves, TakesToken, GivesToken, InstallsToken, KnownAs, RetiredGone;
    KnownAsMove(s, Step(s, e), e.t, Step(s, e).calls[e.t], token);
  }

  lemma {:induction false} KnownAsRun(s: System, es: seq<Event>, token: Token)
    requires Inv(s) && KnownAs(s, token) && Runs(s, es) && NoStop(es)
    ensures Inv(After(s, es)) && KnownAs(After(s, es), token)
    ensures Best(s) <= Best(After(s, es))
    decreases |es|
  {
    hide Step, KnownAs, AlwaysInv, Ordered, Newest, Best, Enabled;
    if es != [] {
      assert RetiredGone(s);
      hide OneSwap, RetiredGone;
      assert !es[0].StopCalled?;
      KnownAsStep(s, es[0], token);
      InvStep(s, es[0]);
      assert Best(s) <= Best(Step(s, es[0]));
      KnownAsRun(Step(s, es[0]), es[1..], token);
    }
  }

  ghost predicate InstalledOrQueued(s: System, token: Token) {
    s.f.authenticated == Some(token) || s.f.pending == Some(token)
  }

  /** While no newer `authenticate()` begins and no swap is running, the newest accepted token is in place or queued. */
  lemma AcceptedIsKept(s: System, es: seq<Event>, token: Token)
    requires Inv(s) && KnownAs(s, token) && Best(s) == s.f.authGeneration == token.generation > 0
    requires Runs(s, es) && NoStop(es) && After(s, es).f.authGeneration == token.generation
    ensures After(s, es).f.pendingSwap.None? ==> InstalledOrQueued(After(s, es), token)
  {
    KnownAsRun(s, es, token);
  }

  /** A call with a token is an `authenticate()` call, or runs the swap and has a token no newer than the best. */
  lemma CarriesOr(s: System, u: CallId)
    requires OneSwap(s) && Newest(s)
    ensures Carries(s, u) ==>
              || (s.calls[u].Authenticating() && (Gen(s, u) == s.f.authGeneration ==> Current(s, u)))
              || Gen(s, u) <= Best(s)
  {
    assert Carries(s, u) && s.calls[u].HoldsToken() ==> Held(s) == Some(s.calls[u].token);
  }

  lemma CurrentIsKnown(s: System, t: CallId)
    requires Inv(s) && Current(s, t)
    ensures KnownAs(s, s.calls[t].token)
  {
    forall u ensures Carries(s, u) ==> Gen(s, u) != s.f.authGeneration || Current(s, u) {
      CarriesOr(s, u);
    }
    hide AlwaysInv, OneSwap;
  }

  lemma QueuesTheNewest(s: System, t: CallId)
    requires Ordered(s) && Newest(s) && Enabled(s, PreflightDone(t, true)) && Current(s, t) && s.f.client.Some?
    ensures Best(Step(s, PreflightDone(t, true))) == s.f.authGeneration > 0
  {
  }

  /**
   A rotation accepted while a session is mounted is never dropped, whatever swap was running at that moment: until
   a newer `authenticate()` begins, and whenever no swap is running, it is installed or queued.
   */
  lemma AcceptedRotationIsKept(s: System, t: CallId, es: seq<Event>)
    requires Inv(s) && Enabled(s, PreflightDone(t, true)) && Current(s, t) && s.f.client.Some?
    requires Runs(Step(s, PreflightDone(t, true)), es) && NoStop(es)
    ensures Best(Step(s, PreflightDone(t, true))) == s.f.authGeneration
    ensures var z := After(Step(s, PreflightDone(t, true)), es);
            z.f.authGeneration == s.f.authGeneration && z.f.pendingSwap.None? ==>
              InstalledOrQueued(z, s.calls[t].token)
  {
    var e := PreflightDone(t, true);
    var token := s.calls[t].token;
    assert RetiredGone(s);
    CurrentIsKnown(s, t);
    QueuesTheNewest(s, t);
    InvStep(s, e);
    KnownAsStep(s, e, token);
    assert Step(s, e).f.authGeneration == s.f.authGeneration == token.generation;
    hide Step, KnownAs, Inv, Best, RetiredGone;
    if After(Step(s, e), es).f.authGeneration == token.generation { AcceptedIsKept(Step(s, e), es, token); }
  }

  /** The first token is installed by the call that brought it, and kept in the same sense. */
  lemma FirstTokenIsKept(s: System, t: CallId, es: seq<Event>)
    requires Inv(s) && Enabled(s, OpenDone(t, true)) && Current(s, t)
    requires Runs(Step(s, OpenDone(t, true)), es) && NoStop(es)
    ensures var y := Step(s, OpenDone(t, true));
            y.f.authenticated == Some(s.calls[t].token) && y.f.client == Some(s.calls[t].next)
    ensures var z := After(Step(s, OpenDone(t, true)), es);
            z.f.authGeneration == s.f.authGeneration && z.f.pendingSwap.None? ==>
              InstalledOrQueued(z, s.calls[t].token)
  {
    var e := OpenDone(t, true);
    var token := s.calls[t].token;
    assert RetiredGone(s);
    CurrentIsKnown(s, t);
    InvStep(s, e);
    KnownAsStep(s, e, token);
    var y := Step(s, e);
    assert y.f.authGeneration == s.f.authGeneration == token.generation && y.f.authenticated == Some(token);
    assert Best(y) == token.generation > 0 by { assert GenOf(y.f.authenticated) <= Best(y) <= y.f.authGeneration; }
    hide Step, KnownAs, Inv, Best, RetiredGone;
    if After(y, es).f.authGeneration == token.generation { AcceptedIsKept(y, es, token); }
  }

  // ---- A replacement that nothing superseded ----

  /** Once the call is past its replacement it never begins another one. */
  ghost predicate StillReplacing(s: System, t: CallId, p: Phase) {
    t in s.calls && (s.calls[t].Replacing? ==> s.calls[t] == p) && !s.calls[t].Preflighting?
  }

  lemma StillReplacingStep(s: System, e: Event, t: CallId, p: Phase)
    requires StillReplacing(s, t, p) && Enabled(s, e)
    ensures StillReplacing(Step(s, e), t, p)
  {
  }

  lemma {:induction false} StillReplacingRun(s: System, es: seq<Event>, t: CallId, p: Phase)
    requires StillReplacing(s, t, p) && Runs(s, es)
    ensures StillReplacing(After(s, es), t, p)
    decreases |es|
  {
    if es != [] {
      StillReplacingStep(s, es[0], t, p);
      StillReplacingRun(Step(s, es[0]), es[1..], t, p);
    }
  }

  /**
   A swap that starts a new session mounts it, on the token it took from the queue, exactly when no newer
   `authenticate()` began in the meantime.
   */
  lemma ReplacementMountsExactly(s: System, t: CallId, es: seq<Event>)
    requires Enabled(s, AskCalled(t, false)) && Step(s, AskCalled(t, false)).calls[t].Replacing?
    requires Runs(Step(s, AskCalled(t, false)), es)
    requires Enabled(After(Step(s, AskCalled(t, false)), es), ReplaceDone(t, true))
    ensures var y := After(Step(s, AskCalled(t, false)), es);
            var z := Step(y, ReplaceDone(t, true));
            && (y.f.authGeneration == s.f.authGeneration ==>
                  z.f.client == Some(s.clients) && z.f.authenticated == s.f.pending
                  && z.f.pending == y.f.pending
                  && s.clients in z.credential && s.f.pending == Some(z.credential[s.clients]))
            && (y.f.authGeneration != s.f.authGeneration ==> z.f == y.f)
  {
    var x := Step(s, AskCalled(t, false));
    StillReplacingRun(x, es, t, x.calls[t]);
    hide Runs, After;
  }

  // ---- One rotation from beginning to end ----

  /** Nothing is under way. */
  ghost predicate Quiet(s: System) {
    s.busy == {} && forall u :: u in s.calls ==> s.calls[u].Finished?
  }

  function Rotation(t: CallId, text: string, u: CallId, canReconnect: bool): seq<Event> {
    [AuthenticateCalled(t, text), PreflightDone(t, true), AskCalled(u, canReconnect)]
  }

  /** A rotation that is queued and taken by the next ask, on a bridge where nothing else is under way. */
  lemma RotationIsTaken(s: System, t: CallId, text: string, u: CallId, canReconnect: bool)
    requires Quiet(s) && OneSwap(s) && t !in s.calls && u !in s.calls && t != u
    requires s.f.agentDetected && s.f.client.Some? && s.f.authenticated.Some? && s.f.authenticated.value.text != text
    ensures Runs(s, Rotation(t, text, u, canReconnect))
    ensures var g := s.f.authGeneration + 1;
            var c := s.f.client.value;
            After(s, Rotation(t, text, u, canReconnect))
            == s.(f := s.f.(authGeneration := g, pending := None, pendingSwap := Some(u)),
                  calls := s.calls[t := Finished]
                    [u := if canReconnect then Reconnecting(Token(text, g), c)
                          else Replacing(Token(text, g), c, g, s.clients)],
                  clients := s.clients + if canReconnect then 0 else 1)
  {
    var a, b, c := AuthenticateCalled(t, text), PreflightDone(t, true), AskCalled(u, canReconnect);
    assert s.f.pendingSwap.None?;
    var s1 := Step(s, a);
    assert s1.calls[t] == Preflighting(Token(text, s.f.authGeneration + 1));
    var s2 := Step(s1, b);
    assert s2.calls == s.calls[t := Finished];
    RunsThree(s, a, b, c);
  }

  /** The ask that rotates in place prompts the same session, which by then holds the new token. */
  lemma ReconnectedAskPrompts(s: System, t: CallId, text: string, u: CallId)
    requires Quiet(s) && OneSwap(s) && t !in s.calls && u !in s.calls && t != u
    requires s.f.agentDetected && s.f.client.Some? && s.f.authenticated.Some? && s.f.authenticated.value.text != text
    ensures var es := Rotation(t, text, u, true) + [ReconnectDone(u, true), OwnerResumes(u), AskResumes(u)];
            && Runs(s, es)
            && var z := After(s, es);
               var c := s.f.client.value;
               && z.f.client == Some(c) && u in z.calls && z.calls[u] == Prompting(c)
               && c in z.credential && z.credential[c] == Token(text, s.f.authGeneration + 1)
               && z.f.pending.None? && z.f.pendingSwap.None?
  {
    RotationIsTaken(s, t, text, u, true);
    var y := After(s, Rotation(t, text, u, true));
    hide Runs, After;
    RunsThree(y, ReconnectDone(u, true), OwnerResumes(u), AskResumes(u));
    RunsConcat(s, Rotation(t, text, u, true), [ReconnectDone(u, true), OwnerResumes(u), AskResumes(u)]);
  }

  /** The ask that has to replace the session prompts the new one, and the old one is stopped. */
  lemma ReplacedAskPrompts(s: System, t: CallId, text: string, u: CallId)
    requires Quiet(s) && OneSwap(s) && ClientsBelow(s) && t !in s.calls && u !in s.calls && t != u
    requires s.f.agentDetected && s.f.client.Some? && s.f.authenticated.Some? && s.f.authenticated.value.text != text
    ensures var es := Rotation(t, text, u, false) + [ReplaceDone(u, true), RetireDone(u, true), OwnerResumes(u)]
                      + [AskResumes(u)];
            && Runs(s, es)
            && var z := After(s, es);
               var c := s.clients;
               && z.f.client == Some(c) && u in z.calls && z.calls[u] == Prompting(c)
               && c in z.credential && z.credential[c] == Token(text, s.f.authGeneration + 1)
               && c in z.live && s.f.client.value !in z.live
  {
    RotationIsTaken(s, t, text, u, false);
    var y := After(s, Rotation(t, text, u, false));
    var swap := [ReplaceDone(u, true), RetireDone(u, true), OwnerResumes(u)];
    hide Runs, After;
    RunsThree(y, ReplaceDone(u, true), RetireDone(u, true), OwnerResumes(u));
    var x := Step(Step(Step(y, ReplaceDone(u, true)), RetireDone(u, true)), OwnerResumes(u));
    RunsConcat(s, Rotation(t, text, u, false), swap);
    RunsOne(x, AskResumes(u));
    RunsConcat(s, Rotation(t, text, u, false) + swap, [AskResumes(u)]);
  }

  /** When the swap fails, its ask does not prompt and the token is queued again. */
  lemma FailedSwapIsRequeued(s: System, t: CallId, text: string, u: CallId, canReconnect: bool)
    requires Quiet(s) && OneSwap(s) && t !in s.calls && u !in s.calls && t != u
    requires s.f.agentDetected && s.f.client.Some? && s.f.authenticated.Some? && s.f.authenticated.value.text != text
    ensures var failure := if canReconnect then ReconnectDone(u, false) else ReplaceDone(u, false);
            var es := Rotation(t, text, u, canReconnect) + [failure, OwnerResumes(u), AskResumes(u)];
            && Runs(s, es)
            && var z := After(s, es);
               && z.f.client == s.f.client && z.f.authenticated == s.f.authenticated && Quiet(z)
               && z.f.pending == Some(Token(text, s.f.authGeneration + 1)) && z.f.pendingSwap.None?
  {
    RotationIsTaken(s, t, text, u, canReconnect);
    var failure := if canReconnect then ReconnectDone(u, false) else ReplaceDone(u, false);
    var y := After(s, Rotation(t, text, u, canReconnect));
    hide Runs, After;
    RunsThree(y, failure, OwnerResumes(u), AskResumes(u));
    RunsConcat(s, Rotation(t, text, u, canReconnect), [failure, OwnerResumes(u), AskResumes(u)]);
  }

  /** While a turn streams and no swap is running, another ask is answered at once and leaves the queue alone. */
  lemma BusyAskIsAnswered(s: System, t: CallId, canReconnect: bool)
    requires Enabled(s, AskCalled(t, canReconnect)) && s.f.pendingSwap.None?
    requires s.f.client.Some? && s.f.client.value in s.busy
    ensures Runs(s, [AskCalled(t, canReconnect)] + [AskResumes(t)])
    ensures var z := After(s, [AskCalled(t, canReconnect)] + [AskResumes(t)]);
            z.f == s.f && t in z.calls && z.calls[t] == Prompting(s.f.client.value)
  {
    var a, b := AskCalled(t, canReconnect), AskResumes(t);
    RunsOne(s, a);
    RunsOne(Step(s, a), b);
    RunsConcat(s, [a], [b]);
  }

  // ---- What `stop()` forgets ----

  /** No call, queue or session has a token of this generation, and none will be made. */
  ghost predicate Absent(s: System, g: nat) {
    && g <= s.f.authGeneration
    && (forall t :: Carries(s, t) ==> Gen(s, t) != g)
    && (s.f.pending.Some? ==> s.f.pending.value.generation != g)
    && (s.f.authenticated.Some? ==> s.f.authenticated.value.generation != g)
    && (forall c :: c in s.credential ==> s.credential[c].generation != g)
  }

  lemma AbsentMove(s: System, s': System, t: CallId, p: Phase, g: nat)
    requires Absent(s, g) && Moves(s, s', t, p) && s.f.authGeneration <= s'.f.authGeneration
    requires TakesToken(s, s', t, p) && GivesToken(s, s', t, p) && InstallsToken(s, s', t)
    ensures Absent(s', g)
  {
    OtherCarries(s, s', t, p);
    hide Moves;
  }

  lemma AbsentStop(s: System, g: nat)
    requires TokensApart(s) && s.f.pending.Some? && s.f.pending.value.generation == g
    ensures Absent(Step(s, StopCalled), g)
  {
    var z := Step(s, StopCalled);
    forall t ensures Carries(z, t) <==> Carries(s, t) {
    }
  }

  lemma AbsentAgain(s: System, g: nat)
    requires Absent(s, g)
    ensures Absent(Step(s, StopCalled), g)
  {
    forall t ensures Carries(Step(s, StopCalled), t) <==> Carries(s, t) {
    }
  }

  lemma AbsentStep(s: System, e: Event, g: nat)
    requires Absent(s, g) && RetiredGone(s) && Enabled(s, e)
    ensures Absent(Step(s, e), g)
  {
    if e.StopCalled? {
      AbsentAgain(s, g);
    } else {
      MoveStep(s, e);
      if SwapEvent(e) {
        SwapTakesStep(s, e);
        SwapGivesStep(s, e);
        SwapInstallsStep(s, e);
      } else {
        CallTakesStep(s, e);
        CallGivesStep(s, e);
        CallInstallsStep(s, e);
      }
      hide Step, Enabled, Moves, TakesToken, GivesToken, InstallsToken, Absent, RetiredGone;
      AbsentMove(s, Step(s, e), e.t, Step(s, e).calls[e.t], g);
    }
  }

  lemma {:induction false} AbsentRun(s: System, es: seq<Event>, g: nat)
    requires AlwaysInv(s) && RetiredGone(s) && Absent(s, g) && Runs(s, es)
    ensures Absent(After(s, es), g)
    decreases |es|
  {
    hide Absent, RetiredGone, ClientsApart, ClientsBelow, OneSession, PromisesSettleOnce, Step;
    if es != [] {
      AlwaysInvStep(s, es[0]);
      RetiredStep(s, es[0]);
      AbsentStep(s, es[0], g);
      AbsentRun(Step(s, es[0]), es[1..], g);
    }
  }

  lemma {:induction false} RetiredRun(s: System, es: seq<Event>)
    requires AlwaysInv(s) && RetiredGone(s) && Runs(s, es)
    ensures AlwaysInv(After(s, es)) && RetiredGone(After(s, es))
    decreases |es|
  {
    hide RetiredGone, ClientsApart, ClientsBelow, OneSession, PromisesSettleOnce, Step;
    if es != [] {
      AlwaysInvStep(s, es[0]);
      RetiredStep(s, es[0]);
      RetiredRun(Step(s, es[0]), es[1..]);
    }
  }

  /** A rotation that is queued when `stop()` is called is gone: whatever follows, nothing ever holds it again. */
  lemma QueuedTokenEndsWithStop(agent: bool, es: seq<Event>, more: seq<Event>)
    requires Runs(Start(agent), es) && After(Start(agent), es).f.pending.Some?
    requires Runs(Step(After(Start(agent), es), StopCalled), more)
    ensures Absent(After(Step(After(Start(agent), es), StopCalled), more),
                   After(Start(agent), es).f.pending.value.generation)
  {
    var s := Start(agent);
    assert AlwaysInv(s) && RetiredGone(s) && TokensApart(s);
    TokensStayApart(s, es);
    RetiredRun(s, es);
    var z := After(s, es);
    var g := z.f.pending.value.generation;
    hide TokensApart, AlwaysInv, RetiredGone, Absent, Runs, After;
    AbsentStop(z, g);
    AlwaysInvStep(z, StopCalled);
    RetiredStep(z, StopCalled);
    AbsentRun(Step(z, StopCalled), more, g);
  }
}
