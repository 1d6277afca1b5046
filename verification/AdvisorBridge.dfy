/**
 The token-rotation protocol of the advisor bridge.

 The fields of the bridge change only between two `await`s, so each stretch of code from one await to
 the next is one atomic segment. A segment is first a function on the record of fields (this module),
 class `AdvisorBridge` runs the same segment as assignments to its fields, and module `BridgeRuns`
 interleaves the segments of any number of concurrent calls.
 */
module BridgeSegments {
  import opened Wrappers

  type ClientId = nat
  type CallId = nat

  /** A credential, tagged with the generation of the `authenticate()` call that supplied it. */
  datatype Token = Token(text: string, generation: nat)

  datatype Fields = Fields(
    agentDetected: bool,
    client: Option<ClientId>,
    authenticated: Option<Token>,
    authGeneration: nat,
    pending: Option<Token>,
    pendingSwap: Option<CallId>)

  /** What a call does at its next await. */
  datatype AuthEntry = NoAgent | AlreadyInstalled | AwaitPreflight(token: Token)
  datatype AfterPreflight = Superseded | Queued | OpenFirst(generation: nat)
  datatype AfterStart = Discard | Mounted(previous: Option<ClientId>)
  datatype Flush =
    | NothingToDo
    | Join(swap: CallId)
    | Reconnect(token: Token, on: ClientId)
    | Replace(token: Token, on: ClientId, generation: nat)

  function AuthenticateEntry(f: Fields, text: string): (Fields, AuthEntry) {
    if !f.agentDetected then (f, NoAgent)
    else if f.client.Some? && f.authenticated.Some? && f.authenticated.value.text == text then (f, AlreadyInstalled)
    else
      var generation := f.authGeneration + 1;
      (f.(authGeneration := generation), AwaitPreflight(Token(text, generation)))
  }

  function PreflightPassed(f: Fields, token: Token): (Fields, AfterPreflight) {
    if token.generation != f.authGeneration then (f, Superseded)
    else if f.client.Some? then (f.(pending := Some(token)), Queued)
    else (f, OpenFirst(f.authGeneration))
  }

  function SessionStarted(f: Fields, token: Token, generation: nat, next: ClientId): (Fields, AfterStart) {
    if generation != f.authGeneration then (f, Discard)
    else (f.(client := Some(next), authenticated := Some(token)), Mounted(f.client))
  }

  function FlushEntry(f: Fields, me: CallId, clientBusy: bool, canReconnect: bool): (Fields, Flush) {
    if f.pendingSwap.Some? then (f, Join(f.pendingSwap.value))
    else if f.pending.None? || f.client.None? || clientBusy then (f, NothingToDo)
    else
      (f.(pending := None, pendingSwap := Some(me)),
       if canReconnect then Reconnect(f.pending.value, f.client.value)
       else Replace(f.pending.value, f.client.value, f.authGeneration))
  }

  function Restore(f: Fields, token: Token, on: ClientId): Fields {
    if f.pending.None? && f.client == Some(on) then f.(pending := Some(token)) else f
  }

  function Reconnected(f: Fields, token: Token): Fields {
    f.(authenticated := Some(token))
  }

  function SwapAwaited(f: Fields): Fields {
    f.(pendingSwap := None)
  }

  function Stopped(f: Fields): Fields {
    f.(client := None, authenticated := None, pending := None, pendingSwap := None)
  }

  /** The bridge object; each method is one segment and leaves the fields the segment function names. */
  class AdvisorBridge {
    var agentDetected: bool
    var client: Option<ClientId>
    var authenticatedToken: Option<Token>
    var authGeneration: nat
    var pendingToken: Option<Token>
    var pendingSwap: Option<CallId>

    ghost function View(): Fields
      reads this
    {
      Fields(agentDetected, client, authenticatedToken, authGeneration, pendingToken, pendingSwap)
    }

    constructor (agent: bool)
      ensures View() == Fields(agent, None, None, 0, None, None)
    {
      agentDetected := agent;
      client, authenticatedToken, authGeneration := None, None, 0;
      pendingToken, pendingSwap := None, None;
    }

    method EnterAuthenticate(text: string) returns (r: AuthEntry)
      modifies this
      ensures (View(), r) == AuthenticateEntry(old(View()), text)
    {
      if !agentDetected { return NoAgent; }
      if client.Some? && authenticatedToken.Some? && authenticatedToken.value.text == text { return AlreadyInstalled; }
      authGeneration := authGeneration + 1;
      r := AwaitPreflight(Token(text, authGeneration));
    }

    method ResumeAfterPreflight(token: Token) returns (r: AfterPreflight)
      modifies this
      ensures (View(), r) == PreflightPassed(old(View()), token)
    {
      if token.generation != authGeneration { return Superseded; }
      if client.Some? {
        pendingToken := Some(token);
        return Queued;
      }
      r := OpenFirst(authGeneration);
    }

    method ResumeAfterStart(token: Token, generation: nat, next: ClientId) returns (r: AfterStart)
      modifies this
      ensures (View(), r) == SessionStarted(old(View()), token, generation, next)
    {
      if generation != authGeneration { return Discard; }
      r := Mounted(client);
      client := Some(next);
      authenticatedToken := Some(token);
    }

    method FlushPendingToken(me: CallId, clientBusy: bool, canReconnect: bool) returns (r: Flush)
      modifies this
      ensures (View(), r) == FlushEntry(old(View()), me, clientBusy, canReconnect)
    {
      if pendingSwap.Some? { return Join(pendingSwap.value); }
      if pendingToken.None? || client.None? { return NothingToDo; }
      if clientBusy { return NothingToDo; }
      var token := pendingToken.value;
      pendingToken := None;
      pendingSwap := Some(me);
      r := if canReconnect then Reconnect(token, client.value) else Replace(token, client.value, authGeneration);
    }

    method RestorePending(token: Token, on: ClientId)
      modifies this
      ensures View() == Restore(old(View()), token, on)
    {
      if pendingToken.None? && client == Some(on) {
        pendingToken := Some(token);
      }
    }

    method ResumeAfterReconnect(token: Token, on: ClientId, ok: bool)
      modifies this
      ensures View() == if ok then Reconnected(old(View()), token) else Restore(old(View()), token, on)
    {
      if ok { authenticatedToken := Some(token); } else { RestorePending(token, on); }
    }

    method ClearSwap()
      modifies this
      ensures View() == SwapAwaited(old(View()))
    {
      pendingSwap := None;
    }

    method Stop() returns (mounted: Option<ClientId>)
      modifies this
      ensures View() == Stopped(old(View())) && mounted == old(View()).client
    {
      mounted := client;
      client, authenticatedToken := None, None;
      pendingToken, pendingSwap := None, None;
    }
  }
}

/** Every interleaving of `authenticate()`, `ask()` and `stop()` calls over one bridge. */
module BridgeRuns {
  import opened Arithmetic
  import opened Wrappers
  import opened BridgeSegments

  /** Where one call is suspended. */
  datatype Phase =
    | Preflighting(token: Token)
    | Opening(token: Token, generation: nat, next: ClientId)
    | Reconnecting(token: Token, on: ClientId)
    | Replacing(token: Token, on: ClientId, generation: nat, next: ClientId)
    | Discarding(token: Token, on: ClientId)
    | Retiring(token: Token, on: ClientId)
    | Settled(failed: bool)
    | Joined(swap: CallId)
    | Flushed(failed: bool)
    | Prompting(on: ClientId)
    | Finished
  {
    /** The swap has taken its token out of the queue and has neither installed nor restored it. */
    predicate HoldsToken() { Reconnecting? || Replacing? || Discarding? }

    /** `performSwap()` has not returned. */
    predicate Swapping() { HoldsToken() || Retiring? }

    predicate HasNext() { Opening? || Replacing? }

    predicate Authenticating() { Preflighting? || Opening? }
  }

  /**
   `live`: clients whose `start()` succeeded and whose `stop()` was not called; `busy`: clients with a
   turn's handlers installed; `credential`: the token each session's MCP server was last pointed at;
   `clients`: the next fresh client; `settled`: how each swap promise ended.
   */
  datatype System = System(
    f: Fields,
    calls: map<CallId, Phase>,
    settled: map<CallId, bool>,
    live: set<ClientId>,
    busy: set<ClientId>,
    credential: map<ClientId, Token>,
    clients: nat)

  datatype Event =
    | AuthenticateCalled(t: CallId, text: string)
    | PreflightDone(t: CallId, ok: bool)
    | OpenDone(t: CallId, ok: bool)
    | AskCalled(t: CallId, canReconnect: bool)
    | ReconnectDone(t: CallId, ok: bool)
    | ReplaceDone(t: CallId, ok: bool)
    | DiscardDone(t: CallId)
    | RetireDone(t: CallId, ok: bool)
    | OwnerResumes(t: CallId)
    | JoinerResumes(t: CallId)
    | AskResumes(t: CallId)
    | TurnEnds(t: CallId)
    | StopCalled

  function Start(agent: bool): System {
    System(Fields(agent, None, None, 0, None, None), map[], map[], {}, {}, map[], 0)
  }

  function AsSet(c: Option<ClientId>): set<ClientId> {
    if c.Some? then {c.value} else {}
  }

  predicate Enabled(s: System, e: Event) {
    match e
    case AuthenticateCalled(t, _) => t !in s.calls
    case AskCalled(t, _) => t !in s.calls
    case StopCalled => true
    case PreflightDone(t, _) => t in s.calls && s.calls[t].Preflighting?
    case OpenDone(t, _) => t in s.calls && s.calls[t].Opening?
    case ReconnectDone(t, _) => t in s.calls && s.calls[t].Reconnecting?
    case ReplaceDone(t, _) => t in s.calls && s.calls[t].Replacing?
    case DiscardDone(t) => t in s.calls && s.calls[t].Discarding?
    case RetireDone(t, _) => t in s.calls && s.calls[t].Retiring?
    case OwnerResumes(t) => t in s.calls && s.calls[t].Settled?
    case JoinerResumes(t) => t in s.calls && s.calls[t].Joined? && s.calls[t].swap in s.settled
    case AskResumes(t) => t in s.calls && s.calls[t].Flushed?
    case TurnEnds(t) => t in s.calls && s.calls[t].Prompting?
  }

  /** A new session was started for `p.next`: mount it and stop the one it replaces, or discard it. */
  function Mount(s: System, t: CallId, p: Phase, whenMounted: Phase, whenDiscarded: Phase): System
    requires p.HasNext()
  {
    var (f, r) := SessionStarted(s.f, p.token, p.generation, p.next);
    match r
    case Discard => s.(f := f, calls := s.calls[t := whenDiscarded])
    case Mounted(previous) =>
      s.(f := f, calls := s.calls[t := whenMounted],
         live := s.live - AsSet(previous) + {p.next}, busy := s.busy - AsSet(previous),
         credential := s.credential[p.next := p.token])
  }

  /** `performSwap()` returns: the swap promise settles. */
  function Settle(s: System, t: CallId, f: Fields, failed: bool): System {
    s.(f := f, calls := s.calls[t := Settled(failed)], settled := s.settled[t := failed])
  }

  function BeginAsk(s: System, t: CallId, canReconnect: bool): System {
    if s.f.client.None? then s.(calls := s.calls[t := Finished])
    else
      var (f, r) := FlushEntry(s.f, t, s.f.client.value in s.busy, canReconnect);
      match r
      case NothingToDo => s.(f := f, calls := s.calls[t := Flushed(false)])
      case Join(swap) => s.(f := f, calls := s.calls[t := Joined(swap)])
      case Reconnect(token, on) => s.(f := f, calls := s.calls[t := Reconnecting(token, on)])
      case Replace(token, on, generation) =>
        s.(f := f, calls := s.calls[t := Replacing(token, on, generation, s.clients)], clients := s.clients + 1)
  }

  function AfterPreflightDone(s: System, t: CallId, token: Token, ok: bool): System {
    if !ok then s.(calls := s.calls[t := Finished])
    else
      var (f, r) := PreflightPassed(s.f, token);
      match r
      case Superseded => s.(f := f, calls := s.calls[t := Finished])
      case Queued => s.(f := f, calls := s.calls[t := Finished])
      case OpenFirst(generation) =>
        s.(f := f, calls := s.calls[t := Opening(token, generation, s.clients)], clients := s.clients + 1)
  }

  function Step(s: System, e: Event): System
    requires Enabled(s, e)
  {
    match e
    case AuthenticateCalled(t, text) =>
      var (f, r) := AuthenticateEntry(s.f, text);
      s.(f := f, calls := s.calls[t := if r.AwaitPreflight? then Preflighting(r.token) else Finished])
    case PreflightDone(t, ok) => AfterPreflightDone(s, t, s.calls[t].token, ok)
    case OpenDone(t, ok) =>
      if ok then Mount(s, t, s.calls[t], Finished, Finished) else s.(calls := s.calls[t := Finished])
    case AskCalled(t, canReconnect) => BeginAsk(s, t, canReconnect)
    case ReconnectDone(t, ok) =>
      var p := s.calls[t];
      if ok then Settle(s, t, Reconnected(s.f, p.token), false).(credential := s.credential[p.on := p.token])
      else Settle(s, t, Restore(s.f, p.token, p.on), true)
    case ReplaceDone(t, ok) =>
      var p := s.calls[t];
      if ok then Mount(s, t, p, Retiring(p.token, p.on), Discarding(p.token, p.on))
      else Settle(s, t, Restore(s.f, p.token, p.on), true)
    case DiscardDone(t) => Settle(s, t, Restore(s.f, s.calls[t].token, s.calls[t].on), true)
    case RetireDone(t, ok) =>
      Settle(s, t, if ok then s.f else Restore(s.f, s.calls[t].token, s.calls[t].on), !ok)
    case OwnerResumes(t) => s.(f := SwapAwaited(s.f), calls := s.calls[t := Flushed(s.calls[t].failed)])
    case JoinerResumes(t) => s.(calls := s.calls[t := Flushed(s.settled[s.calls[t].swap])])
    case AskResumes(t) =>
      if s.calls[t].failed || s.f.client.None? then s.(calls := s.calls[t := Finished])
      else s.(calls := s.calls[t := Prompting(s.f.client.value)], busy := s.busy + {s.f.client.value})
    case TurnEnds(t) => s.(calls := s.calls[t := Finished], busy := s.busy - {s.calls[t].on})
    case StopCalled =>
      s.(f := Stopped(s.f), live := s.live - AsSet(s.f.client), busy := s.busy - AsSet(s.f.client))
  }

  /** The events of `performSwap()` and of the call that awaits it. */
  predicate SwapEvent(e: Event) {
    e.ReconnectDone? || e.ReplaceDone? || e.DiscardDone? || e.RetireDone? || e.OwnerResumes?
  }

  ghost predicate Runs(s: System, es: seq<Event>)
    decreases |es|
  {
    es == [] || (Enabled(s, es[0]) && Runs(Step(s, es[0]), es[1..]))
  }

  ghost function After(s: System, es: seq<Event>): System
    requires Runs(s, es)
    decreases |es|
  {
    if es == [] then s else After(Step(s, es[0]), es[1..])
  }

  ghost predicate NoStop(es: seq<Event>) {
    forall i :: 0 <= i < |es| ==> !es[i].StopCalled?
  }

  // ---- What holds in every run, `stop()` included ----

  /** A client identity is below the next fresh one, and a session being started is not the mounted one. */
  ghost predicate ClientsBelow(s: System) {
    && (s.f.client.Some? ==> s.f.client.value < s.clients)
    && (forall t :: t in s.calls && s.calls[t].HasNext() ==>
          s.calls[t].next < s.clients && s.f.client != Some(s.calls[t].next))
    && (forall t :: t in s.calls && s.calls[t].Swapping() ==> s.calls[t].on < s.clients)
  }

  /** Two calls never start the same client, and no swap works on a client that is still being started. */
  ghost predicate ClientsApart(s: System) {
    && (forall t, u :: t in s.calls && u in s.calls && s.calls[t].HasNext() && s.calls[u].HasNext() && t != u ==>
          s.calls[t].next != s.calls[u].next)
    && (forall t, u :: t in s.calls && u in s.calls && s.calls[t].Swapping() && s.calls[u].HasNext() ==>
          s.calls[t].on != s.calls[u].next)
  }

  ghost predicate ClientsFresh(s: System) {
    ClientsBelow(s) && ClientsApart(s)
  }

  /** The mounted client is the only started client that was not stopped. */
  ghost predicate OneSession(s: System) {
    s.live == AsSet(s.f.client)
  }

  /** A swap promise settles once. */
  ghost predicate PromisesSettleOnce(s: System) {
    && (forall t :: t in s.settled ==> t in s.calls && !s.calls[t].Swapping())
    && (forall t :: t in s.calls && s.calls[t].Joined? ==>
          s.calls[t].swap in s.calls && (s.calls[t].swap in s.settled || s.calls[s.calls[t].swap].Swapping()))
    && (s.f.pendingSwap.Some? ==>
          s.f.pendingSwap.value in s.calls
              && (s.calls[s.f.pendingSwap.value].Swapping() || s.f.pendingSwap.value in s.settled))
  }

  ghost predicate AlwaysInv(s: System) {
    ClientsFresh(s) && OneSession(s) && PromisesSettleOnce(s)
  }

  /** The effect of one event: at most one call moves, and every other phase is untouched. */
  ghost predicate Moves(s: System, s': System, t: CallId, p: Phase) {
    s'.calls == s.calls[t := p] && s.clients <= s'.clients
  }

  /** The client identities in the new phase of the call are fresh, or are those it already had. */
  ghost predicate FreshMove(s: System, s': System, t: CallId, p: Phase) {
    && Moves(s, s', t, p)
    && (p.HasNext() ==> p.next == s.clients < s'.clients)
    && (p.Swapping() ==> s.f.client == Some(p.on) || (t in s.calls && s.calls[t].Swapping() && s.calls[t].on == p.on))
    && (s'.f.client == s.f.client || (t in s.calls && s.calls[t].HasNext() && s'.f.client == Some(s.calls[t].next)))
  }

  lemma ClientsBelowMove(s: System, s': System, t: CallId, p: Phase)
    requires ClientsFresh(s) && FreshMove(s, s', t, p)
    ensures ClientsBelow(s')
  {
    forall u | u in s'.calls && s'.calls[u].HasNext()
      ensures s'.calls[u].next < s'.clients && s'.f.client != Some(s'.calls[u].next)
    {
      if u != t { assert s.calls[u] == s'.calls[u]; }
    }
  }

  lemma ClientsApartMove(s: System, s': System, t: CallId, p: Phase)
    requires ClientsFresh(s) && FreshMove(s, s', t, p)
    ensures ClientsApart(s')
  {
    forall u, v | u in s'.calls && v in s'.calls && s'.calls[u].HasNext() && s'.calls[v].HasNext() && u != v
      ensures s'.calls[u].next != s'.calls[v].next
    {
      if u != t { assert s.calls[u] == s'.calls[u]; }
      if v != t { assert s.calls[v] == s'.calls[v]; }
    }
    forall u, v | u in s'.calls && v in s'.calls && s'.calls[u].Swapping() && s'.calls[v].HasNext()
      ensures s'.calls[u].on != s'.calls[v].next
    {
      if u != t { assert s.calls[u] == s'.calls[u]; }
      if v != t { assert s.calls[v] == s'.calls[v]; }
    }
  }

  lemma MoveStep(s: System, e: Event)
    requires Enabled(s, e) && !e.StopCalled?
    ensures e.t in Step(s, e).calls && Moves(s, Step(s, e), e.t, Step(s, e).calls[e.t])
  {
  }

  lemma NextIsFresh(s: System, e: Event)
    requires Enabled(s, e) && !e.StopCalled? && e.t in Step(s, e).calls
    ensures
      var s' := Step(s, e);
      var p := s'.calls[e.t];
      && (p.HasNext() ==> p.next == s.clients < s'.clients)
      && (p.Swapping() ==>
          s.f.client == Some(p.on) || (e.t in s.calls && s.calls[e.t].Swapping() && s.calls[e.t].on == p.on))
  {
  }

  lemma FreshMoveStep(s: System, e: Event)
    requires Enabled(s, e) && !e.StopCalled?
    ensures e.t in Step(s, e).calls && FreshMove(s, Step(s, e), e.t, Step(s, e).calls[e.t])
  {
    MoveStep(s, e);
    NextIsFresh(s, e);
    assert Step(s, e).f.client == s.f.client
      || (e.t in s.calls && s.calls[e.t].HasNext() && Step(s, e).f.client == Some(s.calls[e.t].next));
  }

  lemma ClientsFreshStop(s: System)
    requires ClientsFresh(s)
    ensures ClientsFresh(Step(s, StopCalled))
  {
  }

  lemma ClientsFreshStep(s: System, e: Event)
    requires ClientsFresh(s) && Enabled(s, e)
    ensures ClientsFresh(Step(s, e))
  {
    if e.StopCalled? {
      ClientsFreshStop(s);
    } else {
      var s' := Step(s, e);
      FreshMoveStep(s, e);
      ClientsBelowMove(s, s', e.t, s'.calls[e.t]);
      ClientsApartMove(s, s', e.t, s'.calls[e.t]);
    }
  }

  lemma OneSessionStep(s: System, e: Event)
    requires ClientsFresh(s) && OneSession(s) && Enabled(s, e)
    ensures OneSession(Step(s, e))
  {
  }

  /** What the call that moves does to the swap promises. */
  ghost predicate PromiseMove(s: System, s': System, t: CallId, p: Phase) {
    && (t in s.settled ==> !p.Swapping())
    && (s'.settled == s.settled || (p.Settled? && s'.settled == s.settled[t := p.failed]))
    && (t in s.calls && s.calls[t].Swapping() ==> p.Swapping() || t in s'.settled)
    && (p.Joined? ==> s.f.pendingSwap == Some(p.swap))
    && (s'.f.pendingSwap == s.f.pendingSwap || s'.f.pendingSwap.None?
        || (p.Swapping() && s'.f.pendingSwap == Some(t)))
  }

  lemma PromisesMove(s: System, s': System, t: CallId, p: Phase)
    requires PromisesSettleOnce(s) && Moves(s, s', t, p) && PromiseMove(s, s', t, p)
    ensures PromisesSettleOnce(s')
  {
  }

  /** A call whose promise settled is in `calls`, and its swap is over. */
  ghost predicate SettledOver(s: System, t: CallId) {
    t in s.settled ==> t in s.calls && !s.calls[t].Swapping()
  }

  lemma SwapPromiseStep(s: System, e: Event)
    requires Enabled(s, e) && SwapEvent(e) && SettledOver(s, e.t)
    ensures PromiseMove(s, Step(s, e), e.t, Step(s, e).calls[e.t])
  {
  }

  lemma CallPromiseStep(s: System, e: Event)
    requires Enabled(s, e) && !SwapEvent(e) && !e.StopCalled? && SettledOver(s, e.t)
    ensures e.t in Step(s, e).calls && PromiseMove(s, Step(s, e), e.t, Step(s, e).calls[e.t])
  {
  }

  lemma PromisesStop(s: System)
    requires PromisesSettleOnce(s)
    ensures PromisesSettleOnce(Step(s, StopCalled))
  {
  }

  lemma PromisesStep(s: System, e: Event)
    requires PromisesSettleOnce(s) && Enabled(s, e)
    ensures PromisesSettleOnce(Step(s, e))
  {
    if e.StopCalled? {
      PromisesStop(s);
    } else {
      var s' := Step(s, e);
      MoveStep(s, e);
      assert SettledOver(s, e.t);
      if SwapEvent(e) { SwapPromiseStep(s, e); } else { CallPromiseStep(s, e); }
      hide Step, Enabled, Moves, PromiseMove, PromisesSettleOnce;
      PromisesMove(s, s', e.t, s'.calls[e.t]);
    }
  }

  lemma AlwaysInvStep(s: System, e: Event)
    requires AlwaysInv(s) && Enabled(s, e)
    ensures AlwaysInv(Step(s, e))
  {
    ClientsFreshStep(s, e);
    OneSessionStep(s, e);
    PromisesStep(s, e);
  }

  /** At every point of every run the mounted client is the only started client that was not stopped. */
  lemma {:induction false} SessionConservation(s: System, es: seq<Event>)
    requires AlwaysInv(s) && Runs(s, es)
    ensures AlwaysInv(After(s, es))
    ensures After(s, es).live == AsSet(After(s, es).f.client)
    decreases |es|
  {
    if es != [] {
      AlwaysInvStep(s, es[0]);
      SessionConservation(Step(s, es[0]), es[1..]);
    }
  }

  // ---- Superseded calls ----

  /** A newer `authenticate()` call began after the generation this call was started under. */
  ghost predicate Superseded(s: System, t: CallId) {
    && t in s.calls
    && (s.calls[t].Preflighting? ==> s.calls[t].token.generation < s.f.authGeneration)
    && (s.calls[t].HasNext() ==> s.calls[t].generation < s.f.authGeneration)
  }

  lemma SupersededStep(s: System, e: Event, t: CallId)
    requires Superseded(s, t) && Enabled(s, e)
    ensures Superseded(Step(s, e), t)
  {
  }

  /** Once superseded, a call neither installs nor queues its token, however the run continues. */
  lemma {:induction false} SupersededCallChangesNothing(s: System, es: seq<Event>, t: CallId, ok: bool)
    requires Superseded(s, t) && Runs(s, es)
    ensures var z := After(s, es);
            && (Enabled(z, PreflightDone(t, ok)) ==> Step(z, PreflightDone(t, ok)).f == z.f)
            && (Enabled(z, OpenDone(t, ok)) ==> Step(z, OpenDone(t, ok)).f == z.f)
            && (Enabled(z, ReplaceDone(t, true)) ==> Step(z, ReplaceDone(t, true)).f == z.f)
    decreases |es|
  {
    if es != [] {
      SupersededStep(s, es[0], t);
      SupersededCallChangesNothing(Step(s, es[0]), es[1..], t, ok);
    }
  }

  // ---- A swap that outlives stop() ----

  ghost predicate Outlived(s: System, t: CallId) {
    t in s.calls && (s.calls[t].Swapping() ==> s.f.client != Some(s.calls[t].on))
  }

  lemma OutlivedStop(s: System, t: CallId)
    requires Outlived(s, t)
    ensures Outlived(Step(s, StopCalled), t)
  {
  }

  lemma OutlivedStep(s: System, e: Event, t: CallId)
    requires ClientsApart(s) && Outlived(s, t) && Enabled(s, e)
    ensures Outlived(Step(s, e), t)
  {
    if e.StopCalled? {
      OutlivedStop(s, t);
    } else {
      FreshMoveStep(s, e);
      if e.t in s.calls && s.calls[e.t].HasNext() && s.calls[t].Swapping() {
        assert s.calls[t].on != s.calls[e.t].next;
      }
      hide Step, ClientsApart;
    }
  }

  /** How a running swap can fail. */
  predicate FailureOf(e: Event, t: CallId) {
    e == ReconnectDone(t, false) || e == ReplaceDone(t, false) || e == DiscardDone(t) || e == RetireDone(t, false)
  }

  /** A swap running when `stop()` is called never puts its token back, whatever session is mounted by then. */
  lemma {:induction false} StoppedSwapNeverRequeues(s: System, es: seq<Event>, t: CallId, e: Event)
    requires AlwaysInv(s) && t in s.calls && s.calls[t].Swapping()
    requires Runs(Step(s, StopCalled), es)
    requires FailureOf(e, t) && Enabled(After(Step(s, StopCalled), es), e)
    ensures var z := After(Step(s, StopCalled), es); Step(z, e).f == z.f
  {
    AlwaysInvStep(s, StopCalled);
    OutlivedForever(Step(s, StopCalled), es, t);
  }

  lemma {:induction false} OutlivedForever(s: System, es: seq<Event>, t: CallId)
    requires AlwaysInv(s) && Outlived(s, t) && Runs(s, es)
    ensures Outlived(After(s, es), t)
    decreases |es|
  {
    if es != [] {
      OutlivedStep(s, es[0], t);
      AlwaysInvStep(s, es[0]);
      OutlivedForever(Step(s, es[0]), es[1..], t);
    }
  }

  // ---- An ask that joins a swap ----

  /** `t` joined swap `w`, and went on to prompt only if `w` settled without failure. */
  ghost predicate Follows(s: System, t: CallId, w: CallId) {
    && t in s.calls
    && match s.calls[t] {
         case Joined(v) => v == w
         case Flushed(failed) => w in s.settled && s.settled[w] == failed
         case Prompting(_) => w in s.settled && !s.settled[w]
         case Finished => true
         case _ => false
       }
  }

  /** A promise that settled stays settled the way it did. */
  lemma SettledStays(s: System, e: Event, w: CallId)
    requires PromisesSettleOnce(s) && Enabled(s, e) && w in s.settled
    ensures w in Step(s, e).settled && Step(s, e).settled[w] == s.settled[w]
  {
    if SwapEvent(e) {
      SwapPromiseStep(s, e);
      hide Step, Enabled;
    } else if !e.StopCalled? {
      CallPromiseStep(s, e);
      hide Step, Enabled;
    }
  }

  lemma FollowerMoves(s: System, e: Event, w: CallId)
    requires !e.StopCalled? && Follows(s, e.t, w) && Enabled(s, e)
    requires w in s.settled ==> w in Step(s, e).settled && Step(s, e).settled[w] == s.settled[w]
    ensures Follows(Step(s, e), e.t, w)
  {
    assert !SwapEvent(e) || e.OwnerResumes?;
  }

  lemma FollowsStep(s: System, e: Event, t: CallId, w: CallId)
    requires PromisesSettleOnce(s) && Follows(s, t, w) && Enabled(s, e)
    ensures Follows(Step(s, e), t, w)
  {
    if w in s.settled { SettledStays(s, e, w); }
    if !e.StopCalled? && e.t == t {
      FollowerMoves(s, e, w);
    } else if !e.StopCalled? {
      MoveStep(s, e);
      hide Step;
    }
  }

  lemma {:induction false} JoinerPromptsOnlyAfterSuccess(s: System, es: seq<Event>, t: CallId, w: CallId)
    requires AlwaysInv(s) && Follows(s, t, w) && Runs(s, es)
    ensures Follows(After(s, es), t, w)
    ensures var z := After(s, es); z.calls[t].Prompting? ==> w in z.settled && !z.settled[w]
    decreases |es|
  {
    if es != [] {
      FollowsStep(s, es[0], t, w);
      AlwaysInvStep(s, es[0]);
      JoinerPromptsOnlyAfterSuccess(Step(s, es[0]), es[1..], t, w);
    }
  }

  // ---- Generations, in runs without stop() ----

  function GenOf(o: Option<Token>): nat {
    if o.Some? then o.value.generation else 0
  }

  /** The token the running swap took from the queue, if it holds one. */
  function Held(s: System): Option<Token> {
    if s.f.pendingSwap.Some? && s.f.pendingSwap.value in s.calls && s.calls[s.f.pendingSwap.value].HoldsToken()
    then Some(s.calls[s.f.pendingSwap.value].token) else None
  }

  /** The newest token installed, queued or being installed. */
  function Best(s: System): nat {
    Max(GenOf(s.f.authenticated), Max(GenOf(s.f.pending), GenOf(Held(s))))
  }

  /** There is one swap at a time, it is the one `pendingSwap` names, and its session is the mounted one. */
  ghost predicate OneSwap(s: System) {
    && (forall t :: t in s.calls && (s.calls[t].Swapping() || s.calls[t].Settled?) ==> s.f.pendingSwap == Some(t))
    && (forall t :: t in s.calls && s.calls[t].HoldsToken() ==> s.f.client == Some(s.calls[t].on))
    && (forall t :: t in s.calls && s.calls[t].Retiring? ==> s.f.client != Some(s.calls[t].on))
    && (s.f.pendingSwap.Some? ==> s.f.pendingSwap.value in s.calls &&
                                  (s.calls[s.f.pendingSwap.value].Swapping()
                                      || s.calls[s.f.pendingSwap.value].Settled?))
  }

  /** Installed, held and pending tokens are strictly ordered by generation. */
  ghost predicate Ordered(s: System) {
    && (s.f.client.Some? <==> s.f.authenticated.Some?)
    && (s.f.client.None? ==> s.f.pending.None? && s.f.pendingSwap.None?)
    && (Held(s).Some? ==> GenOf(s.f.authenticated) < Held(s).value.generation)
    && (s.f.pending.Some? ==> Best(s) == s.f.pending.value.generation && GenOf(s.f.authenticated) < Best(s))
    && (s.f.pending.Some? && Held(s).Some? ==> Held(s).value.generation < Best(s))
    && Best(s) <= s.f.authGeneration
  }

  ghost predicate Current(s: System, t: CallId) {
    t in s.calls && s.calls[t].Authenticating() && s.calls[t].token.generation == s.f.authGeneration
  }

  /** At most one `authenticate()` call is current, and nothing as new as its token is in place yet. */
  ghost predicate Newest(s: System) {
    && (forall t :: t in s.calls && s.calls[t].Authenticating() ==> s.calls[t].token.generation <= s.f.authGeneration)
    && (forall t :: t in s.calls && s.calls[t].Opening? ==> s.calls[t].generation == s.calls[t].token.generation)
    && (forall t, u :: Current(s, t) && Current(s, u) ==> t == u)
    && (forall t :: Current(s, t) ==> Best(s) < s.f.authGeneration)
    && (forall t :: Current(s, t) && s.calls[t].Opening? ==> s.f.client.None?)
  }

  ghost predicate Inv(s: System) {
    AlwaysInv(s) && OneSwap(s) && Ordered(s) && Newest(s)
  }

  lemma StartInv(agent: bool)
    ensures Inv(Start(agent))
  {
  }

  /** The call that moves is the running swap exactly when the event is one of a swap's. */
  lemma SwapEventOwner(s: System, e: Event)
    requires OneSwap(s) && Enabled(s, e) && !e.StopCalled? && !e.AskCalled?
    ensures SwapEvent(e) <==> s.f.pendingSwap == Some(e.t)
    ensures SwapEvent(e) && !e.OwnerResumes? ==> s.calls[e.t].Swapping()
  {
  }

  /** Only the current `authenticate()` call and the running swap ever change the mounted client. */
  lemma ClientMove(s: System, e: Event)
    requires Ordered(s) && Newest(s) && Enabled(s, e) && e.OpenDone?
    ensures Step(s, e).f.client == s.f.client || (Current(s, e.t) && s.f.client.None? && s.f.pendingSwap.None?)
  {
    assert s.calls[e.t].generation == s.f.authGeneration ==> Current(s, e.t);
  }

  /** Who the running swap is: an event starts it, ends it, or leaves it. */
  ghost predicate OwnerMove(s: System, s': System, t: CallId, p: Phase) {
    var owner := p.Swapping() || p.Settled?;
    || (s'.f.pendingSwap == s.f.pendingSwap && (owner <==> s.f.pendingSwap == Some(t)))
    || (s.f.pendingSwap.None? && s'.f.pendingSwap == Some(t) && owner)
    || (s.f.pendingSwap == Some(t) && s'.f.pendingSwap.None? && !owner)
  }

  /** Which session the running swap works on. */
  ghost predicate SessionMove(s: System, s': System, t: CallId, p: Phase) {
    && (p.HoldsToken() ==> s'.f.client == Some(p.on))
    && (p.Retiring? ==> s'.f.client != Some(p.on))
    && (s'.f.client == s.f.client || s.f.pendingSwap.None? || (s.f.pendingSwap == Some(t) && !p.HoldsToken()))
  }

  lemma OneSwapMove(s: System, s': System, t: CallId, p: Phase)
    requires OneSwap(s) && Moves(s, s', t, p) && OwnerMove(s, s', t, p) && SessionMove(s, s', t, p)
    ensures OneSwap(s')
  {
    forall u | u in s'.calls && u != t
      ensures s'.calls[u] == s.calls[u]
    {
    }
  }

  lemma OwnerStep(s: System, e: Event)
    requires OneSwap(s) && Enabled(s, e) && !e.StopCalled?
    ensures e.t in Step(s, e).calls && OwnerMove(s, Step(s, e), e.t, Step(s, e).calls[e.t])
  {
    if !e.AskCalled? { SwapEventOwner(s, e); }
    hide OneSwap;
  }

  lemma SwapSessionStep(s: System, e: Event)
    requires ClientsBelow(s) && OneSwap(s) && Enabled(s, e) && SwapEvent(e)
    ensures e.t in Step(s, e).calls && SessionMove(s, Step(s, e), e.t, Step(s, e).calls[e.t])
  {
    SwapEventOwner(s, e);
    assert s.calls[e.t].HoldsToken() ==> s.f.client == Some(s.calls[e.t].on);
    assert s.calls[e.t].Retiring? ==> s.f.client != Some(s.calls[e.t].on);
    assert s.calls[e.t].HasNext() ==> s.f.client != Some(s.calls[e.t].next);
    hide OneSwap, ClientsBelow;
  }

  lemma CallSessionStep(s: System, e: Event)
    requires Ordered(s) && Newest(s) && Enabled(s, e) && !SwapEvent(e) && !e.StopCalled?
    ensures e.t in Step(s, e).calls && SessionMove(s, Step(s, e), e.t, Step(s, e).calls[e.t])
  {
    if e.OpenDone? { ClientMove(s, e); }
    hide Ordered, Newest;
  }

  lemma SessionStep(s: System, e: Event)
    requires ClientsBelow(s) && OneSwap(s) && Ordered(s) && Newest(s) && Enabled(s, e) && !e.StopCalled?
    ensures e.t in Step(s, e).calls && SessionMove(s, Step(s, e), e.t, Step(s, e).calls[e.t])
  {
    hide *;
    if SwapEvent(e) { SwapSessionStep(s, e); } else { CallSessionStep(s, e); }
  }

  lemma OneSwapStep(s: System, e: Event)
    requires ClientsBelow(s) && OneSwap(s) && Ordered(s) && Newest(s) && Enabled(s, e) && !e.StopCalled?
    ensures OneSwap(Step(s, e))
  {
    OwnerStep(s, e);
    SessionStep(s, e);
    MoveStep(s, e);
    hide *;
    OneSwapMove(s, Step(s, e), e.t, Step(s, e).calls[e.t]);
  }

  /** A call that is not the running swap leaves the swap's token where it is. */
  lemma HeldUnmoved(s: System, s': System, t: CallId, p: Phase)
    requires OneSwap(s) && Moves(s, s', t, p) && s'.f.pendingSwap == s.f.pendingSwap != Some(t)
    ensures Held(s') == Held(s)
  {
  }

  /** The order is kept and no token generation is lost between two states. */
  ghost predicate Advances(s: System, s': System) {
    && Ordered(s')
    && Best(s) <= Best(s')
    && GenOf(s.f.authenticated) <= GenOf(s'.f.authenticated)
  }

  lemma HeldByOwner(s: System, t: CallId)
    requires s.f.pendingSwap == Some(t) && t in s.calls
    ensures Held(s) == if s.calls[t].HoldsToken() then Some(s.calls[t].token) else None
  {
  }

  lemma OrderedInstallStep(s: System, e: Event)
    requires OneSwap(s) && Ordered(s) && Enabled(s, e) && (e.ReconnectDone? || e.ReplaceDone?)
    ensures Advances(s, Step(s, e)) && Best(Step(s, e)) == Best(s)
  {
    assert s.f.pendingSwap == Some(e.t) && s.f.client == Some(s.calls[e.t].on);
    HeldByOwner(s, e.t);
    HeldByOwner(Step(s, e), e.t);
    hide Held, OneSwap;
  }

  lemma OrderedEndStep(s: System, e: Event)
    requires OneSwap(s) && Ordered(s) && Enabled(s, e) && (e.DiscardDone? || e.RetireDone? || e.OwnerResumes?)
    ensures Advances(s, Step(s, e)) && Best(Step(s, e)) == Best(s)
  {
    assert s.f.pendingSwap == Some(e.t);
    HeldByOwner(s, e.t);
    if e.OwnerResumes? { assert Held(Step(s, e)) == None; } else { HeldByOwner(Step(s, e), e.t); }
    assert e.DiscardDone? ==> s.f.client == Some(s.calls[e.t].on);
    assert e.RetireDone? ==> s.f.client != Some(s.calls[e.t].on);
    hide Held, OneSwap;
  }

  lemma OrderedSwapStep(s: System, e: Event)
    requires OneSwap(s) && Ordered(s) && Enabled(s, e) && SwapEvent(e)
    ensures Advances(s, Step(s, e)) && Best(Step(s, e)) == Best(s)
  {
    if e.ReconnectDone? || e.ReplaceDone? { OrderedInstallStep(s, e); } else { OrderedEndStep(s, e); }
  }

  lemma OrderedAskStep(s: System, e: Event)
    requires OneSwap(s) && Ordered(s) && Enabled(s, e) && e.AskCalled?
    ensures Advances(s, Step(s, e)) && Best(Step(s, e)) == Best(s)
  {
    var s' := Step(s, e);
    if s'.f.pendingSwap == s.f.pendingSwap {
      HeldUnmoved(s, s', e.t, s'.calls[e.t]);
    } else {
      assert Held(s) == None && Held(s') == s.f.pending;
    }
  }

  lemma OrderedAuthStep(s: System, e: Event)
    requires OneSwap(s) && Ordered(s) && Newest(s) && Enabled(s, e)
    requires e.AuthenticateCalled? || e.PreflightDone? || e.OpenDone?
    ensures Advances(s, Step(s, e)) && Held(Step(s, e)) == Held(s)
  {
    var s' := Step(s, e);
    HeldUnmoved(s, s', e.t, s'.calls[e.t]);
    if e.PreflightDone? && e.ok && s.calls[e.t].token.generation == s.f.authGeneration {
      assert Current(s, e.t);
    }
    if e.OpenDone? && s.calls[e.t].generation == s.f.authGeneration {
      assert Current(s, e.t);
    }
    hide Held, OneSwap, Newest;
  }

  lemma OrderedReadStep(s: System, e: Event)
    requires OneSwap(s) && Ordered(s) && Enabled(s, e)
    requires e.JoinerResumes? || e.AskResumes? || e.TurnEnds?
    ensures Advances(s, Step(s, e)) && Held(Step(s, e)) == Held(s) && Step(s, e).f == s.f
  {
    var s' := Step(s, e);
    HeldUnmoved(s, s', e.t, s'.calls[e.t]);
  }

  lemma NewestMove(s: System, s': System, t: CallId, p: Phase)
    requires Newest(s) && Moves(s, s', t, p) && s.f.authGeneration <= s'.f.authGeneration
    requires p.Authenticating() ==> p.token.generation <= s'.f.authGeneration
    requires p.Opening? ==> p.generation == p.token.generation && s'.f.client.None?
    requires p.Authenticating() && p.token.generation == s'.f.authGeneration ==>
               Current(s, t) || s.f.authGeneration < s'.f.authGeneration
    requires s'.f.client == s.f.client || s.f.client.Some? || Current(s, t)
    requires Best(s') <= Best(s) || (Current(s, t) && !p.Authenticating())
    requires s.f.authGeneration < s'.f.authGeneration ==> Best(s') < s'.f.authGeneration
    ensures Newest(s')
  {
    forall u | u in s'.calls && u != t
      ensures u in s.calls && s'.calls[u] == s.calls[u]
      ensures Current(s', u) ==> Current(s, u) && s'.f.authGeneration == s.f.authGeneration
    {
    }
  }

  lemma NewestAuthStep(s: System, e: Event)
    requires Ordered(s) && Newest(s) && Enabled(s, e)
    requires e.AuthenticateCalled? || e.PreflightDone? || e.OpenDone?
    requires Held(Step(s, e)) == Held(s)
    ensures Newest(Step(s, e))
  {
    var s' := Step(s, e);
    NewestMove(s, s', e.t, s'.calls[e.t]);
  }

  lemma LeavesAuthentication(s: System, e: Event)
    requires Enabled(s, e) && !(e.AuthenticateCalled? || e.PreflightDone? || e.OpenDone? || e.StopCalled?)
    ensures var s' := Step(s, e);
            && e.t in s'.calls && !s'.calls[e.t].Authenticating() && s'.f.authGeneration == s.f.authGeneration
            && (SwapEvent(e) || s'.f.client == s.f.client)
  {
  }

  lemma NewestOtherStep(s: System, e: Event)
    requires Ordered(s) && Newest(s) && Enabled(s, e)
    requires !(e.AuthenticateCalled? || e.PreflightDone? || e.OpenDone? || e.StopCalled?)
    requires s.f.pendingSwap.Some? || !SwapEvent(e)
    requires Best(Step(s, e)) == Best(s)
    ensures Newest(Step(s, e))
  {
    var s' := Step(s, e);
    MoveStep(s, e);
    LeavesAuthentication(s, e);
    assert s.f.client.Some? || s.f.pendingSwap.None?;
    hide Step, Newest, Ordered, Moves, Best;
    NewestMove(s, s', e.t, s'.calls[e.t]);
  }

  lemma InvStep(s: System, e: Event)
    requires Inv(s) && Enabled(s, e) && !e.StopCalled?
    ensures Inv(Step(s, e)) && Advances(s, Step(s, e))
  {
    AlwaysInvStep(s, e);
    OneSwapStep(s, e);
    if e.AuthenticateCalled? || e.PreflightDone? || e.OpenDone? {
      OrderedAuthStep(s, e);
      NewestAuthStep(s, e);
    } else {
      if SwapEvent(e) { OrderedSwapStep(s, e); }
      else if e.AskCalled? { OrderedAskStep(s, e); }
      else { OrderedReadStep(s, e); }
      NewestOtherStep(s, e);
    }
  }

  // ---- Whole runs without stop() ----

  /** The installed token never goes back, and a pending or held token is always newer than it. */
  lemma {:induction false} RotationOnlyMovesForward(s: System, es: seq<Event>)
    requires Inv(s) && Runs(s, es) && NoStop(es)
    ensures var z := After(s, es);
            && Inv(z)
            && GenOf(s.f.authenticated) <= GenOf(z.f.authenticated)
            && Best(s) <= Best(z)
            && (z.f.pending.Some? ==> GenOf(z.f.authenticated) < z.f.pending.value.generation)
            && (Held(z).Some? ==> GenOf(z.f.authenticated) < Held(z).value.generation)
    decreases |es|
  {
    if es != [] {
      InvStep(s, es[0]);
      RotationOnlyMovesForward(Step(s, es[0]), es[1..]);
    }
  }

  /** A queued token is never lost: whenever no swap is running, it or a newer one is installed or queued. */
  lemma QueuedTokenIsConserved(s: System, es: seq<Event>, token: Token)
    requires Inv(s) && Runs(s, es) && NoStop(es)
    requires s.f.pending == Some(token)
    ensures var z := After(s, es);
            z.f.pendingSwap.None? ==>
              token.generation <= GenOf(z.f.authenticated) || token.generation <= GenOf(z.f.pending)
  {
    RotationOnlyMovesForward(s, es);
    assert token.generation <= Best(s);
  }

  lemma OneSwapMeans(z: System, t: CallId, u: CallId, canReconnect: bool)
    requires OneSwap(z)
    ensures t in z.calls && u in z.calls && z.calls[t].Swapping() && z.calls[u].Swapping() ==> t == u
    ensures Enabled(z, AskCalled(t, canReconnect)) && Step(z, AskCalled(t, canReconnect)).calls[t].Swapping() ==>
              && z.f.client.Some? && z.f.client.value !in z.busy
              && forall w :: w in z.calls ==> !z.calls[w].Swapping()
  {
  }

  /** Two swaps never overlap, and a swap begins only when no turn is streaming on the mounted session. */
  lemma SwapsNeverOverlap(s: System, es: seq<Event>, t: CallId, u: CallId, canReconnect: bool)
    requires Inv(s) && Runs(s, es) && NoStop(es)
    ensures var z := After(s, es);
            && (t in z.calls && u in z.calls && z.calls[t].Swapping() && z.calls[u].Swapping() ==> t == u)
            && (Enabled(z, AskCalled(t, canReconnect)) && Step(z, AskCalled(t, canReconnect)).calls[t].Swapping() ==>
                  && z.f.client.Some? && z.f.client.value !in z.busy
                  && forall w :: w in z.calls ==> !z.calls[w].Swapping())
  {
    assert OneSwap(After(s, es)) by { RotationOnlyMovesForward(s, es); }
    OneSwapMeans(After(s, es), t, u, canReconnect);
  }

  // ---- Which credential a turn runs on ----

  /** The token the bridge believes installed is the one the mounted session was last pointed at. */
  ghost predicate CredentialMatches(s: System) {
    s.f.client.Some? ==> s.f.client.value in s.credential && s.f.authenticated == Some(s.credential[s.f.client.value])
  }

  lemma CredentialStep(s: System, e: Event)
    requires ClientsBelow(s) && CredentialMatches(s) && Enabled(s, e)
    requires e.ReconnectDone? && e.ok ==> s.f.client == Some(s.calls[e.t].on)
    ensures CredentialMatches(Step(s, e))
  {
  }

  /** The call has a token that is neither queued nor installed. */
  predicate Carries(s: System, t: CallId) {
    t in s.calls && (s.calls[t].Authenticating() || s.calls[t].HoldsToken())
  }

  function Gen(s: System, t: CallId): nat
    requires Carries(s, t)
  {
    s.calls[t].token.generation
  }

  ghost predicate CallsApart(s: System) {
    forall t, u :: Carries(s, t) && Carries(s, u) && Gen(s, t) == Gen(s, u) ==> t == u
  }

  ghost predicate SessionsApart(s: System) {
    forall t, c :: Carries(s, t) && c in s.credential ==> s.credential[c].generation != Gen(s, t)
  }

  ghost predicate QueueApart(s: System) {
    s.f.pending.Some? ==>
      && (forall t :: Carries(s, t) ==> Gen(s, t) != s.f.pending.value.generation)
      && (forall c :: c in s.credential ==> s.credential[c].generation != s.f.pending.value.generation)
  }

  /** No token is newer than the newest `authenticate()` call. */
  ghost predicate TokensKnown(s: System) {
    && (forall t :: Carries(s, t) ==> Gen(s, t) <= s.f.authGeneration)
    && (forall c :: c in s.credential ==> s.credential[c].generation <= s.f.authGeneration)
    && (s.f.pending.Some? ==> s.f.pending.value.generation <= s.f.authGeneration)
  }

  /** A token is in one place: with one call, in the queue, or with the sessions. */
  ghost predicate TokensApart(s: System) {
    CallsApart(s) && SessionsApart(s) && QueueApart(s) && TokensKnown(s)
  }

  /** Where the token of the call that moves comes from, if it has one afterwards. */
  ghost predicate TakesToken(s: System, s': System, t: CallId, p: Phase) {
    (p.Authenticating() || p.HoldsToken()) ==>
      || (Carries(s, t) && s.calls[t].token == p.token && s'.f.pending == s.f.pending)
      || (s.f.pending == Some(p.token) && s'.f.pending.None?)
      || (p.token.generation == s'.f.authGeneration == s.f.authGeneration + 1 && s'.f.pending == s.f.pending)
  }

  /** Where the token of the call that moves goes, if it has none afterwards. */
  ghost predicate GivesToken(s: System, s': System, t: CallId, p: Phase) {
    var gone := Carries(s, t) && !p.Authenticating() && !p.HoldsToken();
    || (s'.credential == s.credential && (s'.f.pending == s.f.pending || s'.f.pending.None?))
    || (gone && s'.credential == s.credential && s'.f.pending == Some(s.calls[t].token))
    || (gone && s'.f.pending == s.f.pending && forall c :: c in s'.credential ==>
          s'.credential[c] == s.calls[t].token || (c in s.credential && s'.credential[c] == s.credential[c]))
  }

  lemma SwapTakesStep(s: System, e: Event)
    requires Enabled(s, e) && SwapEvent(e)
    ensures TakesToken(s, Step(s, e), e.t, Step(s, e).calls[e.t])
  {
  }

  lemma AskTakesStep(s: System, e: Event)
    requires Enabled(s, e) && e.AskCalled?
    ensures e.t in Step(s, e).calls && TakesToken(s, Step(s, e), e.t, Step(s, e).calls[e.t])
  {
  }

  lemma CallTakesStep(s: System, e: Event)
    requires Enabled(s, e) && !SwapEvent(e) && !e.StopCalled?
    ensures e.t in Step(s, e).calls && TakesToken(s, Step(s, e), e.t, Step(s, e).calls[e.t])
  {
    if e.AskCalled? { AskTakesStep(s, e); }
  }

  /** The session that a swap is retiring has been replaced. */
  ghost predicate RetiredGone(s: System) {
    forall t :: t in s.calls && s.calls[t].Retiring? ==> s.f.client != Some(s.calls[t].on)
  }

  lemma RetiredMove(s: System, s': System, t: CallId, p: Phase)
    requires ClientsApart(s) && RetiredGone(s) && Moves(s, s', t, p)
    requires s'.f.client == s.f.client || (t in s.calls && s.calls[t].HasNext() && s'.f.client == Some(s.calls[t].next))
    requires p.Retiring? ==> s'.f.client != Some(p.on)
    ensures RetiredGone(s')
  {
    forall u | u in s'.calls && s'.calls[u].Retiring? ensures s'.f.client != Some(s'.calls[u].on) {
      if u != t { assert s'.calls[u] == s.calls[u]; }
    }
  }

  lemma RetiringIsMounted(s: System, e: Event)
    requires ClientsApart(s) && RetiredGone(s) && Enabled(s, e) && !e.StopCalled?
    ensures var s' := Step(s, e);
            e.t in s'.calls && (s'.calls[e.t].Retiring? ==> s'.f.client != Some(s'.calls[e.t].on))
  {
    if e.ReplaceDone? { assert s.calls[e.t].on != s.calls[e.t].next; }
  }

  lemma RetiredStep(s: System, e: Event)
    requires ClientsApart(s) && RetiredGone(s) && Enabled(s, e)
    ensures RetiredGone(Step(s, e))
  {
    if !e.StopCalled? {
      MoveStep(s, e);
      FreshMoveStep(s, e);
      RetiringIsMounted(s, e);
      var s' := Step(s, e);
      assert s'.f.client == s.f.client
        || (e.t in s.calls && s.calls[e.t].HasNext() && s'.f.client == Some(s.calls[e.t].next));
      hide Step, Enabled, ClientsApart, RetiredGone;
      RetiredMove(s, s', e.t, s'.calls[e.t]);
    }
  }

  lemma SwapGivesStep(s: System, e: Event)
    requires Enabled(s, e) && SwapEvent(e) && RetiredGone(s)
    ensures GivesToken(s, Step(s, e), e.t, Step(s, e).calls[e.t])
    ensures s.f.authGeneration == Step(s, e).f.authGeneration
  {
    assert s.calls[e.t].Retiring? ==> s.f.client != Some(s.calls[e.t].on);
    hide RetiredGone;
  }

  lemma CallGivesStep(s: System, e: Event)
    requires Enabled(s, e) && !SwapEvent(e) && !e.StopCalled?
    ensures e.t in Step(s, e).calls && GivesToken(s, Step(s, e), e.t, Step(s, e).calls[e.t])
    ensures s.f.authGeneration <= Step(s, e).f.authGeneration
  {
  }

  lemma OtherCarries(s: System, s': System, t: CallId, p: Phase)
    requires Moves(s, s', t, p)
    ensures forall u :: u != t ==> (Carries(s', u) <==> Carries(s, u)) && (Carries(s, u) ==> Gen(s', u) == Gen(s, u))
    ensures Carries(s', t) <==> p.Authenticating() || p.HoldsToken()
    ensures Carries(s', t) ==> Gen(s', t) == p.token.generation
  {
  }

  lemma CallsApartMove(s: System, s': System, t: CallId, p: Phase)
    requires TokensApart(s) && Moves(s, s', t, p) && TakesToken(s, s', t, p)
    ensures CallsApart(s')
  {
    OtherCarries(s, s', t, p);
    hide SessionsApart, Moves;
  }

  lemma SessionsApartMove(s: System, s': System, t: CallId, p: Phase)
    requires TokensApart(s) && Moves(s, s', t, p) && TakesToken(s, s', t, p) && GivesToken(s, s', t, p)
    ensures SessionsApart(s')
  {
    OtherCarries(s, s', t, p);
    hide Moves;
  }

  lemma QueueApartMove(s: System, s': System, t: CallId, p: Phase)
    requires TokensApart(s) && Moves(s, s', t, p) && TakesToken(s, s', t, p) && GivesToken(s, s', t, p)
    ensures QueueApart(s')
  {
    OtherCarries(s, s', t, p);
    hide Moves;
  }

  lemma TokensKnownMove(s: System, s': System, t: CallId, p: Phase)
    requires TokensApart(s) && Moves(s, s', t, p) && TakesToken(s, s', t, p) && GivesToken(s, s', t, p)
    requires s.f.authGeneration <= s'.f.authGeneration
    ensures TokensKnown(s')
  {
    OtherCarries(s, s', t, p);
    hide Moves, CallsApart, SessionsApart, QueueApart;
  }

  lemma TokensStop(s: System)
    requires TokensApart(s)
    ensures TokensApart(Step(s, StopCalled))
  {
    var s' := Step(s, StopCalled);
    assert s'.calls == s.calls && s'.credential == s.credential && s'.f.pending.None?;
    forall t ensures Carries(s', t) <==> Carries(s, t) {
    }
  }

  lemma TokensStep(s: System, e: Event)
    requires RetiredGone(s) && TokensApart(s) && Enabled(s, e)
    ensures TokensApart(Step(s, e))
  {
    if e.StopCalled? {
      TokensStop(s);
    } else {
      MoveStep(s, e);
      if SwapEvent(e) {
        SwapTakesStep(s, e);
        SwapGivesStep(s, e);
      } else {
        CallTakesStep(s, e);
        CallGivesStep(s, e);
      }
      var s' := Step(s, e);
      hide Step, Enabled, Moves, TakesToken, GivesToken, CallsApart, SessionsApart, QueueApart, TokensKnown;
      CallsApartMove(s, s', e.t, s'.calls[e.t]);
      SessionsApartMove(s, s', e.t, s'.calls[e.t]);
      QueueApartMove(s, s', e.t, s'.calls[e.t]);
      TokensKnownMove(s, s', e.t, s'.calls[e.t]);
    }
  }

  lemma {:induction false} TokensStayApart(s: System, es: seq<Event>)
    requires AlwaysInv(s) && RetiredGone(s) && TokensApart(s) && Runs(s, es)
    ensures TokensApart(After(s, es))
    decreases |es|
  {
    hide TokensApart, RetiredGone, ClientsApart, ClientsBelow, OneSession, PromisesSettleOnce, Step;
    if es != [] {
      AlwaysInvStep(s, es[0]);
      RetiredStep(s, es[0]);
      TokensStep(s, es[0]);
      TokensStayApart(Step(s, es[0]), es[1..]);
    }
  }

  /**
   The success path of an in-place swap does not re-check the mounted session. In every run, `stop()` included, it
   leaves the bridge on the mounted session's own token exactly when the session it swapped is still mounted, or
   none is.
   */
  lemma ReconnectAgreesExactly(agent: bool, es: seq<Event>, t: CallId)
    requires Runs(Start(agent), es)
    requires CredentialMatches(After(Start(agent), es)) && Enabled(After(Start(agent), es), ReconnectDone(t, true))
    ensures var z := After(Start(agent), es);
            CredentialMatches(Step(z, ReconnectDone(t, true))) <==>
            z.f.client.None? || z.f.client == Some(z.calls[t].on)
  {
    TokensStayApart(Start(agent), es);
    var z := After(Start(agent), es);
    hide After, Runs;
    assert Carries(z, t);
    if z.f.client.Some? { assert z.credential[z.f.client.value].generation != Gen(z, t); }
  }

  /** What the call owes: if it prompts, a token of at least this generation is installed. */
  ghost predicate Backed(s: System, t: CallId, g: nat) {
    && t in s.calls
    && match s.calls[t] {
         case Joined(w) =>
           if w in s.settled then s.settled[w] || g <= GenOf(s.f.authenticated)
           else w in s.calls && s.calls[w].Swapping() && SwapOwes(s, s.calls[w], g)
         case Settled(failed) => failed || g <= GenOf(s.f.authenticated)
         case Flushed(failed) => failed || g <= GenOf(s.f.authenticated)
         case Prompting(_) => g <= GenOf(s.f.authenticated)
         case Finished => true
         case _ => s.calls[t].Swapping() && SwapOwes(s, s.calls[t], g)
       }
  }

  ghost predicate SwapOwes(s: System, p: Phase, g: nat) {
    && (p.HoldsToken() ==> g <= p.token.generation)
    && (p.Retiring? ==> g <= GenOf(s.f.authenticated))
  }

  lemma SettleStep(s: System, e: Event, g: nat)
    requires Enabled(s, e) && SwapEvent(e) && !e.OwnerResumes?
    requires s.calls[e.t].Swapping() && SwapOwes(s, s.calls[e.t], g)
    ensures var z := Step(s, e);
            if z.calls[e.t].Swapping() then SwapOwes(z, z.calls[e.t], g)
            else (e.t in z.settled && z.calls[e.t] == Settled(z.settled[e.t])
                  && (z.settled[e.t] || g <= GenOf(z.f.authenticated)))
  {
  }

  lemma BackedOwnStep(s: System, e: Event, t: CallId, g: nat)
    requires Backed(s, t, g) && Enabled(s, e) && !e.StopCalled? && e.t == t
    ensures Backed(Step(s, e), t, g)
  {
    if SwapEvent(e) && !e.OwnerResumes? { SettleStep(s, e, g); }
  }

  lemma JoinedStep(s: System, e: Event, t: CallId, w: CallId, g: nat)
    requires PromisesSettleOnce(s) && Backed(s, t, g) && Enabled(s, e) && !e.StopCalled? && e.t != t
    requires s.calls[t] == Joined(w)
    requires GenOf(s.f.authenticated) <= GenOf(Step(s, e).f.authenticated)
    ensures Backed(Step(s, e), t, g)
  {
    MoveStep(s, e);
    if w in s.settled {
      SettledStays(s, e, w);
      hide Step, Enabled, PromisesSettleOnce;
    } else if e.t == w {
      SettleStep(s, e, g);
      hide Step, Enabled, PromisesSettleOnce;
    } else {
      assert w in s.settled <==> w in Step(s, e).settled by { OthersUnsettled(s, e, w); }
      hide Step, Enabled, PromisesSettleOnce;
    }
  }

  lemma OthersUnsettled(s: System, e: Event, w: CallId)
    requires Enabled(s, e) && !e.StopCalled? && e.t != w
    ensures w in s.settled <==> w in Step(s, e).settled
  {
  }

  lemma BackedStep(s: System, e: Event, t: CallId, g: nat)
    requires PromisesSettleOnce(s) && Backed(s, t, g) && Enabled(s, e) && !e.StopCalled?
    requires GenOf(s.f.authenticated) <= GenOf(Step(s, e).f.authenticated)
    ensures Backed(Step(s, e), t, g)
  {
    if e.t == t {
      BackedOwnStep(s, e, t, g);
    } else if s.calls[t].Joined? {
      JoinedStep(s, e, t, s.calls[t].swap, g);
    } else {
      MoveStep(s, e);
      hide Step, Enabled, PromisesSettleOnce;
    }
  }

  lemma OwnReconnectIsMounted(s: System, e: Event)
    requires OneSwap(s) && Enabled(s, e)
    ensures e.ReconnectDone? ==> s.f.client == Some(s.calls[e.t].on)
  {
  }

  lemma {:induction false} BackedRun(s: System, es: seq<Event>, t: CallId, g: nat)
    requires Inv(s) && CredentialMatches(s) && Backed(s, t, g) && Runs(s, es) && NoStop(es)
    ensures Inv(After(s, es)) && CredentialMatches(After(s, es)) && Backed(After(s, es), t, g)
    decreases |es|
  {
    hide Step, Ordered, OneSwap, Newest, ClientsApart, ClientsBelow, OneSession, PromisesSettleOnce, Backed,
      CredentialMatches, Best, Held;
    if es != [] {
      OwnReconnectIsMounted(s, es[0]);
      InvStep(s, es[0]);
      CredentialStep(s, es[0]);
      BackedStep(s, es[0], t, g);
      BackedRun(Step(s, es[0]), es[1..], t, g);
    }
  }

  /** The newest token an ask that is entered now, joining a swap or with no turn streaming, must answer on. */
  function DueToken(s: System): nat {
    if s.f.pendingSwap.Some? then GenOf(Held(s)) else Max(GenOf(s.f.pending), GenOf(s.f.authenticated))
  }

  lemma AskIsBacked(s: System, t: CallId, canReconnect: bool)
    requires OneSwap(s) && Ordered(s) && PromisesSettleOnce(s) && Enabled(s, AskCalled(t, canReconnect))
    requires s.f.pendingSwap.Some? || s.f.client.None? || s.f.client.value !in s.busy
    ensures Backed(Step(s, AskCalled(t, canReconnect)), t, DueToken(s))
  {
  }

  lemma AskRun(s: System, es: seq<Event>, t: CallId, canReconnect: bool)
    requires Inv(s) && CredentialMatches(s) && Enabled(s, AskCalled(t, canReconnect)) && NoStop(es)
    requires s.f.pendingSwap.Some? || s.f.client.None? || s.f.client.value !in s.busy
    requires Runs(Step(s, AskCalled(t, canReconnect)), es)
    ensures CredentialMatches(After(Step(s, AskCalled(t, canReconnect)), es))
    ensures Backed(After(Step(s, AskCalled(t, canReconnect)), es), t, DueToken(s))
  {
    var e := AskCalled(t, canReconnect);
    InvStep(s, e);
    assert CredentialMatches(Step(s, e)) by { CredentialStep(s, e); }
    assert Backed(Step(s, e), t, DueToken(s)) by { AskIsBacked(s, t, canReconnect); }
    BackedRun(Step(s, e), es, t, DueToken(s));
  }

  lemma BackedPrompts(z: System, t: CallId, g: nat)
    requires CredentialMatches(z) && Backed(z, t, g) && Enabled(z, AskResumes(t))
    requires Step(z, AskResumes(t)).calls[t].Prompting?
    ensures z.f.client == Some(Step(z, AskResumes(t)).calls[t].on)
    ensures z.f.client.value in z.credential && g <= z.credential[z.f.client.value].generation
  {
  }

  /**
   An ask entered while a swap is running, or while no turn is streaming, prompts on the mounted session, and that
   session holds the token that was waiting when the ask was entered, or a newer one: it is never answered on a
   credential the bridge knew to be stale, whether the ask ran the swap itself, joined one, or found it failed.
   */
  lemma AskNeverUsesStaleCredential(s: System, es: seq<Event>, t: CallId, canReconnect: bool)
    requires Inv(s) && CredentialMatches(s) && Enabled(s, AskCalled(t, canReconnect)) && NoStop(es)
    requires s.f.pendingSwap.Some? || s.f.client.None? || s.f.client.value !in s.busy
    requires Runs(Step(s, AskCalled(t, canReconnect)), es)
    ensures var z := After(Step(s, AskCalled(t, canReconnect)), es);
            Enabled(z, AskResumes(t)) && Step(z, AskResumes(t)).calls[t].Prompting? ==>
              && z.f.client == Some(Step(z, AskResumes(t)).calls[t].on)
              && z.f.client.value in z.credential
              && DueToken(s) <= z.credential[z.f.client.value].generation
  {
    var z := After(Step(s, AskCalled(t, canReconnect)), es);
    AskRun(s, es, t, canReconnect);
    if Enabled(z, AskResumes(t)) && Step(z, AskResumes(t)).calls[t].Prompting? {
      BackedPrompts(z, t, DueToken(s));
    }
  }

  // ---- Quiescence ----

  /** A client counts as busy only while some call is prompting it. */
  ghost predicate BusyHasTurn(s: System) {
    forall c :: c in s.busy ==> exists t :: t in s.calls && s.calls[t] == Prompting(c)
  }

  lemma BusyStep(s: System, e: Event)
    requires BusyHasTurn(s) && Enabled(s, e)
    ensures BusyHasTurn(Step(s, e))
  {
    var z := Step(s, e);
    forall c | c in z.busy
      ensures exists t :: t in z.calls && z.calls[t] == Prompting(c)
    {
      if c in s.busy {
        var t :| t in s.calls && s.calls[t] == Prompting(c);
        if e.StopCalled? || e.t != t { assert z.calls[t] == Prompting(c); }
      } else {
        assert z.calls[e.t] == Prompting(c);
      }
    }
  }

  lemma {:induction false} BusyRun(s: System, es: seq<Event>)
    requires BusyHasTurn(s) && Runs(s, es)
    ensures BusyHasTurn(After(s, es))
    decreases |es|
  {
    if es != [] {
      BusyStep(s, es[0]);
      BusyRun(Step(s, es[0]), es[1..]);
    }
  }

  lemma QuietAsk(z: System, t: CallId, canReconnect: bool)
    requires OneSwap(z) && Ordered(z) && BusyHasTurn(z) && t !in z.calls && z.f.pending.Some?
    requires forall u :: u in z.calls ==> z.calls[u].Finished?
    ensures var p := Step(z, AskCalled(t, canReconnect)).calls[t];
            && p.HoldsToken() && p.token == z.f.pending.value && z.f.client == Some(p.on)
            && (p.Reconnecting? <==> canReconnect)
  {
    assert z.f.pendingSwap.None?;
    assert z.busy == {};
  }

  /** Once every call has returned, a rotation still queued is installed by the very next ask, if it can be. */
  lemma QueuedRotationIsServedNext(s: System, es: seq<Event>, t: CallId, canReconnect: bool)
    requires Inv(s) && BusyHasTurn(s) && Runs(s, es) && NoStop(es)
    requires forall u :: u in After(s, es).calls ==> After(s, es).calls[u].Finished?
    requires t !in After(s, es).calls && After(s, es).f.pending.Some?
    ensures var z := After(s, es);
            var p := Step(z, AskCalled(t, canReconnect)).calls[t];
            && p.HoldsToken() && p.token == z.f.pending.value && z.f.client == Some(p.on)
            && (p.Reconnecting? <==> canReconnect)
  {
    assert OneSwap(After(s, es)) && Ordered(After(s, es)) by { RotationOnlyMovesForward(s, es); }
    BusyRun(s, es);
    QuietAsk(After(s, es), t, canReconnect);
  }

  lemma {:induction false} RunsConcat(s: System, a: seq<Event>, b: seq<Event>)
    requires Runs(s, a) && Runs(After(s, a), b)
    ensures Runs(s, a + b) && After(s, a + b) == After(After(s, a), b)
    decreases |a|
  {
    if a == [] {
      assert a + b == b;
    } else {
      RunsConcat(Step(s, a[0]), a[1..], b);
      assert (a + b)[1..] == a[1..] + b;
    }
  }

  lemma RunsOne(s: System, e: Event)
    requires Enabled(s, e)
    ensures Runs(s, [e]) && After(s, [e]) == Step(s, e)
  {
    assert [e][1..] == [];
  }

  lemma RunsThree(s: System, a: Event, b: Event, c: Event)
    requires Enabled(s, a) && Enabled(Step(s, a), b) && Enabled(Step(Step(s, a), b), c)
    ensures Runs(s, [a, b, c]) && After(s, [a, b, c]) == Step(Step(Step(s, a), b), c)
  {
    RunsOne(s, a);
    RunsOne(Step(s, a), b);
    RunsOne(Step(Step(s, a), b), c);
    RunsConcat(s, [a], [b]);
    RunsConcat(s, [a] + [b], [c]);
    assert [a] + [b] + [c] == [a, b, c];
  }

  /** With nothing mounted, an `authenticate()` call that runs alone mounts a session on its own token. */
  lemma Opens(s: System, t: CallId, text: string)
    requires t !in s.calls && s.f.agentDetected && s.f.client.None?
    ensures var es := [AuthenticateCalled(t, text), PreflightDone(t, true), OpenDone(t, true)];
            var token := Token(text, s.f.authGeneration + 1);
            && Runs(s, es)
            && After(s, es)
                == s.(f := s.f.(client := Some(s.clients), authenticated := Some(token),
                    authGeneration := token.generation),
                                  calls := s.calls[t := Finished], live := s.live - {} + {s.clients},
                                  busy := s.busy - {}, credential := s.credential[s.clients := token],
                                      clients := s.clients + 1)
  {
    var a, b, c := AuthenticateCalled(t, text), PreflightDone(t, true), OpenDone(t, true);
    var token := Token(text, s.f.authGeneration + 1);
    var s1 := Step(s, a);
    assert s1.calls[t] == Preflighting(token);
    var s2 := Step(s1, b);
    assert s2.calls[t] == Opening(token, token.generation, s.clients);
    assert s.calls[t := Preflighting(token)][t := s2.calls[t]][t := Finished] == s.calls[t := Finished];
    RunsThree(s, a, b, c);
  }

  /** A rotation is queued, an ask begins to install it in place, and `stop()` is called meanwhile. */
  lemma RotatesThenStops(s: System, t: CallId, text: string, u: CallId)
    requires t !in s.calls && u !in s.calls && t != u && s.f.agentDetected && s.f.pendingSwap.None?
    requires s.f.client.Some? && s.f.client.value !in s.busy && s.f.authenticated.Some?
        && s.f.authenticated.value.text != text
    ensures var es := [AuthenticateCalled(t, text), PreflightDone(t, true), AskCalled(u, true)] + [StopCalled];
            && Runs(s, es)
            && After(s, es).f == Fields(true, None, None, s.f.authGeneration + 1, None, None)
            && After(s, es).calls
                == s.calls[t := Finished][u := Reconnecting(Token(text, s.f.authGeneration + 1), s.f.client.value)]
            && After(s, es).clients == s.clients
  {
    var a, b, c := AuthenticateCalled(t, text), PreflightDone(t, true), AskCalled(u, true);
    var token := Token(text, s.f.authGeneration + 1);
    var s1 := Step(s, a);
    assert s1.calls[t] == Preflighting(token);
    var s2 := Step(s1, b);
    assert s2.calls == s.calls[t := Finished];
    RunsThree(s, a, b, c);
    RunsOne(Step(s2, c), StopCalled);
    RunsConcat(s, [a, b, c], [StopCalled]);
  }

  /** Session 1 is mounted after a `stop()`, and the swap of session 0 has not resolved yet. */
  lemma StoppedThenReopened() returns (es: seq<Event>)
    ensures Runs(Start(true), es)
    ensures var z := After(Start(true), es);
            && z.f.client == Some(1) && 1 in z.credential && z.credential[1] == Token("c", 3)
            && 2 in z.calls && z.calls[2] == Reconnecting(Token("b", 2), 0)
  {
    var s := Start(true);
    var e1 := [AuthenticateCalled(0, "a"), PreflightDone(0, true), OpenDone(0, true)];
    var e2 := [AuthenticateCalled(1, "b"), PreflightDone(1, true), AskCalled(2, true)] + [StopCalled];
    var e3 := [AuthenticateCalled(3, "c"), PreflightDone(3, true), OpenDone(3, true)];
    hide Runs, After, Step;
    Opens(s, 0, "a");
    var s1 := After(s, e1);
    assert "b"[0] != "a"[0];
    RotatesThenStops(s1, 1, "b", 2);
    var s2 := After(s1, e2);
    Opens(s2, 3, "c");
    RunsConcat(s, e1, e2);
    RunsConcat(s, e1 + e2, e3);
    es := e1 + e2 + e3;
  }

  /** The trace in which the two disagree: the swap of session 0 resolves after session 1 was mounted. */
  lemma ReconnectAfterStopDisagrees()
    ensures exists es :: Runs(Start(true), es) && !CredentialMatches(After(Start(true), es))
  {
    var es := StoppedThenReopened();
    var z := After(Start(true), es);
    var e := ReconnectDone(2, true);
    RunsOne(z, e);
    hide Runs, After;
    RunsConcat(Start(true), es, [e]);
    assert !CredentialMatches(After(Start(true), es + [e]));
  }
}
