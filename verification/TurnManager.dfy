/**
  The turn manager (agent_thread_manager.rs): every call that starts a turn
  holds a lease on its scope and opens routes; calls of many tasks interleave
  with each other and with the connection reader. A step holds one lock: that of
  the router, or that of the leases.
*/
module TurnManager {
  import opened Text
  import opened RouterSteps

  datatype Plane = Modeling | Validation
  datatype Scope = Scope(session: string, plane: Plane)

  /** Where a call stands. After an error the routes that it had opened are only remembered; a call that is
      leaving has given up its routes and is about to drop its lease. */
  datatype Phase =
    | Preparing
    | Waiting(handle: Handle)
    | Rejected(handle: Handle)
    | Bound(key: Key, channel: nat)
    | Running(key: Key, channel: nat)
    | Finished(key: Key, channel: nat)
    | Returned(cancelled: Option<Handle>, closed: Option<nat>)
    | Leaving(next: Phase)

  datatype Call = Call(scope: Scope, phase: Phase)

  datatype Manager = Manager(
    active: set<Scope>, loaded: set<(nat, string)>, calls: map<nat, Call>, router: Router)

  /** The call, or the turn that it returned, owns the lease of its scope. */
  predicate HoldsLease(c: Call) { !c.phase.Finished? && !c.phase.Returned? }

  function Move(m: Manager, id: nat, phase: Phase): Manager
    requires id in m.calls
  {
    m.(calls := m.calls[id := m.calls[id].(phase := phase)])
  }

  /** The lease is dropped with the call. */
  function Release(m: Manager, id: nat): Manager
    requires id in m.calls
  {
    if HoldsLease(m.calls[id]) then m.(active := m.active - {m.calls[id].scope}) else m
  }

  // ----- the steps ------------------------------------------------------------

  /** `acquire_scope_lease`: at most one lease per session and plane, whoever its owner is. */
  function Start(m: Manager, id: nat, scope: Scope, owner: string): Manager
    requires id !in m.calls
  {
    if Blank(scope.session) || Blank(owner) || scope in m.active
    then m.(calls := m.calls[id := Call(scope, Returned(None, None))])
    else m.(active := m.active + {scope}, calls := m.calls[id := Call(scope, Preparing)])
  }

  /** An error before any route is opened, or the end of `start_new_conversation`. */
  function End(m: Manager, id: nat): Manager
    requires id in m.calls && m.calls[id].phase.Preparing?
  {
    Move(Release(m, id), id, Returned(None, None))
  }

  function BeginRoute(m: Manager, id: nat, thread: string): Manager
    requires id in m.calls && m.calls[id].phase.Preparing?
  {
    var (router, reply) := Begin(m.router, thread);
    Move(m.(router := router), id, if reply.Begun? then Waiting(reply.handle) else Leaving(Returned(None, None)))
  }

  predicate HasPending(phase: Phase) { phase.Waiting? || phase.Rejected? }

  /** The turn request or the promotion failed: the pending route is cancelled. */
  function RequestFails(m: Manager, id: nat): Manager
    requires id in m.calls && HasPending(m.calls[id].phase)
  {
    var h := m.calls[id].phase.handle;
    Move(m.(router := Cancel(m.router, h).0), id, Leaving(Returned(Some(h), None)))
  }

  /** The turn id arrives: the pending route is promoted, or is cancelled next. */
  function TurnStarted(m: Manager, id: nat, turn: string): Manager
    requires id in m.calls && m.calls[id].phase.Waiting?
  {
    var h := m.calls[id].phase.handle;
    var (router, reply) := Promote(m.router, h, turn);
    Move(m.(router := router), id, if reply.Promoted? then Bound(Key(h.thread, turn), reply.channel) else Rejected(h))
  }

  function BindFails(m: Manager, id: nat): Manager
    requires id in m.calls && m.calls[id].phase.Bound?
  {
    CloseRoute(m, id, Returned(None, Some(m.calls[id].phase.channel)))
  }

  function BindSucceeds(m: Manager, id: nat): Manager
    requires id in m.calls && m.calls[id].phase.Bound?
  {
    Move(m, id, Running(m.calls[id].phase.key, m.calls[id].phase.channel))
  }

  predicate IsTurn(m: Manager, id: nat) {
    id in m.calls && (m.calls[id].phase.Running? || m.calls[id].phase.Finished?)
  }

  predicate HasKey(phase: Phase) { phase.Bound? || phase.Running? || phase.Finished? }

  /** The route is unregistered; a lease that is still held is dropped next. */
  function CloseRoute(m: Manager, id: nat, next: Phase): Manager
    requires id in m.calls && HasKey(m.calls[id].phase)
  {
    Move(m.(router := Unregister(m.router, m.calls[id].phase.key).0), id,
         if HoldsLease(m.calls[id]) then Leaving(next) else next)
  }

  /** `finish_turn`, once the thread record is saved. */
  function Finish(m: Manager, id: nat): Manager
    requires IsTurn(m, id)
  {
    CloseRoute(m, id, Finished(m.calls[id].phase.key, m.calls[id].phase.channel))
  }

  /** Dropping the turn object releases what is left. */
  function DropTurn(m: Manager, id: nat): Manager
    requires IsTurn(m, id)
  {
    CloseRoute(m, id, Returned(None, Some(m.calls[id].phase.channel)))
  }

  /** The lease is dropped, under the lock of the leases. */
  function Leave(m: Manager, id: nat): Manager
    requires id in m.calls && m.calls[id].phase.Leaving?
  {
    Move(Release(m, id), id, m.calls[id].phase.next)
  }

  function MarkLoaded(m: Manager, generation: nat, thread: string): Manager {
    m.(loaded := (set t | t in m.loaded && t.0 == generation) + {(generation, thread)})
  }

  datatype Action =
    | Starting(id: nat, scope: Scope, owner: string) | Ending(id: nat) | BeginningRoute(id: nat, thread: string)
    | FailingRequest(id: nat) | StartingTurn(id: nat, turn: string)
    | FailingBind(id: nat) | Binding(id: nat) | FinishingTurn(id: nat) | DroppingTurn(id: nat) | DroppingLease(id: nat)
    | MarkingLoaded(generation: nat, thread: string)
    | UsingRouter(cmd: RouterSteps.Command)  // by the connection reader or the receiver of a turn

  predicate Enabled(m: Manager, a: Action) {
    match a
    case Starting(id, _, _) => id !in m.calls
    case Ending(id) => id in m.calls && m.calls[id].phase.Preparing?
    case BeginningRoute(id, _) => id in m.calls && m.calls[id].phase.Preparing?
    case FailingRequest(id) => id in m.calls && HasPending(m.calls[id].phase)
    case StartingTurn(id, _) => id in m.calls && m.calls[id].phase.Waiting?
    case FailingBind(id) => id in m.calls && m.calls[id].phase.Bound?
    case Binding(id) => id in m.calls && m.calls[id].phase.Bound?
    case FinishingTurn(id) => IsTurn(m, id)
    case DroppingTurn(id) => IsTurn(m, id)
    case DroppingLease(id) => id in m.calls && m.calls[id].phase.Leaving?
    case MarkingLoaded(_, _) => true
    case UsingRouter(cmd) => cmd.Routing? || cmd.FailingAll? || cmd.Receiving? || cmd.ClosingReceiver?
  }

  /** One atomic step of any task; a step that is not enabled does nothing. */
  function Act(m: Manager, a: Action): Manager
    requires forall k :: k in m.router.exact ==> m.router.exact[k] in m.router.channels
  {
    if !Enabled(m, a) then m
    else match a
      case Starting(id, scope, owner) => Start(m, id, scope, owner)
      case Ending(id) => End(m, id)
      case BeginningRoute(id, thread) => BeginRoute(m, id, thread)
      case FailingRequest(id) => RequestFails(m, id)
      case StartingTurn(id, turn) => TurnStarted(m, id, turn)
      case FailingBind(id) => BindFails(m, id)
      case Binding(id) => BindSucceeds(m, id)
      case FinishingTurn(id) => Finish(m, id)
      case DroppingTurn(id) => DropTurn(m, id)
      case DroppingLease(id) => Leave(m, id)
      case MarkingLoaded(generation, thread) => MarkLoaded(m, generation, thread)
      case UsingRouter(cmd) => m.(router := RouterSteps.Step(m.router, cmd).0)
  }

  // ----- the invariant --------------------------------------------------------

  /** The active scopes are exactly the scopes of the live leases, and no two leases share a scope. */
  ghost predicate LeasesExact(m: Manager) {
    && (forall id :: id in m.calls && HoldsLease(m.calls[id]) ==> m.calls[id].scope in m.active)
    && (forall scope :: scope in m.active ==>
          exists id :: id in m.calls && HoldsLease(m.calls[id]) && m.calls[id].scope == scope)
    && (forall a, b | a in m.calls && b in m.calls && HoldsLease(m.calls[a]) && HoldsLease(m.calls[b]) ::
          m.calls[a].scope == m.calls[b].scope ==> a == b)
  }

  predicate HandleGone(r: Router, h: Handle) { h.registration < r.nextRegistration && !Current(r, h) }

  predicate ChannelGone(r: Router, channel: nat) {
    channel < r.nextChannel && forall k :: k in r.exact ==> r.exact[k] != channel
  }

  ghost predicate CallOk(r: Router, c: Call) { PhaseOk(r, c.phase) }

  /** What a call can still hold in the router, by phase. */
  ghost predicate PhaseOk(r: Router, phase: Phase) {
    match phase
    case Preparing => true
    case Waiting(h) => h.registration < r.nextRegistration
    case Rejected(h) => h.registration < r.nextRegistration
    case Leaving(next) => (next.Finished? || next.Returned?) && PhaseOk(r, next)
    case Bound(key, channel) => OnlyRouteOf(r, key, channel)
    case Running(key, channel) => OnlyRouteOf(r, key, channel)
    case Finished(_, channel) => ChannelGone(r, channel)
    case Returned(h, channel) =>
      (h.Some? ==> HandleGone(r, h.value)) && (channel.Some? ==> ChannelGone(r, channel.value))
  }

  /** The channel is reached through its key or not at all (the connection may have dropped it). */
  ghost predicate OnlyRouteOf(r: Router, key: Key, channel: nat) {
    channel < r.nextChannel && forall k :: k in r.exact && r.exact[k] == channel ==> k == key
  }

  ghost predicate MOk(m: Manager) {
    && Ok(m.router)
    && LeasesExact(m)
    && (forall id :: id in m.calls ==> CallOk(m.router, m.calls[id]))
    && (forall s, t | s in m.loaded && t in m.loaded :: s.0 == t.0)
  }

  function Initial(router: Router): Manager { Manager({}, {}, map[], router) }

  // ----- routes of other calls survive a step of the router ---------------------

  /** Routes die and never come back: counters grow and exact routes only gain fresh channels. */
  ghost predicate RouterMoves(r: Router, after: Router) {
    && r.nextRegistration <= after.nextRegistration && r.nextChannel <= after.nextChannel
    && (forall h: Handle :: HandleGone(r, h) ==> HandleGone(after, h))
    && (forall k :: k in after.exact ==>
          (k in r.exact && after.exact[k] == r.exact[k]) || after.exact[k] >= r.nextChannel)
  }

  lemma StepMovesRouter(r: Router, cmd: RouterSteps.Command)
    requires Ok(r)
    requires forall k :: k in r.exact ==> r.exact[k] in r.channels
    ensures RouterMoves(r, RouterSteps.Step(r, cmd).0) && Ok(RouterSteps.Step(r, cmd).0)
  {
    StepKeepsOk(r, cmd);
    hide Ok;
    forall h: Handle | HandleGone(r, h) ensures HandleGone(RouterSteps.Step(r, cmd).0, h) {
      StepKeepsGone(r, cmd, h);
    }
    StepKeepsExact(r, cmd);
    hide HandleGone, RouterSteps.Step;
  }

  lemma StepKeepsExact(r: Router, cmd: RouterSteps.Command)
    requires forall k :: k in r.exact ==> r.exact[k] in r.channels
    ensures var after := RouterSteps.Step(r, cmd).0;
            && r.nextRegistration <= after.nextRegistration && r.nextChannel <= after.nextChannel
            && forall k :: k in after.exact ==>
                 (k in r.exact && after.exact[k] == r.exact[k]) || after.exact[k] >= r.nextChannel
  {
    hide FirstMismatch;
  }

  lemma StepKeepsGone(r: Router, cmd: RouterSteps.Command, h: Handle)
    requires forall k :: k in r.exact ==> r.exact[k] in r.channels
    requires HandleGone(r, h)
    ensures HandleGone(RouterSteps.Step(r, cmd).0, h)
  {
    hide FirstMismatch;
  }

  lemma {:induction false} MovesKeepPhase(r: Router, after: Router, phase: Phase)
    requires PhaseOk(r, phase) && RouterMoves(r, after)
    ensures PhaseOk(after, phase)
    decreases phase
  {
    if phase.Leaving? {
      MovesKeepPhase(r, after, phase.next);
    }
  }

  lemma RouterStepKeepsCalls(m: Manager, cmd: RouterSteps.Command)
    requires MOk(m)
    requires forall k :: k in m.router.exact ==> m.router.exact[k] in m.router.channels
    ensures MOk(m.(router := RouterSteps.Step(m.router, cmd).0))
  {
    var after := RouterSteps.Step(m.router, cmd).0;
    StepMovesRouter(m.router, cmd);
    hide Ok, RouterMoves, PhaseOk, LeasesExact, RouterSteps.Step;
    forall id | id in m.calls ensures CallOk(after, m.calls[id]) {
      MovesKeepPhase(m.router, after, m.calls[id].phase);
    }
  }

  // ----- leases ---------------------------------------------------------------

  lemma StartKeepsLeases(m: Manager, id: nat, scope: Scope, owner: string)
    requires LeasesExact(m) && id !in m.calls
    ensures LeasesExact(Start(m, id, scope, owner))
  {
    hide Blank, LeasesExact;
    if Blank(scope.session) || Blank(owner) || scope in m.active {
      RefusedCallKeepsLeases(m, id, Call(scope, Returned(None, None)));
    } else {
      NewLeaseKeepsLeases(m, id, scope);
    }
  }

  lemma RefusedCallKeepsLeases(m: Manager, id: nat, c: Call)
    requires LeasesExact(m) && id !in m.calls && !HoldsLease(c)
    ensures LeasesExact(m.(calls := m.calls[id := c]))
  {
    hide HoldsLease;
    var after := m.(calls := m.calls[id := c]);
    forall s | s in m.active
      ensures exists i :: i in after.calls && HoldsLease(after.calls[i]) && after.calls[i].scope == s
    {
      var i :| i in m.calls && HoldsLease(m.calls[i]) && m.calls[i].scope == s;
      assert i in after.calls && after.calls[i] == m.calls[i];
    }
  }

  lemma NewLeaseKeepsLeases(m: Manager, id: nat, scope: Scope)
    requires LeasesExact(m) && id !in m.calls && scope !in m.active
    ensures LeasesExact(m.(active := m.active + {scope}, calls := m.calls[id := Call(scope, Preparing)]))
  {
    assert HoldsLease(Call(scope, Preparing));
    hide HoldsLease;
    var after := m.(active := m.active + {scope}, calls := m.calls[id := Call(scope, Preparing)]);
    forall s | s in after.active
      ensures exists i :: i in after.calls && HoldsLease(after.calls[i]) && after.calls[i].scope == s
    {
      if s in m.active {
        var i :| i in m.calls && HoldsLease(m.calls[i]) && m.calls[i].scope == s;
        assert i in after.calls && after.calls[i] == m.calls[i];
      } else {
        assert after.calls[id].scope == s;
      }
    }
  }

  lemma MoveKeepsLeases(m: Manager, id: nat, phase: Phase)
    requires LeasesExact(m) && id in m.calls
    requires HoldsLease(m.calls[id]) == HoldsLease(m.calls[id].(phase := phase))
    ensures LeasesExact(Move(m, id, phase))
  {
    var after := Move(m, id, phase);
    forall s | s in after.active
      ensures exists i :: i in after.calls && HoldsLease(after.calls[i]) && after.calls[i].scope == s
    {
      var i :| i in m.calls && HoldsLease(m.calls[i]) && m.calls[i].scope == s;
      assert HoldsLease(after.calls[i]) && after.calls[i].scope == s;
    }
  }

  lemma ReleaseKeepsLeases(m: Manager, id: nat, phase: Phase)
    requires LeasesExact(m) && id in m.calls && !HoldsLease(m.calls[id].(phase := phase))
    ensures LeasesExact(Move(Release(m, id), id, phase))
  {
    var after := Move(Release(m, id), id, phase);
    forall s | s in after.active
      ensures exists i :: i in after.calls && HoldsLease(after.calls[i]) && after.calls[i].scope == s
    {
      var i :| i in m.calls && HoldsLease(m.calls[i]) && m.calls[i].scope == s;
      assert i != id;
      assert HoldsLease(after.calls[i]) && after.calls[i].scope == s;
    }
  }

  // ----- every step -----------------------------------------------------------

  /** The call that moves to another phase meets the obligations of that phase. */
  lemma MoveKeepsMOk(m: Manager, id: nat, phase: Phase)
    requires MOk(m) && id in m.calls && PhaseOk(m.router, phase)
    requires HoldsLease(m.calls[id]) == HoldsLease(m.calls[id].(phase := phase))
    ensures MOk(Move(m, id, phase))
  {
    hide Ok, LeasesExact, PhaseOk;
    MoveKeepsLeases(m, id, phase);
  }

  lemma ReleaseKeepsMOk(m: Manager, id: nat, phase: Phase)
    requires MOk(m) && id in m.calls && PhaseOk(m.router, phase) && !HoldsLease(m.calls[id].(phase := phase))
    ensures MOk(Move(Release(m, id), id, phase))
  {
    hide Ok, LeasesExact, PhaseOk;
    ReleaseKeepsLeases(m, id, phase);
  }

  lemma StartKeepsMOk(m: Manager, id: nat, scope: Scope, owner: string)
    requires MOk(m) && id !in m.calls
    ensures MOk(Start(m, id, scope, owner))
  {
    StartKeepsLeases(m, id, scope, owner);
    hide Ok, LeasesExact;
  }

  lemma CallIsOk(m: Manager, id: nat)
    requires MOk(m) && id in m.calls
    ensures PhaseOk(m.router, m.calls[id].phase)
  {
    hide PhaseOk, Ok, LeasesExact;
  }

  lemma BeginRouteKeepsMOk(m: Manager, id: nat, thread: string)
    requires MOk(m) && id in m.calls && m.calls[id].phase.Preparing?
    requires forall k :: k in m.router.exact ==> m.router.exact[k] in m.router.channels
    ensures MOk(BeginRoute(m, id, thread))
  {
    hide Ok, LeasesExact, MOk;
    var (router, reply) := Begin(m.router, thread);
    RouterStepKeepsCalls(m, Beginning(thread));
    var mid := m.(router := router);
    MoveKeepsMOk(mid, id, if reply.Begun? then Waiting(reply.handle) else Leaving(Returned(None, None)));
  }

  lemma CancelKills(r: Router, h: Handle)
    requires h.registration < r.nextRegistration
    ensures HandleGone(Cancel(r, h).0, h)
  {
  }

  lemma RequestFailsKeepsMOk(m: Manager, id: nat)
    requires MOk(m) && id in m.calls && HasPending(m.calls[id].phase)
    requires forall k :: k in m.router.exact ==> m.router.exact[k] in m.router.channels
    ensures MOk(RequestFails(m, id))
  {
    hide Ok, LeasesExact, MOk;
    var h := m.calls[id].phase.handle;
    CallIsOk(m, id);
    RouterStepKeepsCalls(m, Cancelling(h));
    CancelKills(m.router, h);
    hide Cancel, HandleGone;
    var mid := m.(router := Cancel(m.router, h).0);
    MoveKeepsMOk(mid, id, Leaving(Returned(Some(h), None)));
  }

  lemma TurnStartedKeepsMOk(m: Manager, id: nat, turn: string)
    requires MOk(m) && id in m.calls && m.calls[id].phase.Waiting?
    requires forall k :: k in m.router.exact ==> m.router.exact[k] in m.router.channels
    ensures MOk(TurnStarted(m, id, turn))
  {
    hide LeasesExact, MOk, FirstMismatch;
    var h := m.calls[id].phase.handle;
    var (router, reply) := Promote(m.router, h, turn);
    RouterStepKeepsCalls(m, Promoting(h, turn));
    var mid := m.(router := router);
    CallIsOk(mid, id);
    if reply.Promoted? {
      FreshChannelHasOneKey(m, h, turn);
      hide Ok, Promote;
      MoveKeepsMOk(mid, id, Bound(Key(h.thread, turn), reply.channel));
    } else {
      hide Ok, Promote;
      MoveKeepsMOk(mid, id, Rejected(h));
    }
  }

  lemma FreshChannelHasOneKey(m: Manager, h: Handle, turn: string)
    requires MOk(m) && Promote(m.router, h, turn).1.Promoted?
    ensures OnlyRouteOf(Promote(m.router, h, turn).0, Key(h.thread, turn), Promote(m.router, h, turn).1.channel)
  {
    hide LeasesExact, PhaseOk, FirstMismatch, ChannelOk, PendingOk, HasTerminal;
    forall k | k in m.router.exact ensures m.router.exact[k] < m.router.nextChannel {
      assert ExactOk(m.router, k);
    }
  }

  /** Unregistering the key of a call leaves no exact route to its channel. */
  lemma CloseRouteKeepsMOk(m: Manager, id: nat, next: Phase)
    requires MOk(m) && id in m.calls && HasKey(m.calls[id].phase)
    requires forall k :: k in m.router.exact ==> m.router.exact[k] in m.router.channels
    requires next == Finished(m.calls[id].phase.key, m.calls[id].phase.channel)
             || next == Returned(None, Some(m.calls[id].phase.channel))
    ensures MOk(CloseRoute(m, id, next))
  {
    var p := m.calls[id].phase;
    CallIsOk(m, id);
    hide Ok, LeasesExact, MOk;
    RouterStepKeepsCalls(m, Unregistering(p.key));
    var mid := m.(router := Unregister(m.router, p.key).0);
    assert ChannelGone(mid.router, p.channel);
    MoveKeepsMOk(mid, id, if HoldsLease(m.calls[id]) then Leaving(next) else next);
  }

  /** Every step of every task keeps the invariant. */
  lemma ActKeepsMOk(m: Manager, a: Action)
    requires MOk(m)
    requires forall k :: k in m.router.exact ==> m.router.exact[k] in m.router.channels
    ensures MOk(Act(m, a))
  {
    hide MOk, Ok, LeasesExact;
    if Enabled(m, a) {
      match a
      case Starting(id, scope, owner) => StartKeepsMOk(m, id, scope, owner);
      case Ending(id) => ReleaseKeepsMOk(m, id, Returned(None, None));
      case BeginningRoute(id, thread) => BeginRouteKeepsMOk(m, id, thread);
      case FailingRequest(id) => RequestFailsKeepsMOk(m, id);
      case StartingTurn(id, turn) => TurnStartedKeepsMOk(m, id, turn);
      case FailingBind(id) => CloseRouteKeepsMOk(m, id, Returned(None, Some(m.calls[id].phase.channel)));
      case Binding(id) =>
        CallIsOk(m, id);
        MoveKeepsMOk(m, id, Running(m.calls[id].phase.key, m.calls[id].phase.channel));
      case FinishingTurn(id) => CloseRouteKeepsMOk(m, id, Finished(m.calls[id].phase.key, m.calls[id].phase.channel));
      case DroppingTurn(id) => CloseRouteKeepsMOk(m, id, Returned(None, Some(m.calls[id].phase.channel)));
      case DroppingLease(id) =>
        CallIsOk(m, id);
        ReleaseKeepsMOk(m, id, m.calls[id].phase.next);
      case MarkingLoaded(generation, thread) => MarkLoadedKeepsMOk(m, generation, thread);
      case UsingRouter(cmd) => RouterStepKeepsCalls(m, cmd);
    }
  }

  /** Marking loads the thread on its connection and forgets exactly the threads of other connections, so that all loaded
      threads belong to the connection that was marked last. */
  lemma MarkLoadedKeepsMOk(m: Manager, generation: nat, thread: string)
    requires MOk(m)
    ensures MOk(MarkLoaded(m, generation, thread))
    ensures forall g, t :: (g, t) in MarkLoaded(m, generation, thread).loaded
              <==> g == generation && (t == thread || (g, t) in m.loaded)
  {
    hide Ok, CallOk;
  }

  // ----- no route without an owner --------------------------------------------

  ghost predicate OwnsRoute(c: Call, key: Key, channel: nat) {
    c.phase == Bound(key, channel) || c.phase == Running(key, channel)
  }

  ghost predicate ExactOwned(m: Manager, key: Key) {
    key in m.router.exact ==> exists id :: id in m.calls && OwnsRoute(m.calls[id], key, m.router.exact[key])
  }

  predicate OwnsPending(c: Call, h: Handle) {
    c.phase == Waiting(h) || c.phase == Rejected(h)
  }

  ghost predicate PendingOwned(m: Manager, thread: string) {
    thread in m.router.pending ==>
      exists id :: id in m.calls && OwnsPending(m.calls[id], Handle(thread, m.router.pending[thread].registration))
  }

  /** Every exact route belongs to a turn that runs and every pending route to a call that waits or is rejected. */
  ghost predicate NoLeak(m: Manager) {
    (forall key :: ExactOwned(m, key)) && (forall thread :: PendingOwned(m, thread))
  }

  /** Whatever route of `m` is still there after the step keeps its owner, unless that owner is call `id`. */
  lemma OwnersStay(m: Manager, after: Manager, id: nat)
    requires NoLeak(m) && (forall i :: i in m.calls && i != id ==> i in after.calls && after.calls[i] == m.calls[i])
    requires forall key :: key in after.router.exact ==>
               || (&& key in m.router.exact && m.router.exact[key] == after.router.exact[key]
                   && (id in m.calls && OwnsRoute(m.calls[id], key, m.router.exact[key]) ==>
                         id in after.calls && OwnsRoute(after.calls[id], key, m.router.exact[key])))
               || (id in after.calls && OwnsRoute(after.calls[id], key, after.router.exact[key]))
    requires forall t :: t in after.router.pending ==>
               || (&& t in m.router.pending && m.router.pending[t].registration == after.router.pending[t].registration
                   && (id in m.calls ==> !OwnsPending(m.calls[id], Handle(t, m.router.pending[t].registration))))
               || (id in after.calls && OwnsPending(after.calls[id], Handle(t, after.router.pending[t].registration)))
    ensures NoLeak(after)
  {
    forall key ensures ExactOwned(after, key) {
      assert ExactOwned(m, key);
      if key in after.router.exact && !(id in after.calls && OwnsRoute(after.calls[id], key, after.router.exact[key])) {
        var i :| i in m.calls && OwnsRoute(m.calls[i], key, m.router.exact[key]);
        assert i in after.calls && OwnsRoute(after.calls[i], key, after.router.exact[key]);
      }
    }
    forall t ensures PendingOwned(after, t) {
      assert PendingOwned(m, t);
      if t in after.router.pending
         && !(id in after.calls && OwnsPending(after.calls[id], Handle(t, after.router.pending[t].registration))) {
        var i :| i in m.calls && OwnsPending(m.calls[i], Handle(t, m.router.pending[t].registration));
        assert i in after.calls && after.calls[i].phase == m.calls[i].phase;
      }
    }
  }

  lemma CallStepKeepsNoLeak(m: Manager, a: Action)
    requires NoLeak(m) && Enabled(m, a) && !a.UsingRouter? && !a.MarkingLoaded?
    requires !a.StartingTurn? && !a.FailingRequest?
    requires forall k :: k in m.router.exact ==> m.router.exact[k] in m.router.channels
    ensures NoLeak(Act(m, a))
  {
    hide NoLeak;
    OwnersStay(m, Act(m, a), a.id);
  }

  lemma WaitingStepKeepsNoLeak(m: Manager, a: Action)
    requires NoLeak(m) && Enabled(m, a) && (a.StartingTurn? || a.FailingRequest?)
    requires forall k :: k in m.router.exact ==> m.router.exact[k] in m.router.channels
    ensures NoLeak(Act(m, a))
  {
    hide NoLeak, FirstMismatch;
    OwnersStay(m, Act(m, a), a.id);
  }

  lemma ReaderKeepsNoLeak(m: Manager, a: Action)
    requires NoLeak(m) && Enabled(m, a) && (a.UsingRouter? || a.MarkingLoaded?)
    requires forall k :: k in m.router.exact ==> m.router.exact[k] in m.router.channels
    ensures NoLeak(Act(m, a))
  {
    var after := Act(m, a);
    assert after.calls == m.calls;
    assert forall k :: k in after.router.exact ==> k in m.router.exact && m.router.exact[k] == after.router.exact[k];
    assert forall t :: t in after.router.pending ==>
             t in m.router.pending && m.router.pending[t].registration == after.router.pending[t].registration;
    forall key ensures ExactOwned(after, key) {
      assert ExactOwned(m, key);
    }
    forall t ensures PendingOwned(after, t) {
      assert PendingOwned(m, t);
    }
  }

  lemma ActKeepsNoLeak(m: Manager, a: Action)
    requires NoLeak(m)
    requires forall k :: k in m.router.exact ==> m.router.exact[k] in m.router.channels
    ensures NoLeak(Act(m, a))
  {
    hide NoLeak, Act;
    if !Enabled(m, a) {
      DisabledDoesNothing(m, a);
    } else if a.UsingRouter? || a.MarkingLoaded? {
      ReaderKeepsNoLeak(m, a);
    } else if a.StartingTurn? || a.FailingRequest? {
      WaitingStepKeepsNoLeak(m, a);
    } else {
      CallStepKeepsNoLeak(m, a);
    }
  }

  lemma DisabledDoesNothing(m: Manager, a: Action)
    requires !Enabled(m, a)
    requires forall k :: k in m.router.exact ==> m.router.exact[k] in m.router.channels
    ensures Act(m, a) == m
  {
  }

  // ----- runs -----------------------------------------------------------------

  ghost function Run(m: Manager, actions: seq<Action>): (r: Manager)
    requires MOk(m)
    ensures MOk(r)
    decreases actions
  {
    WellFormed(m);
    ActKeepsMOk(m, if actions == [] then MarkingLoaded(0, "") else actions[0]);
    if actions == [] then m else Run(Act(m, actions[0]), actions[1..])
  }

  lemma WellFormed(m: Manager)
    requires MOk(m)
    ensures forall k :: k in m.router.exact ==> m.router.exact[k] in m.router.channels
  {
    OkIsWellFormed(m.router);
  }

  lemma InitialOk(router: Router)
    requires Ok(router)
    ensures MOk(Initial(router))
    ensures router.exact == map[] && router.pending == map[] ==> NoLeak(Initial(router))
  {
  }

  lemma {:induction false} RunKeepsNoLeak(m: Manager, actions: seq<Action>)
    requires MOk(m) && NoLeak(m)
    ensures NoLeak(Run(m, actions))
    decreases actions
  {
    if actions != [] {
      WellFormed(m);
      ActKeepsMOk(m, actions[0]);
      ActKeepsNoLeak(m, actions[0]);
      hide MOk, NoLeak, Act;
      RunKeepsNoLeak(Act(m, actions[0]), actions[1..]);
    }
  }

  /** The manager after a run that starts without calls. */
  ghost function Started(router: Router, actions: seq<Action>): (m: Manager)
    requires Ok(router)
    ensures MOk(m)
  {
    InitialOk(router);
    Run(Initial(router), actions)
  }

  /** In every interleaving, an exact route belongs to a bound or running turn and a pending route to a
      waiting call: nothing that failed, finished or was dropped leaves a route behind. */
  lemma NoRouteWithoutOwner(router: Router, actions: seq<Action>)
    requires Ok(router) && router.exact == map[] && router.pending == map[]
    ensures var m := Started(router, actions);
            && (forall key :: key in m.router.exact ==>
                  exists id :: id in m.calls && HoldsLease(m.calls[id]) && OwnsRoute(m.calls[id], key, m.router.exact[key]))
            && (forall thread :: thread in m.router.pending ==>
                  exists id :: id in m.calls && HoldsLease(m.calls[id])
                               && OwnsPending(m.calls[id], Handle(thread, m.router.pending[thread].registration)))
  {
    InitialOk(router);
    RunKeepsNoLeak(Initial(router), actions);
    var m := Started(router, actions);
    hide MOk, Ok;
    forall key | key in m.router.exact
      ensures exists id :: id in m.calls && HoldsLease(m.calls[id]) && OwnsRoute(m.calls[id], key, m.router.exact[key])
    {
      assert ExactOwned(m, key);
      var id :| id in m.calls && OwnsRoute(m.calls[id], key, m.router.exact[key]);
      assert HoldsLease(m.calls[id]);
    }
    forall thread | thread in m.router.pending
      ensures exists id :: id in m.calls && HoldsLease(m.calls[id])
                           && OwnsPending(m.calls[id], Handle(thread, m.router.pending[thread].registration))
    {
      assert PendingOwned(m, thread);
      var id :| id in m.calls && OwnsPending(m.calls[id], Handle(thread, m.router.pending[thread].registration));
      assert HoldsLease(m.calls[id]);
    }
  }

  /** What a call that gives up no longer holds in the router. */
  ghost predicate RoutesGone(r: Router, phase: Phase) {
    phase.Returned? ==>
      && (phase.cancelled.Some? ==> !Current(r, phase.cancelled.value))
      && (phase.closed.Some? ==> forall k :: k in r.exact ==> r.exact[k] != phase.closed.value)
  }

  /** In every interleaving: two turns never share a session and plane, the active scopes are the leases,
      and a call that returned an error holds no lease, no pending route and no exact route it opened; the routes
      are gone before the lease is. */
  lemma TurnResourcesAreExact(router: Router, actions: seq<Action>)
    requires Ok(router)
    ensures var m := Started(router, actions);
            && m.active == (set id | id in m.calls && HoldsLease(m.calls[id]) :: m.calls[id].scope)
            && (forall a, b | a in m.calls && b in m.calls && HoldsLease(m.calls[a]) && HoldsLease(m.calls[b]) ::
                  m.calls[a].scope == m.calls[b].scope ==> a == b)
            && (forall id :: id in m.calls ==> RoutesGone(m.router, m.calls[id].phase))
            && (forall id :: id in m.calls && m.calls[id].phase.Leaving? ==> RoutesGone(m.router, m.calls[id].phase.next))
  {
    var m := Started(router, actions);
    forall id | id in m.calls
      ensures RoutesGone(m.router, m.calls[id].phase)
      ensures m.calls[id].phase.Leaving? ==> RoutesGone(m.router, m.calls[id].phase.next)
    {
      CallIsOk(m, id);
    }
    hide Ok, PhaseOk, RoutesGone, MOk;
    ScopesOfLeases(m);
  }

  /** Nobody holds a lease for the session and plane. */
  predicate Free(m: Manager, scope: Scope) {
    forall o :: o in m.calls && m.calls[o].scope == scope ==> m.calls[o].phase.Finished? || m.calls[o].phase.Returned?
  }

  /** Something other than white space. */
  predicate Written(text: string) { exists i :: 0 <= i < |text| && text[i] !in WHITE_SPACE }

  /** A call gets the lease exactly if session and owner are not blank and nobody holds a lease for the session and plane; else it
      returns at once. Nothing else changes in either case. */
  lemma StartAnswer(router: Router, actions: seq<Action>, id: nat, scope: Scope, owner: string)
    requires Ok(router) && id !in Started(router, actions).calls
    requires Routable(Started(router, actions))
    ensures var m := Started(router, actions);
            var granted := Written(scope.session) && Written(owner) && Free(m, scope);
            Act(m, Starting(id, scope, owner)) ==
            m.(active := if granted then m.active + {scope} else m.active,
               calls := m.calls[id := Call(scope, if granted then Preparing else Returned(None, None))])
  {
    var m := Started(router, actions);
    TurnResourcesAreExact(router, actions);
    hide Ok, MOk, RoutesGone;
    assert scope in m.active <==> !Free(m, scope);
  }

  lemma ScopesOfLeases(m: Manager)
    requires MOk(m)
    ensures m.active == (set id | id in m.calls && HoldsLease(m.calls[id]) :: m.calls[id].scope)
    ensures forall a, b | a in m.calls && b in m.calls && HoldsLease(m.calls[a]) && HoldsLease(m.calls[b]) ::
              m.calls[a].scope == m.calls[b].scope ==> a == b
  {
    hide Ok, PhaseOk;
  }

  /** Once `finish_turn` is done, the later drop releases no lease, even one that another call took on the same
      scope in between, and closes a route only if its key was opened again meanwhile. */
  lemma FinishThenDropReleasesOnce(m: Manager, actions: seq<Action>, id: nat)
    requires MOk(m) && id in m.calls && m.calls[id].phase.Finished?
    requires forall i :: 0 <= i < |actions| ==> actions[i] != DroppingTurn(id)
    ensures var later := Run(m, actions);
            && id in later.calls && later.calls[id] == m.calls[id]
            && DropTurn(later, id).active == later.active
            && (DropTurn(later, id).router == later.router <==> m.calls[id].phase.key !in later.router.exact)
  {
    var later := Run(m, actions);
    FinishedStays(m, actions, id);
    var key := m.calls[id].phase.key;
    if key !in later.router.exact {
      TerminalIsExact(later, key);
      assert later.router.exact - {key} == later.router.exact;
      assert later.router.terminal - {key} == later.router.terminal;
    }
    hide MOk, Ok;
  }

  // ----- the drop of a finished turn can close another one ------------------------

  lemma {:induction false} RunAppend(m: Manager, first: seq<Action>, rest: seq<Action>)
    requires MOk(m)
    ensures Run(m, first + rest) == Run(Run(m, first), rest)
    decreases first
  {
    if first == [] {
      assert first + rest == rest;
    } else {
      WellFormed(m);
      ActKeepsMOk(m, first[0]);
      hide MOk, Act;
      assert (first + rest)[0] == first[0] && (first + rest)[1..] == first[1..] + rest;
      RunAppend(Act(m, first[0]), first[1..], rest);
    }
  }

  lemma RunOne(m: Manager, a: Action, rest: seq<Action>)
    requires MOk(m)
    requires forall k :: k in m.router.exact ==> m.router.exact[k] in m.router.channels
    ensures MOk(Act(m, a)) && Run(m, [a] + rest) == Run(Act(m, a), rest)
  {
    ActKeepsMOk(m, a);
    hide MOk, Act;
    assert ([a] + rest)[1..] == rest;
  }

  /** A whole start without any disturbance. */
  function OpenTurn(id: nat, scope: Scope, key: Key): seq<Action> {
    [Starting(id, scope, scope.session)] + ([BeginningRoute(id, key.thread)] + ([StartingTurn(id, key.turn)] + ([Binding(id)] + [])))
  }

  predicate Routable(m: Manager) { forall k :: k in m.router.exact ==> m.router.exact[k] in m.router.channels }

  lemma StartStep(m: Manager, id: nat, scope: Scope)
    requires Routable(m) && id !in m.calls && !Blank(scope.session) && scope !in m.active
    ensures Act(m, Starting(id, scope, scope.session))
            == m.(active := m.active + {scope}, calls := m.calls[id := Call(scope, Preparing)])
  {
    hide Blank;
  }

  lemma BeginStep(m: Manager, id: nat, thread: string)
    requires Routable(m) && id in m.calls && m.calls[id].phase.Preparing?
    requires !Blank(thread) && thread !in m.router.pending
    ensures var after := Act(m, BeginningRoute(id, thread));
            && after.active == m.active
            && after.calls == m.calls[id := m.calls[id].(phase := Waiting(Handle(thread, m.router.nextRegistration)))]
            && after.router.exact == m.router.exact && after.router.nextChannel == m.router.nextChannel
            && after.router.pending == m.router.pending[thread := Pending(m.router.nextRegistration, [], {})]
  {
    hide Blank;
  }

  lemma PromoteStep(m: Manager, id: nat, key: Key)
    requires Routable(m) && id in m.calls && m.calls[id].phase.Waiting? && m.calls[id].phase.handle.thread == key.thread
    requires ValidKey(key) && key !in m.router.exact && key.thread in m.router.pending
    requires m.router.pending[key.thread] == Pending(m.calls[id].phase.handle.registration, [], {})
    ensures var after := Act(m, StartingTurn(id, key.turn));
            && after.active == m.active
            && after.calls == m.calls[id := m.calls[id].(phase := Bound(key, m.router.nextChannel))]
            && after.router.exact == m.router.exact[key := m.router.nextChannel]
            && after.router.pending == m.router.pending - {key.thread}
  {
    hide ValidKey;
  }

  lemma BindStep(m: Manager, id: nat)
    requires Routable(m) && id in m.calls && m.calls[id].phase.Bound?
    ensures var p := m.calls[id].phase;
            Act(m, Binding(id)) == m.(calls := m.calls[id := m.calls[id].(phase := Running(p.key, p.channel))])
  {
  }

  lemma FinishStep(m: Manager, id: nat)
    requires Routable(m) && id in m.calls && m.calls[id].phase.Running?
    ensures var p := m.calls[id].phase;
            var after := Act(m, FinishingTurn(id));
            && after.calls == m.calls[id := m.calls[id].(phase := Leaving(Finished(p.key, p.channel)))]
            && after.active == m.active && after.router.exact == m.router.exact - {p.key}
            && after.router.pending == m.router.pending
  {
  }

  lemma LeaveStep(m: Manager, id: nat)
    requires Routable(m) && id in m.calls && m.calls[id].phase.Leaving?
    ensures Act(m, DroppingLease(id))
            == m.(active := m.active - {m.calls[id].scope},
                  calls := m.calls[id := m.calls[id].(phase := m.calls[id].phase.next)])
  {
  }

  lemma OpenTurnSucceeds(m: Manager, id: nat, scope: Scope, key: Key)
    requires MOk(m) && id !in m.calls && !Blank(scope.session) && scope !in m.active
    requires ValidKey(key) && key !in m.router.exact && key.thread !in m.router.pending
    ensures var after := Run(m, OpenTurn(id, scope, key));
            && after.calls == m.calls[id := Call(scope, Running(key, m.router.nextChannel))]
            && after.active == m.active + {scope}
            && after.router.exact == m.router.exact[key := m.router.nextChannel]
            && after.router.pending == m.router.pending
  {
    hide MOk, Act, Blank;
    WellFormed(m);
    StartStep(m, id, scope);
    RunOne(m, Starting(id, scope, scope.session), [BeginningRoute(id, key.thread)] + ([StartingTurn(id, key.turn)] + ([Binding(id)] + [])));
    var m1 := Act(m, Starting(id, scope, scope.session));
    WellFormed(m1);
    BeginStep(m1, id, key.thread);
    RunOne(m1, BeginningRoute(id, key.thread), [StartingTurn(id, key.turn)] + ([Binding(id)] + []));
    var m2 := Act(m1, BeginningRoute(id, key.thread));
    WellFormed(m2);
    PromoteStep(m2, id, key);
    RunOne(m2, StartingTurn(id, key.turn), [Binding(id)] + []);
    var m3 := Act(m2, StartingTurn(id, key.turn));
    WellFormed(m3);
    BindStep(m3, id);
    RunOne(m3, Binding(id), []);
  }

  /** A turn runs and is finished, another call opens the same thread and turn, and only then the first turn object is
      dropped: the drop closes the route of the other turn, which is still running. */
  lemma LateDropClosesReopenedRoute(router: Router, scope: Scope, key: Key) returns (actions: seq<Action>)
    requires Ok(router) && router.exact == map[] && router.pending == map[]
    requires !Blank(scope.session) && ValidKey(key)
    ensures forall a :: a in actions ==> a != DroppingTurn(0)
    ensures var later := Started(router, actions);
            && 0 in later.calls && later.calls[0].phase.Finished? && 1 in later.calls && later.calls[1].phase.Running?
            && later.calls[1].phase.key == key && key in later.router.exact
            && later.router.exact[key] == later.calls[1].phase.channel
            && key !in DropTurn(later, 0).router.exact && DropTurn(later, 0).calls[1] == later.calls[1]
  {
    hide MOk, Ok, Act, Blank, OpenTurn;
    InitialOk(router);
    var m := Initial(router);
    OpenTurnSucceeds(m, 0, scope, key);
    var running := Run(m, OpenTurn(0, scope, key));
    var finish := FinishTurn(0);
    FinishTurnSucceeds(running, 0);
    var finished := Run(running, finish);
    OpenTurnSucceeds(finished, 1, scope, key);
    RunAppend(running, finish, OpenTurn(1, scope, key));
    RunAppend(m, OpenTurn(0, scope, key), finish + OpenTurn(1, scope, key));
    actions := OpenTurn(0, scope, key) + (finish + OpenTurn(1, scope, key));
    NoDropInside(scope, key);
  }

  function FinishTurn(id: nat): seq<Action> { [FinishingTurn(id)] + ([DroppingLease(id)] + []) }

  lemma NoDropInside(scope: Scope, key: Key)
    ensures forall a :: a in OpenTurn(0, scope, key) || a in OpenTurn(1, scope, key) || a in FinishTurn(0) ==> !a.DroppingTurn?
  {
  }

  lemma FinishTurnSucceeds(m: Manager, id: nat)
    requires MOk(m) && id in m.calls && m.calls[id].phase.Running?
    ensures var p := m.calls[id].phase;
            var after := Run(m, FinishTurn(id));
            && after.calls == m.calls[id := m.calls[id].(phase := Finished(p.key, p.channel))]
            && after.active == m.active - {m.calls[id].scope}
            && after.router.exact == m.router.exact - {p.key} && after.router.pending == m.router.pending
  {
    hide MOk, Act;
    WellFormed(m);
    FinishStep(m, id);
    RunOne(m, FinishingTurn(id), [DroppingLease(id)] + []);
    var closed := Act(m, FinishingTurn(id));
    WellFormed(closed);
    LeaveStep(closed, id);
    RunOne(closed, DroppingLease(id), []);
  }

  lemma TerminalIsExact(m: Manager, key: Key)
    requires MOk(m) && key !in m.router.exact
    ensures key !in m.router.terminal
  {
    assert m.router.terminal <= m.router.exact.Keys;
  }

  lemma {:induction false} FinishedStays(m: Manager, actions: seq<Action>, id: nat)
    requires MOk(m) && id in m.calls && m.calls[id].phase.Finished?
    requires forall i :: 0 <= i < |actions| ==> actions[i] != DroppingTurn(id)
    ensures id in Run(m, actions).calls && Run(m, actions).calls[id] == m.calls[id]
    decreases actions
  {
    if actions != [] {
      WellFormed(m);
      ActKeepsMOk(m, actions[0]);
      FinishedStep(m, actions[0], id);
      hide MOk, Act;
      FinishedStays(Act(m, actions[0]), actions[1..], id);
    }
  }

  lemma FinishedStep(m: Manager, a: Action, id: nat)
    requires id in m.calls && m.calls[id].phase.Finished? && a != DroppingTurn(id)
    requires forall k :: k in m.router.exact ==> m.router.exact[k] in m.router.channels
    ensures id in Act(m, a).calls && Act(m, a).calls[id] == m.calls[id]
  {
    hide Promote, Begin, RouterSteps.Step;
  }
}
