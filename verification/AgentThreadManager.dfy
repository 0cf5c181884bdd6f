/**
  Starting, finishing and dropping one turn as the manager's methods perform it
  (agent_thread_manager.rs), with the answers of service and transport as inputs.
*/
module AgentThreadManager {
  import opened Text
  import opened RouterSteps
  import opened TurnManager

  /** What the session service and the transport answer during one start. */
  datatype Answers = Answers(
    inputOk: bool,             // the other identifiers of the input are not blank and its parameters are objects
    prepared: bool,            // the run loads, the connection is up, the thread is active
    thread: string,            // the external thread id
    paramsOk: bool,            // the turn parameters can be built
    early: seq<Raw>,           // what the connection reader routes while the request is under way
    turn: Option<string>,      // the turn id of the turn/start response
    bound: bool)               // the record is bound to the turn

  datatype Started = Failure | Turn(key: Key, channel: nat)

  /** The router after the reader has routed the messages. */
  ghost function RouteAll(r: RouterSteps.Router, messages: seq<Raw>): (after: RouterSteps.Router)
    requires Ok(r)
    ensures Ok(after)
    decreases messages
  {
    OkIsWellFormed(r);
    RouteKeepsOk(r, if messages == [] then Unparsable else messages[0]);
    if messages == [] then r else RouteAll(Route(r, messages[0]).0, messages[1..])
  }

  /** The same pending routes, whose buffers may have grown. */
  ghost predicate SamePending(a: map<string, Pending>, b: map<string, Pending>) {
    a.Keys == b.Keys && forall t :: t in a ==> a[t].registration == b[t].registration
  }

  lemma RouteKeepsRoutes(r: RouterSteps.Router, raw: Raw)
    requires forall k :: k in r.exact ==> r.exact[k] in r.channels
    ensures Route(r, raw).0.exact == r.exact && SamePending(r.pending, Route(r, raw).0.pending)
    ensures Route(r, raw).0.channels.Keys == r.channels.Keys && Route(r, raw).0.nextChannel == r.nextChannel
  {
  }

  /** The early notifications of the thread all belong to the turn. */
  ghost predicate EarlyFits(r: RouterSteps.Router, answers: Answers)
    requires Ok(r)
  {
    BeginKeepsOk(r, answers.thread);
    var waiting := RouteAll(Begin(r, answers.thread).0, answers.early);
    answers.turn.Some? && answers.thread in waiting.pending
    && FirstMismatch(waiting.pending[answers.thread].buffer, answers.turn.value).None?
  }

  class ThreadManager {
    var active: set<Scope>
    var router: RouterSteps.Router

    constructor (router: RouterSteps.Router)
      ensures active == {} && this.router == router
    {
      active := {};
      this.router := router;
    }

    /** `start_turn` and `start_scoped_turn`, disturbed by the connection reader only: an error leaves leases and routes
        as they were; success adds this one lease and this one exact route and nothing else. */
    method StartTurn(scope: Scope, answers: Answers) returns (result: Started)
      requires Ok(router)
      modifies this
      ensures Ok(router) && SamePending(old(router).pending, router.pending)
      ensures result.Failure? ==> active == old(active) && router.exact == old(router).exact
      ensures result.Turn? ==>
                && scope !in old(active) && active == old(active) + {scope}
                && result.key !in old(router).exact && router.exact == old(router).exact[result.key := result.channel]
                && result.channel !in old(router).channels && answers.turn.Some?
                && result.key == Key(answers.thread, answers.turn.value)
      ensures result.Turn? <==>
                && !Blank(scope.session) && answers.inputOk && scope !in old(active) && answers.prepared
                && !Blank(answers.thread) && answers.thread !in old(router).pending
                && answers.paramsOk && answers.turn.Some? && !Blank(answers.turn.value)
                && Key(answers.thread, answers.turn.value) !in old(router).exact
                && EarlyFits(old(router), answers) && answers.bound
    {
      hide Ok, Blank, EarlyFits;
      if Blank(scope.session) || !answers.inputOk || scope in active {
        return Failure;
      }
      active := active + {scope};
      result := OpenRoute(answers);
      if result.Failure? {
        active := active - {scope};  // the lease is dropped with the failed call
      }
    }

    method OpenRoute(answers: Answers) returns (result: Started)
      requires Ok(router)
      modifies this`router
      ensures Ok(router) && SamePending(old(router).pending, router.pending)
      ensures result.Failure? ==> router.exact == old(router).exact
      ensures result.Turn? ==>
                && result.key !in old(router).exact && router.exact == old(router).exact[result.key := result.channel]
                && result.channel !in old(router).channels && answers.turn.Some?
                && result.key == Key(answers.thread, answers.turn.value)
      ensures result.Turn? <==>
                && answers.prepared && !Blank(answers.thread) && answers.thread !in old(router).pending
                && answers.paramsOk && answers.turn.Some? && !Blank(answers.turn.value)
                && Key(answers.thread, answers.turn.value) !in old(router).exact
                && EarlyFits(old(router), answers) && answers.bound
    {
      hide Ok, Blank, FirstMismatch;
      if !answers.prepared {
        return Failure;
      }
      BeginKeepsOk(router, answers.thread);
      var (begun, reply) := Begin(router, answers.thread);
      router := begun;
      if !reply.Begun? {
        return Failure;
      }
      ReadEarly(answers.early);
      result := PromoteAndBind(reply.handle, answers);
    }

    /** The reader routes notifications while the call waits for its turn id. */
    method ReadEarly(messages: seq<Raw>)
      requires Ok(router)
      modifies this`router
      ensures Ok(router) && router == RouteAll(old(router), messages)
      ensures router.exact == old(router).exact && SamePending(old(router).pending, router.pending)
      ensures router.channels.Keys == old(router).channels.Keys
    {
      hide Ok, Route;
      var i := 0;
      while i < |messages|
        invariant 0 <= i <= |messages| && Ok(router) && RouteAll(old(router), messages) == RouteAll(router, messages[i..])
        invariant router.exact == old(router).exact && SamePending(old(router).pending, router.pending)
        invariant router.channels.Keys == old(router).channels.Keys
      {
        assert messages[i..][1..] == messages[i + 1..];
        OkIsWellFormed(router);
        RouteKeepsOk(router, messages[i]);
        RouteKeepsRoutes(router, messages[i]);
        router := Route(router, messages[i]).0;
        i := i + 1;
      }
    }

    method PromoteAndBind(handle: Handle, answers: Answers) returns (result: Started)
      requires Ok(router) && Current(router, handle)
      requires handle.thread == answers.thread && !Blank(answers.thread)
      modifies this`router
      ensures Ok(router)
      ensures router.pending == old(router).pending - {handle.thread}
      ensures result.Failure? ==> router.exact == old(router).exact
      ensures result.Turn? ==>
                && result.key !in old(router).exact && router.exact == old(router).exact[result.key := result.channel]
                && result.channel !in old(router).channels && answers.turn.Some?
                && result.key == Key(answers.thread, answers.turn.value)
      ensures result.Turn? <==>
                && answers.paramsOk && answers.turn.Some? && !Blank(answers.turn.value)
                && Key(answers.thread, answers.turn.value) !in old(router).exact
                && FirstMismatch(old(router).pending[handle.thread].buffer, answers.turn.value).None? && answers.bound
    {
      hide Ok, Blank, FirstMismatch;
      if !answers.paramsOk || answers.turn.None? {
        DroppingKeepsOk(router, Cancelling(handle));
        router := Cancel(router, handle).0;
        return Failure;
      }
      PromoteKeepsOk(router, handle, answers.turn.value);
      BufferFitsRoute(router, handle);
      ChannelsAreOld(router);
      var (promoted, reply) := Promote(router, handle, answers.turn.value);
      if !reply.Promoted? {
        DroppingKeepsOk(router, Cancelling(handle));
        router := Cancel(router, handle).0;
        return Failure;
      }
      router := promoted;
      var key := Key(handle.thread, answers.turn.value);
      if !answers.bound {
        DroppingKeepsOk(router, Unregistering(key));
        router := Unregister(router, key).0;
        assert router.exact == old(router).exact;
        return Failure;
      }
      result := Turn(key, reply.channel);
    }
  }

  /** A pending buffer never outgrows a channel. */
  lemma BufferFitsRoute(r: RouterSteps.Router, h: Handle)
    requires Ok(r) && Current(r, h)
    ensures |r.pending[h.thread].buffer| <= r.routeCapacity
  {
    assert PendingOk(r, h.thread, r.pending[h.thread]);
  }

  lemma ChannelsAreOld(r: RouterSteps.Router)
    requires Ok(r)
    ensures r.nextChannel !in r.channels
  {
  }

  /** A turn that `start_turn` returned, with the lease it may still hold. */
  class ManagedTurn {
    const manager: ThreadManager
    const scope: Scope
    const key: Key
    var leased: bool

    constructor (manager: ThreadManager, scope: Scope, key: Key)
      ensures this.manager == manager && this.scope == scope && this.key == key && leased
    {
      this.manager, this.scope, this.key, leased := manager, scope, key, true;
    }

    /** `finish_turn`: nothing is released unless the thread record is saved. */
    method FinishTurn(saved: bool) returns (ok: bool)
      requires Ok(manager.router)
      modifies this, manager
      ensures Ok(manager.router) && ok == saved
      ensures !saved ==> leased == old(leased) && manager.active == old(manager.active) && manager.router == old(manager.router)
      ensures saved ==>
                && !leased && manager.active == (if old(leased) then old(manager.active) - {scope} else old(manager.active))
                && manager.router == Unregister(old(manager.router), key).0 && key !in manager.router.exact
    {
      if !saved {
        return false;
      }
      Release();
      ok := true;
    }

    /** Dropping the turn: a lease that was already released is not released again. */
    method Release()
      requires Ok(manager.router)
      modifies this, manager
      ensures Ok(manager.router) && !leased
      ensures manager.active == (if old(leased) then old(manager.active) - {scope} else old(manager.active))
      ensures manager.router == Unregister(old(manager.router), key).0 && key !in manager.router.exact
    {
      DroppingKeepsOk(manager.router, Unregistering(key));
      hide Ok;
      manager.router := Unregister(manager.router, key).0;
      if leased {
        manager.active := manager.active - {scope};
        leased := false;
      }
    }
  }
}
