/** The router as an object whose methods update its maps in place (notification_router.rs). */
module NotificationRouter {
  import opened Text
  import opened RouterSteps

  class Router {
    const routeCapacity: nat
    const pendingCapacity: nat
    var exact: map<Key, nat>
    var pending: map<string, Pending>
    var terminal: set<Key>
    var channels: map<nat, Channel>
    var nextSequence: nat
    var nextRegistration: nat
    var nextChannel: nat

    ghost function State(): RouterSteps.Router
      reads this
    {
      RouterSteps.Router(routeCapacity, pendingCapacity, exact, pending, terminal, channels,
                         nextSequence, nextRegistration, nextChannel)
    }

    ghost predicate Valid()
      reads this
    {
      Ok(State())
    }

    constructor (routeCapacity: nat, pendingCapacity: nat)
      requires 0 < pendingCapacity <= routeCapacity
      ensures New(routeCapacity, pendingCapacity, 1) == Some(State()) && Valid()
    {
      this.routeCapacity, this.pendingCapacity := routeCapacity, pendingCapacity;
      exact, pending, terminal, channels := map[], map[], {}, map[];
      nextSequence, nextRegistration, nextChannel := 1, 1, 0;
    }

    /** `NotificationRouter::new` with its refusals. */
    static method Create(routeCapacity: nat, pendingCapacity: nat, diagnosticCapacity: nat) returns (router: Option<Router>)
      ensures router.Some? <==> New(routeCapacity, pendingCapacity, diagnosticCapacity).Some?
      ensures router.Some? ==>
                && fresh(router.value) && router.value.Valid()
                && Some(router.value.State()) == New(routeCapacity, pendingCapacity, diagnosticCapacity)
    {
      if routeCapacity == 0 || pendingCapacity == 0 || pendingCapacity > routeCapacity || diagnosticCapacity == 0 {
        return None;
      }
      var created := new Router(routeCapacity, pendingCapacity);
      router := Some(created);
    }

    method RegisterRoute(key: Key) returns (reply: Reply)
      requires Valid()
      modifies this
      ensures Valid() && (State(), reply) == Register(old(State()), key)
    {
      RegisterKeepsOk(State(), key);
      hide Ok;
      if !ValidKey(key) {
        return Invalid;
      }
      if key in exact {
        return DuplicateExact;
      }
      terminal := terminal - {key};
      exact := exact[key := nextChannel];
      channels := channels[nextChannel := Channel(key, [], 0, true)];
      reply := Registered(nextChannel);
      nextChannel := nextChannel + 1;
    }

    method UnregisterRoute(key: Key) returns (reply: Reply)
      requires Valid()
      modifies this
      ensures Valid() && (State(), reply) == Unregister(old(State()), key)
    {
      DroppingKeepsOk(State(), Unregistering(key));
      hide Ok;
      reply := Removed(key in exact);
      exact := exact - {key};
      terminal := terminal - {key};
    }

    method FailAllRoutes() returns (reply: Reply)
      requires Valid()
      modifies this
      ensures Valid() && (State(), reply) == FailAll(old(State()))
    {
      DroppingKeepsOk(State(), FailingAll);
      hide Ok;
      reply := Dropped(|exact|, |pending|);
      exact, pending, terminal := map[], map[], {};
    }

    method BeginPendingRoute(thread: string) returns (reply: Reply)
      requires Valid()
      modifies this
      ensures Valid() && (State(), reply) == Begin(old(State()), thread)
    {
      BeginKeepsOk(State(), thread);
      hide Ok;
      if Blank(thread) {
        return Invalid;
      }
      var registration := nextRegistration;
      nextRegistration := nextRegistration + 1;
      if thread in pending {
        return DuplicatePending;
      }
      pending := pending[thread := Pending(registration, [], {})];
      reply := Begun(Handle(thread, registration));
    }

    /** Looks for a buffered notification of another turn. */
    method FindMismatch(buffer: seq<Note>, turn: string) returns (actual: Option<string>)
      ensures actual == FirstMismatch(buffer, turn)
    {
      var i := 0;
      assert buffer[0..] == buffer;
      while i < |buffer|
        invariant 0 <= i <= |buffer| && FirstMismatch(buffer[i..], turn) == FirstMismatch(buffer, turn)
      {
        if buffer[i].turn.Some? && buffer[i].turn.value != turn {
          return buffer[i].turn;
        }
        assert buffer[i..][1..] == buffer[i + 1..];
        i := i + 1;
      }
      actual := None;
    }

    /** Moves the early notifications, oldest first, into a new channel. */
    method MoveQueue(key: Key, buffer: seq<Note>) returns (channel: Channel)
      ensures channel == Channel(key, buffer, 0, true)
    {
      channel := Channel(key, [], 0, true);
      var queue := buffer;
      while queue != []
        invariant channel == Channel(key, channel.sent, 0, true)
        invariant channel.sent + queue == buffer
      {
        channel := channel.(sent := channel.sent + [queue[0]]);
        queue := queue[1..];
      }
    }

    method PromotePendingRoute(handle: Handle, turn: string) returns (reply: Reply)
      requires Valid()
      modifies this
      ensures Valid() && (State(), reply) == Promote(old(State()), handle, turn)
    {
      PromoteKeepsOk(State(), handle, turn);
      hide Ok, Promote;
      reply := PromoteUnderLock(handle, turn);
    }

    method PromoteUnderLock(handle: Handle, turn: string) returns (reply: Reply)
      modifies this
      ensures (State(), reply) == Promote(old(State()), handle, turn)
    {
      hide FirstMismatch, ValidKey;
      var key := Key(handle.thread, turn);
      if !ValidKey(key) {
        return Invalid;
      }
      if key in exact {
        return DuplicateExact;
      }
      if handle.thread !in pending || pending[handle.thread].registration != handle.registration {
        return UnknownPending;
      }
      var route := pending[handle.thread];
      var mismatch := FindMismatch(route.buffer, turn);
      if mismatch.Some? {
        return TurnMismatch(mismatch.value);
      }
      if |route.buffer| > routeCapacity {
        return ChannelFull;
      }
      pending := pending - {handle.thread};
      var channel := MoveQueue(key, route.buffer);
      if turn in route.terminalTurns {
        terminal := terminal + {key};
      } else {
        terminal := terminal - {key};
      }
      exact := exact[key := nextChannel];
      channels := channels[nextChannel := channel];
      reply := Promoted(nextChannel);
      nextChannel := nextChannel + 1;
    }

    method CancelPendingRoute(handle: Handle) returns (reply: Reply)
      requires Valid()
      modifies this
      ensures Valid() && (State(), reply) == Cancel(old(State()), handle)
    {
      DroppingKeepsOk(State(), Cancelling(handle));
      hide Ok;
      if handle.thread !in pending || pending[handle.thread].registration != handle.registration {
        return UnknownPending;
      }
      reply := Cancelled(|pending[handle.thread].buffer|);
      pending := pending - {handle.thread};
    }

    method RouteNotification(raw: Raw) returns (reply: Reply)
      requires Valid()
      modifies this
      ensures Valid() && (forall k :: k in old(exact) ==> old(exact)[k] in old(channels))
      ensures (State(), reply) == Route(old(State()), raw)
    {
      OkIsWellFormed(State());
      RouteKeepsOk(State(), raw);
      hide Ok, Route;
      reply := RouteUnderLock(raw);
    }

    method RouteUnderLock(raw: Raw) returns (reply: Reply)
      requires forall k :: k in exact ==> exact[k] in channels
      modifies this
      ensures (forall k :: k in old(exact) ==> old(exact)[k] in old(channels))
      ensures (State(), reply) == Route(old(State()), raw)
    {
      hide TerminalName;
      var sequence := nextSequence;
      nextSequence := nextSequence + 1;
      if raw.Unparsable? {
        return Invalid;
      }
      var note := Note(sequence, raw.name, raw.thread, raw.turn, raw.body);
      if raw.thread.Some? && raw.turn.Some? {
        var thread, turn := raw.thread.value, raw.turn.value;
        var key := Key(thread, turn);
        if TerminalName(note.name) && key in terminal {
          return Suppressed;
        }
        if key in exact {
          var channel := channels[exact[key]];
          if !channel.open {
            return ChannelClosed;
          }
          if |channel.sent| - channel.consumed >= routeCapacity {
            return ChannelFull;
          }
          channels := channels[exact[key] := channel.(sent := channel.sent + [note])];
          if TerminalName(note.name) {
            terminal := terminal + {key};
          }
          return Exact;
        }
        if thread in pending {
          var route := pending[thread];
          if TerminalName(note.name) {
            if turn in route.terminalTurns {
              return Suppressed;
            }
            route := route.(terminalTurns := route.terminalTurns + {turn});
          }
          if |route.buffer| >= pendingCapacity {
            return BufferFull;
          }
          pending := pending[thread := route.(buffer := route.buffer + [note])];
          return Buffered;
        }
      }
      reply := if raw.thread.None? && raw.turn.None? then Global else Orphan;
    }
  }
}
