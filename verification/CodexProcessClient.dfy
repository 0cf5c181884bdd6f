/**
  The process client as an object: each method is one atomic step of a task that runs
  `ensure_initialized`, of the task it spawns, of a reader or of `shutdown` (codex_process_client.rs).
*/
module CodexProcessClient {
  import opened Text
  import opened ProcessClient

  class CodexClient {
    var slot: Option<nat>
    var latest: nat
    var connections: map<nat, Connection>

    ghost function State(): Client
      reads this
    {
      Client(slot, latest, connections)
    }

    constructor ()
      ensures State() == INITIAL && ClientOk(State())
    {
      slot, latest, connections := None, 0, map[];
    }

    /** `ensure_started` under the state lock: the live connection, or a new one of the next generation if the process
        can be spawned; if not, nothing changes. */
    method EnsureStarted(caller: nat, spawns: bool) returns (ok: bool)
      requires ClientOk(State())
      modifies this
      ensures ClientOk(State()) && ok == (old(slot).Some? || spawns)
      ensures State() == if ok then Act(old(State()), Enter(caller)) else old(State())
      ensures ok ==> slot.Some? && slot.value in connections && caller in connections[slot.value].callers
      ensures old(slot).Some? ==> slot == old(slot) && latest == old(latest)
      ensures ok && old(slot).None? ==> slot == Some(old(latest) + 1) && slot.value !in old(connections)
    {
      ActKeepsOk(State(), Enter(caller));
      if slot.Some? && slot.value in connections {
        var c := connections[slot.value];
        if caller !in c.callers {
          connections := connections[slot.value := Put(c, caller, Entered)];
        }
      } else if !spawns {
        return false;
      } else {
        latest := latest + 1;
        connections := connections[latest := Put(FRESH, caller, Entered)];
        slot := Some(latest);
      }
      ok := true;
    }

    /** The first look at the once-cell, before the loop. */
    method LookAtCell(generation: nat, caller: nat) returns (result: Option<Outcome>)
      requires ClientOk(State()) && generation in connections && At(connections[generation], caller, Entered)
      modifies this`connections
      ensures State() == Act(old(State()), CheckFirst(generation, caller)) && ClientOk(State())
      ensures result == old(connections)[generation].cell
    {
      ActKeepsOk(State(), CheckFirst(generation, caller));
      var c := connections[generation];
      result := c.cell;
      connections :=
        connections[generation := Put(c, caller, if result.Some? then Returned(result.value) else Competing)];
    }

    /** The compare-and-exchange; the only winner spawns the task that sends `initialize`. */
    method CompareExchange(generation: nat, caller: nat) returns (won: bool)
      requires ClientOk(State()) && generation in connections && At(connections[generation], caller, Competing)
      modifies this`connections
      ensures State() == Act(old(State()), Compete(generation, caller)) && ClientOk(State())
      ensures won == !old(connections)[generation].started && connections[generation].started
      ensures connections[generation].requests == old(connections)[generation].requests + (if won then 1 else 0) <= 1
    {
      ActKeepsOk(State(), Compete(generation, caller));
      var c := connections[generation];
      won := !c.started;
      var next := Put(c, caller, Looping);
      if won {
        next := next.(started := true, initializer := Requesting, requests := c.requests + 1);
      }
      connections := connections[generation := next];
    }

    /** Head of the loop: the future is created first, the cell is looked at next. */
    method CreateFuture(generation: nat, caller: nat)
      requires ClientOk(State()) && generation in connections && At(connections[generation], caller, Looping)
      modifies this`connections
      ensures State() == Act(old(State()), Listen(generation, caller)) && ClientOk(State())
    {
      ActKeepsOk(State(), Listen(generation, caller));
      var c := connections[generation];
      connections := connections[generation := Put(c, caller, Listening(c.notifications))];
    }

    method LookAgain(generation: nat, caller: nat) returns (result: Option<Outcome>)
      requires ClientOk(State()) && generation in connections
      requires caller in connections[generation].callers && connections[generation].callers[caller].Listening?
      modifies this`connections
      ensures State() == Act(old(State()), CheckAgain(generation, caller)) && ClientOk(State())
      ensures result == old(connections)[generation].cell
      ensures result.None? ==> connections[generation].callers[caller].Parked?
    {
      ActKeepsOk(State(), CheckAgain(generation, caller));
      var c := connections[generation];
      result := c.cell;
      connections := connections[generation :=
        Put(c, caller, if result.Some? then Returned(result.value) else Parked(c.callers[caller].seen))];
    }

    /** The end of the spawned task: set the cell, which must be empty, then notify every waiting future. */
    method CompleteInitialization(generation: nat) returns (initialized: bool)
      requires ClientOk(State()) && generation in connections && connections[generation].initializer.Answered?
      modifies this`connections
      ensures State() == Act(Act(old(State()), SetCell(generation)), Notify(generation)) && ClientOk(State())
      ensures initialized
      ensures forall caller | caller in connections[generation].callers
                              && connections[generation].callers[caller].Parked? :: Ready(connections[generation], caller)
    {
      ActKeepsOk(State(), SetCell(generation));
      ActKeepsOk(Act(State(), SetCell(generation)), Notify(generation));
      var c := connections[generation];
      initialized := c.cell.None?;
      if initialized {
        c := c.(cell := Some(c.initializer.outcome), initializer := CellSet);
      }
      c := c.(notifications := c.notifications + 1, initializer := Notified);
      connections := connections[generation := c];
    }

    /** The end of a reader: only its own connection is taken out of the slot. */
    method ReaderEnded(generation: nat)
      requires ClientOk(State())
      modifies this`slot
      ensures State() == Act(old(State()), ReaderEnds(generation)) && ClientOk(State())
      ensures slot == if old(slot) == Some(generation) then None else old(slot)
    {
      if slot == Some(generation) {
        slot := None;
      }
    }

    /** `shutdown`: the live connection is taken out of the slot; its process is to be killed. */
    method TakeForShutdown() returns (process: Option<nat>)
      requires ClientOk(State())
      modifies this`slot
      ensures State() == Act(old(State()), Shutdown) && ClientOk(State())
      ensures process == old(slot) && slot == None
    {
      process := slot;
      slot := None;
    }
  }
}
