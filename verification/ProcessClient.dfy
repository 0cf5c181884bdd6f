/**
  Single-flight initialisation of the agent process (codex_process_client.rs):
  any number of callers, one `initialize` per connection, no lost wake-up.
*/
module ProcessClient {
  import opened Text

  type Outcome = Option<string>  // None is success, Some(e) the error text

  /** Where a caller of `ensure_initialized` stands on its connection. */
  datatype Caller =
    | Entered                          // has the connection, has not looked at the cell
    | Competing                        // found the cell empty, about to compare-and-exchange
    | Looping                          // at the head of the loop
    | Listening(seen: nat)             // created the notified future when `seen` notifications had happened
    | Parked(seen: nat)                // found the cell empty, awaits the future
    | Returned(outcome: Outcome)

  /** The task spawned by the caller that won the compare-and-exchange. */
  datatype Initializer = NotSpawned | Requesting | Answered(outcome: Outcome) | CellSet | Notified

  /** One connection: the once-cell, the atomic flag, the notifier and the callers that hold it. */
  datatype Connection = Connection(
    cell: Option<Outcome>, started: bool, notifications: nat,
    initializer: Initializer, requests: nat, callers: map<nat, Caller>)

  /** The client's slot holds at most one live connection; dead ones stay reachable to their callers. */
  datatype Client = Client(slot: Option<nat>, latest: nat, connections: map<nat, Connection>)

  const FRESH: Connection := Connection(None, false, 0, NotSpawned, 0, map[])

  datatype Action =
    | Enter(caller: nat)                       // ensure_started, then hold that connection
    | CheckFirst(generation: nat, caller: nat)
    | Compete(generation: nat, caller: nat)
    | Listen(generation: nat, caller: nat)
    | CheckAgain(generation: nat, caller: nat)
    | Wake(generation: nat, caller: nat)
    | Answer(generation: nat, outcome: Outcome)
    | SetCell(generation: nat)
    | Notify(generation: nat)
    | ReaderEnds(generation: nat)              // clears the slot only if it still holds this generation
    | Shutdown

  // ----- one connection -------------------------------------------------------

  predicate At(c: Connection, caller: nat, where: Caller) {
    caller in c.callers && c.callers[caller] == where
  }

  function Put(c: Connection, caller: nat, where: Caller): Connection {
    c.(callers := c.callers[caller := where])
  }

  /** The future is ready once a notification has happened after its creation. */
  predicate Ready(c: Connection, caller: nat) {
    caller in c.callers && c.callers[caller].Parked? && c.callers[caller].seen < c.notifications
  }

  function Local(c: Connection, a: Action): Connection {
    match a
    case CheckFirst(_, caller) =>
      if !At(c, caller, Entered) then c
      else if c.cell.Some? then Put(c, caller, Returned(c.cell.value))
      else Put(c, caller, Competing)
    case Compete(_, caller) =>
      if !At(c, caller, Competing) then c
      else if c.started then Put(c, caller, Looping)
      else Put(c, caller, Looping).(started := true, initializer := Requesting, requests := c.requests + 1)
    case Listen(_, caller) =>
      if At(c, caller, Looping) then Put(c, caller, Listening(c.notifications)) else c
    case CheckAgain(_, caller) =>
      if !(caller in c.callers && c.callers[caller].Listening?) then c
      else if c.cell.Some? then Put(c, caller, Returned(c.cell.value))
      else Put(c, caller, Parked(c.callers[caller].seen))
    case Wake(_, caller) =>
      if Ready(c, caller) then Put(c, caller, Looping) else c
    case Answer(_, outcome) =>
      if c.initializer == Requesting then c.(initializer := Answered(outcome)) else c
    case SetCell(_) =>
      if c.initializer.Answered? && c.cell.None?
      then c.(cell := Some(c.initializer.outcome), initializer := CellSet) else c
    case Notify(_) =>
      if c.initializer == CellSet then c.(notifications := c.notifications + 1, initializer := Notified) else c
    case _ => c
  }

  // ----- the client -----------------------------------------------------------

  function Act(s: Client, a: Action): Client {
    match a
    case Enter(caller) =>
      if s.slot.Some? && s.slot.value in s.connections then
        var c := s.connections[s.slot.value];
        if caller in c.callers then s
        else s.(connections := s.connections[s.slot.value := Put(c, caller, Entered)])
      else
        var generation := s.latest + 1;
        Client(Some(generation), generation, s.connections[generation := Put(FRESH, caller, Entered)])
    case ReaderEnds(generation) => if s.slot == Some(generation) then s.(slot := None) else s
    case Shutdown => s.(slot := None)
    case _ =>
      if a.generation in s.connections
      then s.(connections := s.connections[a.generation := Local(s.connections[a.generation], a)])
      else s
  }

  ghost function Run(s: Client, actions: seq<Action>): Client
    decreases actions
  {
    if actions == [] then s else Run(Act(s, actions[0]), actions[1..])
  }

  const INITIAL: Client := Client(None, 0, map[])

  // ----- the invariant --------------------------------------------------------

  /** What each caller may rely on; a parked caller created its future before any notification. */
  ghost predicate CallerOk(c: Connection, caller: Caller) {
    match caller
    case Listening(seen) => seen <= c.notifications
    case Parked(seen) => seen == 0 && c.started
    case Looping => c.started
    case Returned(outcome) => c.cell == Some(outcome)
    case _ => true
  }

  ghost predicate InitializerOk(c: Connection) {
    match c.initializer
    case NotSpawned => !c.started && c.cell.None? && c.notifications == 0 && c.requests == 0
    case Requesting => c.started && c.cell.None? && c.notifications == 0 && c.requests == 1
    case Answered(_) => c.started && c.cell.None? && c.notifications == 0 && c.requests == 1
    case CellSet => c.started && c.cell.Some? && c.notifications == 0 && c.requests == 1
    case Notified => c.started && c.cell.Some? && c.notifications == 1 && c.requests == 1
  }

  ghost predicate ConnectionOk(c: Connection) {
    && InitializerOk(c)
    && (forall i :: i in c.callers ==> CallerOk(c, c.callers[i]))
    && (forall i :: i in c.callers && c.callers[i].Listening? ==> c.started)
  }

  ghost predicate ClientOk(s: Client) {
    && (forall g :: g in s.connections ==> 1 <= g <= s.latest && ConnectionOk(s.connections[g]))
    && (s.slot.Some? ==> s.slot.value in s.connections)
  }

  lemma LocalKeepsOk(c: Connection, a: Action)
    requires ConnectionOk(c)
    ensures ConnectionOk(Local(c, a))
  {
  }

  lemma ActKeepsOk(s: Client, a: Action)
    requires ClientOk(s)
    ensures ClientOk(Act(s, a))
  {
    if !a.Enter? && !a.ReaderEnds? && !a.Shutdown? && a.generation in s.connections {
      LocalKeepsOk(s.connections[a.generation], a);
    }
  }

  lemma {:induction false} RunKeepsOk(s: Client, actions: seq<Action>)
    requires ClientOk(s)
    ensures ClientOk(Run(s, actions))
    decreases actions
  {
    if actions != [] {
      ActKeepsOk(s, actions[0]);
      RunKeepsOk(Act(s, actions[0]), actions[1..]);
    }
  }

  // ----- single flight --------------------------------------------------------

  /** However many callers interleave: at most one `initialize` per connection, one exactly if anyone won
      the race, and every caller that returns got the one result that is in the cell. */
  lemma SingleFlight(actions: seq<Action>, g: nat)
    requires g in Run(INITIAL, actions).connections
    ensures var c := Run(INITIAL, actions).connections[g];
            && c.requests <= 1 && (c.requests == 1 <==> c.started)
            && (forall i, j | i in c.callers && j in c.callers ::
                  c.callers[i].Returned? && c.callers[j].Returned? ==> c.callers[i].outcome == c.callers[j].outcome)
  {
    RunKeepsOk(INITIAL, actions);
    var c := Run(INITIAL, actions).connections[g];
    assert ConnectionOk(c);
    forall i | i in c.callers && c.callers[i].Returned? ensures c.cell == Some(c.callers[i].outcome) {
      assert CallerOk(c, c.callers[i]);
    }
  }

  /** The spawned task never finds the cell already set, so its assertion cannot fail. */
  lemma CellIsSetOnce(actions: seq<Action>, g: nat)
    requires g in Run(INITIAL, actions).connections
    ensures var c := Run(INITIAL, actions).connections[g]; c.initializer.Answered? ==> c.cell.None?
  {
    RunKeepsOk(INITIAL, actions);
    assert ConnectionOk(Run(INITIAL, actions).connections[g]);
  }

  /** No lost wake-up: once the notification was sent, every parked caller is ready to run. */
  lemma NobodyStaysParked(actions: seq<Action>, g: nat, caller: nat)
    requires g in Run(INITIAL, actions).connections
    requires var c := Run(INITIAL, actions).connections[g];
             c.initializer == Notified && caller in c.callers && c.callers[caller].Parked?
    ensures Ready(Run(INITIAL, actions).connections[g], caller)
  {
    RunKeepsOk(INITIAL, actions);
    var c := Run(INITIAL, actions).connections[g];
    assert ConnectionOk(c) && CallerOk(c, c.callers[caller]);
  }

  // ----- every caller gets through --------------------------------------------

  /** The caller's own steps that are still needed once the notification was sent. */
  function StepsLeft(where: Caller): nat {
    match where
    case Returned(_) => 0
    case Entered => 1
    case Listening(_) => 1
    case Looping => 2
    case Competing => 3
    case Parked(_) => 3
  }

  /** The next step of a caller. */
  function NextOf(g: nat, caller: nat, where: Caller): Action {
    match where
    case Entered => CheckFirst(g, caller)
    case Competing => Compete(g, caller)
    case Looping => Listen(g, caller)
    case Listening(_) => CheckAgain(g, caller)
    case Parked(_) => Wake(g, caller)
    case Returned(_) => Wake(g, caller)
  }

  /** After the notification every step of a caller brings it closer to its result, whatever others do. */
  lemma CallerGetsThrough(c: Connection, g: nat, caller: nat)
    requires ConnectionOk(c) && c.initializer == Notified && caller in c.callers && !c.callers[caller].Returned?
    ensures var after := Local(c, NextOf(g, caller, c.callers[caller]));
            caller in after.callers && StepsLeft(after.callers[caller]) < StepsLeft(c.callers[caller])
  {
    assert CallerOk(c, c.callers[caller]);
  }

  lemma OthersDoNotDelay(c: Connection, a: Action, caller: nat)
    requires ConnectionOk(c) && c.initializer == Notified && caller in c.callers
    ensures var after := Local(c, a);
            && after.initializer == Notified && after.cell == c.cell
            && caller in after.callers && StepsLeft(after.callers[caller]) <= StepsLeft(c.callers[caller])
  {
    assert CallerOk(c, c.callers[caller]);
  }

  /** The action is the caller's own next step. */
  predicate IsOwnStep(s: Client, g: nat, caller: nat, a: Action) {
    && g in s.connections && caller in s.connections[g].callers
    && a == NextOf(g, caller, s.connections[g].callers[caller])
  }

  /** How many actions of a run are the caller's own next step at the moment they happen. */
  ghost function OwnSteps(s: Client, actions: seq<Action>, g: nat, caller: nat): nat
    decreases actions
  {
    if actions == [] then 0
    else (if IsOwnStep(s, g, caller, actions[0]) then 1 else 0) + OwnSteps(Act(s, actions[0]), actions[1..], g, caller)
  }

  /** One action of anyone, seen from a caller of a connection that was notified. */
  lemma ActBringsCloser(s: Client, a: Action, g: nat, caller: nat)
    requires ClientOk(s) && g in s.connections && caller in s.connections[g].callers
    requires s.connections[g].initializer == Notified
    ensures var after := Act(s, a);
            && g in after.connections && caller in after.connections[g].callers
            && after.connections[g].initializer == Notified && after.connections[g].cell == s.connections[g].cell
            && var (was, now) := (s.connections[g].callers[caller], after.connections[g].callers[caller]);
               && StepsLeft(now) <= StepsLeft(was)
               && (IsOwnStep(s, g, caller, a) && !was.Returned? ==> StepsLeft(now) < StepsLeft(was))
  {
    var c := s.connections[g];
    assert ConnectionOk(c);
    OthersDoNotDelay(c, a, caller);
    if IsOwnStep(s, g, caller, a) && !c.callers[caller].Returned? {
      CallerGetsThrough(c, g, caller);
    }
    hide Local, ConnectionOk, StepsLeft;
  }

  /** In any run after the notification, a caller that takes as many steps of its own as it has left, at most three,
      has returned with the result in the cell, whatever all others did in between. */
  lemma {:induction false} EveryCallerReturns(s: Client, actions: seq<Action>, g: nat, caller: nat)
    requires ClientOk(s) && g in s.connections && caller in s.connections[g].callers
    requires s.connections[g].initializer == Notified
    ensures var last := Run(s, actions);
            && g in last.connections && caller in last.connections[g].callers
            && last.connections[g].cell == s.connections[g].cell
            && (OwnSteps(s, actions, g, caller) >= StepsLeft(s.connections[g].callers[caller]) ==>
                  && last.connections[g].cell.Some?
                  && last.connections[g].callers[caller] == Returned(last.connections[g].cell.value))
    decreases actions
  {
    if actions == [] {
      ReturnedMeansTheCell(s, g, caller);
    } else {
      ActBringsCloser(s, actions[0], g, caller);
      ActKeepsOk(s, actions[0]);
      hide ClientOk, Act, IsOwnStep;
      EveryCallerReturns(Act(s, actions[0]), actions[1..], g, caller);
    }
  }

  lemma ReturnedMeansTheCell(s: Client, g: nat, caller: nat)
    requires ClientOk(s) && g in s.connections && caller in s.connections[g].callers
    ensures var c := s.connections[g];
            StepsLeft(c.callers[caller]) == 0 ==> c.cell.Some? && c.callers[caller] == Returned(c.cell.value)
  {
    assert ConnectionOk(s.connections[g]) && CallerOk(s.connections[g], s.connections[g].callers[caller]);
  }

  // ----- generations ----------------------------------------------------------

  /** A reader that ends late clears the slot only if it still holds that reader's own connection, and a
      new connection gets a generation that no earlier one had. */
  lemma GenerationsAreFresh(actions: seq<Action>, caller: nat, g: nat)
    ensures var s := Run(INITIAL, actions);
            && (s.slot.None? ==>
                  Act(s, Enter(caller)).slot == Some(s.latest + 1) && s.latest + 1 !in s.connections)
            && (s.slot.Some? && s.slot.value != g ==> Act(s, ReaderEnds(g)) == s)
  {
    RunKeepsOk(INITIAL, actions);
  }

  /** A reader that ends takes its own connection out of the slot, and so does a shutdown, whichever it is; whoever comes
      next opens a connection of a generation that no earlier one had, with nothing done on it yet. */
  lemma DeadConnectionIsReplaced(actions: seq<Action>, g: nat, caller: nat)
    requires Run(INITIAL, actions).slot == Some(g)
    ensures var s := Run(INITIAL, actions);
            && Act(s, ReaderEnds(g)) == s.(slot := None) && Act(s, Shutdown) == s.(slot := None)
            && var next := Act(s.(slot := None), Enter(caller));
               && next.slot.Some? && next.slot.value > g && next.slot.value !in s.connections
               && next.connections == s.connections[next.slot.value := next.connections[next.slot.value]]
               && next.connections[next.slot.value]
                  == Connection(None, false, 0, NotSpawned, 0, map[caller := Entered])
  {
    RunKeepsOk(INITIAL, actions);
  }

  /** Once out of the slot, a connection never returns to it. */
  lemma {:induction false} DeadConnectionStaysOut(s: Client, actions: seq<Action>, g: nat)
    requires ClientOk(s) && g in s.connections && s.slot != Some(g)
    ensures Run(s, actions).slot != Some(g)
    decreases actions
  {
    if actions != [] {
      ActKeepsOk(s, actions[0]);
      DeadConnectionStaysOut(Act(s, actions[0]), actions[1..], g);
    }
  }

  /** While a connection is in the slot, everyone who comes joins it. */
  lemma LiveConnectionIsShared(actions: seq<Action>, g: nat, caller: nat)
    requires Run(INITIAL, actions).slot == Some(g)
    ensures var (s, next) := (Run(INITIAL, actions), Act(Run(INITIAL, actions), Enter(caller)));
            && g in s.connections && next.slot == Some(g) && next.latest == s.latest
            && next.connections.Keys == s.connections.Keys && caller in next.connections[g].callers
            && (caller !in s.connections[g].callers ==> next.connections[g].callers[caller] == Entered)
  {
    RunKeepsOk(INITIAL, actions);
  }

  // ----- the result is the response --------------------------------------------

  lemma {:induction false} RunAppend(s: Client, first: seq<Action>, rest: seq<Action>)
    ensures Run(s, first + rest) == Run(Run(s, first), rest)
    decreases first
  {
    if first == [] {
      assert first + rest == rest;
    } else {
      RunAppend(Act(s, first[0]), first[1..], rest);
      assert (first + rest)[1..] == first[1..] + rest;
    }
  }

  lemma RunOne(s: Client, a: Action)
    ensures Run(s, [a]) == Act(s, a)
  {
    hide Act;
    assert [a][1..] == [];
    assert Run(Act(s, a), []) == Act(s, a);
  }

  /** The response that the initialiser of the connection waited for is the `i`-th action. */
  ghost predicate AnsweredBy(actions: seq<Action>, g: nat, outcome: Outcome, i: int) {
    && 0 <= i < |actions| && actions[i] == Answer(g, outcome)
    && g in Run(INITIAL, actions[..i]).connections
    && Run(INITIAL, actions[..i]).connections[g].initializer == Requesting
  }

  /** The result is in the cell of the connection, or about to be put there. */
  predicate Holds(s: Client, g: nat, outcome: Outcome) {
    g in s.connections && (s.connections[g].cell == Some(outcome) || s.connections[g].initializer == Answered(outcome))
  }

  lemma OnlyAnswersAnswer(s: Client, a: Action, g: nat, outcome: Outcome)
    requires Holds(Act(s, a), g, outcome) && !Holds(s, g, outcome)
    ensures a == Answer(g, outcome) && g in s.connections && s.connections[g].initializer == Requesting
  {
  }

  /** What is in the cell, or about to be put there, is the response to the request of this connection. */
  lemma {:induction false} CellIsTheResponse(actions: seq<Action>, g: nat, outcome: Outcome)
    requires Holds(Run(INITIAL, actions), g, outcome)
    ensures exists i :: AnsweredBy(actions, g, outcome, i)
    decreases |actions|
  {
    if actions != [] {
      var (front, last) := (actions[..|actions| - 1], actions[|actions| - 1]);
      assert actions == front + [last];
      RunAppend(INITIAL, front, [last]);
      var s := Run(INITIAL, front);
      RunOne(s, last);
      hide Run, Act, Local;
      if Holds(s, g, outcome) {
        CellIsTheResponse(front, g, outcome);
        var i :| AnsweredBy(front, g, outcome, i);
        assert actions[..i] == front[..i];
        assert AnsweredBy(actions, g, outcome, i);
      } else {
        OnlyAnswersAnswer(s, last, g, outcome);
        assert AnsweredBy(actions, g, outcome, |actions| - 1);
      }
    }
  }

  /** The steps of a caller alone, until it is parked. */
  function Approach(g: nat, caller: nat): seq<Action> {
    [Enter(caller), CheckFirst(g, caller), Compete(g, caller), Listen(g, caller), CheckAgain(g, caller)]
  }

  /** The response arrives, and the parked caller is woken. */
  function Completion(g: nat, caller: nat, outcome: Outcome): seq<Action> {
    [Answer(g, outcome), SetCell(g), Notify(g), Wake(g, caller), Listen(g, caller), CheckAgain(g, caller)]
  }

  lemma OpensAConnection(s: Client, caller: nat)
    requires s.slot.None?
    ensures Act(s, Enter(caller)) ==
            Client(Some(s.latest + 1), s.latest + 1,
                   s.connections[s.latest + 1 := Connection(None, false, 0, NotSpawned, 0, map[caller := Entered])])
  {
  }

  lemma OnlyLocal(g: nat, caller: nat)
    ensures forall i :: 0 <= i < |Approach(g, caller)[1..]| ==> IsLocal(Approach(g, caller)[1..][i], g)
    ensures Approach(g, caller) == [Enter(caller)] + Approach(g, caller)[1..]
  {
  }

  /** The first caller on an empty slot opens a connection, sends its one request, and parks. */
  lemma FirstCallerParks(s: Client, caller: nat)
    requires ClientOk(s) && s.slot.None?
    ensures var g := s.latest + 1;
            g !in s.connections
            && Run(s, Approach(g, caller)) ==
               Client(Some(g), g, s.connections[g := Connection(None, true, 0, Requesting, 1, map[caller := Parked(0)])])
  {
    hide Act, Run, Locally, ConnectionOk;
    var g := s.latest + 1;
    var c := Connection(None, false, 0, NotSpawned, 0, map[caller := Entered]);
    OpensAConnection(s, caller);
    AloneParks(c, g, caller);
    OnlyLocal(g, caller);
    LocalRun(Act(s, Enter(caller)), Approach(g, caller)[1..], g);
    UnfoldFirst(s, Enter(caller), Approach(g, caller)[1..], Approach(g, caller));
  }

  /** The response wakes it, and it returns with the response. */
  lemma ParkedCallerGetsTheResponse(s: Client, g: nat, caller: nat, outcome: Outcome)
    requires g in s.connections && s.connections[g] == Connection(None, true, 0, Requesting, 1, map[caller := Parked(0)])
    ensures Run(s, Completion(g, caller, outcome)) ==
            s.(connections := s.connections[g :=
                 Connection(Some(outcome), true, 1, Notified, 1, map[caller := Returned(outcome)])])
  {
    hide Act, Local;
    ResponseWakes(s.connections[g], g, caller, outcome);
    LocalRun(s, Completion(g, caller, outcome), g);
  }

  /** Whoever comes when the result is there returns with it at the first look, without another request. */
  lemma LaterCallerGetsTheResult(s: Client, g: nat, later: nat)
    requires g in s.connections && s.slot == Some(g) && s.connections[g].cell.Some? && later !in s.connections[g].callers
    ensures var c := s.connections[g];
            Run(s, [Enter(later), CheckFirst(g, later)]) ==
            s.(connections := s.connections[g := c.(callers := c.callers[later := Returned(c.cell.value)])])
  {
    var c := s.connections[g];
    var joined := Act(s, Enter(later));
    assert joined == s.(connections := s.connections[g := Put(c, later, Entered)]);
    assert Local(Put(c, later, Entered), CheckFirst(g, later)) == c.(callers := c.callers[later := Returned(c.cell.value)]);
    hide Act, Local;
    LocalRun(joined, [CheckFirst(g, later)], g);
    UnfoldFirst(s, Enter(later), [CheckFirst(g, later)], [Enter(later), CheckFirst(g, later)]);
    LocalOne(joined.connections[g], CheckFirst(g, later));
  }

  lemma UnfoldFirst(s: Client, a: Action, rest: seq<Action>, all: seq<Action>)
    requires all == [a] + rest
    ensures Run(s, all) == Run(Act(s, a), rest)
  {
    assert all[1..] == rest;
  }

  predicate IsLocal(a: Action, g: nat) {
    !a.Enter? && !a.ReaderEnds? && !a.Shutdown? && a.generation == g
  }

  /** A run of local actions of one connection. */
  ghost function Locally(c: Connection, actions: seq<Action>): Connection
    decreases actions
  {
    if actions == [] then c else Locally(Local(c, actions[0]), actions[1..])
  }

  lemma {:induction false} LocalRun(s: Client, actions: seq<Action>, g: nat)
    requires g in s.connections && forall i :: 0 <= i < |actions| ==> IsLocal(actions[i], g)
    ensures Run(s, actions) == s.(connections := s.connections[g := Locally(s.connections[g], actions)])
    decreases actions
  {
    hide Local;
    if actions == [] {
      assert s.connections[g := s.connections[g]] == s.connections;
    } else {
      LocalRun(Act(s, actions[0]), actions[1..], g);
    }
  }

  lemma LocalOne(c: Connection, a: Action)
    ensures Locally(c, [a]) == Local(c, a)
  {
    hide Local;
    assert [a][1..] == [];
    assert Locally(Local(c, a), []) == Local(c, a);
  }

  lemma AloneParks(c: Connection, g: nat, caller: nat)
    requires c == Connection(None, false, 0, NotSpawned, 0, map[caller := Entered])
    ensures Locally(c, Approach(g, caller)[1..]) == Connection(None, true, 0, Requesting, 1, map[caller := Parked(0)])
  {
    var c1 := Local(c, CheckFirst(g, caller));
    var c2 := Local(c1, Compete(g, caller));
    var c3 := Local(c2, Listen(g, caller));
    var c4 := Local(c3, CheckAgain(g, caller));
    assert c4 == Connection(None, true, 0, Requesting, 1, map[caller := Parked(0)]);
    hide Local;
    LocalOne(c3, CheckAgain(g, caller));
    LocallyFirst(c2, Listen(g, caller), [CheckAgain(g, caller)]);
    LocallyFirst(c1, Compete(g, caller), [Listen(g, caller)] + [CheckAgain(g, caller)]);
    LocallyFirst(c, CheckFirst(g, caller), [Compete(g, caller)] + ([Listen(g, caller)] + [CheckAgain(g, caller)]));
    assert Approach(g, caller)[1..] ==
           [CheckFirst(g, caller)] + ([Compete(g, caller)] + ([Listen(g, caller)] + [CheckAgain(g, caller)]));
  }

  lemma LocallyFirst(c: Connection, a: Action, rest: seq<Action>)
    ensures Locally(c, [a] + rest) == Locally(Local(c, a), rest)
  {
    hide Local;
    assert ([a] + rest)[1..] == rest;
  }

  lemma ResponseWakes(c: Connection, g: nat, caller: nat, outcome: Outcome)
    requires c == Connection(None, true, 0, Requesting, 1, map[caller := Parked(0)])
    ensures Locally(c, Completion(g, caller, outcome))
            == Connection(Some(outcome), true, 1, Notified, 1, map[caller := Returned(outcome)])
  {
    var c1 := Local(c, Answer(g, outcome));
    var c2 := Local(c1, SetCell(g));
    var c3 := Local(c2, Notify(g));
    var c4 := Local(c3, Wake(g, caller));
    var c5 := Local(c4, Listen(g, caller));
    var c6 := Local(c5, CheckAgain(g, caller));
    assert c6 == Connection(Some(outcome), true, 1, Notified, 1, map[caller := Returned(outcome)]);
    hide Local;
    var end := [CheckAgain(g, caller)];
    LocalOne(c5, CheckAgain(g, caller));
    LocallyFirst(c4, Listen(g, caller), end);
    LocallyFirst(c3, Wake(g, caller), [Listen(g, caller)] + end);
    LocallyFirst(c2, Notify(g), [Wake(g, caller)] + ([Listen(g, caller)] + end));
    LocallyFirst(c1, SetCell(g), [Notify(g)] + ([Wake(g, caller)] + ([Listen(g, caller)] + end)));
    LocallyFirst(c, Answer(g, outcome), [SetCell(g)] + ([Notify(g)] + ([Wake(g, caller)] + ([Listen(g, caller)] + end))));
    assert Completion(g, caller, outcome) ==
           [Answer(g, outcome)] + ([SetCell(g)] + ([Notify(g)] + ([Wake(g, caller)] + ([Listen(g, caller)] + end))));
  }

  /** The order matters: a caller that checked the cell before it created its future would park for ever
      if cell and notification came in between; here the same schedule finds it still ready. */
  lemma FutureBeforeCheck(c: Connection, g: nat, caller: nat, outcome: Outcome)
    requires ConnectionOk(c) && c.initializer == Answered(outcome) && caller in c.callers
    requires c.callers[caller].Listening?
    ensures var parked := Local(c, CheckAgain(g, caller));
            var notified := Local(Local(parked, SetCell(g)), Notify(g));
            && parked.callers[caller].Parked? && Ready(notified, caller)
            && Local(Local(Local(notified, Wake(g, caller)), Listen(g, caller)), CheckAgain(g, caller)).callers[caller]
               == Returned(outcome)
  {
    assert CallerOk(c, c.callers[caller]);
  }
}
