/**
  The notification router (notification_router.rs): early notifications are
  buffered per thread, promoted to an exact (thread, turn) channel, and every
  registration is sent at most one terminal notification.
*/
module RouterSteps {
  import opened Text

  datatype Key = Key(thread: string, turn: string)

  /** A parsed notification with its transport sequence number. */
  datatype Note = Note(sequence: nat, name: string, thread: Option<string>, turn: Option<string>, body: string)

  /** A raw message: either it does not parse, or it has a method and optional identifiers. */
  datatype Raw = Unparsable | Parsable(name: string, thread: Option<string>, turn: Option<string>, body: string)

  datatype Pending = Pending(registration: nat, buffer: seq<Note>, terminalTurns: set<string>)

  /** A bounded channel: all that was ever sent, how much the receiver took, whether it still listens. */
  datatype Channel = Channel(key: Key, sent: seq<Note>, consumed: nat, open: bool)

  datatype Handle = Handle(thread: string, registration: nat)

  datatype Router = Router(
    routeCapacity: nat, pendingCapacity: nat,
    exact: map<Key, nat>, pending: map<string, Pending>, terminal: set<Key>,
    channels: map<nat, Channel>, nextSequence: nat, nextRegistration: nat, nextChannel: nat)

  datatype Reply =
    | Registered(channel: nat) | Promoted(channel: nat) | Begun(handle: Handle)
    | Removed(existed: bool) | Dropped(routes: nat, waiting: nat) | Cancelled(discarded: nat)
    | Exact | Buffered | Global | Orphan | Suppressed
    | Received(note: Note) | Nothing
    | Invalid | DuplicateExact | DuplicatePending | UnknownPending
    | ChannelClosed | ChannelFull | BufferFull | TurnMismatch(actual: string)

  predicate Failed(reply: Reply) {
    || reply.Invalid? || reply.DuplicateExact? || reply.DuplicatePending? || reply.UnknownPending?
    || reply.ChannelClosed? || reply.ChannelFull? || reply.BufferFull? || reply.TurnMismatch?
  }

  predicate TerminalName(name: string) {
    name == "turn/completed" || name == "turn/failed" || name == "turn/interrupted"
  }

  predicate HasTerminal(notes: seq<Note>) {
    exists i :: 0 <= i < |notes| && TerminalName(notes[i].name)
  }

  predicate ValidKey(key: Key) { !Blank(key.thread) && !Blank(key.turn) }

  // ----- the calls ------------------------------------------------------------

  function Register(s: Router, key: Key): (Router, Reply) {
    if !ValidKey(key) then (s, Invalid)
    else if key in s.exact then (s, DuplicateExact)
    else
      (s.(terminal := s.terminal - {key}, exact := s.exact[key := s.nextChannel],
          channels := s.channels[s.nextChannel := Channel(key, [], 0, true)], nextChannel := s.nextChannel + 1),
       Registered(s.nextChannel))
  }

  function Unregister(s: Router, key: Key): (Router, Reply) {
    (s.(exact := s.exact - {key}, terminal := s.terminal - {key}), Removed(key in s.exact))
  }

  /** The connection is lost: every sender and every early notification is dropped. */
  function FailAll(s: Router): (Router, Reply) {
    (s.(exact := map[], pending := map[], terminal := {}), Dropped(|s.exact|, |s.pending|))
  }

  function Begin(s: Router, thread: string): (Router, Reply) {
    if Blank(thread) then (s, Invalid)
    else
      var s1 := s.(nextRegistration := s.nextRegistration + 1);
      if thread in s.pending then (s1, DuplicatePending)
      else
        (s1.(pending := s.pending[thread := Pending(s.nextRegistration, [], {})]),
         Begun(Handle(thread, s.nextRegistration)))
  }

  /** The handle still names the pending registration of its thread. */
  predicate Current(s: Router, h: Handle) {
    h.thread in s.pending && s.pending[h.thread].registration == h.registration
  }

  /** The first buffered notification that belongs to another turn. */
  function FirstMismatch(buffer: seq<Note>, turn: string): Option<string> {
    if buffer == [] then None
    else if buffer[0].turn.Some? && buffer[0].turn.value != turn then buffer[0].turn
    else FirstMismatch(buffer[1..], turn)
  }

  function Promote(s: Router, h: Handle, turn: string): (Router, Reply) {
    var key := Key(h.thread, turn);
    if !ValidKey(key) then (s, Invalid)
    else if key in s.exact then (s, DuplicateExact)
    else if !Current(s, h) then (s, UnknownPending)
    else
      var pending := s.pending[h.thread];
      var mismatch := FirstMismatch(pending.buffer, turn);
      if mismatch.Some? then (s, TurnMismatch(mismatch.value))
      else if |pending.buffer| > s.routeCapacity then (s, ChannelFull)
      else
        (s.(pending := s.pending - {h.thread},
            terminal := if turn in pending.terminalTurns then s.terminal + {key} else s.terminal - {key},
            exact := s.exact[key := s.nextChannel],
            channels := s.channels[s.nextChannel := Channel(key, pending.buffer, 0, true)],
            nextChannel := s.nextChannel + 1),
         Promoted(s.nextChannel))
  }

  function Cancel(s: Router, h: Handle): (Router, Reply) {
    if !Current(s, h) then (s, UnknownPending)
    else (s.(pending := s.pending - {h.thread}), Cancelled(|s.pending[h.thread].buffer|))
  }

  function Parse(sequence: nat, raw: Raw): Option<Note> {
    match raw
    case Unparsable => None
    case Parsable(name, thread, turn, body) => Some(Note(sequence, name, thread, turn, body))
  }

  /** Sending never blocks: a closed or full channel is an error. */
  function TrySend(s: Router, channel: nat, note: Note): (Router, Reply)
    requires channel in s.channels
  {
    var c := s.channels[channel];
    if !c.open then (s, ChannelClosed)
    else if |c.sent| - c.consumed >= s.routeCapacity then (s, ChannelFull)
    else (s.(channels := s.channels[channel := c.(sent := c.sent + [note])]), Exact)
  }

  function RouteExact(s: Router, key: Key, note: Note): (Router, Reply)
    requires key in s.exact && s.exact[key] in s.channels
  {
    var (s1, reply) := TrySend(s, s.exact[key], note);
    if reply != Exact then (s, reply)
    else if TerminalName(note.name) then (s1.(terminal := s1.terminal + {key}), Exact)
    else (s1, Exact)
  }

  function RoutePending(s: Router, thread: string, turn: string, note: Note): (Router, Reply)
    requires thread in s.pending
  {
    var pending := s.pending[thread];
    if TerminalName(note.name) && turn in pending.terminalTurns then (s, Suppressed)
    else if |pending.buffer| >= s.pendingCapacity then (s, BufferFull)
    else
      var turns := if TerminalName(note.name) then pending.terminalTurns + {turn} else pending.terminalTurns;
      (s.(pending := s.pending[thread := pending.(buffer := pending.buffer + [note], terminalTurns := turns)]),
       Buffered)
  }

  function Dispatch(s: Router, note: Note): (Router, Reply)
    requires forall k :: k in s.exact ==> s.exact[k] in s.channels
  {
    if note.thread.Some? && note.turn.Some? then
      var key := Key(note.thread.value, note.turn.value);
      if TerminalName(note.name) && key in s.terminal then (s, Suppressed)
      else if key in s.exact then RouteExact(s, key, note)
      else if note.thread.value in s.pending then RoutePending(s, note.thread.value, note.turn.value, note)
      else (s, Orphan)
    else if note.thread.None? && note.turn.None? then (s, Global)
    else (s, Orphan)
  }

  function Route(s: Router, raw: Raw): (Router, Reply)
    requires forall k :: k in s.exact ==> s.exact[k] in s.channels
  {
    var s1 := s.(nextSequence := s.nextSequence + 1);
    var note := Parse(s.nextSequence, raw);
    if note.None? then (s1, Invalid) else Dispatch(s1, note.value)
  }

  // ----- the receiving side ---------------------------------------------------

  function Receive(s: Router, channel: nat): (Router, Reply) {
    if channel in s.channels && s.channels[channel].consumed < |s.channels[channel].sent| then
      var c := s.channels[channel];
      (s.(channels := s.channels[channel := c.(consumed := c.consumed + 1)]), Received(c.sent[c.consumed]))
    else (s, Nothing)
  }

  function CloseReceiver(s: Router, channel: nat): (Router, Reply) {
    if channel in s.channels
    then (s.(channels := s.channels[channel := s.channels[channel].(open := false)]), Nothing)
    else (s, Nothing)
  }

  // ----- runs -----------------------------------------------------------------

  datatype Command =
    | Registering(key: Key) | Unregistering(key: Key) | FailingAll
    | Beginning(thread: string) | Promoting(handle: Handle, turn: string) | Cancelling(handle: Handle)
    | Routing(raw: Raw) | Receiving(channel: nat) | ClosingReceiver(channel: nat)

  function Step(s: Router, cmd: Command): (Router, Reply)
    requires forall k :: k in s.exact ==> s.exact[k] in s.channels
  {
    match cmd
    case Registering(key) => Register(s, key)
    case Unregistering(key) => Unregister(s, key)
    case FailingAll => FailAll(s)
    case Beginning(thread) => Begin(s, thread)
    case Promoting(handle, turn) => Promote(s, handle, turn)
    case Cancelling(handle) => Cancel(s, handle)
    case Routing(raw) => Route(s, raw)
    case Receiving(channel) => Receive(s, channel)
    case ClosingReceiver(channel) => CloseReceiver(s, channel)
  }

  // ----- the invariant --------------------------------------------------------

  predicate Increasing(notes: seq<Note>) {
    forall i, j :: 0 <= i < j < |notes| ==> notes[i].sequence < notes[j].sequence
  }

  /** No two terminal notifications for the same turn. */
  predicate OneTerminalPerTurn(notes: seq<Note>) {
    forall i, j :: 0 <= i < j < |notes| && TerminalName(notes[i].name) && TerminalName(notes[j].name)
      ==> notes[i].turn != notes[j].turn
  }

  ghost predicate NotesOk(s: Router, notes: seq<Note>) {
    && Increasing(notes) && OneTerminalPerTurn(notes)
    && forall i :: 0 <= i < |notes| ==> notes[i].sequence < s.nextSequence
  }

  ghost predicate ChannelOk(s: Router, c: Channel) {
    && NotesOk(s, c.sent)
    && c.consumed <= |c.sent| <= c.consumed + s.routeCapacity
    && forall i :: 0 <= i < |c.sent| ==> c.sent[i].thread == Some(c.key.thread) && c.sent[i].turn == Some(c.key.turn)
  }

  ghost predicate PendingOk(s: Router, thread: string, p: Pending) {
    && NotesOk(s, p.buffer)
    && |p.buffer| <= s.pendingCapacity
    && p.registration < s.nextRegistration
    && (forall i :: 0 <= i < |p.buffer| ==> p.buffer[i].thread == Some(thread) && p.buffer[i].turn.Some?)
    && (forall turn :: turn in p.terminalTurns <==> HasTerminalFor(p.buffer, turn))
  }

  predicate HasTerminalFor(notes: seq<Note>, turn: string) {
    exists i :: 0 <= i < |notes| && TerminalName(notes[i].name) && notes[i].turn == Some(turn)
  }

  ghost predicate ExactOk(s: Router, key: Key) {
    && key in s.exact && s.exact[key] in s.channels
    && s.channels[s.exact[key]].key == key
    && (key in s.terminal <==> HasTerminal(s.channels[s.exact[key]].sent))
  }

  ghost predicate Ok(s: Router) {
    && 0 < s.pendingCapacity <= s.routeCapacity
    && (forall k :: k in s.exact ==> ExactOk(s, k))
    && s.terminal <= s.exact.Keys
    && (forall c :: c in s.channels ==> c < s.nextChannel && ChannelOk(s, s.channels[c]))
    && (forall t :: t in s.pending ==> PendingOk(s, t, s.pending[t]))
  }

  /** `NotificationRouter::new` refuses capacities that could make a promotion overflow. */
  function New(routeCapacity: nat, pendingCapacity: nat, diagnosticCapacity: nat): (r: Option<Router>)
    ensures r.Some? <==> 0 < pendingCapacity <= routeCapacity && 0 < diagnosticCapacity
    ensures r.Some? ==> Ok(r.value)
  {
    if routeCapacity == 0 || pendingCapacity == 0 || pendingCapacity > routeCapacity || diagnosticCapacity == 0
    then None
    else Some(Router(routeCapacity, pendingCapacity, map[], map[], {}, map[], 1, 1, 0))
  }

  // ----- every call keeps it --------------------------------------------------

  lemma HasTerminalAppend(notes: seq<Note>, note: Note)
    ensures HasTerminal(notes + [note]) <==> HasTerminal(notes) || TerminalName(note.name)
    ensures forall turn :: HasTerminalFor(notes + [note], turn) <==>
              HasTerminalFor(notes, turn) || (TerminalName(note.name) && note.turn == Some(turn))
  {
    var all := notes + [note];
    assert all[|notes|] == note;
    forall i | 0 <= i < |notes| ensures all[i] == notes[i] {
    }
  }

  lemma RegisterKeepsOk(s: Router, key: Key)
    requires Ok(s)
    ensures Ok(Register(s, key).0)
  {
    hide HasTerminal, ChannelOk, PendingOk;
    var (after, reply) := Register(s, key);
    LaterRouterKeepsChannels(s, after);
    EmptyChannelOk(after, key);
    forall k | k in after.exact ensures ExactOk(after, k) {
      assert k in s.exact ==> ExactOk(s, k);
    }
    assert forall c :: c in after.channels ==> c < after.nextChannel && ChannelOk(after, after.channels[c]);
  }

  lemma EmptyChannelOk(s: Router, key: Key)
    ensures ChannelOk(s, Channel(key, [], 0, true)) && !HasTerminal([])
  {
  }

  /** Counters only grow, so what was fine stays fine. */
  lemma LaterRouterKeepsChannels(s: Router, after: Router)
    requires Ok(s) && after.routeCapacity == s.routeCapacity && after.pendingCapacity == s.pendingCapacity
    requires after.nextSequence >= s.nextSequence && after.nextRegistration >= s.nextRegistration
    ensures forall c :: c in s.channels ==> ChannelOk(after, s.channels[c])
    ensures forall t :: t in s.pending ==> PendingOk(after, t, s.pending[t])
  {
    hide Increasing, OneTerminalPerTurn, HasTerminalFor;
    forall c | c in s.channels ensures ChannelOk(after, s.channels[c]) {
      assert ChannelOk(s, s.channels[c]);
    }
    forall t | t in s.pending ensures PendingOk(after, t, s.pending[t]) {
      assert PendingOk(s, t, s.pending[t]);
    }
  }

  lemma DroppingKeepsOk(s: Router, cmd: Command)
    requires Ok(s) && (cmd.Unregistering? || cmd.FailingAll? || cmd.Cancelling?)
    ensures Ok(Step(s, cmd).0)
  {
    hide HasTerminal, ChannelOk, PendingOk;
    var after := Step(s, cmd).0;
    LaterRouterKeepsChannels(s, after);
    forall k | k in after.exact ensures ExactOk(after, k) {
      assert ExactOk(s, k);
    }
  }

  lemma NewPendingOk(s: Router, thread: string, registration: nat)
    ensures registration < s.nextRegistration ==> PendingOk(s, thread, Pending(registration, [], {}))
  {
  }

  lemma BeginKeepsOk(s: Router, thread: string)
    requires Ok(s)
    ensures Ok(Begin(s, thread).0)
  {
    hide HasTerminal, ChannelOk, PendingOk;
    var after := Begin(s, thread).0;
    LaterRouterKeepsChannels(s, after);
    NewPendingOk(after, thread, s.nextRegistration);
    forall k | k in after.exact ensures ExactOk(after, k) {
      assert ExactOk(s, k);
    }
  }

  lemma {:induction false} NoMismatchMeansOneTurn(buffer: seq<Note>, turn: string)
    requires FirstMismatch(buffer, turn).None? && forall i :: 0 <= i < |buffer| ==> buffer[i].turn.Some?
    ensures forall i :: 0 <= i < |buffer| ==> buffer[i].turn == Some(turn)
    decreases buffer
  {
    if buffer != [] {
      NoMismatchMeansOneTurn(buffer[1..], turn);
    }
  }

  lemma PromotedChannelOk(s: Router, h: Handle, turn: string)
    requires Ok(s) && Promote(s, h, turn).1.Promoted?
    ensures var p := s.pending[h.thread];
            && ChannelOk(s, Channel(Key(h.thread, turn), p.buffer, 0, true))
            && (turn in p.terminalTurns <==> HasTerminal(p.buffer))
  {
    var p := s.pending[h.thread];
    assert PendingOk(s, h.thread, p);
    NoMismatchMeansOneTurn(p.buffer, turn);
    if HasTerminal(p.buffer) {
      assert HasTerminalFor(p.buffer, turn);
    }
  }

  lemma PromoteKeepsOk(s: Router, h: Handle, turn: string)
    requires Ok(s)
    ensures Ok(Promote(s, h, turn).0)
  {
    hide HasTerminal, PendingOk, FirstMismatch, NotesOk, ExactOk, ChannelOk;
    var (after, reply) := Promote(s, h, turn);
    if reply.Promoted? {
      PromotedChannelOk(s, h, turn);
      LaterRouterKeepsChannels(s, after);
      SameCountersSameChannel(s, after, after.channels[s.nextChannel]);
      ExactAfterPromotion(s, h, turn);
    }
  }

  lemma ExactAfterPromotion(s: Router, h: Handle, turn: string)
    requires Ok(s) && Promote(s, h, turn).1.Promoted?
    requires turn in s.pending[h.thread].terminalTurns <==> HasTerminal(s.pending[h.thread].buffer)
    ensures forall k :: k in Promote(s, h, turn).0.exact ==> ExactOk(Promote(s, h, turn).0, k)
  {
    hide HasTerminal, PendingOk, FirstMismatch, NotesOk, ChannelOk;
    var after := Promote(s, h, turn).0;
    forall k | k in after.exact ensures ExactOk(after, k) {
      assert k in s.exact ==> ExactOk(s, k);
    }
  }

  lemma SameCountersSameChannel(s: Router, after: Router, c: Channel)
    requires ChannelOk(s, c) && after.nextSequence >= s.nextSequence && after.routeCapacity == s.routeCapacity
    ensures ChannelOk(after, c)
  {
  }

  lemma AppendKeepsNotes(s: Router, notes: seq<Note>, note: Note)
    requires NotesOk(s, notes)
    requires note.sequence == s.nextSequence
    requires TerminalName(note.name) ==>
               forall i :: 0 <= i < |notes| && TerminalName(notes[i].name) ==> notes[i].turn != note.turn
    ensures NotesOk(s.(nextSequence := s.nextSequence + 1), notes + [note])
  {
  }

  lemma RouteExactKeepsOk(s: Router, key: Key, note: Note)
    requires Ok(s) && key in s.exact && note.sequence == s.nextSequence
    requires note.thread == Some(key.thread) && note.turn == Some(key.turn)
    requires TerminalName(note.name) ==> key !in s.terminal
    ensures Ok(RouteExact(s.(nextSequence := s.nextSequence + 1), key, note).0)
  {
    assert ExactOk(s, key);
    LaterSequenceKeepsOk(s);
    hide Ok, ExactOk;
    var s1 := s.(nextSequence := s.nextSequence + 1);
    var c := s.channels[s.exact[key]];
    if RouteExact(s1, key, note).1 == Exact {
      AcceptedKeepsOk(s, key, note);
    } else {
      assert RouteExact(s1, key, note).0 == s1;
    }
  }

  lemma LaterSequenceKeepsOk(s: Router)
    requires Ok(s)
    ensures Ok(s.(nextSequence := s.nextSequence + 1))
  {
    var s1 := s.(nextSequence := s.nextSequence + 1);
    LaterRouterKeepsChannels(s, s1);
    hide HasTerminal, ChannelOk, PendingOk;
    forall k | k in s1.exact ensures ExactOk(s1, k) {
      assert ExactOk(s, k);
    }
  }

  /** The channel took the notification. */
  lemma AcceptedKeepsOk(s: Router, key: Key, note: Note)
    requires Ok(s) && key in s.exact && s.exact[key] in s.channels && note.sequence == s.nextSequence
    requires note.thread == Some(key.thread) && note.turn == Some(key.turn)
    requires TerminalName(note.name) ==> key !in s.terminal
    requires RouteExact(s.(nextSequence := s.nextSequence + 1), key, note).1 == Exact
    ensures Ok(RouteExact(s.(nextSequence := s.nextSequence + 1), key, note).0)
  {
    hide HasTerminal, ChannelOk, PendingOk, ExactOk;
    var s1 := s.(nextSequence := s.nextSequence + 1);
    var after := RouteExact(s1, key, note).0;
    var c := s.channels[s.exact[key]];
    LaterRouterKeepsChannels(s, after);
    ExactAfterAppend(s, key, note);
    AppendedChannelOk(s, c, note);
    SameCountersSameChannel(s1, after, c.(sent := c.sent + [note]));
  }

  /** The marks of all registrations are right after the notification was sent. */
  lemma ExactAfterAppend(s: Router, key: Key, note: Note)
    requires (forall k :: k in s.exact ==> ExactOk(s, k)) && key in s.exact && s.exact[key] in s.channels
    requires RouteExact(s.(nextSequence := s.nextSequence + 1), key, note).1 == Exact
    ensures var after := RouteExact(s.(nextSequence := s.nextSequence + 1), key, note).0;
            forall k :: k in after.exact ==> ExactOk(after, k)
    ensures ExactOk(s, key) && s.channels[s.exact[key]].key == key
    ensures key !in s.terminal ==> !HasTerminal(s.channels[s.exact[key]].sent)
  {
    var after := RouteExact(s.(nextSequence := s.nextSequence + 1), key, note).0;
    HasTerminalAppend(s.channels[s.exact[key]].sent, note);
    hide HasTerminal;
    forall k | k in after.exact ensures ExactOk(after, k) {
      assert ExactOk(s, k);
    }
  }

  lemma AppendedChannelOk(s: Router, c: Channel, note: Note)
    requires ChannelOk(s, c) && note.sequence == s.nextSequence && |c.sent| - c.consumed < s.routeCapacity
    requires note.thread == Some(c.key.thread) && note.turn == Some(c.key.turn)
    requires TerminalName(note.name) ==> !HasTerminal(c.sent)
    ensures ChannelOk(s.(nextSequence := s.nextSequence + 1), c.(sent := c.sent + [note]))
  {
    AppendKeepsNotes(s, c.sent, note);
  }

  lemma RoutePendingKeepsOk(s: Router, thread: string, turn: string, note: Note)
    requires Ok(s) && thread in s.pending && note.sequence == s.nextSequence
    requires note.thread == Some(thread) && note.turn == Some(turn)
    ensures Ok(RoutePending(s.(nextSequence := s.nextSequence + 1), thread, turn, note).0)
  {
    var s1 := s.(nextSequence := s.nextSequence + 1);
    var (after, reply) := RoutePending(s1, thread, turn, note);
    var p := s.pending[thread];
    LaterRouterKeepsChannels(s, after);
    if reply == Buffered {
      assert PendingOk(s, thread, p);
      BufferedPendingOk(s, thread, turn, note);
    }
    hide HasTerminal, ChannelOk, PendingOk;
    forall k | k in after.exact ensures ExactOk(after, k) {
      assert ExactOk(s, k);
    }
  }

  lemma BufferedPendingOk(s: Router, thread: string, turn: string, note: Note)
    requires thread in s.pending && PendingOk(s, thread, s.pending[thread]) && note.sequence == s.nextSequence
    requires note.thread == Some(thread) && note.turn == Some(turn)
    requires RoutePending(s, thread, turn, note).1 == Buffered
    ensures PendingOk(s.(nextSequence := s.nextSequence + 1), thread, RoutePending(s, thread, turn, note).0.pending[thread])
  {
    var p := s.pending[thread];
    if TerminalName(note.name) {
      forall i | 0 <= i < |p.buffer| && TerminalName(p.buffer[i].name) ensures p.buffer[i].turn != note.turn {
        assert !HasTerminalFor(p.buffer, turn);
      }
    }
    AppendKeepsNotes(s, p.buffer, note);
    HasTerminalAppend(p.buffer, note);
  }

  lemma RouteKeepsOk(s: Router, raw: Raw)
    requires Ok(s)
    ensures Ok(Route(s, raw).0)
  {
    hide HasTerminal, ChannelOk, PendingOk;
    var s1 := s.(nextSequence := s.nextSequence + 1);
    LaterRouterKeepsChannels(s, s1);
    assert Ok(s1) by {
      forall k | k in s1.exact ensures ExactOk(s1, k) {
        assert ExactOk(s, k);
      }
    }
    var parsed := Parse(s.nextSequence, raw);
    if parsed.Some? && parsed.value.thread.Some? && parsed.value.turn.Some? {
      var note := parsed.value;
      var key := Key(note.thread.value, note.turn.value);
      if !(TerminalName(note.name) && key in s.terminal) {
        if key in s.exact {
          RouteExactKeepsOk(s, key, note);
        } else if key.thread in s.pending {
          RoutePendingKeepsOk(s, key.thread, key.turn, note);
        }
      }
    }
  }

  lemma ReceivingKeepsOk(s: Router, cmd: Command)
    requires Ok(s) && (cmd.Receiving? || cmd.ClosingReceiver?)
    ensures Ok(Step(s, cmd).0)
  {
    hide HasTerminal, NotesOk, PendingOk;
    var after := Step(s, cmd).0;
    LaterRouterKeepsChannels(s, after);
    forall k | k in after.exact ensures ExactOk(after, k) {
      assert ExactOk(s, k);
    }
    forall c | c in after.channels ensures c < after.nextChannel && ChannelOk(after, after.channels[c]) {
      assert ChannelOk(s, s.channels[c]);
    }
  }

  /** Every call, successful or not, keeps the invariant. */
  lemma StepKeepsOk(s: Router, cmd: Command)
    requires Ok(s)
    ensures Ok(Step(s, cmd).0)
  {
    hide Ok;
    OkIsWellFormed(s);
    match cmd
    case Registering(key) => RegisterKeepsOk(s, key);
    case Unregistering(key) => DroppingKeepsOk(s, cmd);
    case FailingAll => DroppingKeepsOk(s, cmd);
    case Beginning(thread) => BeginKeepsOk(s, thread);
    case Promoting(handle, turn) => PromoteKeepsOk(s, handle, turn);
    case Cancelling(handle) => DroppingKeepsOk(s, cmd);
    case Routing(raw) => RouteKeepsOk(s, raw);
    case Receiving(channel) => ReceivingKeepsOk(s, cmd);
    case ClosingReceiver(channel) => ReceivingKeepsOk(s, cmd);
  }

  lemma OkIsWellFormed(s: Router)
    requires Ok(s)
    ensures forall k :: k in s.exact ==> s.exact[k] in s.channels
  {
    hide HasTerminal, ChannelOk, PendingOk;
    forall k | k in s.exact ensures s.exact[k] in s.channels {
      assert ExactOk(s, k);
    }
  }
}
