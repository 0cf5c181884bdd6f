/**
  What each router call answers, by cases on what was sent, buffered and read: which notification reaches which queue,
  when one is refused, and that a receiver which keeps up loses none.
*/
module RouterAnswers {
  import opened Text
  import opened RouterSteps
  import opened RouterRuns

  // ----- routing ----------------------------------------------------------------

  /** The names that end a turn. */
  predicate EndsTurn(name: string) {
    || name == "turn/completed"
    || name == "turn/failed"
    || name == "turn/interrupted"
  }

  lemma SameNames(name: string)
    ensures EndsTurn(name) <==> TerminalName(name)
  {
  }

  /** A notification that ended the turn is among them. */
  predicate Ended(notes: seq<Note>, turn: string) {
    exists i :: 0 <= i < |notes| && EndsTurn(notes[i].name) && notes[i].turn == Some(turn)
  }

  /** The channel of an exact route. */
  function ChannelOf(s: Router, key: Key): Channel
    requires key in s.exact && s.exact[key] in s.channels
  {
    s.channels[s.exact[key]]
  }

  /** Notifications that were sent and not yet read. */
  function Unread(c: Channel): int { |c.sent| - c.consumed }

  lemma ExactMarks(s: Router, key: Key)
    requires Ok(s) && key in s.exact
    ensures s.exact[key] in s.channels && s.channels[s.exact[key]].key == key
    ensures key in s.terminal <==> Ended(s.channels[s.exact[key]].sent, key.turn)
  {
    hide PendingOk, NotesOk;
    assert ExactOk(s, key);
    var c := s.channels[s.exact[key]];
    assert ChannelOk(s, c);
    if HasTerminal(c.sent) {
      var i :| 0 <= i < |c.sent| && TerminalName(c.sent[i].name);
      assert EndsTurn(c.sent[i].name) && c.sent[i].turn == Some(key.turn);
    }
  }

  lemma PendingMarks(s: Router, thread: string, turn: string)
    requires Ok(s) && thread in s.pending
    ensures turn in s.pending[thread].terminalTurns <==> Ended(s.pending[thread].buffer, turn)
    ensures Key(thread, turn) !in s.exact ==> Key(thread, turn) !in s.terminal
  {
    hide ExactOk, ChannelOk, NotesOk;
    assert PendingOk(s, thread, s.pending[thread]);
  }

  /** A message for an exact route is sent to its channel, oldest first, if the channel is open and not full; a second
      end of the turn is dropped; nothing else happens. */
  lemma ExactRouteAnswer(s: Router, key: Key, name: string, body: string)
    requires Ok(s) && key in s.exact
    ensures s.exact[key] in s.channels
    ensures var (after, reply) := After(s, Routing(Parsable(name, Some(key.thread), Some(key.turn), body)));
            var note := Note(s.nextSequence, name, Some(key.thread), Some(key.turn), body);
            var c := ChannelOf(s, key);
            && (reply == Suppressed <==> EndsTurn(name) && Ended(c.sent, key.turn))
            && (reply == Exact <==> !(EndsTurn(name) && Ended(c.sent, key.turn)) && c.open && Unread(c) < s.routeCapacity)
            && (reply == ChannelClosed <==> !(EndsTurn(name) && Ended(c.sent, key.turn)) && !c.open)
            && (reply == Suppressed || reply == Exact || reply == ChannelClosed || reply == ChannelFull)
            && after == s.(nextSequence := s.nextSequence + 1, channels := after.channels, terminal := after.terminal)
            && after.channels == (if reply == Exact then s.channels[s.exact[key] := c.(sent := c.sent + [note])]
                                  else s.channels)
            && after.terminal == (if reply == Exact && EndsTurn(name) then s.terminal + {key} else s.terminal)
  {
    OkIsWellFormed(s);
    ExactMarks(s, key);
    ExactDispatch(s, key, Note(s.nextSequence, name, Some(key.thread), Some(key.turn), body));
    hide Ok, Ended, Unread, EndsTurn, Dispatch;
  }

  lemma ExactDispatch(s: Router, key: Key, note: Note)
    requires forall k :: k in s.exact ==> s.exact[k] in s.channels
    requires key in s.exact && note.thread == Some(key.thread) && note.turn == Some(key.turn)
    requires key in s.terminal <==> Ended(ChannelOf(s, key).sent, key.turn)
    ensures var s1 := s.(nextSequence := s.nextSequence + 1);
            var ((after, reply), c) := (Dispatch(s1, note), ChannelOf(s, key));
            && (reply == Suppressed <==> EndsTurn(note.name) && Ended(c.sent, key.turn))
            && (reply == Exact <==>
                  !(EndsTurn(note.name) && Ended(c.sent, key.turn)) && c.open && Unread(c) < s.routeCapacity)
            && (reply == ChannelClosed <==> !(EndsTurn(note.name) && Ended(c.sent, key.turn)) && !c.open)
            && (reply == Suppressed || reply == Exact || reply == ChannelClosed || reply == ChannelFull)
            && after == s1.(channels := after.channels, terminal := after.terminal)
            && after.channels == (if reply == Exact then s.channels[s.exact[key] := c.(sent := c.sent + [note])]
                                  else s.channels)
            && after.terminal == (if reply == Exact && EndsTurn(note.name) then s.terminal + {key} else s.terminal)
  {
    SameNames(note.name);
    hide Ended, TerminalName, EndsTurn;
  }

  /** A message for a thread whose turn has no exact route waits in the pending buffer of the thread, if there is room;
      a second end of the same turn is dropped. */
  lemma PendingRouteAnswer(s: Router, key: Key, name: string, body: string)
    requires Ok(s) && key !in s.exact && key.thread in s.pending
    ensures var (after, reply) := After(s, Routing(Parsable(name, Some(key.thread), Some(key.turn), body)));
            var note := Note(s.nextSequence, name, Some(key.thread), Some(key.turn), body);
            var waiting := s.pending[key.thread].buffer;
            && (reply == Suppressed <==> EndsTurn(name) && Ended(waiting, key.turn))
            && (reply == Buffered <==> !(EndsTurn(name) && Ended(waiting, key.turn)) && |waiting| < s.pendingCapacity)
            && (reply == Suppressed || reply == Buffered || reply == BufferFull)
            && after == s.(nextSequence := s.nextSequence + 1, pending := after.pending)
            && key.thread in after.pending
            && after.pending == s.pending[key.thread := after.pending[key.thread]]
            && after.pending[key.thread].registration == s.pending[key.thread].registration
            && after.pending[key.thread].buffer == (if reply == Buffered then waiting + [note] else waiting)
  {
    OkIsWellFormed(s);
    PendingMarks(s, key.thread, key.turn);
    SameNames(name);
    hide Ok, Ended, TerminalName, EndsTurn;
  }

  /** Every other message reaches no queue: it is invalid, global or an orphan. */
  lemma ElsewhereAnswer(s: Router, raw: Raw)
    requires Ok(s)
    requires raw.Parsable? && raw.thread.Some? && raw.turn.Some? ==>
               Key(raw.thread.value, raw.turn.value) !in s.exact && raw.thread.value !in s.pending
    ensures var (after, reply) := After(s, Routing(raw));
            && after == s.(nextSequence := s.nextSequence + 1)
            && (reply == Invalid <==> raw == Unparsable)
            && (reply == Global <==> raw.Parsable? && raw.thread == None && raw.turn == None)
            && (reply == Orphan <==> raw.Parsable? && (raw.thread.Some? || raw.turn.Some?))
  {
    OkIsWellFormed(s);
    assert s.terminal <= s.exact.Keys;
    hide Ok, TerminalName;
  }

  // ----- nothing is lost --------------------------------------------------------

  /** The queue that a notification of the key would reach has room: the channel, or the buffer of a pending thread. */
  predicate Room(s: Router, key: Key)
    requires forall k :: k in s.exact ==> s.exact[k] in s.channels
  {
    if key in s.exact then ChannelOf(s, key).open && Unread(ChannelOf(s, key)) < s.routeCapacity
    else key.thread in s.pending && |s.pending[key.thread].buffer| < s.pendingCapacity
  }

  /** There is room whenever a notification of the key arrives. */
  ghost predicate KeepsUp(s: Router, cmds: seq<Command>, key: Key)
    requires Ok(s)
    decreases cmds
  {
    OkIsWellFormed(s);
    cmds != [] ==>
      && (cmds[0].Routing? && IsFor(cmds[0].raw, key) ==> Room(s, key))
      && KeepsUp(After(s, cmds[0]).0, cmds[1..], key)
  }

  /** All notifications of the key that arrive during the run, whatever becomes of them. */
  ghost function Arrived(s: Router, cmds: seq<Command>, key: Key): seq<Note>
    requires Ok(s)
    decreases cmds
  {
    if cmds == [] then []
    else
      (if cmds[0].Routing? && IsFor(cmds[0].raw, key)
       then [Note(s.nextSequence, cmds[0].raw.name, Some(key.thread), Some(key.turn), cmds[0].raw.body)] else [])
      + Arrived(After(s, cmds[0]).0, cmds[1..], key)
  }

  lemma RoomMeansNoError(s: Router, raw: Raw, key: Key)
    requires Ok(s) && IsFor(raw, key)
    requires forall k :: k in s.exact ==> s.exact[k] in s.channels
    requires Room(s, key)
    ensures !Failed(Route(s, raw).1)
  {
    hide Ok, Route, Ended, EndsTurn, Unread;
    assert raw == Parsable(raw.name, Some(key.thread), Some(key.turn), raw.body);
    if key in s.exact {
      ExactRouteAnswer(s, key, raw.name, raw.body);
    } else {
      PendingRouteAnswer(s, key, raw.name, raw.body);
    }
  }

  /** While there is room, whatever arrives is accepted. */
  lemma {:induction false} RoomMeansAllAccepted(s: Router, cmds: seq<Command>, key: Key)
    requires Ok(s) && KeepsUp(s, cmds, key)
    ensures Log(s, cmds, key) == Arrived(s, cmds, key)
    decreases cmds
  {
    if cmds != [] {
      OkIsWellFormed(s);
      if cmds[0].Routing? && IsFor(cmds[0].raw, key) {
        RoomMeansNoError(s, cmds[0].raw, key);
      }
      hide Ok, Step, Room;
      RoomMeansAllAccepted(After(s, cmds[0]).0, cmds[1..], key);
    }
  }

  /** A receiver that is promoted in time and keeps up is given every notification of its turn, in order, up to repeated
      ends of the turn: nothing is lost between `begin_pending_route` and the promotion, nor after it. */
  lemma NothingIsLost(s: Router, thread: string, turn: string, before: seq<Command>, after: seq<Command>)
    requires Ok(s) && After(s, Beginning(thread)).1.Begun? && Key(thread, turn) !in s.exact
    requires var (begun, reply) := After(s, Beginning(thread));
             && AllUndisturbed(before, reply.handle, Key(thread, turn))
             && AllUndisturbed(after, reply.handle, Key(thread, turn))
             && After(Exec(begun, before), Promoting(reply.handle, turn)).1.Promoted?
             && KeepsUp(begun, before, Key(thread, turn))
             && KeepsUp(After(Exec(begun, before), Promoting(reply.handle, turn)).0, after, Key(thread, turn))
    ensures var (begun, start) := After(s, Beginning(thread));
            var (promoted, reply) := After(Exec(begun, before), Promoting(start.handle, turn));
            var (last, key) := (Exec(promoted, after), Key(thread, turn));
            && reply.channel in last.channels
            && last.channels[reply.channel].sent == OnceTerminal(Arrived(begun, before, key) + Arrived(promoted, after, key))
  {
    hide Ok, Promote, Log, OnceTerminal, AllUndisturbed, KeepsUp, Arrived, Begin, Increasing;
    var (begun, start) := After(s, Beginning(thread));
    var (promoted, reply) := After(Exec(begun, before), Promoting(start.handle, turn));
    PromotedReceiverSeesTheFilter(s, thread, turn, before, after);
    RoomMeansAllAccepted(begun, before, Key(thread, turn));
    RoomMeansAllAccepted(promoted, after, Key(thread, turn));
    var c := Exec(promoted, after).channels[reply.channel];
    assert c.sent[..c.consumed] + c.sent[c.consumed..] == c.sent;
  }

  /** The notifications that end no turn. */
  function WithoutEnds(notes: seq<Note>): seq<Note> {
    if notes == [] then []
    else
      var front, last := notes[..|notes| - 1], notes[|notes| - 1];
      if EndsTurn(last.name) then WithoutEnds(front) else WithoutEnds(front) + [last]
  }

  predicate NoEnds(notes: seq<Note>) {
    forall i :: 0 <= i < |notes| ==> !EndsTurn(notes[i].name)
  }

  /** The filter keeps everything up to the first end of the turn, and after it all that ends no turn. */
  lemma {:induction false} FilterKeeps(first: seq<Note>, end: Note, rest: seq<Note>)
    requires NoEnds(first) && EndsTurn(end.name)
    ensures OnceTerminal(first) == first
    ensures OnceTerminal(first + [end] + rest) == first + [end] + WithoutEnds(rest)
    decreases |rest|
  {
    if rest == [] {
      FilterKeepsAll(first);
      assert first + [end] + rest == first + [end];
      OnceTerminalAppend(first, end);
    } else {
      var front, last := rest[..|rest| - 1], rest[|rest| - 1];
      FilterKeeps(first, end, front);
      var seen := first + [end] + front;
      assert first + [end] + rest == seen + [last];
      assert TerminalName(seen[|first|].name);
      OnceTerminalAppend(seen, last);
      SameNames(last.name);
      hide OnceTerminal, EndsTurn, TerminalName;
    }
  }

  lemma {:induction false} FilterKeepsAll(notes: seq<Note>)
    requires NoEnds(notes)
    ensures OnceTerminal(notes) == notes && !HasTerminal(notes)
    decreases |notes|
  {
    if notes != [] {
      FilterKeepsAll(notes[..|notes| - 1]);
    }
  }

  // ----- the other calls --------------------------------------------------------

  /** A text with something other than white space in it. */
  predicate NotBlank(text: string) {
    exists i :: 0 <= i < |text| && text[i] !in WHITE_SPACE
  }

  /** A route is registered exactly for a free key without blank parts, on a new, empty and open channel, and its turn has
      not ended. */
  lemma RegisterAnswer(s: Router, key: Key)
    requires Ok(s)
    ensures var (after, reply) := After(s, Registering(key));
            && (reply.Registered? <==> NotBlank(key.thread) && NotBlank(key.turn) && key !in s.exact)
            && (reply == DuplicateExact <==> NotBlank(key.thread) && NotBlank(key.turn) && key in s.exact)
            && (reply.Registered? || reply == DuplicateExact || reply == Invalid)
            && (!reply.Registered? ==> after == s)
            && (reply.Registered? ==>
                  && reply.channel !in s.channels && key !in after.terminal
                  && after == s.(exact := s.exact[key := reply.channel], nextChannel := s.nextChannel + 1,
                                 channels := s.channels[reply.channel := Channel(key, [], 0, true)]))
  {
    hide ExactOk, ChannelOk, PendingOk;
    assert s.terminal <= s.exact.Keys;
    assert s.nextChannel !in s.channels;
    if key !in s.exact {
      assert s.terminal - {key} == s.terminal;
    }
  }

  /** A promotion hands over the buffer as the unread notifications of a new, open channel, and the turn has ended exactly
      if its end is among them. */
  lemma PromoteAnswer(s: Router, h: Handle, turn: string)
    requires Ok(s)
    ensures var ((after, reply), key) := (After(s, Promoting(h, turn)), Key(h.thread, turn));
            && (reply == Invalid <==> !(NotBlank(h.thread) && NotBlank(turn)))
            && (reply == DuplicateExact <==> NotBlank(h.thread) && NotBlank(turn) && key in s.exact)
            && (reply == UnknownPending <==>
                  NotBlank(h.thread) && NotBlank(turn) && key !in s.exact && !Current(s, h))
            && (reply.Promoted? ==>
                  && Current(s, h) && reply.channel !in s.channels
                  && after.exact == s.exact[key := reply.channel]
                  && after.pending == s.pending - {h.thread}
                  && after.channels == s.channels[reply.channel := Channel(key, s.pending[h.thread].buffer, 0, true)]
                  && after.terminal - {key} == s.terminal - {key}
                  && (key in after.terminal <==> Ended(s.pending[h.thread].buffer, turn)))
            && (reply.TurnMismatch? ==>
                  Current(s, h) && reply.actual != turn && exists i :: FirstOther(s.pending[h.thread].buffer, turn, i, reply.actual))
  {
    hide ExactOk, ChannelOk, NotesOk;
    assert s.nextChannel !in s.channels;
    if Current(s, h) {
      PendingMarks(s, h.thread, turn);
      hide Ok, PendingOk, Ended;
      if FirstMismatch(s.pending[h.thread].buffer, turn).Some? {
        var i := MismatchIsFirst(s.pending[h.thread].buffer, turn);
      }
    }
  }

  /** The notification at `i` is the first of another turn, namely of `actual`. */
  predicate FirstOther(buffer: seq<Note>, turn: string, i: int, actual: string) {
    && 0 <= i < |buffer| && buffer[i].turn == Some(actual) && actual != turn
    && forall j :: 0 <= j < i ==> buffer[j].turn == None || buffer[j].turn == Some(turn)
  }

  lemma {:induction false} MismatchIsFirst(buffer: seq<Note>, turn: string) returns (i: nat)
    requires FirstMismatch(buffer, turn).Some?
    ensures FirstOther(buffer, turn, i, FirstMismatch(buffer, turn).value)
    decreases buffer
  {
    if buffer[0].turn.Some? && buffer[0].turn.value != turn {
      i := 0;
    } else {
      var k := MismatchIsFirst(buffer[1..], turn);
      i := k + 1;
      forall j | 0 <= j < i ensures buffer[j].turn == None || buffer[j].turn == Some(turn) {
        assert j > 0 ==> buffer[j] == buffer[1..][j - 1];
      }
    }
  }

  /** A pending route begins, with nothing in its buffer, exactly for a thread that is not blank and has none; the handle
      is new in either case. */
  lemma BeginAnswer(s: Router, thread: string)
    requires Ok(s)
    ensures var (after, reply) := After(s, Beginning(thread));
            && (reply.Begun? <==> NotBlank(thread) && thread !in s.pending)
            && (reply == DuplicatePending <==> NotBlank(thread) && thread in s.pending)
            && (reply == Invalid <==> !NotBlank(thread))
            && (reply.Begun? ==>
                  && reply.handle.thread == thread && Current(after, reply.handle)
                  && after.pending == s.pending[thread := Pending(reply.handle.registration, [], {})]
                  && forall t :: t in s.pending ==> s.pending[t].registration < reply.handle.registration)
            && (!reply.Begun? ==> after.pending == s.pending)
            && (after.exact, after.channels, after.terminal) == (s.exact, s.channels, s.terminal)
  {
    hide ExactOk, ChannelOk, NotesOk;
    assert forall t :: t in s.pending ==> PendingOk(s, t, s.pending[t]);
  }

  /** Closing a route drops the route and its mark, and from then on no message of the key is sent. */
  lemma UnregisterAnswer(s: Router, key: Key, name: string, body: string)
    requires Ok(s)
    ensures var (after, reply) := After(s, Unregistering(key));
            && reply == Removed(key in s.exact) && after.exact == s.exact - {key}
            && (after.pending, after.channels) == (s.pending, s.channels)
            && After(after, Routing(Parsable(name, Some(key.thread), Some(key.turn), body))).1 != Exact
  {
    hide Ok, TerminalName;
    OkIsWellFormed(s);
    OkIsWellFormed(After(s, Unregistering(key)).0);
  }

  /** When the connection is lost, all routes are dropped and counted; a message of any turn is then an orphan. */
  lemma FailAllAnswer(s: Router, key: Key, name: string, body: string)
    requires Ok(s)
    ensures var (after, reply) := After(s, FailingAll);
            && reply == Dropped(|s.exact|, |s.pending|) && after.channels == s.channels
            && After(after, Routing(Parsable(name, Some(key.thread), Some(key.turn), body))).1 == Orphan
  {
    hide Ok, TerminalName;
    OkIsWellFormed(s);
    OkIsWellFormed(After(s, FailingAll).0);
  }

  /** A live handle cancels its own pending route, and nothing else. */
  lemma CancelAnswer(s: Router, h: Handle)
    requires Ok(s)
    ensures var (after, reply) := After(s, Cancelling(h));
            && (reply.Cancelled? <==> Current(s, h)) && (reply == UnknownPending <==> !Current(s, h))
            && (reply.Cancelled? ==>
                  && reply.discarded == |s.pending[h.thread].buffer| && h.thread !in after.pending
                  && forall t :: t in s.pending && t != h.thread ==> t in after.pending && after.pending[t] == s.pending[t])
            && (reply == UnknownPending ==> after == s)
            && (after.exact, after.channels, after.terminal) == (s.exact, s.channels, s.terminal)
  {
    hide Ok;
    OkIsWellFormed(s);
  }

  /** Once its receiver is closed, a route takes nothing more. */
  lemma ClosedReceiverAnswer(s: Router, key: Key, name: string, body: string)
    requires Ok(s) && key in s.exact
    ensures var closed := After(s, ClosingReceiver(s.exact[key])).0;
            var reply := After(closed, Routing(Parsable(name, Some(key.thread), Some(key.turn), body))).1;
            reply == ChannelClosed || reply == Suppressed
    ensures var closed := After(s, ClosingReceiver(s.exact[key])).0;
            closed.exact == s.exact && closed.channels.Keys == s.channels.Keys && closed.pending == s.pending
            && forall c :: c in s.channels && c != s.exact[key] ==> closed.channels[c] == s.channels[c]
  {
    OkIsWellFormed(s);
    var closed := After(s, ClosingReceiver(s.exact[key])).0;
    hide Ok;
    ExactRouteAnswer(closed, key, name, body);
    hide Ended, EndsTurn, Route;
  }

  /** Reading takes the oldest unread notification; reading as often as there are unread ones returns them in order. */
  lemma {:induction false} ReadingDrains(s: Router, channel: nat, n: nat)
    requires Ok(s) && channel in s.channels && n <= Unread(s.channels[channel])
    ensures s.channels[channel].consumed + n <= |s.channels[channel].sent|
    ensures ReadN(s, channel, n).1 == s.channels[channel].sent[s.channels[channel].consumed..][..n]
    ensures var c := s.channels[channel];
            ReadN(s, channel, n).0 == s.(channels := s.channels[channel := c.(consumed := c.consumed + n)])
    decreases n
  {
    hide Ok, Receive, Unread;
    var c := s.channels[channel];
    ReadableIsSent(s, channel, n);
    if n > 0 {
      var s1 := Receive(s, channel).0;
      ReceivingKeepsOk(s, Receiving(channel));
      OneReading(s, channel);
      var c1 := c.(consumed := c.consumed + 1);
      assert Unread(c1) == Unread(c) - 1 by {
        UnreadIs(c);
        UnreadIs(c1);
      }
      ReadingDrains(s1, channel, n - 1);
      FirstAndRest(c.sent, c.consumed, n);
      assert c1.(consumed := c1.consumed + (n - 1)) == c.(consumed := c.consumed + n);
    } else {
      assert s.channels[channel := c] == s.channels;
    }
  }

  lemma UnreadIs(c: Channel)
    ensures Unread(c) == |c.sent| - c.consumed
  {
  }

  lemma ReadableIsSent(s: Router, channel: nat, n: nat)
    requires channel in s.channels && n <= Unread(s.channels[channel])
    ensures s.channels[channel].consumed + n <= |s.channels[channel].sent|
  {
  }

  lemma FirstAndRest<T>(all: seq<T>, from: nat, n: nat)
    requires 0 < n && from + n <= |all|
    ensures all[from..][..n] == [all[from]] + all[from + 1..][..n - 1]
  {
  }

  lemma OneReading(s: Router, channel: nat)
    requires channel in s.channels && s.channels[channel].consumed < |s.channels[channel].sent|
    ensures var c := s.channels[channel];
            Receive(s, channel) == (s.(channels := s.channels[channel := c.(consumed := c.consumed + 1)]),
                                    Received(c.sent[c.consumed]))
  {
  }

  /** State after `n` readings, and what they returned. */
  function ReadN(s: Router, channel: nat, n: nat): (Router, seq<Note>)
    decreases n
  {
    if n == 0 then (s, [])
    else
      var (s1, reply) := Receive(s, channel);
      var (last, notes) := ReadN(s1, channel, n - 1);
      (last, (if reply.Received? then [reply.note] else []) + notes)
  }
}
