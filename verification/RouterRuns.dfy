/**
  What the router guarantees over whole runs: a promoted receiver sees exactly
  the filtered notifications of its turn, and dead handles stay dead.
*/
module RouterRuns {
  import opened Text
  import opened RouterSteps

  ghost function Exec(s: Router, cmds: seq<Command>): (r: Router)
    requires Ok(s)
    ensures Ok(r)
    decreases cmds
  {
    OkIsWellFormed(s);
    StepKeepsOk(s, if cmds == [] then FailingAll else cmds[0]);
    if cmds == [] then s else Exec(Step(s, cmds[0]).0, cmds[1..])
  }

  /** State and reply of one more call. */
  ghost function After(s: Router, cmd: Command): (r: (Router, Reply))
    requires Ok(s)
    ensures Ok(r.0)
  {
    OkIsWellFormed(s);
    StepKeepsOk(s, cmd);
    Step(s, cmd)
  }

  // ----- one registration, at most one terminal notification --------------------

  /** A channel is sent at most one terminal notification, and a live registration is marked terminal
      exactly when its own channel was sent one. */
  lemma OneTerminalPerRegistration(s: Router, c: nat)
    requires Ok(s) && c in s.channels
    ensures forall i, j | 0 <= i < |s.channels[c].sent| && 0 <= j < |s.channels[c].sent| ::
              TerminalName(s.channels[c].sent[i].name) && TerminalName(s.channels[c].sent[j].name) ==> i == j
    ensures forall key :: key in s.exact && s.exact[key] == c ==> (key in s.terminal <==> HasTerminal(s.channels[c].sent))
    ensures s.terminal <= s.exact.Keys
  {
    assert ChannelOk(s, s.channels[c]);
    forall key | key in s.exact && s.exact[key] == c ensures key in s.terminal <==> HasTerminal(s.channels[c].sent) {
      assert ExactOk(s, key);
    }
  }

  /** A promotion succeeds or changes nothing, and the channel it creates can never overflow. */
  lemma PromotionIsAllOrNothing(s: Router, h: Handle, turn: string)
    requires Ok(s)
    ensures var (after, reply) := Promote(s, h, turn);
            && reply != ChannelFull && reply != ChannelClosed
            && (!reply.Promoted? ==> after == s)
            && (reply.Promoted? <==>
                  && ValidKey(Key(h.thread, turn)) && Key(h.thread, turn) !in s.exact && Current(s, h)
                  && forall i :: 0 <= i < |s.pending[h.thread].buffer| ==> s.pending[h.thread].buffer[i].turn == Some(turn))
  {
    if Current(s, h) {
      var p := s.pending[h.thread];
      assert PendingOk(s, h.thread, p);
      if FirstMismatch(p.buffer, turn).None? {
        NoMismatchMeansOneTurn(p.buffer, turn);
      } else {
        MismatchIsReal(p.buffer, turn);
      }
    }
  }

  lemma {:induction false} MismatchIsReal(buffer: seq<Note>, turn: string)
    requires FirstMismatch(buffer, turn).Some?
    ensures exists i :: 0 <= i < |buffer| && buffer[i].turn != Some(turn)
    decreases buffer
  {
    if buffer[0].turn.Some? && buffer[0].turn.value != turn {
      assert buffer[0].turn != Some(turn);
    } else {
      MismatchIsReal(buffer[1..], turn);
      var i :| 0 <= i < |buffer[1..]| && buffer[1..][i].turn != Some(turn);
      assert buffer[i + 1].turn != Some(turn);
    }
  }

  // ----- stale handles --------------------------------------------------------

  lemma StepKeepsDead(s: Router, cmd: Command, h: Handle)
    requires Ok(s) && h.registration < s.nextRegistration && !Current(s, h)
    requires forall k :: k in s.exact ==> s.exact[k] in s.channels
    ensures h.registration < Step(s, cmd).0.nextRegistration && !Current(Step(s, cmd).0, h)
  {
    hide Ok;
  }

  /** Once a handle was promoted, cancelled or lost with the connection, it stays dead in every later
      state, and using it changes nothing, even if its thread has a newer registration. */
  lemma {:induction false} DeadHandleStaysDead(s: Router, cmds: seq<Command>, h: Handle, turn: string)
    requires Ok(s) && h.registration < s.nextRegistration && !Current(s, h)
    ensures var later := Exec(s, cmds);
            && !Current(later, h)
            && Promote(later, h, turn).0 == later && !Promote(later, h, turn).1.Promoted?
            && Cancel(later, h) == (later, UnknownPending)
    decreases cmds
  {
    if cmds != [] {
      OkIsWellFormed(s);
      StepKeepsDead(s, cmds[0], h);
      StepKeepsOk(s, cmds[0]);
      hide Ok, Step;
      DeadHandleStaysDead(Step(s, cmds[0]).0, cmds[1..], h, turn);
    }
  }

  /** A handle dies by being used, and a new handle is none of the earlier ones. */
  lemma UsedHandleIsDead(s: Router, h: Handle, turn: string)
    requires Ok(s) && Current(s, h)
    ensures h.registration < s.nextRegistration
    ensures Promote(s, h, turn).1.Promoted? ==> !Current(Promote(s, h, turn).0, h)
    ensures !Current(Cancel(s, h).0, h) && !Current(FailAll(s).0, h)
    ensures forall t :: Begin(s, t).1.Begun? ==> Begin(s, t).1.handle != h && Current(Begin(s, t).0, h)
  {
    assert PendingOk(s, h.thread, s.pending[h.thread]);
  }

  // ----- routing refines a filter ---------------------------------------------

  /** The specification: drop every terminal notification after the first. */
  function OnceTerminal(notes: seq<Note>): seq<Note> {
    if notes == [] then []
    else
      var front, last := notes[..|notes| - 1], notes[|notes| - 1];
      if TerminalName(last.name) && HasTerminal(front) then OnceTerminal(front) else OnceTerminal(front) + [last]
  }

  lemma OnceTerminalAppend(notes: seq<Note>, note: Note)
    ensures OnceTerminal(notes + [note]) ==
            if TerminalName(note.name) && HasTerminal(notes) then OnceTerminal(notes) else OnceTerminal(notes) + [note]
  {
    var all := notes + [note];
    assert all[..|all| - 1] == notes;
  }

  /** The filter keeps a terminal notification exactly when there is one. */
  lemma {:induction false} OnceTerminalKeepsTerminal(notes: seq<Note>)
    ensures HasTerminal(OnceTerminal(notes)) <==> HasTerminal(notes)
    decreases |notes|
  {
    if notes != [] {
      var front, last := notes[..|notes| - 1], notes[|notes| - 1];
      assert notes == front + [last];
      OnceTerminalKeepsTerminal(front);
      HasTerminalAppend(front, last);
      HasTerminalAppend(OnceTerminal(front), last);
    }
  }

  function IsFor(raw: Raw, key: Key): bool {
    raw.Parsable? && raw.thread == Some(key.thread) && raw.turn == Some(key.turn)
  }

  /** What one step adds to the error-free notifications of a key. */
  function Logged(s: Router, cmd: Command, key: Key): seq<Note>
    requires forall k :: k in s.exact ==> s.exact[k] in s.channels
  {
    if cmd.Routing? && IsFor(cmd.raw, key) && !Failed(Step(s, cmd).1)
    then [Parse(s.nextSequence, cmd.raw).value] else []
  }

  /** All notifications of the key that were routed without an error during the run, in order. */
  ghost function Log(s: Router, cmds: seq<Command>, key: Key): seq<Note>
    requires Ok(s)
    decreases cmds
  {
    OkIsWellFormed(s);
    StepKeepsOk(s, if cmds == [] then FailingAll else cmds[0]);
    if cmds == [] then [] else Logged(s, cmds[0], key) + Log(Step(s, cmds[0]).0, cmds[1..], key)
  }

  /** The step neither opens or closes a route for the key nor uses the handle. */
  predicate Undisturbed(cmd: Command, h: Handle, key: Key) {
    && cmd != Registering(key) && cmd != Unregistering(key) && !cmd.FailingAll?
    && !(cmd.Promoting? && cmd.handle == h) && !(cmd.Cancelling? && cmd.handle == h)
  }

  predicate AllUndisturbed(cmds: seq<Command>, h: Handle, key: Key) {
    forall i :: 0 <= i < |cmds| ==> Undisturbed(cmds[i], h, key)
  }

  lemma RestUndisturbed(cmds: seq<Command>, h: Handle, key: Key)
    requires cmds != [] && AllUndisturbed(cmds, h, key)
    ensures Undisturbed(cmds[0], h, key) && AllUndisturbed(cmds[1..], h, key)
  {
  }

  function ForTurn(notes: seq<Note>, turn: string): seq<Note> {
    if notes == [] then []
    else
      var front, last := notes[..|notes| - 1], notes[|notes| - 1];
      if last.turn == Some(turn) then ForTurn(front, turn) + [last] else ForTurn(front, turn)
  }

  lemma ForTurnAppend(notes: seq<Note>, note: Note, turn: string)
    ensures ForTurn(notes + [note], turn) ==
            if note.turn == Some(turn) then ForTurn(notes, turn) + [note] else ForTurn(notes, turn)
  {
    var all := notes + [note];
    assert all[..|all| - 1] == notes;
  }

  lemma {:induction false} ForTurnOfOneTurn(notes: seq<Note>, turn: string)
    requires forall i :: 0 <= i < |notes| ==> notes[i].turn == Some(turn)
    ensures ForTurn(notes, turn) == notes
    decreases |notes|
  {
    if notes != [] {
      var front, last := notes[..|notes| - 1], notes[|notes| - 1];
      ForTurnOfOneTurn(front, turn);
      assert notes == front + [last];
    }
  }

  lemma {:induction false} ForTurnTerminal(notes: seq<Note>, turn: string)
    ensures HasTerminal(ForTurn(notes, turn)) <==> HasTerminalFor(notes, turn)
    decreases |notes|
  {
    if notes != [] {
      var front, last := notes[..|notes| - 1], notes[|notes| - 1];
      assert notes == front + [last];
      ForTurnTerminal(front, turn);
      HasTerminalAppend(front, last);
      HasTerminalAppend(ForTurn(front, turn), last);
    }
  }

  /** While pending: the buffer, seen from the turn, is the filtered log. */
  ghost predicate Buffering(s: Router, h: Handle, key: Key, log: seq<Note>) {
    && key !in s.exact && Current(s, h) && key.thread == h.thread
    && ForTurn(s.pending[h.thread].buffer, key.turn) == OnceTerminal(log)
  }

  /** Once promoted: what the channel was sent is the filtered log. */
  ghost predicate Delivering(s: Router, key: Key, channel: nat, log: seq<Note>) {
    && key in s.exact && s.exact[key] == channel && channel in s.channels
    && s.channels[channel].sent == OnceTerminal(log)
  }

  /** A second terminal notification of the turn is suppressed, as the filter drops it. */
  lemma SuppressedNote(s: Router, h: Handle, key: Key, log: seq<Note>, turn: string, note: Note)
    requires Buffering(s, h, key, log) && PendingOk(s, h.thread, s.pending[h.thread])
    requires TerminalName(note.name) && turn in s.pending[h.thread].terminalTurns
    ensures turn == key.turn ==> OnceTerminal(log + [note]) == OnceTerminal(log)
  {
    ForTurnTerminal(s.pending[h.thread].buffer, turn);
    OnceTerminalAppend(log, note);
    OnceTerminalKeepsTerminal(log);
    hide ForTurn, OnceTerminal, HasTerminal, NotesOk, TerminalName;
  }

  /** Any other notification joins the buffer, as the filter keeps it. */
  lemma StoredNote(s: Router, h: Handle, key: Key, log: seq<Note>, turn: string, note: Note)
    requires Buffering(s, h, key, log) && PendingOk(s, h.thread, s.pending[h.thread])
    requires note.turn == Some(turn) && !(TerminalName(note.name) && turn in s.pending[h.thread].terminalTurns)
    ensures ForTurn(s.pending[h.thread].buffer + [note], key.turn)
            == OnceTerminal(if turn == key.turn then log + [note] else log)
  {
    ForTurnAppend(s.pending[h.thread].buffer, note, key.turn);
    ForTurnTerminal(s.pending[h.thread].buffer, turn);
    OnceTerminalAppend(log, note);
    OnceTerminalKeepsTerminal(log);
    hide ForTurn, OnceTerminal, HasTerminal, NotesOk, TerminalName;
  }

  /** A notification that reaches the pending buffer of the thread. */
  lemma BufferedNote(s: Router, h: Handle, key: Key, log: seq<Note>, turn: string, note: Note)
    requires Buffering(s, h, key, log) && PendingOk(s, h.thread, s.pending[h.thread])
    requires note.turn == Some(turn)
    ensures var (after, reply) := RoutePending(s, h.thread, turn, note);
            && Current(after, h) && after.exact == s.exact
            && ForTurn(after.pending[h.thread].buffer, key.turn) ==
               OnceTerminal(if turn == key.turn && !Failed(reply) then log + [note] else log)
  {
    hide ForTurn, OnceTerminal, PendingOk, TerminalName;
    if TerminalName(note.name) && turn in s.pending[h.thread].terminalTurns {
      SuppressedNote(s, h, key, log, turn, note);
    } else {
      StoredNote(s, h, key, log, turn, note);
    }
  }

  /** A notification that goes anywhere else leaves the pending route alone. */
  lemma OtherNote(s: Router, h: Handle, raw: Raw)
    requires Current(s, h)
    requires forall k :: k in s.exact ==> s.exact[k] in s.channels
    requires raw.Parsable? && raw.thread == Some(h.thread) && raw.turn.Some? ==> Key(h.thread, raw.turn.value) in s.exact
    ensures Current(Route(s, raw).0, h) && Route(s, raw).0.pending[h.thread] == s.pending[h.thread]
    ensures Route(s, raw).0.exact == s.exact
  {
  }

  lemma BufferingRoute(s: Router, h: Handle, key: Key, log: seq<Note>, raw: Raw)
    requires Ok(s) && Buffering(s, h, key, log)
    requires forall k :: k in s.exact ==> s.exact[k] in s.channels
    ensures Buffering(Route(s, raw).0, h, key, log + Logged(s, Routing(raw), key))
  {
    hide ForTurn, OnceTerminal, NotesOk, RoutePending, RouteExact;
    assert PendingOk(s, h.thread, s.pending[h.thread]);
    assert s.terminal <= s.exact.Keys;
    hide Ok, PendingOk;
    assert log + [] == log;
    if raw.Parsable? && raw.thread == Some(h.thread) && raw.turn.Some? && Key(h.thread, raw.turn.value) !in s.exact {
      var s1 := s.(nextSequence := s.nextSequence + 1);
      LaterPending(s, s1, h.thread);
      BufferedNote(s1, h, key, log, raw.turn.value, Parse(s.nextSequence, raw).value);
    } else {
      OtherNote(s, h, raw);
    }
  }

  lemma LaterPending(s: Router, s1: Router, thread: string)
    requires thread in s.pending && PendingOk(s, thread, s.pending[thread])
    requires s1 == s.(nextSequence := s.nextSequence + 1)
    ensures PendingOk(s1, thread, s1.pending[thread])
  {
  }

  lemma BufferingStep(s: Router, h: Handle, key: Key, log: seq<Note>, cmd: Command)
    requires Ok(s) && Buffering(s, h, key, log) && Undisturbed(cmd, h, key)
    requires forall k :: k in s.exact ==> s.exact[k] in s.channels
    ensures Buffering(Step(s, cmd).0, h, key, log + Logged(s, cmd, key))
  {
    if cmd.Routing? {
      BufferingRoute(s, h, key, log, cmd.raw);
    } else {
      hide Ok, FirstMismatch, ForTurn, OnceTerminal;
      assert log + [] == log;
    }
  }

  lemma {:induction false} BufferingRun(s: Router, h: Handle, key: Key, log: seq<Note>, cmds: seq<Command>)
    requires Ok(s) && Buffering(s, h, key, log)
    requires AllUndisturbed(cmds, h, key)
    ensures Buffering(Exec(s, cmds), h, key, log + Log(s, cmds, key))
    decreases cmds
  {
    hide Ok, Step, Buffering, Logged, Undisturbed, AllUndisturbed;
    if cmds == [] {
      assert log + [] == log;
    } else {
      OkIsWellFormed(s);
      StepKeepsOk(s, cmds[0]);
      RestUndisturbed(cmds, h, key);
      BufferingStep(s, h, key, log, cmds[0]);
      var now := Logged(s, cmds[0], key);
      BufferingRun(Step(s, cmds[0]).0, h, key, log + now, cmds[1..]);
      assert (log + now) + Log(Step(s, cmds[0]).0, cmds[1..], key) == log + Log(s, cmds, key);
    }
  }

  /** A notification for the key itself. */
  lemma DeliveredNote(s: Router, key: Key, channel: nat, log: seq<Note>, note: Note)
    requires Delivering(s, key, channel, log) && (key in s.terminal <==> HasTerminal(s.channels[channel].sent))
    requires note.thread == Some(key.thread) && note.turn == Some(key.turn)
    requires forall k :: k in s.exact ==> s.exact[k] in s.channels
    ensures Delivering(Dispatch(s, note).0, key, channel, if Failed(Dispatch(s, note).1) then log else log + [note])
  {
    OnceTerminalAppend(log, note);
    OnceTerminalKeepsTerminal(log);
    hide HasTerminal, OnceTerminal;
  }

  /** A notification for anything else never reaches the channel. */
  lemma NoteElsewhere(s: Router, key: Key, channel: nat, log: seq<Note>, note: Note)
    requires Ok(s) && Delivering(s, key, channel, log)
    requires !(note.thread == Some(key.thread) && note.turn == Some(key.turn))
    requires forall k :: k in s.exact ==> s.exact[k] in s.channels
    ensures Delivering(Dispatch(s, note).0, key, channel, log)
  {
    if note.thread.Some? && note.turn.Some? && Key(note.thread.value, note.turn.value) in s.exact {
      assert ExactOk(s, Key(note.thread.value, note.turn.value)) && ExactOk(s, key);
    }
    hide Ok, HasTerminal, OnceTerminal;
  }

  lemma DeliveringRoute(s: Router, key: Key, channel: nat, log: seq<Note>, raw: Raw)
    requires Ok(s) && Delivering(s, key, channel, log)
    requires forall k :: k in s.exact ==> s.exact[k] in s.channels
    ensures Delivering(Route(s, raw).0, key, channel, log + Logged(s, Routing(raw), key))
  {
    hide HasTerminal, OnceTerminal, Dispatch;
    assert ExactOk(s, key);
    hide Ok;
    assert log + [] == log;
    var s1 := s.(nextSequence := s.nextSequence + 1);
    var note := Parse(s.nextSequence, raw);
    LaterSequenceKeepsOk(s);
    assert Delivering(s1, key, channel, log);
    if note.Some? {
      if IsFor(raw, key) {
        DeliveredNote(s1, key, channel, log, note.value);
      } else {
        NoteElsewhere(s1, key, channel, log, note.value);
      }
    }
  }

  lemma DeliveringStep(s: Router, h: Handle, key: Key, channel: nat, log: seq<Note>, cmd: Command)
    requires Ok(s) && Delivering(s, key, channel, log) && Undisturbed(cmd, h, key)
    requires forall k :: k in s.exact ==> s.exact[k] in s.channels
    ensures Delivering(Step(s, cmd).0, key, channel, log + Logged(s, cmd, key))
  {
    if cmd.Routing? {
      DeliveringRoute(s, key, channel, log, cmd.raw);
    } else {
      assert channel < s.nextChannel;
      hide Ok, FirstMismatch, OnceTerminal;
      assert log + [] == log;
    }
  }

  lemma {:induction false} DeliveringRun(s: Router, h: Handle, key: Key, channel: nat, log: seq<Note>, cmds: seq<Command>)
    requires Ok(s) && Delivering(s, key, channel, log)
    requires AllUndisturbed(cmds, h, key)
    ensures Delivering(Exec(s, cmds), key, channel, log + Log(s, cmds, key))
    decreases cmds
  {
    hide Ok, Step, Delivering, Logged, Undisturbed, AllUndisturbed;
    if cmds == [] {
      assert log + [] == log;
    } else {
      OkIsWellFormed(s);
      StepKeepsOk(s, cmds[0]);
      RestUndisturbed(cmds, h, key);
      DeliveringStep(s, h, key, channel, log, cmds[0]);
      var now := Logged(s, cmds[0], key);
      DeliveringRun(Step(s, cmds[0]).0, h, key, channel, log + now, cmds[1..]);
      assert (log + now) + Log(Step(s, cmds[0]).0, cmds[1..], key) == log + Log(s, cmds, key);
    }
  }

  /** From `begin_pending_route` through a successful promotion and beyond, in any run that neither closes
      the route nor uses the handle elsewhere: everything that was sent to the receiver, taken and still
      queued, is the sequence of error-free notifications of its (thread, turn) with terminal ones after
      the first removed, in strictly increasing transport order. */
  lemma PromotedReceiverSeesTheFilter(
    s: Router, thread: string, turn: string, before: seq<Command>, after: seq<Command>)
    requires Ok(s) && After(s, Beginning(thread)).1.Begun? && Key(thread, turn) !in s.exact
    requires var (begun, reply) := After(s, Beginning(thread));
             && AllUndisturbed(before, reply.handle, Key(thread, turn))
             && AllUndisturbed(after, reply.handle, Key(thread, turn))
             && After(Exec(begun, before), Promoting(reply.handle, turn)).1.Promoted?
    ensures var (begun, start) := After(s, Beginning(thread));
            var (promoted, reply) := After(Exec(begun, before), Promoting(start.handle, turn));
            var (last, key) := (Exec(promoted, after), Key(thread, turn));
            && reply.channel in last.channels && last.channels[reply.channel].consumed <= |last.channels[reply.channel].sent|
            && var c := last.channels[reply.channel];
               && c.sent[..c.consumed] + c.sent[c.consumed..] ==
                  OnceTerminal(Log(begun, before, key) + Log(promoted, after, key))
               && Increasing(c.sent)
  {
    hide Ok, Promote, Log, Logged, OnceTerminal, AllUndisturbed, Buffering, Delivering;
    var (begun, h, key) := (After(s, Beginning(thread)).0, After(s, Beginning(thread)).1.handle, Key(thread, turn));
    BeginsEmpty(s, key);
    BufferingRun(begun, h, key, [], before);
    var ready := Exec(begun, before);
    var log := Log(begun, before, key);
    assert [] + log == log;
    var (promoted, reply) := After(ready, Promoting(h, turn));
    PromotionDelivers(ready, h, key, log);
    DeliveringRun(promoted, h, key, reply.channel, log, after);
    DeliveredFacts(Exec(promoted, after), key, reply.channel, log + Log(promoted, after, key));
  }

  lemma BeginsEmpty(s: Router, key: Key)
    requires Begin(s, key.thread).1.Begun? && key !in s.exact
    ensures Buffering(Begin(s, key.thread).0, Begin(s, key.thread).1.handle, key, [])
  {
  }

  lemma DeliveredFacts(s: Router, key: Key, channel: nat, log: seq<Note>)
    requires Ok(s) && Delivering(s, key, channel, log)
    ensures channel in s.channels && s.channels[channel].consumed <= |s.channels[channel].sent|
    ensures var c := s.channels[channel];
            c.sent[..c.consumed] + c.sent[c.consumed..] == OnceTerminal(log) && Increasing(c.sent)
  {
    assert ChannelOk(s, s.channels[channel]);
    hide Ok, OnceTerminal;
  }

  lemma PromotionDelivers(s: Router, h: Handle, key: Key, log: seq<Note>)
    requires Ok(s) && Buffering(s, h, key, log) && Promote(s, h, key.turn).1.Promoted?
    ensures Delivering(Promote(s, h, key.turn).0, key, Promote(s, h, key.turn).1.channel, log)
  {
    var p := s.pending[h.thread];
    assert PendingOk(s, h.thread, p);
    NoMismatchMeansOneTurn(p.buffer, key.turn);
    ForTurnOfOneTurn(p.buffer, key.turn);
  }
}
