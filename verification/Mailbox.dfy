/**
 * The session's inbound queue: the wire, the pump into a bounded inbox, the list of deferred messages, and
 * the operations next, poll, pushback and midSendCheck on them, in any interleaving.
 */
module Mailbox {
  import opened Protocol
  import opened Session
  import opened Recogniser

  /** removed is what has left the queue for good, taken what of it a wait loop or the check was given. */
  datatype State = State(
    pending: seq<Msg>,
    inbox: seq<Msg>,
    wire: seq<Msg>,
    closed: bool,
    arrived: seq<Msg>,
    removed: seq<Msg>,
    taken: seq<Msg>)

  const INIT := State([], [], [], false, [], [], [])

  /** The one FIFO that the three lists stand for. */
  function Queue(s: State): seq<Msg> {
    s.pending + s.inbox + s.wire
  }

  /** Which ready case the select picks. */
  datatype Pick = FromInbox | OnClosed | OnContext

  datatype Step =
    | Arrives(m: Msg)
    | Pumps
    | Closes
    | Nexts(pick: Pick)
    | Polls            // poll and, if it found something, midSendCheck

  /** midSendCheck defers what a wait loop must see. */
  predicate Deferrable(m: Msg) {
    m.Text? && !m.control.Cancel? && !m.control.Error? && !m.control.Unknown?
  }

  /** The channel reports its close after handing over its last message. */
  predicate Enabled(s: State, a: Step) {
    match a
    case Arrives(_) => !s.closed
    case Pumps => s.wire != [] && |s.inbox| < INBOX_CAPACITY
    case Closes => s.wire == []
    case Nexts(pick) =>
      s.pending != [] || (pick.FromInbox? && s.inbox != []) || (pick.OnClosed? && s.closed) || pick.OnContext?
    case Polls => true
  }

  function Take(s: State): State
    requires s.pending != [] || s.inbox != []
  {
    if s.pending != [] then
      s.(pending := s.pending[1..], removed := s.removed + [s.pending[0]], taken := s.taken + [s.pending[0]])
    else
      s.(inbox := s.inbox[1..], removed := s.removed + [s.inbox[0]], taken := s.taken + [s.inbox[0]])
  }

  /** What next returns. */
  function NextResult(s: State, pick: Pick): Arrival
    requires Enabled(s, Nexts(pick))
  {
    if s.pending != [] then Message(s.pending[0])
    else if pick.OnContext? then CtxDone
    else if s.inbox != [] then Message(s.inbox[0])
    else Closed
  }

  /** What poll finds. */
  function PollResult(s: State): Option<Msg> {
    if s.pending != [] then Some(s.pending[0])
    else if s.inbox != [] then Some(s.inbox[0])
    else None
  }

  function Apply(s: State, a: Step): State
    requires Enabled(s, a)
  {
    match a
    case Arrives(m) => s.(wire := s.wire + [m], arrived := s.arrived + [m])
    case Pumps => s.(inbox := s.inbox + [s.wire[0]], wire := s.wire[1..])
    case Closes => s.(closed := true)
    case Nexts(pick) => if NextResult(s, pick).Message? then Take(s) else s
    case Polls =>
      match PollResult(s)
      case None => s
      case Some(m) =>
        if Deferrable(m) then
          if s.pending != [] then s.(pending := s.pending[1..] + [m]) else s.(inbox := s.inbox[1..], pending := [m])
        else if IsUnknown(m) then Take(s).(taken := s.taken)
        else Take(s)
  }

  /** A history of enabled steps. */
  predicate Legal(s: State, steps: seq<Step>)
    decreases |steps|
  {
    steps == [] || (Enabled(s, steps[0]) && Legal(Apply(s, steps[0]), steps[1..]))
  }

  function Run(s: State, steps: seq<Step>): State
    requires Legal(s, steps)
    decreases |steps|
  {
    if steps == [] then s else Run(Apply(s, steps[0]), steps[1..])
  }

  ghost predicate Inv(s: State) {
    && s.arrived == s.removed + Queue(s)
    && Erase(s.taken) == Erase(s.removed)
    && |s.pending| <= 1
    && |s.inbox| <= INBOX_CAPACITY
    && (s.closed ==> s.wire == [])
  }

  lemma {:induction false} EraseAppend(msgs: seq<Msg>, m: Msg)
    ensures Erase(msgs + [m]) == if IsUnknown(m) then Erase(msgs) else Erase(msgs) + [m]
  {
    if msgs == [] {
      assert Erase([m][1..]) == [];
    } else {
      assert (msgs + [m])[1..] == msgs[1..] + [m];
      EraseAppend(msgs[1..], m);
    }
  }

  function Head(s: State): Msg
    requires s.pending != [] || s.inbox != []
  {
    if s.pending != [] then s.pending[0] else s.inbox[0]
  }

  lemma TakeIsHead(s: State)
    requires s.pending != [] || s.inbox != []
    ensures Queue(s) == [Head(s)] + Queue(Take(s))
    ensures Take(s).removed == s.removed + [Head(s)] && Take(s).taken == s.taken + [Head(s)]
  {
    if s.pending != [] {
      assert s.pending == [s.pending[0]] + s.pending[1..];
    } else {
      assert s.inbox == [s.inbox[0]] + s.inbox[1..];
    }
  }

  /** The head leaves the FIFO and is handed on, or is of unknown type and is dropped. */
  lemma TakeKeepsInv(s: State)
    requires Inv(s) && (s.pending != [] || s.inbox != [])
    ensures Inv(Take(s))
    ensures IsUnknown(Head(s)) ==> Inv(Take(s).(taken := s.taken))
  {
    hide Erase, IsUnknown;
    TakeIsHead(s);
    var m := Head(s);
    EraseAppend(s.removed, m);
    EraseAppend(s.taken, m);
    var rest := Queue(Take(s));
    assert s.removed + ([m] + rest) == s.removed + [m] + rest;
  }

  /** Deferring a message moves it from one list to another, not within the FIFO. */
  lemma DeferKeepsQueue(s: State, m: Msg)
    requires |s.pending| <= 1
    ensures s.pending != [] && m == s.pending[0] ==> s.pending[1..] + [m] == s.pending
    ensures s.pending == [] && s.inbox != [] && m == s.inbox[0] ==>
      Queue(s.(inbox := s.inbox[1..], pending := [m])) == Queue(s)
  {
    if s.pending == [] && s.inbox != [] {
      assert s.inbox == [s.inbox[0]] + s.inbox[1..];
    }
  }

  lemma PumpKeepsQueue(s: State)
    requires s.wire != []
    ensures Queue(s.(inbox := s.inbox + [s.wire[0]], wire := s.wire[1..])) == Queue(s)
  {
    assert s.wire == [s.wire[0]] + s.wire[1..];
  }

  /** A step removes the head, adds to the end, or leaves the FIFO as it is. */
  lemma StepKeepsInv(s: State, a: Step)
    requires Inv(s) && Enabled(s, a)
    ensures Inv(Apply(s, a))
  {
    hide Erase, IsUnknown, Take;
    match a
    case Arrives(m) =>
      assert s.removed + Queue(s) + [m] == s.removed + (s.pending + s.inbox + (s.wire + [m]));
    case Pumps => PumpKeepsQueue(s);
    case Closes =>
    case Nexts(pick) =>
      if NextResult(s, pick).Message? {
        TakeKeepsInv(s);
      }
    case Polls =>
      if PollResult(s).Some? {
        TakeKeepsInv(s);
        DeferKeepsQueue(s, PollResult(s).value);
      }
  }

  lemma {:induction false} RunKeepsInv(s: State, steps: seq<Step>)
    requires Inv(s) && Legal(s, steps)
    ensures Inv(Run(s, steps))
    decreases |steps|
  {
    if steps != [] {
      StepKeepsInv(s, steps[0]);
      RunKeepsInv(Apply(s, steps[0]), steps[1..]);
    }
  }

  /**
   * Every interleaving of the pump and the session's operations is one FIFO: what arrived is what was removed
   * followed by what is queued, of what was removed only messages of unknown type were not handed on, and at
   * most one message is deferred at a time.
   */
  lemma OneQueue(steps: seq<Step>)
    requires Legal(INIT, steps)
    ensures var s := Run(INIT, steps);
      s.arrived == s.removed + Queue(s) && Erase(s.taken) == Erase(s.removed) && |s.pending| <= 1
  {
    RunKeepsInv(INIT, steps);
  }

  /** Close is reported only after everything that arrived has been handed on, save the unknown types. */
  lemma CloseComesLast(steps: seq<Step>, pick: Pick)
    requires Legal(INIT, steps) && Enabled(Run(INIT, steps), Nexts(pick))
    requires NextResult(Run(INIT, steps), pick) == Closed
    ensures var s := Run(INIT, steps); Queue(s) == [] && Erase(s.taken) == Erase(s.arrived)
  {
    RunKeepsInv(INIT, steps);
    var s := Run(INIT, steps);
    assert s.removed + [] == s.removed;
  }

  /** With several cases ready, no choice of the select skips a message or reports a close too early. */
  lemma NextIsHead(steps: seq<Step>, pick: Pick)
    requires Legal(INIT, steps) && Enabled(Run(INIT, steps), Nexts(pick))
    ensures var s := Run(INIT, steps);
      match NextResult(s, pick)
      case Message(m) => Queue(s) != [] && m == Queue(s)[0]
      case Closed => Queue(s) == []
      case CtxDone => s.pending == []
  {
    RunKeepsInv(INIT, steps);
  }

  /** What a wait returns, case by case, and what it takes off the FIFO. */
  lemma NextExactly(s: State, pick: Pick)
    requires Inv(s) && Enabled(s, Nexts(pick))
    ensures var r, ready, s' := NextResult(s, pick), s.pending + s.inbox, Apply(s, Nexts(pick));
      && (r == CtxDone <==> s.pending == [] && pick == OnContext)
      && (r == Closed <==> ready == [] && s.closed && pick == OnClosed)
      && (r.Message? ==>
            && ready != [] && r.m == ready[0]
            && s'.pending + s'.inbox == ready[1..] && s'.wire == s.wire
            && s'.removed == s.removed + [r.m] && s'.taken == s.taken + [r.m])
      && (!r.Message? ==> s' == s)
  {
    if s.pending != [] {
      assert s.pending == [s.pending[0]];
    }
  }

  /** The known types that end nothing. */
  lemma DeferrableExactly(m: Msg)
    ensures Deferrable(m) <==>
              (m.Text?
               && var c := m.control;
                 c.Hello? || c.Manifest? || c.Accept? || c.Reject? || c.FileStart? || c.FileEnd? || c.FileAck? || c.Done?)
  {
  }

  /** The look between two chunks, case by case: what stays at the front of the FIFO, what is dropped or handed on. */
  lemma PollExactly(s: State)
    requires Inv(s)
    ensures var found, ready, s' := PollResult(s), s.pending + s.inbox, Apply(s, Polls);
      && (found == None <==> ready == [])
      && (found == None ==> s' == s)
      && s'.wire == s.wire && s'.closed == s.closed
      && (found.Some? ==>
            && found.value == ready[0]
            && (if Deferrable(ready[0]) then
                  s'.pending == [ready[0]] && s'.pending + s'.inbox == ready && s'.removed == s.removed
                  && s'.taken == s.taken
                else
                  s'.pending + s'.inbox == ready[1..] && s'.removed == s.removed + [ready[0]]
                  && s'.taken == if IsUnknown(ready[0]) then s.taken else s.taken + [ready[0]]))
  {
    if s.pending != [] {
      assert s.pending == [s.pending[0]];
    } else if s.inbox != [] {
      assert s.inbox == [s.inbox[0]] + s.inbox[1..];
    }
  }

  lemma {:induction false} RunAppend(s: State, steps: seq<Step>, a: Step)
    requires Legal(s, steps) && Enabled(Run(s, steps), a)
    ensures Legal(s, steps + [a]) && Run(s, steps + [a]) == Apply(Run(s, steps), a)
    decreases |steps|
  {
    if steps == [] {
      assert [a][1..] == [];
    } else {
      assert (steps + [a])[1..] == steps[1..] + [a];
      RunAppend(Apply(s, steps[0]), steps[1..], a);
    }
  }

  // ----- The program ----------------------------------------------------------------------------

  class Inbound {
    var pending: seq<Msg>
    var inbox: seq<Msg>
    var wire: seq<Msg>
    var closed: bool

    ghost var arrived: seq<Msg>
    ghost var removed: seq<Msg>
    ghost var taken: seq<Msg>
    ghost var steps: seq<Step>

    ghost function View(): State
      reads this
    {
      State(pending, inbox, wire, closed, arrived, removed, taken)
    }

    ghost predicate Valid()
      reads this
    {
      Legal(INIT, steps) && View() == Run(INIT, steps)
    }

    constructor ()
      ensures Valid() && View() == INIT
    {
      pending, inbox, wire, closed := [], [], [], false;
      arrived, removed, taken, steps := [], [], [], [];
    }

    ghost method Took(before: State, a: Step)
      requires Legal(INIT, steps) && before == Run(INIT, steps)
      requires Enabled(before, a) && View() == Apply(before, a)
      modifies this`steps
      ensures Valid() && steps == old(steps) + [a]
    {
      RunAppend(INIT, steps, a);
      steps := steps + [a];
    }

    /** The channel receives a message. */
    method Arrive(m: Msg)
      requires Valid() && !closed
      modifies this
      ensures Valid() && steps == old(steps) + [Arrives(m)]
    {
      hide Run, Legal;
      ghost var before := View();
      wire := wire + [m];
      arrived := arrived + [m];
      Took(before, Arrives(m));
    }

    /** The pump; it blocks while the inbox is full, which is the receive-side back-pressure. */
    method Pump() returns (moved: bool)
      requires Valid()
      modifies this
      ensures Valid() && moved == (old(wire) != [] && |old(inbox)| < INBOX_CAPACITY)
      ensures steps == if moved then old(steps) + [Pumps] else old(steps)
    {
      hide Run, Legal;
      if |wire| == 0 || |inbox| == INBOX_CAPACITY {
        InboxFits();
        return false;
      }
      InboxFits();
      ghost var before := View();
      inbox := inbox + [wire[0]];
      wire := wire[1..];
      Took(before, Pumps);
      return true;
    }

    lemma InboxFits()
      requires Valid()
      ensures |inbox| <= INBOX_CAPACITY
    {
      RunKeepsInv(INIT, steps);
    }

    method CloseChannel()
      requires Valid() && wire == []
      modifies this
      ensures Valid() && steps == old(steps) + [Closes]
    {
      hide Run, Legal;
      ghost var before := View();
      closed := true;
      Took(before, Closes);
    }

    /** next, once one of its cases is ready. */
    method Next(pick: Pick) returns (a: Arrival)
      requires Valid() && Enabled(View(), Nexts(pick))
      modifies this
      ensures Valid() && steps == old(steps) + [Nexts(pick)] && a == NextResult(old(View()), pick)
    {
      hide Run, Legal;
      ghost var before := View();
      if |pending| > 0 {
        var m := pending[0];
        pending := pending[1..];
        removed, taken := removed + [m], taken + [m];
        Took(before, Nexts(pick));
        return Message(m);
      }
      if pick.OnContext? {
        Took(before, Nexts(pick));
        return CtxDone;
      }
      if |inbox| > 0 {
        var m := inbox[0];
        inbox := inbox[1..];
        removed, taken := removed + [m], taken + [m];
        Took(before, Nexts(pick));
        return Message(m);
      }
      Took(before, Nexts(pick));
      return Closed;
    }

    /** poll: what is deferred or queued, without blocking. */
    method Poll() returns (m: Option<Msg>)
      modifies this`pending, this`inbox
      ensures m == PollResult(old(View()))
      ensures if old(pending) != [] then pending == old(pending)[1..] && inbox == old(inbox)
              else pending == [] && inbox == if old(inbox) != [] then old(inbox)[1..] else []
    {
      if |pending| > 0 {
        m := Some(pending[0]);
        pending := pending[1..];
        return;
      }
      if |inbox| > 0 {
        m := Some(inbox[0]);
        inbox := inbox[1..];
        return;
      }
      return None;
    }

    method Pushback(m: Msg)
      modifies this`pending
      ensures pending == old(pending) + [m]
    {
      pending := pending + [m];
    }

    /** The look between two chunks: poll, and midSendCheck on what it found; it says what ends the stream. */
    method PollOnce() returns (ending: Option<Msg>)
      requires Valid()
      modifies this
      ensures Valid() && steps == old(steps) + [Polls]
      ensures ending == match PollResult(old(View()))
        case None => None
        case Some(m) => if Deferrable(m) || IsUnknown(m) then None else Some(m)
    {
      hide Run, Legal;
      ghost var before := View();
      var m := Poll();
      if m.None? {
        Took(before, Polls);
        return None;
      }
      if Deferrable(m.value) {
        Pushback(m.value);
        Took(before, Polls);
        return None;
      }
      removed := removed + [m.value];
      if IsUnknown(m.value) {
        Took(before, Polls);
        return None;
      }
      taken := taken + [m.value];
      Took(before, Polls);
      return m;
    }
  }
}
