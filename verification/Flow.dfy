/**
 * Flow control on the sending side (WriteFlow, signal, the low-watermark wiring): one writer, the network
 * draining the buffer, and a wake-up token that may be stale.
 */
module Flow {
  import opened Protocol

  const HIGH := 0x10_0000      // 1 MiB: stop at this much
  const LOW := 0x8_0000        // 512 KiB: the callback threshold
  const LIMIT := 0x40_0000     // 4 MiB: never to be exceeded
  const MAX_CHUNK := 0x4000    // 16 KiB: the interoperable message size of section 6.6 of RFC 8831

  datatype Writer = Idle | Checking(n: nat) | Blocked(n: nat) | Sending(n: nat)

  /** data is what came through WriteFlow, control what was sent as text; both count as buffered. */
  datatype State = State(data: nat, control: nat, callbacks: nat, token: bool, writer: Writer)

  const INIT := State(0, 0, 0, false, Idle)

  function Buffered(s: State): nat {
    s.data + s.control
  }

  datatype Step =
    | Begins(n: nat)              // WriteFlow is called with n bytes
    | Checks                      // one look at BufferedAmount
    | Wakes                       // the select takes the token
    | GivesUp                     // the context is done
    | Sends
    | SendsText(n: nat)
    | Drains(d: nat, c: nat)      // the network takes d data bytes and c bytes of text
    | CallbackRuns                // OnBufferedAmountLow: signal(lowCh)

  predicate Enabled(s: State, a: Step) {
    match a
    case Begins(n) => s.writer.Idle? && n <= MAX_CHUNK
    case Checks => s.writer.Checking?
    case Wakes => s.writer.Blocked? && s.token
    case GivesUp => s.writer.Blocked? || s.writer.Checking?
    case Sends => s.writer.Sending?
    case SendsText(_) => s.writer.Idle?
    case Drains(d, c) => d <= s.data && c <= s.control
    case CallbackRuns => s.callbacks > 0
  }

  function Apply(s: State, a: Step): State
    requires Enabled(s, a)
  {
    match a
    case Begins(n) => s.(writer := Checking(n))
    case Checks => s.(writer := if Buffered(s) >= HIGH then Blocked(s.writer.n) else Sending(s.writer.n))
    case Wakes => s.(token := false, writer := Checking(s.writer.n))
    case GivesUp => s.(writer := Idle)
    case Sends => s.(data := s.data + s.writer.n, writer := Idle)
    case SendsText(n) => s.(control := s.control + n)
    case Drains(d, c) =>
      var s' := s.(data := s.data - d, control := s.control - c);
      if Buffered(s') <= LOW < Buffered(s) then s'.(callbacks := s.callbacks + 1) else s'
    case CallbackRuns => s.(callbacks := s.callbacks - 1, token := true)
  }

  /** Steps that are not enabled when their turn comes are passed over. */
  function Run(s: State, steps: seq<Step>): State
    decreases |steps|
  {
    if steps == [] then s
    else Run(if Enabled(s, steps[0]) then Apply(s, steps[0]) else s, steps[1..])
  }

  lemma {:induction false} RunConcat(s: State, a: seq<Step>, b: seq<Step>)
    ensures Run(s, a + b) == Run(Run(s, a), b)
    decreases |a|
  {
    if a == [] {
      assert a + b == b;
    } else {
      assert (a + b)[1..] == a[1..] + b;
      RunConcat(if Enabled(s, a[0]) then Apply(s, a[0]) else s, a[1..], b);
    }
  }

  /** The bound, and a reason why a blocked writer will not sleep through an empty buffer. */
  ghost predicate Inv(s: State) {
    && s.data <= HIGH - 1 + MAX_CHUNK
    && (s.writer.Sending? ==> Buffered(s) < HIGH)
    && (!s.writer.Idle? ==> s.writer.n <= MAX_CHUNK)
    && (s.writer.Blocked? ==> Buffered(s) > LOW || s.callbacks > 0 || s.token)
  }

  lemma StepKeepsInv(s: State, a: Step)
    requires Inv(s) && Enabled(s, a)
    ensures Inv(Apply(s, a))
  {
  }

  lemma {:induction false} RunKeepsInv(s: State, steps: seq<Step>)
    requires Inv(s)
    ensures Inv(Run(s, steps))
    decreases |steps|
  {
    if steps != [] {
      if Enabled(s, steps[0]) {
        StepKeepsInv(s, steps[0]);
      }
      RunKeepsInv(if Enabled(s, steps[0]) then Apply(s, steps[0]) else s, steps[1..]);
    }
  }

  /** Every interleaving keeps the data buffered through WriteFlow below the hard limit. */
  lemma BufferStaysBounded(steps: seq<Step>)
    ensures Run(INIT, steps).data <= HIGH - 1 + MAX_CHUNK < LIMIT
  {
    RunKeepsInv(INIT, steps);
  }

  /** Every interleaving: a blocked writer waits for a drain still to come, a callback, or takes a token. */
  lemma NoLostWakeUp(steps: seq<Step>)
    requires Run(INIT, steps).writer.Blocked?
    ensures var s := Run(INIT, steps); Buffered(s) > LOW || s.callbacks > 0 || s.token
  {
    RunKeepsInv(INIT, steps);
  }

  /**
   * However many stale tokens there have been: once the buffer is down to the low mark, the pending callback
   * and the writer's own steps get the chunk sent.
   */
  lemma BlockedWriterSends(steps: seq<Step>) returns (more: seq<Step>)
    requires Run(INIT, steps).writer.Blocked? && Buffered(Run(INIT, steps)) <= LOW
    ensures forall i | 0 <= i < |more| :: more[i] in {CallbackRuns, Wakes, Checks, Sends}
    ensures var s := Run(INIT, steps); var t := Run(INIT, steps + more);
      t.writer == Idle && t.data == s.data + s.writer.n && t.control == s.control
  {
    NoLostWakeUp(steps);
    var s := Run(INIT, steps);
    var tail := [Wakes, Checks, Sends];
    more := if s.token then tail else [CallbackRuns] + tail;
    RunConcat(INIT, steps, more);
    var woken := if s.token then s else Apply(s, CallbackRuns);
    SendsWhenWoken(woken);
    assert ([CallbackRuns] + tail)[1..] == tail;
  }

  lemma SendsWhenWoken(s: State)
    requires s.writer.Blocked? && s.token && Buffered(s) <= LOW
    ensures Run(s, [Wakes, Checks, Sends]) == s.(token := false, data := s.data + s.writer.n, writer := Idle)
  {
    var s1 := Apply(s, Wakes);
    var s2 := Apply(s1, Checks);
    var s3 := Apply(s2, Sends);
    assert Run(s3, []) == s3;
    assert [Sends][1..] == [] && Run(s2, [Sends]) == s3;
    assert [Checks, Sends][1..] == [Sends] && Run(s1, [Checks, Sends]) == s3;
    assert [Wakes, Checks, Sends][1..] == [Checks, Sends];
  }

  // ----- Wake-ups are earned ----------------------------------------------------------------------

  predicate Crosses(s: State, a: Step)
    requires Enabled(s, a)
  {
    a.Drains? && Buffered(Apply(s, a)) <= LOW < Buffered(s)
  }

  /** How often a token was taken, a callback ran, and the buffer fell to the low mark. */
  function Wakings(s: State, steps: seq<Step>): nat
    decreases |steps|
  {
    if steps == [] then 0
    else if !Enabled(s, steps[0]) then Wakings(s, steps[1..])
    else Wakings(Apply(s, steps[0]), steps[1..]) + (if steps[0].Wakes? then 1 else 0)
  }

  function Callbacks(s: State, steps: seq<Step>): nat
    decreases |steps|
  {
    if steps == [] then 0
    else if !Enabled(s, steps[0]) then Callbacks(s, steps[1..])
    else Callbacks(Apply(s, steps[0]), steps[1..]) + (if steps[0].CallbackRuns? then 1 else 0)
  }

  function Crossings(s: State, steps: seq<Step>): nat
    decreases |steps|
  {
    if steps == [] then 0
    else if !Enabled(s, steps[0]) then Crossings(s, steps[1..])
    else Crossings(Apply(s, steps[0]), steps[1..]) + (if Crosses(s, steps[0]) then 1 else 0)
  }

  lemma {:induction false} WakeUpsFrom(s: State, steps: seq<Step>)
    ensures var t := Run(s, steps);
      && Wakings(s, steps) + (if t.token then 1 else 0) <= Callbacks(s, steps) + (if s.token then 1 else 0)
      && Callbacks(s, steps) + t.callbacks == Crossings(s, steps) + s.callbacks
    decreases |steps|
  {
    if steps != [] {
      WakeUpsFrom(if Enabled(s, steps[0]) then Apply(s, steps[0]) else s, steps[1..]);
    }
  }

  /**
   * Every interleaving: the writer is woken at most once per callback, and there is one callback, run or
   * pending, for each time the buffer fell to the low mark.
   */
  lemma WakeUpsAreEarned(steps: seq<Step>)
    ensures Wakings(INIT, steps) <= Callbacks(INIT, steps)
    ensures Callbacks(INIT, steps) + Run(INIT, steps).callbacks == Crossings(INIT, steps)
  {
    WakeUpsFrom(INIT, steps);
  }

  /** What of a list of steps is not the writer's own. */
  function Outside(steps: seq<Step>): seq<Step> {
    if steps == [] then []
    else
      var last := steps[|steps| - 1];
      Outside(steps[..|steps| - 1]) + (if last.Drains? || last.CallbackRuns? then [last] else [])
  }

  lemma NothingOutside(s: State)
    ensures Run(s, Outside([])) == s
  {
  }

  lemma OneMoreOutside(s: State, steps: seq<Step>, i: nat)
    requires i < |steps|
    ensures var a, t := steps[i], Run(s, Outside(steps[..i]));
      Run(s, Outside(steps[..i + 1]))
      == if (a.Drains? || a.CallbackRuns?) && Enabled(t, a) then Apply(t, a) else t
  {
    var a, t := steps[i], Run(s, Outside(steps[..i]));
    assert steps[..i + 1][..i] == steps[..i];
    if a.Drains? || a.CallbackRuns? {
      RunConcat(s, Outside(steps[..i]), [a]);
      assert [a][1..] == [];
    } else {
      assert Outside(steps[..i]) + [] == Outside(steps[..i]);
    }
  }

  // ----- The program ----------------------------------------------------------------------------

  datatype WriteResult = Sent | TooLarge | ContextDone | StillBlocked

  /**
   * The data channel and WriteFlow. What the network and the callbacks do while the writer looks or waits
   * is given by a schedule: one list of steps per look.
   */
  class Channel {
    var data: nat
    var control: nat
    var callbacks: nat
    var token: bool
    var schedule: seq<seq<Step>>
    var cancelled: seq<bool>

    ghost var writer: Writer
    ghost var steps: seq<Step>

    ghost function View(): State
      reads this
    {
      State(data, control, callbacks, token, writer)
    }

    /** The object is where its steps lead. */
    ghost predicate Valid()
      reads this
    {
      View() == Run(INIT, steps) && |cancelled| == |schedule|
    }

    constructor (schedule: seq<seq<Step>>, cancelled: seq<bool>)
      requires |cancelled| == |schedule|
      ensures Valid() && View() == INIT
    {
      data, control, callbacks, token := 0, 0, 0, false;
      this.schedule, this.cancelled := schedule, cancelled;
      writer, steps := Idle, [];
    }

    /** One step has been carried out on the fields. */
    ghost method Took(before: State, a: Step)
      requires before == Run(INIT, steps) && |cancelled| == |schedule|
      requires Enabled(before, a) && View() == Apply(before, a)
      modifies this`steps
      ensures Valid() && steps == old(steps) + [a]
    {
      RunConcat(INIT, steps, [a]);
      assert [a][1..] == [] && Run(before, [a]) == Apply(before, a);
      steps := steps + [a];
    }

    /** signal: a token is never duplicated. */
    method Signal()
      requires Valid() && callbacks > 0
      modifies this
      ensures Valid() && View() == Apply(old(View()), CallbackRuns)
      ensures writer == old(writer) && data == old(data) && control == old(control)
      ensures old(steps) <= steps
      ensures schedule == old(schedule) && cancelled == old(cancelled)
    {
      hide Run;
      ghost var before := View();
      callbacks := callbacks - 1;
      if !token {
        token := true;
      }
      Took(before, CallbackRuns);
    }

    /** Bytes leave the buffer; crossing the low mark queues the callback. */
    method Drain(d: nat, c: nat)
      requires Valid() && d <= data && c <= control
      modifies this
      ensures Valid() && View() == Apply(old(View()), Drains(d, c))
      ensures writer == old(writer) && data <= old(data) && control <= old(control)
      ensures old(steps) <= steps
      ensures schedule == old(schedule) && cancelled == old(cancelled)
    {
      hide Run;
      ghost var before := View();
      var above := data + control > LOW;
      data, control := data - d, control - c;
      if above && data + control <= LOW {
        callbacks := callbacks + 1;
      }
      Took(before, Drains(d, c));
    }

    /** What happens around the writer between two of its looks. */
    method Surroundings() returns (done: bool)
      requires Valid() && schedule != []
      modifies this
      ensures Valid() && writer == old(writer) && schedule == old(schedule)[1..] && old(steps) <= steps
      ensures View() == Run(old(View()), Outside(old(schedule)[0]))
      ensures data <= old(data) && control <= old(control)
      ensures done == old(cancelled)[0] && cancelled == old(cancelled)[1..]
    {
      var coming := schedule[0];
      done := cancelled[0];
      schedule, cancelled := schedule[1..], cancelled[1..];
      hide Run, Outside, Apply;
      NothingOutside(View());
      for i := 0 to |coming|
        invariant Valid() && writer == old(writer) && schedule == old(schedule)[1..] && old(steps) <= steps
        invariant View() == Run(old(View()), Outside(coming[..i]))
        invariant data <= old(data) && control <= old(control) && cancelled == old(cancelled)[1..]
      {
        OneMoreOutside(old(View()), coming, i);
        match coming[i] {
          case Drains(d, c) =>
            if d <= data && c <= control {
              Drain(d, c);
            }
          case CallbackRuns =>
            if callbacks > 0 {
              Signal();
            }
          case _ =>
        }
      }
      assert coming[..|coming|] == coming;
    }

    /** Of the looks since then, none found the context done. */
    ghost predicate NeverDone(before: seq<bool>)
      reads this
    {
      var used := |before| - |cancelled|;
      used >= 0 && cancelled == before[used..] && forall i | 0 <= i < used :: !before[i]
    }

    /** Of the looks since then, the last one found the context done. */
    ghost predicate DoneAtLast(before: seq<bool>)
      reads this
    {
      var used := |before| - |cancelled|;
      used > 0 && cancelled == before[used..] && before[used - 1] && forall i | 0 <= i < used - 1 :: !before[i]
    }

    /** The steps so far are the given ones, then the start of a write of n bytes, then others. */
    ghost predicate Began(before: seq<Step>, n: nat)
      reads this
    {
      before + [Begins(n)] <= steps
    }

    /**
     * WriteFlow: wait below the high mark, then send. A chunk of proper size is given up only for the context,
     * at once if it is done already; below the high mark it is sent without waiting.
     */
    method WriteFlow(n: nat, ctxDone: bool) returns (r: WriteResult)
      requires Valid() && writer.Idle?
      modifies this
      ensures Valid() && data <= HIGH - 1 + MAX_CHUNK < LIMIT
      ensures r == TooLarge <==> n > MAX_CHUNK
      ensures r.TooLarge? || (n <= MAX_CHUNK && ctxDone) ==>
        View() == old(View()) && steps == old(steps) && schedule == old(schedule) && cancelled == old(cancelled)
      ensures n <= MAX_CHUNK && ctxDone ==> r == ContextDone
      ensures n <= MAX_CHUNK && !ctxDone && old(data + control) < HIGH ==>
        r == Sent && data == old(data) + n && control == old(control) && cancelled == old(cancelled)
      ensures n <= MAX_CHUNK && !ctxDone ==>
        if r.ContextDone? then DoneAtLast(old(cancelled)) else NeverDone(old(cancelled))
      ensures r.Sent? ==> Began(old(steps), n) && steps[|steps| - 1] == Sends
      ensures r.Sent? ==> writer.Idle? && data <= old(data) + n
      ensures r.ContextDone? ==> steps == old(steps) || (Began(old(steps), n) && steps[|steps| - 1] == GivesUp)
      ensures r.ContextDone? ==> writer.Idle? && data <= old(data)
      ensures r.StillBlocked? ==>
        writer == Blocked(n) && data <= old(data) && !token && (data + control > LOW || callbacks > 0) && schedule == []
    {
      hide Run, Apply;
      RunKeepsInv(INIT, steps);
      if n > MAX_CHUNK {
        return TooLarge;
      }
      if ctxDone {
        return ContextDone;
      }
      Begin(n);
      r := AwaitRoom(n);
      if r.Sent? {
        SendNow(n);
      }
      RunKeepsInv(INIT, steps);
    }

    method Begin(n: nat)
      requires Valid() && writer.Idle? && n <= MAX_CHUNK
      modifies this`writer, this`steps
      ensures Valid() && writer == Checking(n) && steps == old(steps) + [Begins(n)]
    {
      hide Run;
      ghost var before := View();
      writer := Checking(n);
      Took(before, Begins(n));
    }

    /** The loop: as long as the buffer is at the high mark, wait for a token. Sent means that there is room. */
    method AwaitRoom(n: nat) returns (r: WriteResult)
      requires Valid() && writer == Checking(n)
      modifies this
      ensures Valid() && data <= old(data) && control <= old(control) && old(steps) <= steps
      ensures old(data + control) < HIGH ==>
        r.Sent? && View() == old(View()) && cancelled == old(cancelled) && steps == old(steps)
      ensures r.Sent? ==> writer == Checking(n) && data + control < HIGH
      ensures r.ContextDone? ==> writer.Idle? && old(steps) < steps && steps[|steps| - 1] == GivesUp
      ensures r.StillBlocked? ==> writer == Blocked(n) && !token && schedule == []
      ensures !r.TooLarge?
      ensures if r.ContextDone? then DoneAtLast(old(cancelled)) else NeverDone(old(cancelled))
    {
      hide Run;
      while data + control >= HIGH
        invariant Valid() && writer == Checking(n) && data <= old(data) && control <= old(control)
        invariant old(steps) <= steps && NeverDone(old(cancelled))
        invariant old(data + control) < HIGH ==>
          View() == old(View()) && cancelled == old(cancelled) && steps == old(steps)
        decreases |schedule|, token
      {
        ghost var looks := cancelled;
        r := WaitOnce(n);
        LooksOn(old(cancelled), looks);
        if !r.Sent? {
          return;
        }
      }
      return Sent;
    }

    /** One turn of the loop: block, wait for a token, take it. */
    method WaitOnce(n: nat) returns (r: WriteResult)
      requires Valid() && writer == Checking(n) && data + control >= HIGH
      modifies this
      ensures Valid() && data <= old(data) && control <= old(control) && old(steps) < steps
      ensures r.Sent? ==> writer == Checking(n) && !token && |schedule| <= |old(schedule)|
      ensures r.Sent? ==> |schedule| < |old(schedule)| || old(token)
      ensures r.ContextDone? ==> writer.Idle? && steps[|steps| - 1] == GivesUp
      ensures r.StillBlocked? ==> writer == Blocked(n) && !token && schedule == []
      ensures !r.TooLarge?
      ensures if r.ContextDone? then DoneAtLast(old(cancelled)) else NeverDone(old(cancelled))
    {
      hide Run;
      ghost var before := View();
      writer := Blocked(n);
      Took(before, Checks);
      r := AwaitToken();
      if r.Sent? {
        before := View();
        token := false;
        writer := Checking(n);
        Took(before, Wakes);
      }
    }

    /** Looks before and after some moment, put together. */
    lemma LooksOn(before: seq<bool>, later: seq<bool>)
      requires |later| <= |before| && later == before[|before| - |later|..]
      requires forall i | 0 <= i < |before| - |later| :: !before[i]
      ensures NeverDone(later) ==> NeverDone(before)
      ensures DoneAtLast(later) ==> DoneAtLast(before)
    {
    }

    /** Below the high mark the chunk goes out. */
    method SendNow(n: nat)
      requires Valid() && writer == Checking(n) && data + control < HIGH
      modifies this
      ensures Valid() && writer.Idle? && data == old(data) + n && steps == old(steps) + [Checks, Sends]
      ensures control == old(control) && schedule == old(schedule) && cancelled == old(cancelled)
    {
      hide Run;
      ghost var before := View();
      writer := Sending(n);
      Took(before, Checks);
      before := View();
      data := data + n;
      writer := Idle;
      Took(before, Sends);
    }

    /** The select: a token, or the context. Sent means that a token is there to take. */
    method AwaitToken() returns (r: WriteResult)
      requires Valid() && writer.Blocked?
      modifies this
      ensures Valid() && data <= old(data) && control <= old(control) && old(steps) <= steps
      ensures r.Sent? ==> writer == old(writer) && token
      ensures r.Sent? ==> |schedule| < |old(schedule)| || (old(token) && schedule == old(schedule))
      ensures r.ContextDone? ==> writer.Idle? && old(steps) < steps && steps[|steps| - 1] == GivesUp
      ensures r.StillBlocked? ==> writer == old(writer) && !token && schedule == []
      ensures !r.TooLarge?
      ensures if r.ContextDone? then DoneAtLast(old(cancelled)) else NeverDone(old(cancelled))
    {
      hide Run;
      while !token
        invariant Valid() && writer == old(writer) && data <= old(data) && control <= old(control)
        invariant old(steps) <= steps && NeverDone(old(cancelled))
        invariant |schedule| < |old(schedule)| || (token == old(token) && schedule == old(schedule))
        decreases |schedule|
      {
        if schedule == [] {
          return StillBlocked;
        }
        var done := Surroundings();
        if done {
          ghost var before := View();
          writer := Idle;
          Took(before, GivesUp);
          return ContextDone;
        }
      }
      return Sent;
    }
  }
}
