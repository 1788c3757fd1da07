/**
 * Handing inbound messages to a handler that is installed late (routeMessage, OnMessage): two threads, one
 * mutex, a buffer and a flag. Every critical section is one atomic step; a handler call is two.
 */
module Handoff {
  import opened Protocol

  /** The thread that delivers arrivals, one at a time. */
  datatype Router = Idle | Calling(m: Msg)

  /** The thread that runs OnMessage: before it, between batches, inside a batch (calling or not), after it. */
  datatype Installer = Before | Looping | Replaying(batch: seq<Msg>, calling: bool) | Installed

  datatype State = State(
    msgBuf: seq<Msg>,
    handler: bool,
    msgFlushed: bool,
    router: Router,
    installer: Installer,
    arrived: seq<Msg>,
    delivered: seq<Msg>)

  const INIT := State([], false, false, Idle, Before, [], [])

  datatype Step =
    | Arrives(m: Msg)      // routeMessage: the locked part
    | RouterReturns        // the handler called by routeMessage returns
    | Installs             // OnMessage: set the handler
    | TakesBatch           // OnMessage: the locked part of the loop
    | CallsHandler         // OnMessage: next message of the batch
    | HandlerReturns

  predicate Enabled(s: State, a: Step) {
    match a
    case Arrives(_) => s.router.Idle?
    case RouterReturns => s.router.Calling?
    case Installs => s.installer.Before?
    case TakesBatch => s.installer.Looping?
    case CallsHandler => s.installer.Replaying? && s.installer.batch != [] && !s.installer.calling
    case HandlerReturns => s.installer.Replaying? && s.installer.batch != [] && s.installer.calling
  }

  /** The message counts as delivered when the handler has returned. */
  function Apply(s: State, a: Step): State
    requires Enabled(s, a)
  {
    match a
    case Arrives(m) =>
      var s' := s.(arrived := s.arrived + [m]);
      if s.msgFlushed then (if s.handler then s'.(router := Calling(m)) else s')
      else s'.(msgBuf := s.msgBuf + [m])
    case RouterReturns => s.(router := Idle, delivered := s.delivered + [s.router.m])
    case Installs => s.(handler := true, installer := Looping)
    case TakesBatch =>
      if s.msgBuf == [] then s.(msgFlushed := true, installer := Installed)
      else s.(msgBuf := [], installer := Replaying(s.msgBuf, false))
    case CallsHandler => s.(installer := s.installer.(calling := true))
    case HandlerReturns =>
      var rest := s.installer.batch[1..];
      s.(delivered := s.delivered + [s.installer.batch[0]],
         installer := if rest == [] then Looping else Replaying(rest, false))
  }

  function Run(s: State, steps: seq<Step>): State
    decreases |steps|
  {
    if steps == [] || !Enabled(s, steps[0]) then s else Run(Apply(s, steps[0]), steps[1..])
  }

  /** What has left the buffer and is not delivered yet, oldest first. */
  function InHand(s: State): seq<Msg> {
    (if s.installer.Replaying? then s.installer.batch else [])
  }

  function AtRouter(s: State): seq<Msg> {
    if s.router.Calling? then [s.router.m] else []
  }

  predicate InstallerRunsHandler(s: State) {
    s.installer.Replaying? && s.installer.calling
  }

  /** Every message is in exactly one place, and the places are in arrival order. */
  ghost predicate Conserved(s: State) {
    s.arrived == s.delivered + InHand(s) + s.msgBuf + AtRouter(s)
  }

  ghost predicate Consistent(s: State) {
    && (s.installer.Before? <==> !s.handler)
    && (s.msgFlushed <==> s.installer.Installed?)
    && (s.msgFlushed ==> s.msgBuf == [])
    && (s.router.Calling? ==> s.msgFlushed)
    && (s.installer.Replaying? ==> s.installer.batch != [])
    && (s.installer.Before? ==> s.delivered == [])
  }

  ghost predicate Inv(s: State) {
    Conserved(s) && Consistent(s)
  }

  lemma StepKeepsInv(s: State, a: Step)
    requires Inv(s) && Enabled(s, a)
    ensures Inv(Apply(s, a))
  {
    assert Consistent(Apply(s, a)) by {
      hide Conserved;
    }
    if a.HandlerReturns? {
      var batch := s.installer.batch;
      assert s.delivered + batch == s.delivered + [batch[0]] + batch[1..];
    } else if a.Arrives? {
      ArrivalConserved(s, a.m);
    }
  }

  lemma ArrivalConserved(s: State, m: Msg)
    requires Inv(s) && s.router.Idle?
    ensures Conserved(Apply(s, Arrives(m)))
  {
    var front := s.delivered + InHand(s);
    assert s.arrived + [m] == front + (s.msgBuf + [m]);
    if s.msgFlushed {
      assert s.handler && s.msgBuf == [];
    }
  }

  lemma {:induction false} RunKeepsInv(s: State, steps: seq<Step>)
    requires Inv(s)
    ensures Inv(Run(s, steps))
    decreases |steps|
  {
    if steps != [] && Enabled(s, steps[0]) {
      StepKeepsInv(s, steps[0]);
      RunKeepsInv(Apply(s, steps[0]), steps[1..]);
    }
  }

  /**
   * Every interleaving: the handler has had, in arrival order and without repetition, the first messages;
   * the others are in the batch, the buffer and the router's hand, in this order. And it is never run by
   * both threads at once.
   */
  lemma ExactlyOnceInOrder(steps: seq<Step>)
    ensures var s := Run(INIT, steps);
      && s.arrived == s.delivered + InHand(s) + s.msgBuf + AtRouter(s)
      && !(s.router.Calling? && InstallerRunsHandler(s))
  {
    RunKeepsInv(INIT, steps);
  }

  // ----- Nothing stays behind ------------------------------------------------------------------

  /** The steps the installer still owes if nothing more arrives. */
  function StepsLeft(s: State): nat {
    match s.installer
    case Before => 2 * |s.msgBuf| + 4
    case Looping => if s.msgBuf == [] then 1 else 2 * |s.msgBuf| + 2
    case Replaying(batch, calling) =>
      2 * |batch| - (if calling && batch != [] then 1 else 0) + (if s.msgBuf == [] then 1 else 2 * |s.msgBuf| + 2)
    case Installed => 0
  }

  function NextStep(s: State): Option<Step> {
    match s.installer
    case Before => Some(Installs)
    case Looping => Some(TakesBatch)
    case Replaying(batch, calling) => if calling then Some(HandlerReturns) else Some(CallsHandler)
    case Installed => if s.router.Calling? then Some(RouterReturns) else None
  }

  function Rank(s: State): nat {
    2 * StepsLeft(s) + (if s.router.Calling? then 1 else 0)
  }

  lemma StepsOut(s: State)
    requires Inv(s) && NextStep(s).Some?
    ensures Enabled(s, NextStep(s).value)
    ensures Rank(Apply(s, NextStep(s).value)) < Rank(s)
    ensures Apply(s, NextStep(s).value).arrived == s.arrived
  {
  }

  /** Once arrivals pause, OnMessage finishes after finitely many steps and everything has been delivered. */
  lemma {:induction false} Settles(s: State) returns (steps: seq<Step>)
    requires Inv(s)
    ensures |steps| <= Rank(s)
    ensures var t := Run(s, steps);
      t.installer.Installed? && t.router.Idle? && t.arrived == s.arrived && t.delivered == s.arrived
    decreases Rank(s)
  {
    if NextStep(s).None? {
      steps := [];
    } else {
      var a := NextStep(s).value;
      StepsOut(s);
      StepKeepsInv(s, a);
      var rest := Settles(Apply(s, a));
      steps := [a] + rest;
      assert steps[1..] == rest;
    }
  }

  lemma {:induction false} RunConcat(s: State, a: seq<Step>, b: seq<Step>)
    requires Legal(s, a)
    ensures Run(s, a + b) == Run(Run(s, a), b)
    decreases |a|
  {
    if a == [] {
      assert a + b == b;
    } else {
      assert (a + b)[1..] == a[1..] + b;
      RunConcat(Apply(s, a[0]), a[1..], b);
    }
  }

  /** Every step is enabled when its turn comes. */
  predicate Legal(s: State, steps: seq<Step>)
    decreases |steps|
  {
    steps == [] || (Enabled(s, steps[0]) && Legal(Apply(s, steps[0]), steps[1..]))
  }

  lemma {:induction false} LegalConcat(s: State, a: seq<Step>, b: seq<Step>)
    requires Legal(s, a) && Legal(Run(s, a), b)
    ensures Legal(s, a + b)
    decreases |a|
  {
    if a == [] {
      assert a + b == b;
    } else {
      assert (a + b)[1..] == a[1..] + b;
      LegalConcat(Apply(s, a[0]), a[1..], b);
    }
  }

  // ----- The program ----------------------------------------------------------------------------

  /**
   * Conn as the two methods see it. What the other thread does while OnMessage runs without the lock is
   * given by a schedule: one list of arrivals before each critical section, before each handler call and
   * during it.
   */
  class Conn {
    var msgHandler: bool
    var msgBuf: seq<Msg>
    var msgFlushed: bool

    // The handler's log.
    var log: seq<Msg>

    // Arrivals that will come in while OnMessage is replaying.
    var schedule: seq<seq<Msg>>

    // The position in the transition system, and the steps taken to get there.
    ghost var router: Router
    ghost var installer: Installer
    ghost var arrived: seq<Msg>
    ghost var steps: seq<Step>

    ghost function View(): State
      reads this
    {
      State(msgBuf, msgHandler, msgFlushed, router, installer, arrived, log)
    }

    /** The object is where its steps lead. */
    ghost predicate Valid()
      reads this
    {
      Legal(INIT, steps) && View() == Run(INIT, steps) && Inv(View())
    }

    constructor (schedule: seq<seq<Msg>>)
      ensures Valid() && View() == INIT && this.schedule == schedule
    {
      msgHandler, msgBuf, msgFlushed, log := false, [], false, [];
      this.schedule := schedule;
      router, installer, arrived, steps := Idle, Before, [], [];
    }

    /** One atomic step has been carried out on the fields. */
    ghost method Took(before: State, a: Step)
      requires Legal(INIT, steps) && before == Run(INIT, steps) && Inv(before)
      requires Enabled(before, a) && View() == Apply(before, a)
      modifies this`steps
      ensures Valid()
    {
      StepKeepsInv(before, a);
      OneStep(before, a);
      LegalConcat(INIT, steps, [a]);
      RunConcat(INIT, steps, [a]);
      steps := steps + [a];
    }

    /** routeMessage. */
    method RouteMessage(m: Msg)
      requires Valid() && router.Idle?
      modifies this
      ensures Valid() && router.Idle? && schedule == old(schedule) && arrived == old(arrived) + [m]
      ensures installer == old(installer) && msgFlushed == old(msgFlushed)
      ensures if msgFlushed then log == old(log) + [m] && msgBuf == old(msgBuf)
              else log == old(log) && msgBuf == old(msgBuf) + [m]
    {
      hide Run, Legal, Conserved;
      ghost var before := View();
      arrived := arrived + [m];
      if msgFlushed {
        var h := msgHandler;
        if h {
          router := Calling(m);
          Took(before, Arrives(m));
          before := View();
          log := log + [m];
          router := Idle;
          Took(before, RouterReturns);
        }
        return;
      }
      msgBuf := msgBuf + [m];
      Took(before, Arrives(m));
    }

    /** The other thread, while the lock is free. */
    method OtherThread()
      requires Valid() && router.Idle? && !msgFlushed
      modifies this
      ensures Valid() && router.Idle? && !msgFlushed && installer == old(installer) && log == old(log)
      ensures old(schedule) == [] ==> schedule == [] && msgBuf == old(msgBuf) && arrived == old(arrived)
      ensures old(schedule) != [] ==>
        schedule == old(schedule)[1..] && msgBuf == old(msgBuf) + old(schedule)[0]
        && arrived == old(arrived) + old(schedule)[0]
    {
      hide Run, Legal, Inv;
      if schedule == [] {
        return;
      }
      var coming := schedule[0];
      for i := 0 to |coming|
        invariant Valid() && router.Idle? && !msgFlushed && installer == old(installer) && log == old(log)
        invariant schedule == old(schedule)
        invariant msgBuf == old(msgBuf) + coming[..i] && arrived == old(arrived) + coming[..i]
      {
        RouteMessage(coming[i]);
      }
      assert coming[..|coming|] == coming;
      schedule := schedule[1..];
    }

    /** All that can still reach the handler through the buffer. */
    ghost function Scheduled(): seq<Msg>
      reads this
    {
      Flatten(schedule)
    }

    /** OnMessage: install, then replay until the buffer is found empty under the lock. */
    method OnMessage()
      requires Valid() && router.Idle? && installer.Before?
      modifies this
      ensures Valid() && msgFlushed && msgHandler && msgBuf == []
      ensures log == arrived && old(arrived) <= arrived
      ensures arrived + Scheduled() == old(arrived) + old(Scheduled())
    {
      hide Run, Legal, Flatten, Conserved;
      ghost var before := View();
      msgHandler := true;
      installer := Looping;
      Took(before, Installs);
      while true
        invariant Valid() && router.Idle? && installer.Looping? && old(arrived) <= arrived
        invariant arrived + Scheduled() == old(arrived) + old(Scheduled())
        decreases |schedule|, |msgBuf|
      {
        FlattenFirst(arrived, schedule);
        OtherThread();
        before := View();
        if |msgBuf| == 0 {
          msgFlushed := true;
          installer := Installed;
          Took(before, TakesBatch);
          AllDelivered(View());
          return;
        }
        var buf := msgBuf;
        msgBuf := [];
        installer := Replaying(buf, false);
        Took(before, TakesBatch);
        Replay(buf);
      }
    }

    /** The calls for one batch; arrivals in between go to the buffer. */
    method Replay(buf: seq<Msg>)
      requires Valid() && router.Idle? && installer == Replaying(buf, false) && buf != [] && msgBuf == []
      modifies this
      ensures Valid() && router.Idle? && installer.Looping? && old(arrived) <= arrived
      ensures arrived + Scheduled() == old(arrived) + old(Scheduled())
      ensures |schedule| <= |old(schedule)| && (|schedule| == |old(schedule)| ==> msgBuf == [])
    {
      hide Run, Legal, Inv, Flatten;
      for i := 0 to |buf|
        invariant Valid() && router.Idle? && old(arrived) <= arrived
        invariant installer == if i == |buf| then Looping else Replaying(buf[i..], false)
        invariant arrived + Scheduled() == old(arrived) + old(Scheduled())
        invariant |schedule| <= |old(schedule)| && (|schedule| == |old(schedule)| ==> msgBuf == [])
      {
        assert |buf| - i > 1 ==> buf[i..][1..] == buf[i + 1..];
        HandleOne(buf[i..]);
      }
    }

    /** One handler call; the other thread may run before it and during it. */
    method HandleOne(batch: seq<Msg>)
      requires Valid() && router.Idle? && batch != [] && installer == Replaying(batch, false)
      modifies this
      ensures Valid() && router.Idle? && old(arrived) <= arrived
      ensures installer == if |batch| == 1 then Looping else Replaying(batch[1..], false)
      ensures arrived + Scheduled() == old(arrived) + old(Scheduled())
      ensures |schedule| < |old(schedule)| || (schedule == old(schedule) && msgBuf == old(msgBuf))
    {
      hide Run, Legal, Conserved;
      FlattenFirst(arrived, schedule);
      OtherThread();
      ghost var before := View();
      installer := Replaying(batch, true);
      Took(before, CallsHandler);
      FlattenFirst(arrived, schedule);
      OtherThread();
      before := View();
      log := log + [batch[0]];
      installer := if |batch| == 1 then Looping else Replaying(batch[1..], false);
      Took(before, HandlerReturns);
    }
  }

  lemma FlattenFirst(had: seq<Msg>, schedule: seq<seq<Msg>>)
    ensures schedule != [] ==> had + schedule[0] + Flatten(schedule[1..]) == had + Flatten(schedule)
  {
    if schedule != [] {
      assert Flatten(schedule) == schedule[0] + Flatten(schedule[1..]);
    }
  }

  lemma AllDelivered(s: State)
    requires Inv(s) && s.installer.Installed? && s.router.Idle?
    ensures s.delivered == s.arrived && s.msgBuf == []
  {
  }

  lemma OneStep(s: State, a: Step)
    requires Enabled(s, a)
    ensures Legal(s, [a]) && Run(s, [a]) == Apply(s, a)
  {
    assert [a][1..] == [];
  }

  function Flatten(parts: seq<seq<Msg>>): seq<Msg> {
    if parts == [] then [] else parts[0] + Flatten(parts[1..])
  }
}
