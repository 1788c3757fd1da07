/**
 * The signalling worker's session object: one offer, one answer and an expiry alarm, used by any number of
 * clients (sessiondo.ts), and the routes that create and read it (sessions.ts).
 */
module SessionObject {
  import opened Protocol

  datatype Description = Description(kind: string, sdp: string)

  datatype State = State(offer: Option<Description>, answer: Option<Description>, alarmAt: Option<int>)

  const EMPTY := State(None, None, None)

  datatype PutResult = Created | NoSession | Exists

  /** One request as the object executes it; waitAnswer is a series of reads. */
  datatype Op =
    | Create(offer: Description, now: int)
    | GetOffer
    | PutAnswer(answer: Description)
    | ReadAnswer
    | HasSession
    | Alarm

  datatype Reply =
    | Made(ok: bool)
    | Offered(offer: Option<Description>)
    | Put(r: PutResult)
    | Answered(answer: Option<Description>)
    | Has(yes: bool)
    | Wiped

  function Next(ttl: int, s: State, op: Op): State {
    match op
    case Create(o, now) => if s.offer.Some? then s else s.(offer := Some(o), alarmAt := Some(now + ttl))
    case PutAnswer(a) => if s.offer.None? || s.answer.Some? then s else s.(answer := Some(a))
    case Alarm => EMPTY
    case _ => s
  }

  function ReplyTo(s: State, op: Op): Reply {
    match op
    case Create(_, _) => Made(s.offer.None?)
    case GetOffer => Offered(s.offer)
    case PutAnswer(_) => Put(if s.offer.None? then NoSession else if s.answer.Some? then Exists else Created)
    case ReadAnswer => Answered(s.answer)
    case HasSession => Has(s.offer.Some?)
    case Alarm => Wiped
  }

  /** The object after the first n operations of a history. */
  function After(ttl: int, ops: seq<Op>, n: nat): State
    requires n <= |ops|
  {
    if n == 0 then EMPTY else Next(ttl, After(ttl, ops, n - 1), ops[n - 1])
  }

  function Replied(ttl: int, ops: seq<Op>, i: nat): Reply
    requires i < |ops|
  {
    ReplyTo(After(ttl, ops, i), ops[i])
  }

  /** An answer needs an offer, an offer needs the alarm that will wipe it. */
  ghost predicate Inv(s: State) {
    (s.answer.Some? ==> s.offer.Some?) && (s.offer.Some? <==> s.alarmAt.Some?)
  }

  lemma {:induction false} AlwaysInv(ttl: int, ops: seq<Op>, n: nat)
    requires n <= |ops|
    ensures Inv(After(ttl, ops, n))
  {
    if n > 0 {
      AlwaysInv(ttl, ops, n - 1);
    }
  }

  // ----- Histories --------------------------------------------------------------------------------

  /** No alarm fires from position i up to position j. */
  ghost predicate Quiet(ops: seq<Op>, i: nat, j: nat)
    requires i <= j <= |ops|
  {
    forall k | i <= k < j :: ops[k] != Alarm
  }

  /** The create that made the session. */
  ghost predicate Mints(ttl: int, ops: seq<Op>, k: nat)
    requires k < |ops|
  {
    ops[k].Create? && Replied(ttl, ops, k) == Made(true)
  }

  /** The putAnswer that was accepted. */
  ghost predicate Answers(ttl: int, ops: seq<Op>, k: nat)
    requires k < |ops|
  {
    ops[k].PutAnswer? && Replied(ttl, ops, k) == Put(Created)
  }

  /** Until the next alarm nothing changes the offer, and no request moves the alarm. */
  lemma {:induction false} OfferStays(ttl: int, ops: seq<Op>, k: nat, j: nat)
    requires k < j <= |ops| && Mints(ttl, ops, k) && Quiet(ops, k, j)
    ensures After(ttl, ops, j).offer == Some(ops[k].offer)
    ensures After(ttl, ops, j).alarmAt == Some(ops[k].now + ttl)
  {
    if j > k + 1 {
      OfferStays(ttl, ops, k, j - 1);
    }
  }

  lemma {:induction false} AnswerStays(ttl: int, ops: seq<Op>, k: nat, j: nat)
    requires k < j <= |ops| && Answers(ttl, ops, k) && Quiet(ops, k, j)
    ensures After(ttl, ops, j).answer == Some(ops[k].answer)
  {
    if j > k + 1 {
      AnswerStays(ttl, ops, k, j - 1);
    }
  }

  /** A stored offer was put there by a create since the last alarm. */
  lemma {:induction false} OfferOrigin(ttl: int, ops: seq<Op>, j: nat) returns (k: nat)
    requires j <= |ops| && After(ttl, ops, j).offer.Some?
    ensures k < j && Mints(ttl, ops, k) && Quiet(ops, k, j)
    ensures After(ttl, ops, j).offer == Some(ops[k].offer)
  {
    if After(ttl, ops, j - 1).offer.Some? {
      k := OfferOrigin(ttl, ops, j - 1);
    } else {
      k := j - 1;
    }
  }

  lemma {:induction false} AnswerOrigin(ttl: int, ops: seq<Op>, j: nat) returns (k: nat)
    requires j <= |ops| && After(ttl, ops, j).answer.Some?
    ensures k < j && Answers(ttl, ops, k) && Quiet(ops, k, j)
    ensures After(ttl, ops, j).answer == Some(ops[k].answer)
  {
    if After(ttl, ops, j - 1).answer.Some? {
      k := AnswerOrigin(ttl, ops, j - 1);
    } else {
      k := j - 1;
    }
  }

  /**
   * A create succeeds exactly when no session lives: between two successful creates on a token the alarm
   * has fired, and a create is refused only because an earlier one succeeded since the last alarm.
   */
  lemma OneCreatePerLifetime(ttl: int, ops: seq<Op>, j: nat)
    requires j < |ops| && ops[j].Create?
    ensures Mints(ttl, ops, j) <==> !exists k: nat :: k < j && Mints(ttl, ops, k) && Quiet(ops, k, j)
  {
    if !Mints(ttl, ops, j) {
      var k := OfferOrigin(ttl, ops, j);
    }
    forall k: nat | k < j && Mints(ttl, ops, k) && Quiet(ops, k, j)
      ensures !Mints(ttl, ops, j)
    {
      OfferStays(ttl, ops, k, j);
    }
  }

  /** Of the answers posted to one session, at most one is accepted. */
  lemma OneAnswerPerLifetime(ttl: int, ops: seq<Op>, k: nat, j: nat)
    requires k < j < |ops| && Answers(ttl, ops, k) && Answers(ttl, ops, j)
    ensures !Quiet(ops, k, j)
  {
    if Quiet(ops, k, j) {
      AnswerStays(ttl, ops, k, j);
    }
  }

  /** An answer is refused as premature exactly when no create has succeeded since the last alarm. */
  lemma NoSessionExactly(ttl: int, ops: seq<Op>, j: nat)
    requires j < |ops| && ops[j].PutAnswer?
    ensures Replied(ttl, ops, j) == Put(NoSession)
       <==> !exists k: nat :: k < j && Mints(ttl, ops, k) && Quiet(ops, k, j)
  {
    if Replied(ttl, ops, j) != Put(NoSession) {
      var k := OfferOrigin(ttl, ops, j);
    }
    forall k: nat | k < j && Mints(ttl, ops, k) && Quiet(ops, k, j)
      ensures Replied(ttl, ops, j) != Put(NoSession)
    {
      OfferStays(ttl, ops, k, j);
    }
  }

  /**
   * Every read returns the accepted answer of the living session: an answer read was accepted since the
   * last alarm, and once accepted it is what every read returns until the next one.
   */
  lemma ReadsAreTheAnswer(ttl: int, ops: seq<Op>, j: nat)
    requires j < |ops| && ops[j].ReadAnswer?
    ensures forall a :: Replied(ttl, ops, j) == Answered(Some(a)) <==>
      exists k: nat :: k < j && Answers(ttl, ops, k) && Quiet(ops, k, j) && ops[k].answer == a
  {
    if After(ttl, ops, j).answer.Some? {
      var k := AnswerOrigin(ttl, ops, j);
    }
    forall a, k: nat | k < j && Answers(ttl, ops, k) && Quiet(ops, k, j) && ops[k].answer == a
      ensures Replied(ttl, ops, j) == Answered(Some(a))
    {
      AnswerStays(ttl, ops, k, j);
    }
  }

  /** The creates that succeed are the first ones: no other create since the last alarm. */
  lemma MintsExactly(ttl: int, ops: seq<Op>, j: nat)
    requires j < |ops| && ops[j].Create?
    ensures Mints(ttl, ops, j) <==> forall m: nat | m < j && Quiet(ops, m, j) :: !ops[m].Create?
  {
    if !Mints(ttl, ops, j) {
      var k := OfferOrigin(ttl, ops, j);
    }
    forall m: nat | m < j && Quiet(ops, m, j) && ops[m].Create?
      ensures !Mints(ttl, ops, j)
    {
      OfferedStays(ttl, ops, m + 1, j);
    }
  }

  /** Between alarms an offer or an answer that is there stays there. */
  lemma {:induction false} OfferedStays(ttl: int, ops: seq<Op>, m: nat, j: nat)
    requires m <= j <= |ops| && Quiet(ops, m, j)
    ensures After(ttl, ops, m).offer.Some? ==> After(ttl, ops, j).offer == After(ttl, ops, m).offer
    ensures After(ttl, ops, m).answer.Some? ==> After(ttl, ops, j).answer == After(ttl, ops, m).answer
  {
    if m < j {
      OfferedStays(ttl, ops, m, j - 1);
    }
  }

  lemma {:induction false} UnansweredStays(ttl: int, ops: seq<Op>, m: nat, j: nat)
    requires m <= j <= |ops| && After(ttl, ops, m).answer.None?
    requires forall i | m <= i < j :: !ops[i].PutAnswer?
    ensures After(ttl, ops, j).answer.None?
  {
    if m < j {
      UnansweredStays(ttl, ops, m, j - 1);
    }
  }

  /** The answer posted at j is the first one since the session was created at k. */
  ghost predicate FirstAnswer(ops: seq<Op>, k: nat, j: nat)
    requires k < j < |ops|
  {
    ops[j].PutAnswer? && Quiet(ops, k, j) && forall m | k < m < j :: !ops[m].PutAnswer?
  }

  /** An answer is accepted if and only if it is the first one posted to a living session. */
  lemma AcceptedExactly(ttl: int, ops: seq<Op>, j: nat)
    requires j < |ops| && ops[j].PutAnswer?
    ensures Answers(ttl, ops, j) <==> exists k: nat :: k < j && Mints(ttl, ops, k) && FirstAnswer(ops, k, j)
  {
    if Answers(ttl, ops, j) {
      var k := OfferOrigin(ttl, ops, j);
      forall m | k < m < j
        ensures !ops[m].PutAnswer?
      {
        OfferStays(ttl, ops, k, m);
        OfferedStays(ttl, ops, m + 1, j);
      }
      assert FirstAnswer(ops, k, j);
    }
    forall k: nat | k < j && Mints(ttl, ops, k) && FirstAnswer(ops, k, j)
      ensures Answers(ttl, ops, j)
    {
      OfferStays(ttl, ops, k, j);
      AlwaysInv(ttl, ops, k);
      UnansweredStays(ttl, ops, k + 1, j);
    }
  }

  /** The offer read is the one the living session was created with, and a session is there as long as it lives. */
  lemma OfferReadExactly(ttl: int, ops: seq<Op>, j: nat)
    requires j < |ops|
    ensures ops[j].GetOffer? ==> forall o :: Replied(ttl, ops, j) == Offered(Some(o)) <==>
      exists k: nat :: k < j && Mints(ttl, ops, k) && Quiet(ops, k, j) && ops[k].offer == o
    ensures ops[j].HasSession? ==> (Replied(ttl, ops, j) == Has(true) <==>
      exists k: nat :: k < j && Mints(ttl, ops, k) && Quiet(ops, k, j))
  {
    if After(ttl, ops, j).offer.Some? {
      var k := OfferOrigin(ttl, ops, j);
    }
    forall k: nat | k < j && Mints(ttl, ops, k) && Quiet(ops, k, j)
      ensures After(ttl, ops, j).offer == Some(ops[k].offer)
    {
      OfferStays(ttl, ops, k, j);
    }
  }

  /** A real session: the first answer to an offer is accepted, and read back from then on. */
  lemma FirstAnswerIsRead(ttl: int, now: int, offer: Description, answer: Description)
    ensures var ops := [Create(offer, now), PutAnswer(answer), ReadAnswer];
      Replied(ttl, ops, 0) == Made(true) && Replied(ttl, ops, 1) == Put(Created)
      && Replied(ttl, ops, 2) == Answered(Some(answer))
  {
  }

  /** What an answer is read for is the session it was posted to: same offer, accepted after it. */
  lemma AnswerBelongsToOffer(ttl: int, ops: seq<Op>, j: nat) returns (m: nat, k: nat)
    requires j <= |ops| && After(ttl, ops, j).answer.Some?
    ensures m < k < j && Mints(ttl, ops, m) && Answers(ttl, ops, k) && Quiet(ops, m, j)
    ensures After(ttl, ops, j).offer == Some(ops[m].offer) && After(ttl, ops, j).answer == Some(ops[k].answer)
  {
    k := AnswerOrigin(ttl, ops, j);
    AlwaysInv(ttl, ops, k);
    m := OfferOrigin(ttl, ops, k);
    OfferStays(ttl, ops, m, j);
  }

  // ----- The object -------------------------------------------------------------------------------

  /** What other clients and the alarm do during one pause of a long poll, and the clock after it. */
  datatype Pause = Pause(ops: seq<Op>, now: int)

  /** A long poll has its reply, or is still asleep when the given pauses are over. */
  datatype WaitResult = Finished(answer: Option<Description>) | Sleeping

  class SessionDO {
    const ttl: int
    var offer: Option<Description>
    var answer: Option<Description>
    var alarmAt: Option<int>

    ghost var history: seq<Op>

    ghost function View(): State
      reads this
    {
      State(offer, answer, alarmAt)
    }

    /** The object is where its history leads. */
    ghost predicate Valid()
      reads this
    {
      View() == After(ttl, history, |history|)
    }

    constructor (ttl: int)
      ensures Valid() && View() == EMPTY && history == [] && this.ttl == ttl
    {
      this.ttl := ttl;
      offer, answer, alarmAt, history := None, None, None, [];
    }

    /** One operation has been carried out on the fields. */
    ghost method Record(before: State, op: Op)
      requires before == After(ttl, history, |history|) && View() == Next(ttl, before, op)
      modifies this`history
      ensures Valid() && history == old(history) + [op]
    {
      AfterPrefix(ttl, history, [op], |history|);
      history := history + [op];
    }

    /** False when the token is taken. */
    method Create(o: Description, now: int) returns (ok: bool)
      requires Valid()
      modifies this
      ensures Valid() && history == old(history) + [Op.Create(o, now)] && Made(ok) == ReplyTo(old(View()), Op.Create(o, now))
      ensures ok <==> old(offer).None?
      ensures View() == if ok then State(Some(o), old(answer), Some(now + ttl)) else old(View())
    {
      ghost var before := View();
      if offer.Some? {
        Record(before, Op.Create(o, now));
        return false;
      }
      offer := Some(o);
      alarmAt := Some(now + ttl);
      Record(before, Op.Create(o, now));
      return true;
    }

    method PutAnswer(a: Description) returns (r: PutResult)
      requires Valid()
      modifies this
      ensures Valid() && history == old(history) + [Op.PutAnswer(a)] && Put(r) == ReplyTo(old(View()), Op.PutAnswer(a))
      ensures r == match old(offer) { case None => NoSession case Some(_) => if old(answer).Some? then Exists else Created }
      ensures offer == old(offer) && alarmAt == old(alarmAt)
      ensures answer == if old(offer).Some? && old(answer).None? then Some(a) else old(answer)
    {
      ghost var before := View();
      if offer.None? {
        Record(before, Op.PutAnswer(a));
        return NoSession;
      }
      if answer.Some? {
        Record(before, Op.PutAnswer(a));
        return Exists;
      }
      answer := Some(a);
      Record(before, Op.PutAnswer(a));
      return Created;
    }

    method HasSession() returns (yes: bool)
      requires Valid()
      modifies this`history
      ensures Valid() && history == old(history) + [Op.HasSession] && yes == offer.Some?
    {
      ghost var before := View();
      Record(before, Op.HasSession);
      return offer.Some?;
    }

    method GetOffer() returns (o: Option<Description>)
      requires Valid()
      modifies this`history
      ensures Valid() && history == old(history) + [Op.GetOffer] && o == offer
    {
      ghost var before := View();
      Record(before, Op.GetOffer);
      return offer;
    }

    method ReadAnswer() returns (a: Option<Description>)
      requires Valid()
      modifies this`history
      ensures Valid() && history == old(history) + [Op.ReadAnswer] && a == answer == old(answer)
      ensures Replied(ttl, history, |history| - 1) == Answered(a)
    {
      ghost var before := View();
      AfterPrefix(ttl, history, [Op.ReadAnswer], |history|);
      Record(before, Op.ReadAnswer);
      return answer;
    }

    method RunAlarm()
      requires Valid()
      modifies this
      ensures Valid() && history == old(history) + [Op.Alarm] && View() == EMPTY
    {
      ghost var before := View();
      offer, answer, alarmAt := None, None, None;
      Record(before, Op.Alarm);
    }

    /** Other clients and the alarm, while a long poll sleeps. */
    method Others(ops: seq<Op>)
      requires Valid()
      modifies this
      ensures Valid() && history == old(history) + ops
    {
      for i := 0 to |ops|
        invariant Valid() && history == old(history) + ops[..i]
      {
        assert ops[..i + 1] == ops[..i] + [ops[i]];
        match ops[i] {
          case Create(o, now) => var _ := Create(o, now);
          case PutAnswer(a) => var _ := PutAnswer(a);
          case GetOffer => var _ := GetOffer();
          case ReadAnswer => var _ := ReadAnswer();
          case HasSession => var _ := HasSession();
          case Alarm => RunAlarm();
        }
      }
      assert ops[..|ops|] == ops;
    }

    /** One pause and the look after it. */
    method SleepAndLook(pause: Pause) returns (a: Option<Description>)
      requires Valid()
      modifies this
      ensures Valid() && history == old(history) + (pause.ops + [Op.ReadAnswer])
      ensures Replied(ttl, history, |history| - 1) == Answered(a)
      ensures forall n :: NothingAt(ttl, old(history), n) ==> NothingAt(ttl, history, n)
    {
      hide After, NothingAt, Replied;
      Others(pause.ops);
      a := ReadAnswer();
      assert history == old(history) + (pause.ops + [Op.ReadAnswer]);
      NothingStays(ttl, old(history), pause.ops + [Op.ReadAnswer]);
    }

    /**
     * waitAnswer: read, and while there is nothing and time is left, sleep and read again. It looks once more
     * after each pause it sleeps through, and every look but the last found nothing before the deadline.
     */
    method WaitAnswer(start: int, timeout: int, pauses: seq<Pause>)
      returns (r: WaitResult, now: int, ghost slept: nat)
      requires Valid()
      modifies this
      ensures Valid() && old(history) < history && history[|history| - 1] == Op.ReadAnswer
      ensures r.Finished? ==> Replied(ttl, history, |history| - 1) == Answered(r.answer)
      ensures r.Finished? && r.answer.Some? ==>
        exists k: nat :: k < |history| - 1 && Answers(ttl, history, k) && Quiet(history, k, |history| - 1)
          && history[k].answer == r.answer.value
      ensures r.Finished? && r.answer.None? ==> now >= start + timeout
      ensures r.Sleeping? ==> now < start + timeout && now == PauseEnds(start, pauses)
      ensures r.Sleeping? ==> Replied(ttl, history, |history| - 1) == Answered(None)
      ensures slept <= |pauses| && history == old(history) + Looks(pauses[..slept])
      ensures now == PauseEnds(start, pauses[..slept]) && (r.Sleeping? ==> slept == |pauses|)
      ensures forall i: nat | i < slept ::
        PauseEnds(start, pauses[..i]) < start + timeout && NothingAt(ttl, history, |old(history)| + |Looks(pauses[..i])|)
    {
      hide After, NothingAt, Replied, Looks, Quiet, PauseEnds;
      var deadline := start + timeout;
      now := start;
      var i := 0;
      var a := ReadAnswer();
      slept := 0;
      FirstLook(start, pauses);
      while a.None? && now < deadline
        invariant Valid() && i <= |pauses| && old(history) < history && history[|history| - 1] == Op.ReadAnswer
        invariant Replied(ttl, history, |history| - 1) == Answered(a)
        invariant now == PauseEnds(start, pauses[..i]) && slept == i
        invariant history == old(history) + Looks(pauses[..i])
        invariant forall k: nat | k < i ::
          PauseEnds(start, pauses[..k]) < deadline && NothingAt(ttl, history, |old(history)| + |Looks(pauses[..k])|)
        decreases |pauses| - i
      {
        if i == |pauses| {
          assert pauses[..i] == pauses;
          return Sleeping, now, slept;
        }
        NothingHere(ttl, history);
        a := SleepAndLook(pauses[i]);
        LooksGrow(pauses, i);
        now := pauses[i].now;
        LastPause(start, pauses, i);
        i, slept := i + 1, i + 1;
      }
      ReadsAreTheAnswer(ttl, history, |history| - 1);
      return Finished(a), now, slept;
    }
  }

  /** What is done to the object: a look, and after each pause with what others did in it another. */
  function Looks(pauses: seq<Pause>): (ops: seq<Op>)
    ensures ops != []
  {
    if pauses == [] then [Op.ReadAnswer]
    else Looks(pauses[..|pauses| - 1]) + (pauses[|pauses| - 1].ops + [Op.ReadAnswer])
  }

  /** The n-th operation was a look that found nothing. */
  ghost predicate NothingAt(ttl: int, ops: seq<Op>, n: int) {
    0 < n <= |ops| && Replied(ttl, ops, n - 1) == Answered(None)
  }

  lemma LooksGrow(pauses: seq<Pause>, i: nat)
    requires i < |pauses|
    ensures Looks(pauses[..i + 1]) == Looks(pauses[..i]) + (pauses[i].ops + [Op.ReadAnswer])
  {
    assert pauses[..i + 1][..i] == pauses[..i];
  }

  lemma LastPause(start: int, pauses: seq<Pause>, i: nat)
    requires i < |pauses|
    ensures PauseEnds(start, pauses[..i + 1]) == pauses[i].now
  {
  }

  lemma NothingStays(ttl: int, ops: seq<Op>, more: seq<Op>)
    ensures forall n :: NothingAt(ttl, ops, n) ==> NothingAt(ttl, ops + more, n)
  {
    forall n | NothingAt(ttl, ops, n)
      ensures NothingAt(ttl, ops + more, n)
    {
      RepliedPrefix(ttl, ops, more, n - 1);
    }
  }

  lemma RepliedPrefix(ttl: int, ops: seq<Op>, more: seq<Op>, i: nat)
    requires i < |ops|
    ensures Replied(ttl, ops + more, i) == Replied(ttl, ops, i)
  {
    AfterPrefix(ttl, ops, more, i);
  }

  lemma NothingHere(ttl: int, ops: seq<Op>)
    requires ops != [] && Replied(ttl, ops, |ops| - 1) == Answered(None)
    ensures NothingAt(ttl, ops, |ops|)
  {
  }

  lemma FirstLook(start: int, pauses: seq<Pause>)
    ensures Looks(pauses[..0]) == [Op.ReadAnswer] && PauseEnds(start, pauses[..0]) == start
  {
  }

  /** The time after these pauses. */
  function PauseEnds(start: int, pauses: seq<Pause>): int {
    if pauses == [] then start else pauses[|pauses| - 1].now
  }

  /** Operations added later do not change what the object was. */
  lemma {:induction false} AfterPrefix(ttl: int, ops: seq<Op>, more: seq<Op>, n: nat)
    requires n <= |ops|
    ensures After(ttl, ops + more, n) == After(ttl, ops, n)
  {
    if n > 0 {
      AfterPrefix(ttl, ops, more, n - 1);
    }
  }

  // ----- Tokens -----------------------------------------------------------------------------------

  const ALPHABET := "0123456789ABCDEFGHJKMNPQRSTVWXYZ"
  const TOKEN_LENGTH := 6
  const TOKEN_ATTEMPTS := 3

  /** The character class of the token pattern. */
  predicate TokenChar(c: char) {
    '0' <= c <= '9' || 'A' <= c <= 'H' || c == 'J' || c == 'K' || c == 'M' || c == 'N' || 'P' <= c <= 'T' || 'V' <= c <= 'Z'
  }

  predicate IsToken(s: string) {
    |s| == TOKEN_LENGTH && forall i | 0 <= i < |s| :: TokenChar(s[i])
  }

  /** newToken: one character per random byte. */
  method NewToken(bytes: seq<Byte>) returns (token: string)
    requires |bytes| == TOKEN_LENGTH
    ensures IsToken(token)
    ensures forall i | 0 <= i < TOKEN_LENGTH :: token[i] == ALPHABET[bytes[i] % 32]
  {
    token := "";
    for i := 0 to |bytes|
      invariant |token| == i && forall j | 0 <= j < i :: TokenChar(token[j]) && token[j] == ALPHABET[bytes[j] % 32]
    {
      AlphabetFits(bytes[i] % 32);
      token := token + [ALPHABET[bytes[i] % 32]];
    }
  }

  lemma AlphabetFits(k: nat)
    requires k < 32
    ensures |ALPHABET| == 32 && TokenChar(ALPHABET[k])
  {
  }

  function IndexOf(c: char): int {
    if c <= '9' then c as int - '0' as int
    else if c <= 'H' then c as int - 'A' as int + 10
    else if c <= 'K' then c as int - 'J' as int + 18
    else if c <= 'N' then c as int - 'M' as int + 20
    else if c <= 'T' then c as int - 'P' as int + 22
    else c as int - 'V' as int + 27
  }

  lemma AlphabetIndex(l: nat)
    requires l < 32
    ensures IndexOf(ALPHABET[l]) == l
  {
  }

  /** The alphabet is the class of the token pattern, each character once, so a uniform byte draws uniformly. */
  lemma AlphabetIsTheClass(c: char) returns (k: nat)
    requires TokenChar(c)
    ensures k < 32 && ALPHABET[k] == c
    ensures forall l | 0 <= l < 32 && ALPHABET[l] == c :: l == k
  {
    k := IndexOf(c);
    forall l | 0 <= l < 32 && ALPHABET[l] == c
      ensures l == k
    {
      AlphabetIndex(l);
    }
  }

  // ----- Creating a session -----------------------------------------------------------------------

  /** All session objects; one that was never used is empty. */
  function Lookup(sessions: map<string, State>, token: string): State {
    if token in sessions then sessions[token] else EMPTY
  }

  /**
   * createSession: up to three tokens, first writer wins. Other clients may do anything to the store between
   * two attempts, so each attempt finds its own store. The token returned is the first one found free; the
   * store then differs from what that attempt found only in that session, which holds the offer under an
   * armed alarm; a failure has written nothing.
   */
  method CreateSession(stores: seq<map<string, State>>, tokens: seq<string>, offer: Description, now: int, ttl: int)
    returns (token: Option<string>, after: Option<map<string, State>>, attempts: nat)
    requires |tokens| == TOKEN_ATTEMPTS && |stores| == TOKEN_ATTEMPTS
    ensures 1 <= attempts <= TOKEN_ATTEMPTS
    ensures forall j | 0 <= j < attempts - 1 :: Lookup(stores[j], tokens[j]).offer.Some?
    ensures if Lookup(stores[attempts - 1], tokens[attempts - 1]).offer.None? then
        var store, t := stores[attempts - 1], tokens[attempts - 1];
        token == Some(t) && after == Some(store[t := Lookup(store, t).(offer := Some(offer), alarmAt := Some(now + ttl))])
      else
        attempts == TOKEN_ATTEMPTS && token == None && after == None
  {
    for attempt := 0 to TOKEN_ATTEMPTS
      invariant forall j | 0 <= j < attempt :: Lookup(stores[j], tokens[j]).offer.Some?
    {
      var store := stores[attempt];
      var state := Lookup(store, tokens[attempt]);
      if state.offer.None? {
        after := Some(store[tokens[attempt] := Next(ttl, state, Create(offer, now))]);
        return Some(tokens[attempt]), after, attempt + 1;
      }
    }
    return None, None, TOKEN_ATTEMPTS;
  }
}
