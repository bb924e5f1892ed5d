/** Submitting the source transaction of an intent once, whatever concurrent, failing and crashing calls do. */
module SourceSubmission {
  import opened TextForms
  import opened Wrappers

  datatype Failure = InvalidIdentity | NotReady | JournalFailed | AlreadyReserved | WalletFailed | AmbiguousSubmission

  /** Where a call is; between two stages lies one `await`. */
  datatype Stage =
    | Checking
    | Reserving
    | Rechecking
    | Submitting
    | AwaitingWallet
    | Recording(id: string)
    | Returned(id: string)
    | Failed(failure: Failure)
    | Crashed

  datatype Session = Session(intent: string, fingerprint: string, stage: Stage)

  datatype Answer = Answer(session: nat, id: string)

  /**
   `reserved` is the durable journal, with the call that holds each intent; `invoked` lists the calls that invoked
   the wallet, `answered` the identifiers it gave, and `recorded` the journal's submissions.
   */
  datatype State = State(
    sessions: seq<Session>,
    reserved: map<string, nat>,
    invoked: seq<nat>,
    answered: set<Answer>,
    recorded: set<Answer>)

  const INITIAL := State([], map[], [], {}, {})

  /** `delivered` is false when the journal did its work but the caller sees a failure. */
  datatype Event =
    | Begin(intent: string, fingerprint: string)
    | Ready(k: nat, ok: bool)
    | Reserve(k: nat, delivered: bool)
    | ReserveFails(k: nat)
    | Invoke(k: nat)
    | Reply(k: nat, id: Option<string>)
    | Record(k: nat, delivered: bool)
    | RecordFails(k: nat)
    | Crash(k: nat)

  predicate ValidIdentity(intent: string, fingerprint: string) {
    IsHex32(intent) && |fingerprint| == 64 && AllLowerHex(fingerprint)
  }

  predicate ValidTransactionId(id: string) {
    1 <= |id| <= 192
  }

  predicate At(s: State, k: nat, stage: Stage) {
    k < |s.sessions| && s.sessions[k].stage == stage
  }

  predicate AtRecording(s: State, k: nat) {
    k < |s.sessions| && s.sessions[k].stage.Recording?
  }

  function Move(s: State, k: nat, stage: Stage): State
    requires k < |s.sessions|
  {
    s.(sessions := s.sessions[k := s.sessions[k].(stage := stage)])
  }

  function AfterReady(s: State, k: nat, ok: bool): State {
    if At(s, k, Checking) then Move(s, k, if ok then Reserving else Failed(NotReady))
    else if At(s, k, Rechecking) then Move(s, k, if ok then Submitting else Failed(NotReady))
    else s
  }

  /** The journal's atomic test-and-set: it succeeds at most once per intent. */
  function AfterReserve(s: State, k: nat, delivered: bool): State {
    if !At(s, k, Reserving) then s
    else
      var intent := s.sessions[k].intent;
      if intent in s.reserved then Move(s, k, Failed(if delivered then AlreadyReserved else JournalFailed))
      else Move(s.(reserved := s.reserved[intent := k]), k, if delivered then Rechecking else Failed(JournalFailed))
  }

  function AfterReply(s: State, k: nat, id: Option<string>): State {
    if !At(s, k, AwaitingWallet) then s
    else
      match id
      case None => Move(s, k, Failed(WalletFailed))
      case Some(transactionId) =>
        var next := Move(s, k, if ValidTransactionId(transactionId) then Recording(transactionId)
                               else Failed(AmbiguousSubmission));
        next.(answered := s.answered + {Answer(k, transactionId)})
  }

  function AfterRecord(s: State, k: nat, delivered: bool): State {
    if !AtRecording(s, k) then s
    else
      var id := s.sessions[k].stage.id;
      var next := Move(s, k, if delivered then Returned(id) else Failed(JournalFailed));
      next.(recorded := s.recorded + {Answer(k, id)})
  }

  /** One atomic step; an event whose call is elsewhere changes nothing. */
  function Step(s: State, e: Event): State {
    match e
    case Begin(intent, fingerprint) =>
      var stage := if ValidIdentity(intent, fingerprint) then Checking else Failed(InvalidIdentity);
      s.(sessions := s.sessions + [Session(intent, fingerprint, stage)])
    case Ready(k, ok) => AfterReady(s, k, ok)
    case Reserve(k, delivered) => AfterReserve(s, k, delivered)
    case ReserveFails(k) => if At(s, k, Reserving) then Move(s, k, Failed(JournalFailed)) else s
    case Invoke(k) =>
      if At(s, k, Submitting) then Move(s.(invoked := s.invoked + [k]), k, AwaitingWallet) else s
    case Reply(k, id) => AfterReply(s, k, id)
    case Record(k, delivered) => AfterRecord(s, k, delivered)
    case RecordFails(k) => if AtRecording(s, k) then Move(s, k, Failed(JournalFailed)) else s
    case Crash(k) => if k < |s.sessions| && Running(s.sessions[k].stage) then Move(s, k, Crashed) else s
  }

  predicate Running(stage: Stage) {
    !stage.Returned? && !stage.Failed? && !stage.Crashed?
  }

  function Run(s: State, events: seq<Event>): State {
    if events == [] then s else Step(Run(s, events[..|events| - 1]), events[|events| - 1])
  }

  // ---------------------------------------------------------------------------------------------
  // What every interleaving keeps
  // ---------------------------------------------------------------------------------------------

  predicate Holds(s: State, k: nat) {
    k < |s.sessions| && s.sessions[k].intent in s.reserved && s.reserved[s.sessions[k].intent] == k
  }

  /** The stages a call reaches only by reserving its intent. */
  predicate Reserver(stage: Stage) {
    stage.Rechecking? || stage.Submitting? || stage.AwaitingWallet? || stage.Recording? || stage.Returned?
  }

  predicate SessionOk(s: State, k: nat)
    requires k < |s.sessions|
  {
    var stage := s.sessions[k].stage;
    && (Reserver(stage) ==> Holds(s, k))
    && (stage.Checking? || stage.Reserving? || stage.Rechecking? || stage.Submitting? ==> k !in s.invoked)
    && (stage.AwaitingWallet? ==> k in s.invoked && forall x | x in s.answered :: x.session != k)
    && (stage.Recording? ==> Answer(k, stage.id) in s.answered && ValidTransactionId(stage.id))
    && (stage.Returned? ==> Answer(k, stage.id) in s.recorded)
  }

  predicate InvokedOnce(s: State) {
    && (forall i :: 0 <= i < |s.invoked| ==> Holds(s, s.invoked[i]))
    && forall i, j :: 0 <= i < j < |s.invoked| ==> s.invoked[i] != s.invoked[j]
  }

  predicate AnswersOk(s: State) {
    && (forall x | x in s.answered :: x.session in s.invoked)
    && (forall x, y | x in s.answered && y in s.answered :: x.session == y.session ==> x == y)
    && forall x | x in s.recorded :: x in s.answered && ValidTransactionId(x.id)
  }

  predicate Inv(s: State) {
    && (forall k :: 0 <= k < |s.sessions| ==> SessionOk(s, k))
    && (forall intent | intent in s.reserved :: Holds(s, s.reserved[intent]) && s.sessions[s.reserved[intent]].intent == intent)
    && InvokedOnce(s)
    && AnswersOk(s)
  }

  /** Moving one call on, without touching the journal's reservations or the wallet. */
  lemma MoveKeeps(s: State, k: nat, stage: Stage)
    requires Inv(s) && k < |s.sessions| && SessionOk(Move(s, k, stage), k)
    ensures Inv(Move(s, k, stage))
  {
    hide ValidTransactionId;
    var t := Move(s, k, stage);
    forall i | 0 <= i < |t.sessions| ensures SessionOk(t, i) {
      assert SessionOk(s, i);
    }
  }

  lemma BeginKeeps(s: State, session: Session)
    requires Inv(s) && (session.stage.Checking? || session.stage.Failed?)
    ensures Inv(s.(sessions := s.sessions + [session]))
  {
    hide ValidTransactionId;
    var t := s.(sessions := s.sessions + [session]);
    forall i | 0 <= i < |t.sessions| ensures SessionOk(t, i) {
      if i < |s.sessions| {
        assert SessionOk(s, i);
      } else {
        assert forall j :: 0 <= j < |s.invoked| ==> Holds(s, s.invoked[j]);
      }
    }
  }

  lemma ReserveKeeps(s: State, k: nat, stage: Stage)
    requires Inv(s) && At(s, k, Reserving) && s.sessions[k].intent !in s.reserved
    requires stage == Rechecking || stage.Failed?
    ensures Inv(Move(s.(reserved := s.reserved[s.sessions[k].intent := k]), k, stage))
  {
    hide ValidTransactionId;
    var t := Move(s.(reserved := s.reserved[s.sessions[k].intent := k]), k, stage);
    assert SessionOk(s, k);
    forall i | 0 <= i < |t.sessions| ensures SessionOk(t, i) {
      assert SessionOk(s, i);
    }
  }

  lemma InvokeKeeps(s: State, k: nat)
    requires Inv(s) && At(s, k, Submitting)
    ensures Inv(Move(s.(invoked := s.invoked + [k]), k, AwaitingWallet))
  {
    hide ValidTransactionId;
    var t := Move(s.(invoked := s.invoked + [k]), k, AwaitingWallet);
    assert SessionOk(s, k);
    assert t.invoked[..|s.invoked|] == s.invoked;
    forall i | 0 <= i < |t.sessions| ensures SessionOk(t, i) {
      assert SessionOk(s, i);
      assert i in t.invoked <==> i in s.invoked || i == k;
    }
  }

  lemma ReplyKeeps(s: State, k: nat, id: string, stage: Stage)
    requires Inv(s) && At(s, k, AwaitingWallet)
    requires stage.Failed? || (stage == Recording(id) && ValidTransactionId(id))
    ensures Inv(Move(s, k, stage).(answered := s.answered + {Answer(k, id)}))
  {
    hide ValidTransactionId;
    var t := Move(s, k, stage).(answered := s.answered + {Answer(k, id)});
    assert SessionOk(s, k);
    forall i | 0 <= i < |t.sessions| ensures SessionOk(t, i) {
      assert SessionOk(s, i);
    }
  }

  lemma RecordKeeps(s: State, k: nat, stage: Stage)
    requires Inv(s) && AtRecording(s, k)
    requires stage.Failed? || stage == Returned(s.sessions[k].stage.id)
    ensures Inv(Move(s, k, stage).(recorded := s.recorded + {Answer(k, s.sessions[k].stage.id)}))
  {
    hide ValidTransactionId;
    var t := Move(s, k, stage).(recorded := s.recorded + {Answer(k, s.sessions[k].stage.id)});
    assert SessionOk(s, k);
    forall i | 0 <= i < |t.sessions| ensures SessionOk(t, i) {
      assert SessionOk(s, i);
    }
  }

  lemma StepKeeps(s: State, e: Event)
    requires Inv(s)
    ensures Inv(Step(s, e))
  {
    hide ValidIdentity, ValidTransactionId, InvokedOnce, AnswersOk;
    match e
    case Begin(intent, fingerprint) =>
      BeginKeeps(s, Session(intent, fingerprint, if ValidIdentity(intent, fingerprint) then Checking
                                                 else Failed(InvalidIdentity)));
    case Ready(k, ok) =>
      if k < |s.sessions| {
        assert SessionOk(s, k);
        if At(s, k, Checking) {
          MoveKeeps(s, k, if ok then Reserving else Failed(NotReady));
        } else if At(s, k, Rechecking) {
          MoveKeeps(s, k, if ok then Submitting else Failed(NotReady));
        }
      }
    case Reserve(k, delivered) =>
      if At(s, k, Reserving) {
        if s.sessions[k].intent in s.reserved {
          MoveKeeps(s, k, Failed(if delivered then AlreadyReserved else JournalFailed));
        } else {
          ReserveKeeps(s, k, if delivered then Rechecking else Failed(JournalFailed));
        }
      }
    case ReserveFails(k) =>
      if At(s, k, Reserving) {
        MoveKeeps(s, k, Failed(JournalFailed));
      }
    case Invoke(k) =>
      if At(s, k, Submitting) {
        InvokeKeeps(s, k);
      }
    case Reply(k, id) =>
      if At(s, k, AwaitingWallet) {
        if id.None? {
          MoveKeeps(s, k, Failed(WalletFailed));
        } else {
          ReplyKeeps(s, k, id.value, if ValidTransactionId(id.value) then Recording(id.value)
                                     else Failed(AmbiguousSubmission));
        }
      }
    case Record(k, delivered) =>
      if AtRecording(s, k) {
        RecordKeeps(s, k, if delivered then Returned(s.sessions[k].stage.id) else Failed(JournalFailed));
      }
    case RecordFails(k) =>
      if AtRecording(s, k) {
        MoveKeeps(s, k, Failed(JournalFailed));
      }
    case Crash(k) =>
      if k < |s.sessions| && Running(s.sessions[k].stage) {
        MoveKeeps(s, k, Crashed);
      }
  }

  lemma {:induction false} RunKeeps(events: seq<Event>)
    ensures Inv(Run(INITIAL, events))
  {
    if events != [] {
      RunKeeps(events[..|events| - 1]);
      StepKeeps(Run(INITIAL, events[..|events| - 1]), events[|events| - 1]);
    }
  }

  function IntentOf(s: State, k: nat): string {
    if k < |s.sessions| then s.sessions[k].intent else ""
  }

  /**
   In every interleaving of any number of concurrent, failing or crashing calls the wallet is invoked at most once
   per intent, by the call that holds its reservation.
   */
  lemma WalletInvokedOncePerIntent(events: seq<Event>)
    ensures var s := Run(INITIAL, events);
      && (forall i :: 0 <= i < |s.invoked| ==> Holds(s, s.invoked[i]))
      && (forall i, j :: 0 <= i < j < |s.invoked| ==> IntentOf(s, s.invoked[i]) != IntentOf(s, s.invoked[j]))
  {
    hide Run, SessionOk, AnswersOk;
    RunKeeps(events);
  }

  /**
   Only the call that reserved an intent records an identifier for it, and records what the wallet answered it; an
   intent has at most one recorded submission, and a call that returns has its identifier recorded.
   */
  lemma OnlyTheReserverRecords(events: seq<Event>)
    ensures var s := Run(INITIAL, events);
      && (forall x | x in s.recorded :: Holds(s, x.session) && x in s.answered && 1 <= |x.id| <= 192)
      && (forall x, y | x in s.recorded && y in s.recorded ::
            IntentOf(s, x.session) == IntentOf(s, y.session) ==> x == y)
      && (forall k :: 0 <= k < |s.sessions| && s.sessions[k].stage.Returned? ==>
            Answer(k, s.sessions[k].stage.id) in s.recorded)
  {
    hide Run;
    RunKeeps(events);
    var s := Run(INITIAL, events);
    forall k | 0 <= k < |s.sessions| && s.sessions[k].stage.Returned?
      ensures Answer(k, s.sessions[k].stage.id) in s.recorded
    {
      assert SessionOk(s, k);
    }
  }

  /** Whatever happens afterwards, a reservation is never taken back and never changes hands. */
  lemma {:induction false} ReservationIsForGood(s: State, events: seq<Event>, intent: string)
    requires intent in s.reserved
    ensures intent in Run(s, events).reserved && Run(s, events).reserved[intent] == s.reserved[intent]
  {
    if events != [] {
      ReservationIsForGood(s, events[..|events| - 1], intent);
      ReservationStays(Run(s, events[..|events| - 1]), events[|events| - 1], intent);
    }
  }

  lemma ReservationStays(s: State, e: Event, intent: string)
    requires intent in s.reserved
    ensures intent in Step(s, e).reserved && Step(s, e).reserved[intent] == s.reserved[intent]
  {
  }

  // ---------------------------------------------------------------------------------------------
  // One call, uninterrupted
  // ---------------------------------------------------------------------------------------------

  /** How the journal answers: it works and says so, works but the answer is lost, or fails without working. */
  datatype JournalReply = Done | Lost | Refused

  /** `0x` and 64 lower-case hexadecimal digits for the intent, the same without the prefix for the fingerprint. */
  predicate Identified(intent: string, fingerprint: string) {
    && |intent| == 66 && intent[0] == '0' && intent[1] == 'x'
    && (forall i :: 2 <= i < 66 ==> '0' <= intent[i] <= '9' || 'a' <= intent[i] <= 'f')
    && |fingerprint| == 64
    && (forall i :: 0 <= i < 64 ==> '0' <= fingerprint[i] <= '9' || 'a' <= fingerprint[i] <= 'f')
  }

  lemma IdentifiedExactly(intent: string, fingerprint: string)
    ensures ValidIdentity(intent, fingerprint) <==> Identified(intent, fingerprint)
  {
    if |intent| == 66 {
      assert intent[..2] == "0x" <==> intent[0] == '0' && intent[1] == 'x';
      assert forall i :: 0 <= i < 64 ==> intent[2..][i] == intent[i + 2];
      if AllLowerHex(intent[2..]) {
        forall i | 2 <= i < 66 ensures IsLowerHex(intent[i]) {
          assert IsLowerHex(intent[2..][i - 2]);
        }
      }
    }
  }

  /** Where an uninterrupted call that fails is stopped. */
  function Stopped(
    identified: bool, ready: bool, reserve: JournalReply, taken: bool, readyAgain: bool, wallet: Option<string>): Failure
  {
    if !identified then InvalidIdentity
    else if !ready then NotReady
    else if reserve != Done then JournalFailed
    else if taken then AlreadyReserved
    else if !readyAgain then NotReady
    else if wallet.None? then WalletFailed
    else if |wallet.value| < 1 || 192 < |wallet.value| then AmbiguousSubmission
    else JournalFailed
  }

  /** The atomic steps of call `k` in the order in which it takes them. */
  function CallEvents(
    k: nat, intent: string, fingerprint: string, ready: bool, reserve: JournalReply, readyAgain: bool,
    wallet: Option<string>, record: JournalReply): seq<Event>
  {
    [ Begin(intent, fingerprint),
      Ready(k, ready),
      if reserve == Refused then ReserveFails(k) else Reserve(k, reserve == Done),
      Ready(k, readyAgain),
      Invoke(k),
      Reply(k, wallet),
      if record == Refused then RecordFails(k) else Record(k, record == Done) ]
  }

  lemma RunFurther(s: State, all: seq<Event>, n: nat)
    requires n < |all|
    ensures Run(s, all[..n + 1]) == Step(Run(s, all[..n]), all[n])
  {
    assert all[..n + 1][..n] == all[..n];
  }

  /** The host of the calls: the durable journal, the wallet's history and the calls themselves. */
  class SubmissionHost {
    var sessions: seq<Session>
    var reserved: map<string, nat>
    var invoked: seq<nat>
    var answered: set<Answer>
    var recorded: set<Answer>

    function Value(): State
      reads this
    {
      State(sessions, reserved, invoked, answered, recorded)
    }

    constructor ()
      ensures Value() == INITIAL
    {
      sessions, reserved, invoked, answered, recorded := [], map[], [], {}, {};
    }

    method Start(intent: string, fingerprint: string) returns (k: nat)
      modifies this
      ensures k == |old(sessions)| && Value() == Step(old(Value()), Begin(intent, fingerprint))
      ensures k < |sessions| && reserved == old(reserved) && sessions[k].intent == intent
      ensures invoked == old(invoked) && answered == old(answered) && recorded == old(recorded)
      ensures sessions[k].stage == if ValidIdentity(intent, fingerprint) then Checking else Failed(InvalidIdentity)
    {
      k := |sessions|;
      var stage := if ValidIdentity(intent, fingerprint) then Checking else Failed(InvalidIdentity);
      sessions := sessions + [Session(intent, fingerprint, stage)];
    }

    method SetStage(k: nat, stage: Stage)
      requires k < |sessions|
      modifies this
      ensures Value() == Move(old(Value()), k, stage)
    {
      sessions := sessions[k := sessions[k].(stage := stage)];
    }

    method AssertReady(k: nat, ok: bool)
      requires At(Value(), k, Checking) || At(Value(), k, Rechecking)
      modifies this
      ensures Value() == Step(old(Value()), Ready(k, ok)) && k < |sessions|
      ensures sessions[k].stage == if !ok then Failed(NotReady) else
                                   if old(sessions[k].stage) == Checking then Reserving else Submitting
      ensures reserved == old(reserved) && sessions[k].intent == old(sessions[k].intent)
      ensures invoked == old(invoked) && answered == old(answered) && recorded == old(recorded)
    {
      var next := if sessions[k].stage == Checking then Reserving else Submitting;
      SetStage(k, if ok then next else Failed(NotReady));
    }

    method ReserveIntent(k: nat, reply: JournalReply)
      requires At(Value(), k, Reserving)
      modifies this
      ensures Value() == Step(old(Value()), if reply == Refused then ReserveFails(k) else Reserve(k, reply == Done))
      ensures k < |sessions| && (sessions[k].stage == Rechecking || sessions[k].stage.Failed?)
      ensures sessions[k].stage == Rechecking <==> reply == Done && old(sessions[k].intent !in reserved)
      ensures sessions[k].stage.Failed? ==> sessions[k].stage.failure == if reply == Done then AlreadyReserved else JournalFailed
      ensures reserved == if reply != Refused && old(sessions[k].intent !in reserved)
                          then old(reserved)[old(sessions[k].intent) := k] else old(reserved)
      ensures invoked == old(invoked) && answered == old(answered) && recorded == old(recorded)
      ensures sessions[k].intent == old(sessions[k].intent)
    {
      var free := sessions[k].intent !in reserved;
      if reply != Refused && free {
        reserved := reserved[sessions[k].intent := k];
      }
      var next := if free then Rechecking else Failed(AlreadyReserved);
      SetStage(k, if reply == Done then next else Failed(JournalFailed));
    }

    method InvokeWallet(k: nat)
      requires At(Value(), k, Submitting)
      modifies this
      ensures Value() == Step(old(Value()), Invoke(k)) && At(Value(), k, AwaitingWallet)
      ensures invoked == old(invoked) + [k]
      ensures reserved == old(reserved) && answered == old(answered) && recorded == old(recorded)
    {
      invoked := invoked + [k];
      SetStage(k, AwaitingWallet);
    }

    method HearWallet(k: nat, id: Option<string>)
      requires At(Value(), k, AwaitingWallet)
      modifies this
      ensures Value() == Step(old(Value()), Reply(k, id))
      ensures k < |sessions| && (sessions[k].stage.Recording? || sessions[k].stage.Failed?)
      ensures sessions[k].stage.Recording? <==> id.Some? && ValidTransactionId(id.value)
      ensures sessions[k].stage.Recording? ==> sessions[k].stage.id == id.value
      ensures sessions[k].stage.Failed? ==> sessions[k].stage.failure == if id.None? then WalletFailed else AmbiguousSubmission
      ensures answered == old(answered) + if id.Some? then {Answer(k, id.value)} else {}
      ensures reserved == old(reserved) && invoked == old(invoked) && recorded == old(recorded)
    {
      hide ValidTransactionId;
      if id.None? {
        SetStage(k, Failed(WalletFailed));
      } else {
        answered := answered + {Answer(k, id.value)};
        SetStage(k, if ValidTransactionId(id.value) then Recording(id.value) else Failed(AmbiguousSubmission));
      }
    }

    method RecordSubmission(k: nat, reply: JournalReply)
      requires AtRecording(Value(), k)
      modifies this
      ensures Value() == Step(old(Value()), if reply == Refused then RecordFails(k) else Record(k, reply == Done))
      ensures k < |sessions| && (sessions[k].stage.Returned? || sessions[k].stage.Failed?)
      ensures sessions[k].stage.Returned? <==> reply == Done
      ensures sessions[k].stage.Returned? ==> sessions[k].stage.id == old(sessions[k].stage.id)
      ensures sessions[k].stage.Failed? ==> sessions[k].stage.failure == JournalFailed
      ensures recorded == old(recorded) + if reply != Refused then {Answer(k, old(sessions[k].stage.id))} else {}
      ensures reserved == old(reserved) && invoked == old(invoked) && answered == old(answered)
    {
      var id := sessions[k].stage.id;
      if reply != Refused {
        recorded := recorded + {Answer(k, id)};
      }
      SetStage(k, if reply == Done then Returned(id) else Failed(JournalFailed));
    }

    /** The steps before the wallet: the two readiness checks with the reservation between them. */
    method Prepare(
      k: nat, ready: bool, reserve: JournalReply, readyAgain: bool, ghost before: State, ghost all: seq<Event>)
      returns (ghost steps: nat)
      requires |all| == 7 && all[1] == Ready(k, ready) && all[3] == Ready(k, readyAgain)
      requires all[2] == if reserve == Refused then ReserveFails(k) else Reserve(k, reserve == Done)
      requires At(Value(), k, Checking) && Value() == Run(before, all[..1])
      modifies this
      ensures steps <= 4 && k < |sessions| && Value() == Run(before, all[..steps])
      ensures sessions[k].stage.Failed? || (sessions[k].stage == Submitting && steps == 4)
      ensures sessions[k].stage == Submitting <==>
              ready && reserve == Done && old(sessions[k].intent !in reserved) && readyAgain
      ensures sessions[k].stage.Failed? ==>
              sessions[k].stage.failure == if !ready then NotReady else if reserve != Done then JournalFailed
                                           else if old(sessions[k].intent in reserved) then AlreadyReserved else NotReady
      ensures reserved == if ready && reserve != Refused && old(sessions[k].intent !in reserved)
                          then old(reserved)[old(sessions[k].intent) := k] else old(reserved)
      ensures invoked == old(invoked) && answered == old(answered) && recorded == old(recorded)
    {
      hide Run, Step;
      RunFurther(before, all, 1);
      AssertReady(k, ready);
      steps := 2;
      if ready {
        RunFurther(before, all, 2);
        ReserveIntent(k, reserve);
        steps := 3;
        if sessions[k].stage == Rechecking {
          RunFurther(before, all, 3);
          AssertReady(k, readyAgain);
          steps := 4;
        }
      }
    }

    /** The steps from the wallet on. */
    method Send(k: nat, wallet: Option<string>, record: JournalReply, ghost before: State, ghost all: seq<Event>)
      returns (ghost steps: nat)
      requires |all| == 7 && all[4] == Invoke(k) && all[5] == Reply(k, wallet)
      requires all[6] == if record == Refused then RecordFails(k) else Record(k, record == Done)
      requires At(Value(), k, Submitting) && Value() == Run(before, all[..4])
      modifies this
      ensures steps <= 7 && k < |sessions| && Value() == Run(before, all[..steps])
      ensures sessions[k].stage.Failed? || (sessions[k].stage.Returned? && steps == 7)
      ensures sessions[k].stage.Returned? <==> wallet.Some? && ValidTransactionId(wallet.value) && record == Done
      ensures sessions[k].stage.Returned? ==> sessions[k].stage.id == wallet.value
      ensures sessions[k].stage.Failed? ==>
              sessions[k].stage.failure == if wallet.None? then WalletFailed
                                           else if !ValidTransactionId(wallet.value) then AmbiguousSubmission else JournalFailed
      ensures reserved == old(reserved) && invoked == old(invoked) + [k]
      ensures answered == old(answered) + if wallet.Some? then {Answer(k, wallet.value)} else {}
      ensures recorded == old(recorded) + if wallet.Some? && ValidTransactionId(wallet.value) && record != Refused
                                          then {Answer(k, wallet.value)} else {}
    {
      hide Run, Step, ValidTransactionId;
      RunFurther(before, all, 4);
      InvokeWallet(k);
      RunFurther(before, all, 5);
      HearWallet(k, wallet);
      steps := 6;
      if sessions[k].stage.Recording? {
        RunFurther(before, all, 6);
        RecordSubmission(k, record);
        steps := 7;
      }
    }

    /**
     A call that nothing interrupts takes a prefix of its steps and stops at its first failure. The journal is asked
     before the wallet, and the wallet before the identifier is recorded. It returns the wallet's identifier exactly
     when the intent was free and nothing on the way failed.
     */
    method SubmitSourceOnce(
      intent: string, fingerprint: string, ready: bool, reserve: JournalReply, readyAgain: bool,
      wallet: Option<string>, record: JournalReply)
      returns (r: Result<string, Failure>, ghost steps: nat)
      modifies this
      ensures var k := |old(sessions)|;
        var all := CallEvents(k, intent, fingerprint, ready, reserve, readyAgain, wallet, record);
        && steps <= 7 && Value() == Run(old(Value()), all[..steps])
        && k < |sessions|
        && match r {
             case Ok(id) => sessions[k].stage == Returned(id) && steps == 7
             case Err(failure) => sessions[k].stage == Failed(failure)
           }
      ensures r.Ok? <==>
              (Identified(intent, fingerprint) && intent !in old(reserved) && ready && reserve == Done && readyAgain
               && wallet.Some? && 1 <= |wallet.value| <= 192 && record == Done)
      ensures r.Ok? ==> r.value == wallet.value
      ensures r.Err? ==> r.error == Stopped(Identified(intent, fingerprint), ready, reserve, intent in old(reserved), readyAgain, wallet)
      ensures var claims := Identified(intent, fingerprint) && ready && reserve != Refused && intent !in old(reserved);
        var sends := claims && reserve == Done && readyAgain;
        && reserved == (if claims then old(reserved)[intent := |old(sessions)|] else old(reserved))
        && invoked == (if sends then old(invoked) + [|old(sessions)|] else old(invoked))
        && recorded == old(recorded) + if sends && wallet.Some? && 1 <= |wallet.value| <= 192 && record != Refused
                                       then {Answer(|old(sessions)|, wallet.value)} else {}
    {
      hide Run, Step, ValidIdentity, Identified;
      IdentifiedExactly(intent, fingerprint);
      ghost var before := Value();
      ghost var all := CallEvents(|sessions|, intent, fingerprint, ready, reserve, readyAgain, wallet, record);
      RunNothing(before, all);
      RunFurther(before, all, 0);
      var k := Start(intent, fingerprint);
      steps := 1;
      if sessions[k].stage == Checking {
        steps := Prepare(k, ready, reserve, readyAgain, before, all);
      }
      if sessions[k].stage == Submitting {
        steps := Send(k, wallet, record, before, all);
      }
      if sessions[k].stage.Returned? {
        r := Ok(sessions[k].stage.id);
      } else {
        r := Err(sessions[k].stage.failure);
      }
    }
  }

  lemma RunNothing(s: State, all: seq<Event>)
    ensures Run(s, all[..0]) == s
  {
  }
}
