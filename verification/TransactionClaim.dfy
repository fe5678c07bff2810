/**
 * How a Matrix transaction is claimed, processed and released: `handle_transactions`
 * (src/routes.rs) over the claim rows (src/store/sync.rs), for any number of
 * concurrent deliveries of any transaction ids.
 */
module TransactionClaim {

  /** The claim rows, as the handlers update them. */
  class ClaimStore {
    var claimed: set<string>

    constructor ()
      ensures claimed == {}
    {
      claimed := {};
    }

    /** `claim_transaction`: insert unless present. */
    method Claim(txn: string) returns (mine: bool)
      modifies this
      ensures mine <==> txn !in old(claimed)
      ensures claimed == old(claimed) + {txn}
    {
      mine := txn !in claimed;
      claimed := claimed + {txn};
    }

    /** `unclaim_transaction` */
    method Unclaim(txn: string)
      modifies this
      ensures claimed == old(claimed) - {txn}
    {
      claimed := claimed - {txn};
    }
  }

  /** How processing ended: a database error is taken for transient, any other for permanent. */
  datatype Outcome = Processed | DatabaseError | OtherError

  datatype Answer = Ok | ServerError

  /** Where one delivery stands. */
  datatype Phase =
    | Arrived
    | Processing
    | Releasing
    | Answered(answer: Answer)

  datatype Delivery = Delivery(txn: string, phase: Phase)

  datatype Event =
    | Begun(txn: string)      // a delivery starts to process
    | Ended(txn: string, outcome: Outcome)
    | Released(txn: string)
    | Acked(txn: string)      // the homeserver will not deliver it again

  datatype State = State(
    claimed: set<string>,
    deliveries: map<nat, Delivery>,
    log: seq<Event>,
    dropped: set<string>,      // history: transactions whose owner a restart dropped
    unreleased: set<string>)   // history: transactions whose release was not stored

  datatype Step =
    | Deliver(id: nat, txn: string)
    | TryClaim(id: nat, stored: bool)
    | Finish(id: nat, outcome: Outcome)
    | Release(id: nat, stored: bool)
    | Restart

  /** What a step writes to the log. */
  function Logged(s: State, step: Step): seq<Event> {
    match step
    case TryClaim(id, true) =>
      if id !in s.deliveries || s.deliveries[id].phase != Arrived then [] else
      var txn := s.deliveries[id].txn;
      if txn in s.claimed then [Acked(txn)] else [Begun(txn)]
    case Finish(id, outcome) =>
      if id !in s.deliveries || s.deliveries[id].phase != Processing then [] else
      var txn := s.deliveries[id].txn;
      if outcome.DatabaseError? then [Ended(txn, outcome)] else [Ended(txn, outcome), Acked(txn)]
    case Release(id, true) =>
      if id !in s.deliveries || s.deliveries[id].phase != Releasing then [] else [Released(s.deliveries[id].txn)]
    case _ => []
  }

  function Move(s: State, id: nat, phase: Phase): State
    requires id in s.deliveries
  {
    s.(deliveries := s.deliveries[id := s.deliveries[id].(phase := phase)])
  }

  function Moved(s: State, step: Step): State {
    match step
    case Deliver(id, txn) =>
      if id in s.deliveries then s else s.(deliveries := s.deliveries[id := Delivery(txn, Arrived)])
    case TryClaim(id, stored) =>
      if id !in s.deliveries || s.deliveries[id].phase != Arrived then s else
      var txn := s.deliveries[id].txn;
      if !stored then Move(s, id, Answered(ServerError))
      else if txn in s.claimed then Move(s, id, Answered(Ok))
      else Move(s.(claimed := s.claimed + {txn}), id, Processing)
    case Finish(id, outcome) =>
      if id !in s.deliveries || s.deliveries[id].phase != Processing then s
      else Move(s, id, if outcome.DatabaseError? then Releasing else Answered(Ok))
    case Release(id, stored) =>
      if id !in s.deliveries || s.deliveries[id].phase != Releasing then s else
      var txn := s.deliveries[id].txn;
      Move(if stored then s.(claimed := s.claimed - {txn}) else s.(unreleased := s.unreleased + {txn}),
           id, Answered(ServerError))
    case Restart => s.(deliveries := map[], dropped := s.dropped + DroppedTxns(s))
  }

  /** The transactions somebody is at work on. */
  function DroppedTxns(s: State): set<string> {
    set id | id in s.deliveries && Owns(s, id) :: s.deliveries[id].txn
  }

  /** This delivery owns its transaction's claim. */
  predicate Owns(s: State, id: nat) {
    id in s.deliveries && (s.deliveries[id].phase.Processing? || s.deliveries[id].phase.Releasing?)
  }

  function Next(s: State, step: Step): State {
    Moved(s, step).(log := s.log + Logged(s, step))
  }

  function Run(s: State, steps: seq<Step>): State
    decreases |steps|
  {
    if steps == [] then s else Run(Next(s, steps[0]), steps[1..])
  }

  const EMPTY := State({}, map[], [], {}, {})

  // ----- The invariant ---------------------------------------------------------------------

  /**
   * How often a transaction began to be processed, how often that ended in a database
   * error, how often it was released.
   */
  function Count(log: seq<Event>, e: Event): nat {
    if log == [] then 0 else Count(log[..|log| - 1], e) + (if log[|log| - 1] == e then 1 else 0)
  }

  ghost predicate ReleasingNow(s: State, txn: string) {
    exists id :: id in s.deliveries && s.deliveries[id] == Delivery(txn, Releasing)
  }

  /** Each claim is matched by one beginning that no release has undone yet. */
  ghost predicate Balanced(s: State, txn: string) {
    var begun, failed, released := Count(s.log, Begun(txn)), Count(s.log, Ended(txn, DatabaseError)),
      Count(s.log, Released(txn));
    && begun == released + (if txn in s.claimed then 1 else 0)
    && released + (if ReleasingNow(s, txn) then 1 else 0) <= failed
  }

  ghost predicate Owned(s: State) {
    && (forall id | Owns(s, id) :: s.deliveries[id].txn in s.claimed)
    && (forall a, b | Owns(s, a) && Owns(s, b) && s.deliveries[a].txn == s.deliveries[b].txn :: a == b)
  }

  ghost predicate Inv(s: State) {
    Owned(s) && forall txn :: Balanced(s, txn)
  }

  // ----- Steps keep the balance -------------------------------------------------------------

  lemma CountSnoc(log: seq<Event>, last: Event, e: Event)
    ensures Count(log + [last], e) == Count(log, e) + (if last == e then 1 else 0)
  {
    assert (log + [last])[..|log|] == log;
  }

  lemma CountTwo(log: seq<Event>, a: Event, b: Event, e: Event)
    ensures Count(log + [a, b], e) == Count(log, e) + (if a == e then 1 else 0) + (if b == e then 1 else 0)
  {
    CountSnoc(log, a, e);
    CountSnoc(log + [a], b, e);
    assert log + [a, b] == log + [a] + [b];
  }

  /** What one step adds to the count of an event. */
  lemma StepCounts(s: State, step: Step, e: Event)
    ensures Count(Next(s, step).log, e) == Count(s.log, e) + (if e in Logged(s, step) then 1 else 0)
  {
    hide Count;
    var events := Logged(s, step);
    assert Next(s, step).log == s.log + events;
    if |events| == 1 { CountSnoc(s.log, events[0], e); }
    else if |events| == 2 { CountTwo(s.log, events[0], events[1], e); }
    else { assert s.log + events == s.log; }
  }

  lemma StepKeepsOwned(s: State, step: Step)
    requires Owned(s)
    ensures Owned(Next(s, step))
  {
  }

  lemma StepKeepsBalanced(s: State, step: Step, txn: string)
    requires Owned(s) && Balanced(s, txn)
    ensures Balanced(Next(s, step), txn)
  {
    hide Count;
    StepCounts(s, step, Begun(txn));
    StepCounts(s, step, Ended(txn, DatabaseError));
    StepCounts(s, step, Released(txn));
    ReleasingChanges(s, step, txn);
  }

  /** A release follows a database error, and ends with the only delivery that could make it. */
  lemma ReleasingChanges(s: State, step: Step, txn: string)
    requires Owned(s)
    ensures ReleasingNow(Next(s, step), txn) ==> ReleasingNow(s, txn) || Ended(txn, DatabaseError) in Logged(s, step)
    ensures Released(txn) in Logged(s, step) ==>
      ReleasingNow(s, txn) && txn in s.claimed && !ReleasingNow(Next(s, step), txn)
  {
    var s' := Next(s, step);
    if a :| a in s'.deliveries && s'.deliveries[a] == Delivery(txn, Releasing) {
      if a in s.deliveries && s.deliveries[a] == Delivery(txn, Releasing) {
        assert Owns(s, a);
      } else {
        assert step.Finish? && step.id == a;
      }
    }
    if Released(txn) in Logged(s, step) {
      assert s.deliveries[step.id] == Delivery(txn, Releasing) && Owns(s, step.id);
    }
  }

  lemma {:induction false} RunKeepsInv(s: State, steps: seq<Step>)
    requires Inv(s)
    ensures Inv(Run(s, steps))
    decreases |steps|
  {
    hide Owned, Balanced, Next;
    if steps != [] {
      StepKeepsOwned(s, steps[0]);
      forall txn ensures Balanced(Next(s, steps[0]), txn) { StepKeepsBalanced(s, steps[0], txn); }
      RunKeepsInv(Next(s, steps[0]), steps[1..]);
    }
  }

  // ----- Main results ---------------------------------------------------------------------------

  /** In every run at most one delivery of a transaction is being processed or is about to release it. */
  lemma OneHandlerPerTransaction(steps: seq<Step>, a: nat, b: nat)
    ensures
      var s := Run(EMPTY, steps);
      Owns(s, a) && Owns(s, b) && s.deliveries[a].txn == s.deliveries[b].txn ==> a == b
  {
    RunKeepsInv(EMPTY, steps);
  }

  /**
   * In every run a transaction begins to be processed once, and once more for
   * each release; and each release is paid for by a database error.
   */
  lemma BeginsOncePlusReleases(steps: seq<Step>, txn: string)
    ensures
      var log := Run(EMPTY, steps).log;
      && Count(log, Begun(txn)) <= 1 + Count(log, Released(txn))
      && Count(log, Released(txn)) <= Count(log, Ended(txn, DatabaseError))
  {
    RunKeepsInv(EMPTY, steps);
    assert Balanced(Run(EMPTY, steps), txn);
  }

  ghost predicate HasOwner(s: State, txn: string) {
    exists id :: Owns(s, id) && s.deliveries[id].txn == txn
  }

  /** Claimed, and nobody is left who could release it. */
  ghost predicate Settled(s: State, txn: string) {
    txn in s.claimed && !HasOwner(s, txn)
  }

  ghost predicate NeverBegunAgain(s: State, txn: string) {
    forall steps: seq<Step> :: Count(Run(s, steps).log, Begun(txn)) == Count(s.log, Begun(txn))
  }

  /** Only a claim makes a new owner, and only an owner gives a claim up. */
  lemma OwnersClaim(s: State, step: Step, txn: string)
    ensures HasOwner(Next(s, step), txn) ==> HasOwner(s, txn) || txn !in s.claimed
    ensures txn in s.claimed && txn !in Next(s, step).claimed ==> HasOwner(s, txn)
  {
    var s' := Next(s, step);
    if txn in s.claimed {
      if id :| Owns(s', id) && s'.deliveries[id].txn == txn { assert Owns(s, id) && s.deliveries[id].txn == txn; }
      if txn !in s'.claimed { assert Owns(s, step.id) && s.deliveries[step.id].txn == txn; }
    }
  }

  lemma {:induction false} SettledStays(s: State, steps: seq<Step>, txn: string)
    requires Settled(s, txn)
    ensures Settled(Run(s, steps), txn) && Count(Run(s, steps).log, Begun(txn)) == Count(s.log, Begun(txn))
    decreases |steps|
  {
    hide Count;
    if steps != [] {
      var s' := Next(s, steps[0]);
      StepCounts(s, steps[0], Begun(txn));
      OwnersClaim(s, steps[0], txn);
      SettledStays(s', steps[1..], txn);
    }
  }

  /** A fresh delivery of an unclaimed transaction begins it. */
  lemma UnclaimedCanBegin(s: State, txn: string) returns (steps: seq<Step>)
    requires txn !in s.claimed
    ensures Count(Run(s, steps).log, Begun(txn)) == Count(s.log, Begun(txn)) + 1
  {
    var s1 := Next(s, Restart);
    var s2 := Next(s1, Deliver(0, txn));
    StepCounts(s, Restart, Begun(txn));
    StepCounts(s1, Deliver(0, txn), Begun(txn));
    StepCounts(s2, TryClaim(0, true), Begun(txn));
    hide Count;
    steps := [Restart, Deliver(0, txn), TryClaim(0, true)];
    RunThree(s, Restart, Deliver(0, txn), TryClaim(0, true));
  }

  lemma RunThree(s: State, a: Step, b: Step, c: Step)
    ensures Run(s, [a, b, c]) == Next(Next(Next(s, a), b), c)
  {
    assert [a, b, c][1..] == [b, c] && [b, c][1..] == [c] && [c][1..] == [];
    assert Run(Next(Next(s, a), b), [c]) == Next(Next(Next(s, a), b), c);
  }

  lemma {:induction false} RunConcat(s: State, a: seq<Step>, b: seq<Step>)
    ensures Run(s, a + b) == Run(Run(s, a), b)
    decreases |a|
  {
    hide Next;
    if a == [] {
      assert a + b == b;
    } else {
      assert (a + b)[1..] == a[1..] + b;
      RunConcat(Next(s, a[0]), a[1..], b);
    }
  }

  /** The owner of a claim can still fail and release it. */
  lemma OwnerCanRelease(s: State, id: nat) returns (steps: seq<Step>)
    requires Owns(s, id)
    ensures
      var txn, s' := s.deliveries[id].txn, Run(s, steps);
      txn !in s'.claimed && Count(s'.log, Begun(txn)) == Count(s.log, Begun(txn))
  {
    var txn := s.deliveries[id].txn;
    var a, b := Finish(id, DatabaseError), Release(id, true);
    StepCounts(s, a, Begun(txn));
    StepCounts(Next(s, a), b, Begun(txn));
    hide Count;
    steps := [a, b];
    assert [a, b][1..] == [b] && [b][1..] == [];
    assert Run(Next(s, a), [b]) == Next(Next(s, a), b);
  }

  /**
   * A transaction is certain never to be processed again if and only if it is
   * claimed and its owner has finished. A delivery answered with success
   * because of a claim still owned is therefore no promise.
   */
  lemma NeverAgainIffSettled(s: State, txn: string)
    ensures NeverBegunAgain(s, txn) <==> Settled(s, txn)
  {
    hide Count, Run;
    if Settled(s, txn) {
      forall steps: seq<Step> ensures Count(Run(s, steps).log, Begun(txn)) == Count(s.log, Begun(txn)) {
        SettledStays(s, steps, txn);
      }
    } else {
      var first: seq<Step> := [];
      if id :| Owns(s, id) && s.deliveries[id].txn == txn { first := OwnerCanRelease(s, id); } else { RunNothing(s); }
      var s' := Run(s, first);
      var more := UnclaimedCanBegin(s', txn);
      RunConcat(s, first, more);
      assert Count(Run(s, first + more).log, Begun(txn)) != Count(s.log, Begun(txn));
    }
  }

  lemma RunNothing(s: State)
    ensures Run(s, []) == s
  {
  }

  // ----- What an acknowledgement promises -----------------------------------------------------

  /** The transaction was processed to an end the homeserver need not hear of again. */
  ghost predicate Finished(log: seq<Event>, txn: string) {
    Ended(txn, Processed) in log || Ended(txn, OtherError) in log
  }

  /** The claim's owner left without an end: a restart dropped it, or its release was not stored. */
  predicate Abandoned(s: State, txn: string) {
    txn in s.dropped || txn in s.unreleased
  }

  /**
   * A claim has exactly one of three stories: an owner at work, an owner that finished,
   * an owner that left it behind.
   */
  ghost predicate Fated(s: State, txn: string) {
    && (txn in s.claimed <==> HasOwner(s, txn) || Finished(s.log, txn) || Abandoned(s, txn))
    && !(HasOwner(s, txn) && Finished(s.log, txn))
    && !(HasOwner(s, txn) && Abandoned(s, txn))
    && !(Finished(s.log, txn) && Abandoned(s, txn))
  }

  lemma FinishedGrows(s: State, step: Step, txn: string)
    ensures Finished(Next(s, step).log, txn) <==> Finished(s.log, txn) || Finished(Logged(s, step), txn)
  {
    hide Logged;
    var more := Logged(s, step);
    forall e: Event ensures e in s.log + more <==> e in s.log || e in more {}
  }

  /** How a step changes who is at work on a transaction. */
  lemma OwnerAfter(s: State, step: Step, txn: string)
    requires Owned(s)
    ensures HasOwner(Next(s, step), txn) <==>
      !step.Restart? &&
      (Begun(txn) in Logged(s, step) || (HasOwner(s, txn) && !Finished(Logged(s, step), txn) && !Leaves(s, step, txn)))
  {
    var s' := Next(s, step);
    if HasOwner(s, txn) {
      var id :| Owns(s, id) && s.deliveries[id].txn == txn;
      if !step.Restart? && !Finished(Logged(s, step), txn) && !Leaves(s, step, txn) {
        assert Owns(s', id) && s'.deliveries[id].txn == txn;
      }
    }
    if Begun(txn) in Logged(s, step) { assert Owns(s', step.id) && s'.deliveries[step.id].txn == txn; }
    if id :| Owns(s', id) && s'.deliveries[id].txn == txn {
      assert id in s.deliveries && s.deliveries[id].txn == txn;
      assert Owns(s, id) || Begun(txn) in Logged(s, step);
    }
  }

  /** The owner of this transaction makes its release step, stored or not. */
  ghost predicate Leaves(s: State, step: Step, txn: string) {
    step.Release? && step.id in s.deliveries && s.deliveries[step.id] == Delivery(txn, Releasing)
  }

  lemma StepKeepsFated(s: State, step: Step, txn: string)
    requires Owned(s) && Fated(s, txn)
    ensures Fated(Next(s, step), txn)
  {
    OwnerAfter(s, step, txn);
    FinishedGrows(s, step, txn);
    StepIsAbout(s, step, txn);
    hide Owns, HasOwner, Finished;
  }

  /** What a step can do to the claim of one transaction, and only with the right to. */
  lemma StepIsAbout(s: State, step: Step, txn: string)
    requires Owned(s)
    ensures
      var s', events := Next(s, step), Logged(s, step);
      && (txn in s'.claimed <==> Begun(txn) in events || (txn in s.claimed && !(Leaves(s, step, txn) && step.stored)))
      && (Begun(txn) in events ==> txn !in s.claimed && !Finished(events, txn) && !step.Restart?)
      && (Finished(events, txn) || Leaves(s, step, txn) ==> HasOwner(s, txn) && !step.Restart?)
      && !(Finished(events, txn) && Leaves(s, step, txn))
      && (Abandoned(s', txn) <==>
            || Abandoned(s, txn)
            || (step.Restart? && HasOwner(s, txn))
            || (Leaves(s, step, txn) && !step.stored))
      && (step.Restart? ==> s'.claimed == s.claimed && events == [])
  {
    if step.Finish? && step.id in s.deliveries && s.deliveries[step.id].phase.Processing? { assert Owns(s, step.id); }
    if Leaves(s, step, txn) { assert Owns(s, step.id); }
  }

  lemma {:induction false} RunKeepsFated(s: State, steps: seq<Step>, txn: string)
    requires Owned(s) && Fated(s, txn)
    ensures Owned(Run(s, steps)) && Fated(Run(s, steps), txn)
    decreases |steps|
  {
    hide Owned, Fated, Next;
    if steps != [] {
      StepKeepsOwned(s, steps[0]);
      StepKeepsFated(s, steps[0], txn);
      RunKeepsFated(Next(s, steps[0]), steps[1..], txn);
    }
  }

  /**
   * In every run, a step that acknowledges a transaction leaves it processed to an
   * end if and only if the delivery itself has just ended it, or, for a delivery
   * answered because of another's claim, nobody is at work on it any more and
   * nobody left it behind: no restart dropped its owner and no release went
   * unstored.
   */
  lemma AcknowledgementIsPromiseIff(steps: seq<Step>, step: Step, txn: string)
    ensures
      var s := Run(EMPTY, steps);
      Acked(txn) in Logged(s, step) ==>
        (Finished(Next(s, step).log, txn) <==> step.Finish? || (!HasOwner(s, txn) && !Abandoned(s, txn)))
  {
    var s := Run(EMPTY, steps);
    RunKeepsFated(EMPTY, steps, txn);
    FinishedGrows(s, step, txn);
    hide Run;
  }

  /** What was left behind is never processed to an end, over every run: the acknowledgement was worth nothing. */
  lemma {:induction false} AbandonedIsLost(s: State, steps: seq<Step>, txn: string)
    requires Owned(s) && Fated(s, txn) && Abandoned(s, txn)
    ensures Abandoned(Run(s, steps), txn) && !Finished(Run(s, steps).log, txn)
    decreases |steps|
  {
    if steps != [] {
      StepKeepsOwned(s, steps[0]);
      StepKeepsFated(s, steps[0], txn);
      StepIsAbout(s, steps[0], txn);
      AbandonedIsLost(Next(s, steps[0]), steps[1..], txn);
    }
  }

  /** While the owner is at work both are open: it may end well, or be dropped and the transaction lost. */
  lemma OwnerAtWorkDecides(s: State, id: nat)
    requires Owned(s) && id in s.deliveries && s.deliveries[id].phase.Processing? && Fated(s, s.deliveries[id].txn)
    ensures
      var txn := s.deliveries[id].txn;
      Finished(Next(s, Finish(id, Processed)).log, txn) && Abandoned(Next(s, Restart), txn) &&
        Fated(Next(s, Restart), txn)
  {
    var txn := s.deliveries[id].txn;
    assert Owns(s, id) && HasOwner(s, txn);
    StepKeepsFated(s, Restart, txn);
    StepIsAbout(s, Restart, txn);
    FinishedGrows(s, Finish(id, Processed), txn);
  }

  /**
   * A duplicate can be acknowledged while the first delivery goes on to fail, or
   * after a restart dropped it: either way the transaction is lost.
   */
  lemma AcknowledgedDuplicateCanBeLost(txn: string)
    ensures
      var s := Run(EMPTY, [Deliver(0, txn), Deliver(1, txn), TryClaim(0, true)] +
                          [TryClaim(1, true), Finish(0, DatabaseError), Release(0, true)]);
      Acked(txn) in s.log && txn !in s.claimed && !Finished(s.log, txn) && !HasOwner(s, txn)
    ensures
      var s := Run(EMPTY, [Deliver(0, txn), TryClaim(0, true), Restart] + [Deliver(1, txn), TryClaim(1, true)]);
      Acked(txn) in s.log && Abandoned(s, txn) && !Finished(s.log, txn)
  {
    BothArriveOneClaims(txn);
    OneIsAckedOneFails(txn);
    RunConcat(EMPTY, [Deliver(0, txn), Deliver(1, txn), TryClaim(0, true)],
              [TryClaim(1, true), Finish(0, DatabaseError), Release(0, true)]);
    DroppedThenAcked(txn);
    RunConcat(EMPTY, [Deliver(0, txn), TryClaim(0, true), Restart], [Deliver(1, txn), TryClaim(1, true)]);
  }

  function OneClaimed(txn: string): State {
    State({txn}, map[0 := Delivery(txn, Processing), 1 := Delivery(txn, Arrived)], [Begun(txn)], {}, {})
  }

  lemma BothArriveOneClaims(txn: string)
    ensures Run(EMPTY, [Deliver(0, txn), Deliver(1, txn), TryClaim(0, true)]) == OneClaimed(txn)
  {
    RunThree(EMPTY, Deliver(0, txn), Deliver(1, txn), TryClaim(0, true));
    hide Run;
  }

  lemma OneIsAckedOneFails(txn: string)
    ensures
      var s := Run(OneClaimed(txn), [TryClaim(1, true), Finish(0, DatabaseError), Release(0, true)]);
      Acked(txn) in s.log && txn !in s.claimed && !Finished(s.log, txn) && !HasOwner(s, txn)
  {
    RunThree(OneClaimed(txn), TryClaim(1, true), Finish(0, DatabaseError), Release(0, true));
    hide Run;
  }

  function OneDropped(txn: string): State {
    State({txn}, map[], [Begun(txn)], {txn}, {})
  }

  lemma DroppedInRestart(txn: string)
    ensures Run(EMPTY, [Deliver(0, txn), TryClaim(0, true), Restart]) == OneDropped(txn)
  {
    RunThree(EMPTY, Deliver(0, txn), TryClaim(0, true), Restart);
    hide Run;
    var claimed := State({txn}, map[0 := Delivery(txn, Processing)], [Begun(txn)], {}, {});
    assert Next(Next(EMPTY, Deliver(0, txn)), TryClaim(0, true)) == claimed;
    assert Owns(claimed, 0) && DroppedTxns(claimed) == {txn};
  }

  lemma DroppedThenAcked(txn: string)
    ensures Run(EMPTY, [Deliver(0, txn), TryClaim(0, true), Restart]) == OneDropped(txn)
    ensures
      var s := Run(OneDropped(txn), [Deliver(1, txn), TryClaim(1, true)]);
      Acked(txn) in s.log && Abandoned(s, txn) && !Finished(s.log, txn)
  {
    DroppedInRestart(txn);
    RunTwo(OneDropped(txn), Deliver(1, txn), TryClaim(1, true));
    hide Run;
  }

  // ----- The handler -----------------------------------------------------------------------------

  /**
   * `handle_transactions`, with the results of the calls it makes as parameters:
   * undisturbed, it is the four steps of one delivery.
   */
  method HandleTransaction(store: ClaimStore, txn: string, claimStored: bool, outcome: Outcome, releaseStored: bool)
    returns (answer: Answer)
    modifies store
    ensures
      var steps := [Deliver(0, txn), TryClaim(0, claimStored)] + [Finish(0, outcome), Release(0, releaseStored)];
      var s := Run(State(old(store.claimed), map[], [], {}, {}), steps);
      s.claimed == store.claimed && s.deliveries == map[0 := Delivery(txn, Answered(answer))]
    ensures answer.Ok? <==> claimStored && (txn in old(store.claimed) || !outcome.DatabaseError?)
    ensures store.claimed ==
      if claimStored && !(outcome.DatabaseError? && releaseStored)
      then old(store.claimed) + {txn} else old(store.claimed)
  {
    HandlerRun(store.claimed, txn, claimStored, outcome, releaseStored);
    hide Run, Next;
    if !claimStored {
      return ServerError;
    }
    var mine := store.Claim(txn);
    if !mine {
      assert store.claimed == old(store.claimed);
      return Ok;
    }
    if outcome.DatabaseError? {
      if releaseStored {
        store.Unclaim(txn);
        assert store.claimed == old(store.claimed);
      }
      return ServerError;
    }
    return Ok;
  }

  lemma ClaimRun(claimed: set<string>, txn: string, claimStored: bool)
    ensures
      var s := Run(State(claimed, map[], [], {}, {}), [Deliver(0, txn), TryClaim(0, claimStored)]);
      && s.claimed == (if claimStored then claimed + {txn} else claimed)
      && s.deliveries == map[0 := Delivery(txn,
           if !claimStored then Answered(ServerError) else if txn in claimed then Answered(Ok) else Processing)]
  {
    RunTwo(State(claimed, map[], [], {}, {}), Deliver(0, txn), TryClaim(0, claimStored));
    hide Run;
    if txn in claimed { assert claimed + {txn} == claimed; }
  }

  lemma FinishRun(s: State, txn: string, outcome: Outcome, releaseStored: bool)
    requires 0 in s.deliveries && s.deliveries[0].txn == txn
    requires s.deliveries[0].phase.Processing? || s.deliveries[0].phase.Answered?
    ensures
      var s' := Run(s, [Finish(0, outcome), Release(0, releaseStored)]);
      if s.deliveries[0].phase.Answered? then s'.claimed == s.claimed && s'.deliveries == s.deliveries
      else
        && s'.claimed == (if outcome.DatabaseError? && releaseStored then s.claimed - {txn} else s.claimed)
        && s'.deliveries
           == s.deliveries[0 := Delivery(txn, Answered(if outcome.DatabaseError? then ServerError else Ok))]
  {
    RunTwo(s, Finish(0, outcome), Release(0, releaseStored));
    hide Run;
  }

  lemma HandlerRun(claimed: set<string>, txn: string, claimStored: bool, outcome: Outcome, releaseStored: bool)
    ensures
      var steps := [Deliver(0, txn), TryClaim(0, claimStored)] + [Finish(0, outcome), Release(0, releaseStored)];
      var s := Run(State(claimed, map[], [], {}, {}), steps);
      && s.claimed == (if !claimStored || txn in claimed || (outcome.DatabaseError? && releaseStored)
         then claimed else claimed + {txn})
      && s.deliveries == map[0 := Delivery(txn, Answered(
           if !claimStored || (txn !in claimed && outcome.DatabaseError?) then ServerError else Ok))]
  {
    var s := State(claimed, map[], [], {}, {});
    var a, b := [Deliver(0, txn), TryClaim(0, claimStored)], [Finish(0, outcome), Release(0, releaseStored)];
    RunConcat(s, a, b);
    ClaimRun(claimed, txn, claimStored);
    hide Run;
    FinishRun(Run(s, a), txn, outcome, releaseStored);
  }

  lemma RunTwo(s: State, a: Step, b: Step)
    ensures Run(s, [a, b]) == Next(Next(s, a), b)
  {
    assert [a, b][1..] == [b] && [b][1..] == [];
    assert Run(Next(s, a), [b]) == Next(Next(s, a), b);
  }
}
