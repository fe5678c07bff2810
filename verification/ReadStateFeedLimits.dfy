/**
 * A poller that fetches only what is reported and a walk that comes only to what is
 * ahead of it. Every run of `ReadState` is one here, with mails and the flag touched
 * in between, so the conditions on where a room settles and when its echo ends are
 * the same; and one echo runs on with no failing call, no restart and nothing touched.
 */
module ReadStateFeedLimits {
  import opened Wrappers
  import opened ReadState
  import opened ReadStateFeed
  import opened ReadStateSettling
  import opened ReadStateEcho
  import opened ReadStateLimits
  import opened ReadStateEndless

  /** How many moves of a run changed the persistent state. */
  function EffectiveMoves(t: Thread, s: Live, moves: seq<Move>): nat
    decreases |moves|
  {
    if moves == [] then 0
    else
      var s' := Go(t, s, moves[0]);
      (if SameCore(s.room, s'.room) then 0 else 1) + EffectiveMoves(t, s', moves[1..])
  }

  lemma {:induction false} EffectiveMovesConcat(t: Thread, s: Live, xs: seq<Move>, ys: seq<Move>)
    ensures EffectiveMoves(t, s, xs + ys) == EffectiveMoves(t, s, xs) + EffectiveMoves(t, Moves(t, s, xs), ys)
    decreases |xs|
  {
    hide Go, SameCore;
    if xs == [] {
      assert xs + ys == ys;
    } else {
      assert (xs + ys)[0] == xs[0] && (xs + ys)[1..] == xs[1..] + ys;
      EffectiveMovesConcat(t, Go(t, s, xs[0]), xs[1..], ys);
    }
  }

  lemma {:induction false} ChangeIsEffectiveMove(t: Thread, s: Live, moves: seq<Move>)
    requires !SameCore(s.room, Moves(t, s, moves).room)
    ensures EffectiveMoves(t, s, moves) >= 1
    decreases |moves|
  {
    hide Go;
    if moves != [] && SameCore(s.room, Go(t, s, moves[0]).room) {
      ChangeIsEffectiveMove(t, Go(t, s, moves[0]), moves[1..]);
    }
  }

  /** A run changes the room no more often than the run of `ReadState` that it is. */
  lemma {:induction false} EffectiveMovesAreSteps(t: Thread, w: Setting, s: Live, moves: seq<Move>)
    requires MovesPossible(w, moves)
    ensures EffectiveMoves(t, s, moves) <= EffectiveSteps(t, s.room, RoomRun(t, s, moves))
    decreases |moves|
  {
    if moves != [] {
      var m, rest := moves[0], moves[1..];
      var head, s' := StepsOf(s, m), Go(t, s, m);
      hide Go, StepsOf, MovePossible, Possible;
      MoveIsStep(t, w, s, m);
      EffectiveMovesAreSteps(t, w, s', rest);
      EffectiveConcat(t, s.room, head, RoomRun(t, s', rest));
      if !SameCore(s.room, s'.room) { ChangeIsEffective(t, s.room, head); }
    }
  }

  // ----- Every run of `ReadState` is one of these ---------------------------------------------------

  /** Only one reader differs, and what the poller waits for; the walk gets no further. */
  ghost predicate ReadsOn(s: Live, s': Live, k: Task, r: Reader) {
    s'.room == WithReader(s.room, k, r) && !s'.page.Asked? && s'.ahead == s.ahead
  }

  /** The task's calls fail for all of `mails`. */
  lemma {:induction false} DropMails(t: Thread, w: Setting, s: Live, k: Task, mails: set<Email>)
    returns (moves: seq<Move>)
    requires ReaderOf(s.room, k).at.Idle? && (k.Walk? ==> w.walking)
    ensures MovesPossible(w, moves)
    ensures Moves(t, s, moves) == Held(s, k, ReaderOf(s.room, k).fetched - mails)
    decreases |mails|
  {
    var fetched := ReaderOf(s.room, k).fetched;
    if mails == {} {
      moves := [];
      assert fetched - mails == fetched;
    } else {
      var e :| e in mails;
      var m := Handler(MirrorFails(k, e));
      DropOne(t, s, k, e);
      var rest := DropMails(t, w, Held(s, k, fetched - {e}), k, mails - {e});
      assert fetched - {e} - (mails - {e}) == fetched - mails;
      MovesOne(t, s, m);
      MovesConcat(t, s, [m], rest);
      moves := [m] + rest;
    }
  }

  /** The task holds these mails and is idle. */
  function Held(s: Live, k: Task, fetched: map<Email, bool>): Live {
    s.(room := WithReader(s.room, k, Reader(fetched, Idle)))
  }

  lemma DropOne(t: Thread, s: Live, k: Task, e: Email)
    requires ReaderOf(s.room, k).at.Idle?
    ensures Go(t, s, Handler(MirrorFails(k, e))) == Held(s, k, ReaderOf(s.room, k).fetched - {e})
  {
  }

  /** A run of this setting from `s` to `s'`. */
  ghost predicate Brings(t: Thread, w: Setting, s: Live, moves: seq<Move>, s': Live) {
    MovesPossible(w, moves) && Moves(t, s, moves) == s'
  }

  lemma BringsOn(t: Thread, w: Setting, s: Live, xs: seq<Move>, s1: Live, ys: seq<Move>, s2: Live)
    requires Brings(t, w, s, xs, s1) && Brings(t, w, s1, ys, s2)
    ensures Brings(t, w, s, xs + ys, s2)
  {
    MovesConcat(t, s, xs, ys);
  }

  lemma MoveBrings(t: Thread, w: Setting, s: Live, m: Move)
    requires MovePossible(w, m)
    ensures Brings(t, w, s, [m], Go(t, s, m))
  {
    MovesOne(t, s, m);
  }

  /** Between polls, with nothing held. */
  predicate BetweenPolls(s: Live) {
    s.page.Resting? && Empty(s, Poll)
  }

  lemma LeavePage(t: Thread, w: Setting, s: Live) returns (moves: seq<Move>, s': Live)
    requires !s.page.Asked? && s.room.poll.at.Idle?
    ensures Brings(t, w, s, moves, s') && BetweenPolls(s') && ReadsOn(s, s', Poll, Reader(map[], Idle))
  {
    var all := s.room.poll.fetched.Keys;
    var s1 := Held(s, Poll, map[]);
    var drop := DropMails(t, w, s, Poll, all);
    assert s.room.poll.fetched - all == map[];
    assert Brings(t, w, s, drop, s1);
    s' := Go(t, s1, SaveToken);
    hide Brings;
    MoveBrings(t, w, s1, SaveToken);
    BringsOn(t, w, s, drop, s1, [SaveToken], s');
    moves := drop + [SaveToken];
  }

  /** The mails are touched, and the next page brings them. */
  lemma FetchTouched(t: Thread, w: Setting, s: Live, emails: set<Email>) returns (moves: seq<Move>, s': Live)
    requires BetweenPolls(s)
    ensures Brings(t, w, s, moves, s')
    ensures ReadsOn(s, s', Poll, Reader(map e | e in emails :: e in s.room.seen, Idle))
  {
    var touches := TouchAll(t, s, emails);
    var s1 := s.(reported := s.reported + emails);
    assert Brings(t, w, s, touches, s1);
    var s2 := Go(t, s1, Ask);
    var s3 := Go(t, s2, FetchPage);
    var s4 := Held(s3, Poll, s3.room.poll.fetched - (s1.reported - emails));
    assert s4.room.poll.fetched == map e | e in emails :: e in s.room.seen;
    assert ReadsOn(s, s4, Poll, Reader(map e | e in emails :: e in s.room.seen, Idle));
    var drop := DropMails(t, w, s3, Poll, s1.reported - emails);
    assert Brings(t, w, s3, drop, s4);
    hide Brings, Go, Held;
    MoveBrings(t, w, s1, Ask);
    MoveBrings(t, w, s2, FetchPage);
    BringsOn(t, w, s, touches, s1, [Ask], s2);
    BringsOn(t, w, s, touches + [Ask], s2, [FetchPage], s3);
    BringsOn(t, w, s, touches + [Ask] + [FetchPage], s3, drop, s4);
    moves, s' := touches + [Ask] + [FetchPage] + drop, s4;
  }

  /** A batch that is not finished is begun again. */
  lemma FetchAhead(t: Thread, w: Setting, s: Live, emails: set<Email>) returns (moves: seq<Move>, s': Live)
    requires w.walking && s.room.walk.at.Idle? && emails <= s.ahead && !s.page.Asked?
    ensures Brings(t, w, s, moves, s')
    ensures ReadsOn(s, s', Walk, Reader(map e | e in emails :: e in s.room.seen, Idle))
  {
    var all := s.room.walk.fetched.Keys;
    var s1 := Held(s, Walk, map[]);
    var drop := DropMails(t, w, s, Walk, all);
    assert s.room.walk.fetched - all == map[];
    assert Brings(t, w, s, drop, s1);
    var s2 := Go(t, s1, BatchFails);
    s' := Go(t, s2, StartBatch(emails));
    hide Brings, Held;
    MoveBrings(t, w, s1, BatchFails);
    MoveBrings(t, w, s2, StartBatch(emails));
    BringsOn(t, w, s, drop, s1, [BatchFails], s2);
    BringsOn(t, w, s, drop + [BatchFails], s2, [StartBatch(emails)], s');
    moves := drop + [BatchFails] + [StartBatch(emails)];
  }

  lemma FetchIsMoves(t: Thread, w: Setting, s: Live, k: Task, emails: set<Email>)
    returns (moves: seq<Move>, s': Live)
    requires !s.page.Asked? && (k.Walk? ==> w.walking && emails <= s.ahead)
    ensures Brings(t, w, s, moves, s') && IsStep(t, s, Fetch(k, emails), s')
  {
    if !ReaderOf(s.room, k).at.Idle? {
      moves, s' := [], s;
    } else if k.Walk? {
      moves, s' := FetchAhead(t, w, s, emails);
    } else {
      var xs, s1 := LeavePage(t, w, s);
      var ys, s2 := FetchTouched(t, w, s1, emails);
      hide Brings;
      BringsOn(t, w, s, xs, s1, ys, s2);
      moves, s' := xs + ys, s2;
    }
  }

  /** The room takes the step, and everything is ready for the next one. */
  ghost predicate IsStep(t: Thread, s: Live, step: Step, s': Live) {
    s'.room == Next(t, s.room, step) && !s'.page.Asked? && s'.ahead == s.ahead
  }

  lemma ReadFlagIsMoves(t: Thread, w: Setting, s: Live) returns (moves: seq<Move>, s': Live)
    requires !s.page.Asked?
    ensures Brings(t, w, s, moves, s') && IsStep(t, s, ReadFlag, s')
  {
    if s.room.syncer.SyncIdle? {
      var s1 := Go(t, s, Handler(ApplyFlagFails));
      var s2 := Go(t, s1, TouchFlag);
      s' := Go(t, s2, Handler(ReadFlag));
      assert IsStep(t, s, ReadFlag, s');
      hide Brings, Go;
      MoveBrings(t, w, s, Handler(ApplyFlagFails));
      MoveBrings(t, w, s1, TouchFlag);
      MoveBrings(t, w, s2, Handler(ReadFlag));
      BringsOn(t, w, s, [Handler(ApplyFlagFails)], s1, [TouchFlag], s2);
      BringsOn(t, w, s, [Handler(ApplyFlagFails)] + [TouchFlag], s2, [Handler(ReadFlag)], s');
      moves := [Handler(ApplyFlagFails)] + [TouchFlag] + [Handler(ReadFlag)];
    } else {
      moves, s' := [], s;
    }
  }

  lemma StepIsMoves(t: Thread, w: Setting, s: Live, step: Step) returns (moves: seq<Move>, s': Live)
    requires Possible(w, step) && !s.page.Asked?
    requires step.Fetch? && step.task.Walk? ==> step.emails <= s.ahead
    ensures Brings(t, w, s, moves, s') && IsStep(t, s, step, s')
  {
    match step
    case Fetch(k, emails) => moves, s' := FetchIsMoves(t, w, s, k, emails);
    case ReadFlag => moves, s' := ReadFlagIsMoves(t, w, s);
    case _ =>
      MoveBrings(t, w, s, Handler(step));
      moves, s' := [Handler(step)], Go(t, s, Handler(step));
      hide Next;
  }

  lemma {:induction false} ReadyRunIsMoves(t: Thread, w: Setting, s: Live, steps: seq<Step>)
    returns (moves: seq<Move>)
    requires PossibleRun(w, steps) && WalksTo(s.ahead, steps) && !s.page.Asked?
    ensures MovesPossible(w, moves) && Moves(t, s, moves).room == Run(t, s.room, steps)
    ensures EffectiveSteps(t, s.room, steps) <= EffectiveMoves(t, s, moves)
    decreases |steps|
  {
    if steps == [] {
      moves := [];
    } else {
      hide Next, Possible, MovePossible;
      assert Possible(w, steps[0]) && steps[0] in steps;
      var xs, s1 := StepIsMoves(t, w, s, steps[0]);
      var ys := ReadyRunIsMoves(t, w, s1, steps[1..]);
      if !SameCore(s.room, s1.room) { ChangeIsEffectiveMove(t, s, xs); }
      MovesConcat(t, s, xs, ys);
      EffectiveMovesConcat(t, s, xs, ys);
      moves := xs + ys;
    }
  }

  /**
   * Whatever the tasks of `ReadState` do these do as often, given the touches that the
   * poller and the `/sync` loop wait for, and a walk that is yet to come to the mails.
   */
  lemma RunIsMoves(t: Thread, w: Setting, s: Live, steps: seq<Step>) returns (moves: seq<Move>)
    requires PossibleRun(w, steps) && WalksTo(s.ahead, steps)
    ensures MovesPossible(w, moves) && Moves(t, s, moves).room == Run(t, s.room, steps)
    ensures EffectiveSteps(t, s.room, steps) <= EffectiveMoves(t, s, moves)
  {
    if s.page.Asked? {
      var s1 := Go(t, s, AskFails);
      assert s1 == s.(page := Resting);
      MovesOne(t, s, AskFails);
      var rest := ReadyRunIsMoves(t, w, s1, steps);
      MovesConcat(t, s, [AskFails], rest);
      EffectiveMovesConcat(t, s, [AskFails], rest);
      moves := [AskFails] + rest;
    } else {
      moves := ReadyRunIsMoves(t, w, s, steps);
    }
  }

  /** Every run from the action that settles does so in its target. */
  ghost predicate MovesSettleOnlyInTarget(t: Thread, s0: Live, a: Action, w: Setting)
    requires LatestMapped(t)
  {
    forall moves | MovesPossible(w, moves) :: SettledInTarget(t, s0.room, a, Moves(t, ActLive(s0, a), moves).room)
  }

  /**
   * With a poller that waits for reports, and a walk that is yet to come to the mails
   * of the room, every run that settles does so in the target under the same conditions.
   */
  lemma FeedSettlesInTargetIffCertain(t: Thread, s0: Live, a: Action, w: Setting)
    requires LatestMapped(t) && ActsOn(t, a) && Quiet(t, s0.room)
    ensures Certain(t, s0.room, a, w) ==> MovesSettleOnlyInTarget(t, s0, a, w)
    ensures
      (w.walking ==> t.emails <= s0.ahead) ==>
        (MovesSettleOnlyInTarget(t, s0, a, w) <==> Certain(t, s0.room, a, w))
  {
    var start := ActLive(s0, a);
    hide Quiet, Certain, MovesPossible, Moves, Settled;
    if Certain(t, s0.room, a, w) {
      forall moves | MovesPossible(w, moves) ensures SettledInTarget(t, s0.room, a, Moves(t, start, moves).room) {
        MovesSettleInTarget(t, s0, a, w, moves);
      }
    } else if w.walking ==> t.emails <= s0.ahead {
      var steps := UncertainDiverts(t, s0.room, a, w);
      StayingWalksTo(t, w, start.ahead, steps);
      var moves := RunIsMoves(t, w, start, steps);
      assert !SettledInTarget(t, s0.room, a, Moves(t, start, moves).room);
    }
  }

  ghost predicate MovesBoundedBy(t: Thread, s: Live, w: Setting, n: nat) {
    forall moves | MovesPossible(w, moves) :: EffectiveMoves(t, s, moves) <= n
  }

  /**
   * With a poller that waits for reports, and a walk that is yet to come to the mails
   * of the room, the echo ends in the same rooms.
   */
  lemma FeedEchoIsBrokenIff(t: Thread, s0: Live, a: Action, w: Setting)
    requires LatestMapped(t) && ActsOn(t, a) && Quiet(t, s0.room)
    ensures !Echoes(t, s0.room, a, w) ==> MovesBoundedBy(t, ActLive(s0, a), w, 70)
    ensures
      (w.walking ==> t.emails <= s0.ahead) ==>
        ((exists n: nat :: MovesBoundedBy(t, ActLive(s0, a), w, n)) <==> !Echoes(t, s0.room, a, w))
  {
    hide Quiet, Echoes, MovesPossible, PossibleRun, EffectiveMoves, EffectiveSteps;
    if !Echoes(t, s0.room, a, w) {
      forall moves | MovesPossible(w, moves) ensures EffectiveMoves(t, ActLive(s0, a), moves) <= 70 {
        MovesAreRun(t, w, ActLive(s0, a), moves);
        EffectiveMovesAreSteps(t, w, ActLive(s0, a), moves);
        QuietRoomIsBounded(t, s0.room, a, w, RoomRun(t, ActLive(s0, a), moves));
      }
      assert MovesBoundedBy(t, ActLive(s0, a), w, 70);
    } else if w.walking ==> t.emails <= s0.ahead {
      forall n: nat ensures !MovesBoundedBy(t, ActLive(s0, a), w, n) {
        var moves := FeedEchoHasNoEnd(t, s0, a, w, n + 1);
      }
    }
  }

  lemma FeedEchoHasNoEnd(t: Thread, s0: Live, a: Action, w: Setting, n: nat) returns (moves: seq<Move>)
    requires LatestMapped(t) && ActsOn(t, a) && Quiet(t, s0.room)
    requires Echoes(t, s0.room, a, w) && (w.walking ==> t.emails <= s0.ahead)
    ensures MovesPossible(w, moves) && n <= EffectiveMoves(t, ActLive(s0, a), moves)
  {
    var steps := EchoHasNoEnd(t, s0.room, a, w, n);
    hide Quiet, Echoes;
    assert PossibleRun(w, steps) && WalksTo(s0.ahead, steps) by { StayingWalksTo(t, w, s0.ahead, steps); }
    moves := RunIsMoves(t, w, ActLive(s0, a), steps);
  }

  lemma StayingWalksTo(t: Thread, w: Setting, ahead: set<Email>, steps: seq<Step>)
    requires Feasible(t, w, steps) && (w.walking ==> t.emails <= ahead)
    ensures PossibleRun(w, steps) && WalksTo(ahead, steps)
  {
    forall step | step in steps && step.Fetch? && step.task.Walk? ensures step.emails <= ahead {
      assert Possible(w, step);
    }
  }

  // ----- An echo in which nothing fails ------------------------------------------------------------

  /** A run of working deliveries from `s` to `s'`. */
  ghost predicate Carries(t: Thread, w: Setting, s: Live, moves: seq<Move>, s': Live) {
    Deliveries(w, moves) && Moves(t, s, moves) == s'
  }

  lemma CarriesOn(t: Thread, w: Setting, s: Live, xs: seq<Move>, s1: Live, ys: seq<Move>, s2: Live)
    requires Carries(t, w, s, xs, s1) && Carries(t, w, s1, ys, s2)
    ensures Carries(t, w, s, xs + ys, s2)
  {
    MovesConcat(t, s, xs, ys);
  }

  function PollMoves(e: Email): seq<Move> {
    [Ask, FetchPage] + MirrorMoves(Poll, e) + [SaveToken]
  }

  /** A whole poll of the one mail that is reported. */
  lemma PollCarries(t: Thread, w: Setting, s: Live, e: Email)
    requires BetweenPolls(s) && s.reported == {e}
    ensures
      var room := AfterPoll(s.room, Poll, e);
      Carries(t, w, s, PollMoves(e), s.(room := room, reported := {}, news := s.news || room.marked != s.room.marked))
  {
    var s1 := Go(t, s, Ask);
    var s2 := Go(t, s1, FetchPage);
    assert s2.room == s.room.(poll := Reader(map[e := e in s.room.seen], Idle)) && s2.page == Paging({});
    assert map[e := e in s.room.seen] - {e} == map[];
    var room := Finished(TakeUp(s2.room, Poll, e, e in s2.room.synced), Poll);
    assert room == AfterPoll(s.room, Poll, e);
    var s3 := With(s2, room);
    assert Go(t, s3, SaveToken) == s.(room := room, reported := {}, news := s.news || room.marked != s.room.marked);
    assert Deliveries(w, [Ask, FetchPage]) && Deliveries(w, [SaveToken]);
    MirrorMovesDeliver(w, Poll, e);
    MirrorWhole(t, s2, Poll, e);
    assert [Ask, FetchPage] == [Ask] + [FetchPage];
    hide Go, Deliveries, AfterPoll, Finished, TakeUp, With;
    MovesOne(t, s, Ask);
    MovesOne(t, s1, FetchPage);
    MovesOne(t, s3, SaveToken);
    MovesConcat(t, s, [Ask], [FetchPage]);
    CarriesOn(t, w, s, [Ask, FetchPage], s2, MirrorMoves(Poll, e), s3);
    CarriesOn(t, w, s, [Ask, FetchPage] + MirrorMoves(Poll, e), s3, [SaveToken], Go(t, s3, SaveToken));
  }

  lemma HandlerCarries(t: Thread, w: Setting, s: Live, step: Step)
    requires Delivers(Handler(step)) && MovePossible(w, Handler(step))
    ensures Carries(t, w, s, [Handler(step)], Handle(t, s, step))
  {
    MovesOne(t, s, Handler(step));
  }

  /** The latest mail became unread under way of a receipt, and the mark is still to be handled. */
  predicate Rings(t: Thread, s: Live) {
    && t.latest.Some? && t.latest.value !in s.room.seen && t.latest.value !in s.room.synced
    && t.latest.value in s.room.receipts && s.room.marked && !s.room.gated
    && BetweenPolls(s) && s.reported == {} && s.news && s.room.flagRead.None? && s.room.syncer.SyncIdle?
  }

  /** The mark is read, the receipt arrives, and its poll clears the flag. */
  lemma ReceiptArrives(t: Thread, w: Setting, s: Live) returns (moves: seq<Move>, s': Live)
    requires Rings(t, s)
    ensures Carries(t, w, s, moves, s') && EffectiveMoves(t, s, moves) >= 1
    ensures
      var l := t.latest.value;
      s' == s.(room := s.room.(seen := s.room.seen + {l}, synced := s.room.synced + {l},
                              marked := false, flagRead := Some(true)))
  {
    var l := t.latest.value;
    var s1 := Handle(t, s, ReadFlag);
    var s2 := Handle(t, s1, DeliverReceipt(l, true));
    assert s2.reported == {l};
    assert s2.room == s.room.(seen := s.room.seen + {l}, receipts := s.room.receipts - {l}, flagRead := Some(true));
    s' := s.(room := s.room.(seen := s.room.seen + {l}, synced := s.room.synced + {l},
                            marked := false, flagRead := Some(true)));
    assert s.room.receipts - {l} + {l} == s.room.receipts;
    assert AfterPoll(s2.room, Poll, l) == s'.room;
    assert s' == s2.(room := s'.room, reported := {}, news := true);
    assert l in s'.room.seen && l !in s.room.seen;
    hide Handle, AfterPoll;
    HandlerCarries(t, w, s, ReadFlag);
    HandlerCarries(t, w, s1, DeliverReceipt(l, true));
    PollCarries(t, w, s2, l);
    hide Carries;
    CarriesOn(t, w, s, [Handler(ReadFlag)], s1, [Handler(DeliverReceipt(l, true))], s2);
    moves := [Handler(ReadFlag)] + [Handler(DeliverReceipt(l, true))];
    CarriesOn(t, w, s, moves, s2, PollMoves(l), s');
    moves := moves + PollMoves(l);
    assert Moves(t, s, moves) == s' by { assert Carries(t, w, s, moves, s'); CarriedTo(t, w, s, moves, s'); }
    ChangeIsEffectiveMove(t, s, moves);
  }

  lemma CarriedTo(t: Thread, w: Setting, s: Live, moves: seq<Move>, s': Live)
    requires Carries(t, w, s, moves, s')
    ensures Moves(t, s, moves) == s' && Deliveries(w, moves)
  {
  }

  /** The mark read before takes the mail away again, and the next poll sets it anew. */
  lemma MarkReturns(t: Thread, w: Setting, s: Live) returns (moves: seq<Move>, s': Live)
    requires t.latest.Some? && t.latest.value in s.room.seen && t.latest.value in s.room.synced
    requires t.latest.value in s.room.receipts && !s.room.marked && !s.room.gated
    requires BetweenPolls(s) && s.reported == {} && s.news && s.room.flagRead == Some(true) && s.room.syncer.SyncIdle?
    ensures Carries(t, w, s, moves, s') && Rings(t, s')
  {
    var l := t.latest.value;
    var s1 := Handle(t, s, ApplyFlag);
    var s2 := Handle(t, s1, SaveFlagGate);
    var s3 := Handle(t, s2, ReadFlag);
    assert s1.reported == {l};
    assert s3.reported == {l} && s3.room == s.room.(seen := s.room.seen - {l}, gated := true, flagRead := Some(false));
    var s4 := s3.(room := s3.room.(synced := s.room.synced - {l}, marked := true), reported := {}, news := true);
    assert AfterPoll(s3.room, Poll, l) == s4.room;
    s' := Handle(t, s4, ApplyFlag);
    assert Rings(t, s');
    HandlerCarries(t, w, s, ApplyFlag);
    HandlerCarries(t, w, s1, SaveFlagGate);
    HandlerCarries(t, w, s2, ReadFlag);
    PollCarries(t, w, s3, l);
    HandlerCarries(t, w, s4, ApplyFlag);
    hide Handle, AfterPoll, Carries, Rings;
    CarriesOn(t, w, s, [Handler(ApplyFlag)], s1, [Handler(SaveFlagGate)], s2);
    moves := [Handler(ApplyFlag)] + [Handler(SaveFlagGate)];
    CarriesOn(t, w, s, moves, s2, [Handler(ReadFlag)], s3);
    moves := moves + [Handler(ReadFlag)];
    CarriesOn(t, w, s, moves, s3, PollMoves(l), s4);
    CarriesOn(t, w, s, moves + PollMoves(l), s4, [Handler(ApplyFlag)], s');
    moves := moves + PollMoves(l) + [Handler(ApplyFlag)];
  }

  lemma {:induction false} RingsOn(t: Thread, w: Setting, s: Live, n: nat) returns (moves: seq<Move>)
    requires Rings(t, s)
    ensures Deliveries(w, moves) && n <= EffectiveMoves(t, s, moves)
    decreases n
  {
    if n == 0 {
      moves := [];
    } else {
      var xs, s1 := ReceiptArrives(t, w, s);
      var ys, s2 := MarkReturns(t, w, s1);
      var rest := RingsOn(t, w, s2, n - 1);
      hide Rings, EffectiveMoves;
      CarriesOn(t, w, s, xs, s1, ys, s2);
      CarriedTo(t, w, s, xs + ys, s2);
      CarriedTo(t, w, s, xs, s1);
      EffectiveMovesConcat(t, s, xs, ys);
      EffectiveMovesConcat(t, s, xs + ys, rest);
      DeliveriesConcat(w, xs + ys, rest);
      moves := xs + ys + rest;
    }
  }

  /**
   * The user marks the latest mail of an unmarked room unread in the mail client
   * while its receipt is still under way: working deliveries alone, of nothing but
   * what changed, then move the mail, the flag and both gates without end.
   */
  lemma UnreadLatestEchoes(t: Thread, s0: Live, w: Setting, n: nat) returns (moves: seq<Move>)
    requires LatestMapped(t) && Quiet(t, s0.room) && Rested(s0) && s0.reported == {}
    requires !s0.room.marked && t.latest.value in s0.room.receipts
    ensures Deliveries(w, moves) && n <= EffectiveMoves(t, ActLive(s0, MailUnread(t.latest.value)), moves)
  {
    var l := t.latest.value;
    var s := ActLive(s0, MailUnread(l));
    assert l in s0.room.seen;
    assert s.room == s0.room.(seen := s0.room.seen - {l}) && s.reported == {l};
    var s1 := s.(room := AfterPoll(s.room, Poll, l), reported := {}, news := true);
    assert Rings(t, s1);
    PollCarries(t, w, s, l);
    hide AfterPoll, EffectiveMoves, Rings, Quiet;
    CarriedTo(t, w, s, PollMoves(l), s1);
    var rest := RingsOn(t, w, s1, n);
    EffectiveMovesConcat(t, s, PollMoves(l), rest);
    DeliveriesConcat(w, PollMoves(l), rest);
    moves := PollMoves(l) + rest;
  }
}
