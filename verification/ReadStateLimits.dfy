/**
 * Exactly when the read state of a room ends where the user's action leads: for
 * every other case, a run of the bridge that settles the room somewhere else.
 */
module ReadStateLimits {
  import opened Wrappers
  import opened ReadState

  ghost predicate SettledInTarget(t: Thread, s0: Room, a: Action, s: Room)
    requires LatestMapped(t)
  {
    Settled(s) ==> s.seen == TargetSeen(t, s0, a) && s.marked == TargetMarked(s0, a)
  }

  ghost predicate AlwaysSettlesInTarget(t: Thread, s0: Room, a: Action, w: Setting)
    requires LatestMapped(t)
  {
    forall steps | PossibleRun(w, steps) :: SettledInTarget(t, s0, a, Run(t, Act(s0, a), steps))
  }

  /** The walk comes to nothing but these mails. */
  ghost predicate WalksTo(mails: set<Email>, steps: seq<Step>) {
    forall step | step in steps && step.Fetch? && step.task.Walk? :: step.emails <= mails
  }

  /** A run of this setting in which the walk comes to no mail outside the room. */
  ghost predicate Feasible(t: Thread, w: Setting, steps: seq<Step>) {
    PossibleRun(w, steps) && WalksTo(t.emails, steps)
  }

  lemma FeasibleConcat(t: Thread, w: Setting, s: Room, xs: seq<Step>, ys: seq<Step>)
    requires Feasible(t, w, xs) && Feasible(t, w, ys)
    ensures Run(t, s, xs + ys) == Run(t, Run(t, s, xs), ys) && Feasible(t, w, xs + ys)
  {
    RunConcat(t, s, xs, ys);
  }

  /** A run of this setting that settles the room elsewhere. */
  ghost predicate Diverts(t: Thread, s0: Room, a: Action, w: Setting, steps: seq<Step>)
    requires LatestMapped(t)
  {
    Feasible(t, w, steps) && !SettledInTarget(t, s0, a, Run(t, Act(s0, a), steps))
  }

  function Other(k: Task): Task {
    if k.Poll? then Walk else Poll
  }

  lemma PollIsPossible(t: Thread, w: Setting, k: Task, e: Email)
    requires k.Poll? || (w.walking && e in t.emails)
    ensures Feasible(t, w, PollOnce(k, e)) && Feasible(t, w, SyncOnce())
  {
  }

  /** The room as a settling poll, response and poll by task `k` leave it. */
  function SettledBy(s: Room, k: Task, e: Email, latest: Email): Room {
    AfterPoll(AfterSync(AfterPoll(s, k, e), latest), k, latest)
  }

  /** The runs below, piece by piece: a poll, a response and a poll. */
  lemma PollSyncPoll(t: Thread, w: Setting, s: Room, k: Task, e: Email, l: Email) returns (steps: seq<Step>)
    requires LatestMapped(t) && l == t.latest.value && (k.Poll? || (w.walking && e in t.emails))
    requires ReaderOf(s, k).at.Idle? && s.syncer.SyncIdle?
    ensures Feasible(t, w, steps)
    ensures Run(t, s, steps) == SettledBy(s, k, e, l)
  {
    var s1 := AfterPoll(s, k, e);
    var s2 := AfterSync(s1, l);
    assert s1.syncer.SyncIdle? && ReaderOf(s2, k).at.Idle?;
    PollIsPossible(t, w, k, e);
    PollIsPossible(t, w, k, l);
    hide Run, Feasible, AfterPoll, AfterSync;
    RunPollOnce(t, s, k, e);
    RunSyncOnce(t, s1);
    RunPollOnce(t, s2, k, l);
    FeasibleConcat(t, w, s, PollOnce(k, e), SyncOnce());
    FeasibleConcat(t, w, s, PollOnce(k, e) + SyncOnce(), PollOnce(k, l));
    steps := PollOnce(k, e) + SyncOnce() + PollOnce(k, l);
  }

  // ----- One reader settles the room, the other keeps what it holds ---------------------------

  /** The mail whose gate the action may leave behind. */
  function MailOf(a: Action, latest: Email): Email {
    if a.RoomMarkUnread? then latest else a.email
  }

  /** The user's own receipt has arrived. */
  function Arrived(s: Room, a: Action): Room {
    if a.RoomRead? then s.(seen := s.seen + {a.email}, receipts := s.receipts - {a.email}) else s
  }

  /** In the target, and the receipts that were under way still are. */
  ghost predicate AtTarget(t: Thread, s0: Room, a: Action, s: Room)
    requires LatestMapped(t)
  {
    && s.seen == s.synced == TargetSeen(t, s0, a)
    && s.marked == s.gated == TargetMarked(s0, a)
    && s0.receipts - s.seen <= s.receipts <= s0.receipts + s.seen
    && Undisturbed(s)
  }

  /** The readers have no part in where a settling run ends. */
  lemma ReadersStandApart(s: Room, k: Task, r: Reader, e: Email, latest: Email)
    ensures
      var s' := SettledBy(WithReader(s, Other(k), r), k, e, latest);
      && s' == WithReader(WithReader(SettledBy(s, Poll, e, latest), k, Reader(map[], Idle)), Other(k), r)
  {
  }

  lemma SettlingEndsAtTarget(t: Thread, s0: Room, a: Action, k: Task, r: Reader)
    requires LatestMapped(t) && Quiet(t, s0) && r.at.Idle?
    ensures
      var l := t.latest.value;
      var s := Arrived(WithReader(Act(s0, a), Other(k), r), a);
      var s' := SettledBy(s, k, MailOf(a, l), l);
      AtTarget(t, s0, a, s') && ReaderOf(s', Other(k)) == r
  {
    var l := t.latest.value;
    assert Arrived(WithReader(Act(s0, a), Other(k), r), a) == WithReader(Arrived(Act(s0, a), a), Other(k), r);
    ReadersStandApart(Arrived(Act(s0, a), a), k, r, MailOf(a, l), l);
    PollerEndsAtTarget(t, s0, a);
    hide SettledBy, Act, Quiet;
  }

  lemma PollerEndsAtTarget(t: Thread, s0: Room, a: Action)
    requires LatestMapped(t) && Quiet(t, s0)
    ensures
      var l := t.latest.value;
      AtTarget(t, s0, a, SettledBy(Arrived(Act(s0, a), a), Poll, MailOf(a, l), l))
  {
  }

  lemma SettlingRun(t: Thread, s0: Room, a: Action, w: Setting, k: Task, r: Reader) returns (steps: seq<Step>)
    requires LatestMapped(t) && Quiet(t, s0) && r.at.Idle? && (k.Poll? || (w.walking && ActsOn(t, a)))
    ensures Feasible(t, w, steps)
    ensures
      var s' := Run(t, WithReader(Act(s0, a), Other(k), r), steps);
      AtTarget(t, s0, a, s') && ReaderOf(s', Other(k)) == r
  {
    var s := WithReader(Act(s0, a), Other(k), r);
    var s1 := Arrived(s, a);
    var l := t.latest.value;
    var first := if a.RoomRead? then [DeliverReceipt(a.email, true)] else [];
    assert Run(t, s, first) == s1 by { if a.RoomRead? { RunOne(t, s, first[0]); } }
    assert Feasible(t, w, first);
    var rest := PollSyncPoll(t, w, s1, k, MailOf(a, l), l);
    SettlingEndsAtTarget(t, s0, a, k, r);
    hide Run;
    FeasibleConcat(t, w, s, first, rest);
    steps := first + rest;
  }

  // ----- Stale receipts -------------------------------------------------------------------------

  /** A stale receipt is delivered, mirrored and synced: the mail is seen again. */
  lemma StaleDelivery(t: Thread, w: Setting, s: Room, r: Email) returns (steps: seq<Step>)
    requires LatestMapped(t) && Rests(s) && r in s.receipts && r !in s.seen
    ensures Feasible(t, w, steps)
    ensures
      var s' := Run(t, s, steps);
      && Rests(s') && s'.seen == s.seen + {r} && s'.seen + s'.receipts == s.seen + s.receipts
      && s'.receipts - s'.seen == s.receipts - s.seen - {r}
  {
    var s1 := Next(t, s, DeliverReceipt(r, true));
    var s2 := AfterPoll(s1, Poll, r);
    var s3 := AfterSync(s2, t.latest.value);
    assert s3.receipts - s3.seen == s.receipts - s.seen - {r} && s3.seen + s3.receipts == s.seen + s.receipts;
    RunOne(t, s, DeliverReceipt(r, true));
    RunPollOnce(t, s1, Poll, r);
    RunSyncOnce(t, s2);
    PollIsPossible(t, w, Poll, r);
    assert Feasible(t, w, [DeliverReceipt(r, true)]);
    hide Run, Next, Feasible, AfterPoll, AfterSync;
    FeasibleConcat(t, w, s, [DeliverReceipt(r, true)], PollOnce(Poll, r));
    FeasibleConcat(t, w, s, [DeliverReceipt(r, true)] + PollOnce(Poll, r), SyncOnce());
    steps := [DeliverReceipt(r, true)] + PollOnce(Poll, r) + SyncOnce();
  }

  /** All receipts under way can arrive: a run delivers and mirrors each, and settles with their mails seen. */
  lemma {:induction false} StaleDeliveries(t: Thread, w: Setting, s: Room) returns (steps: seq<Step>)
    requires LatestMapped(t) && Rests(s)
    ensures Feasible(t, w, steps)
    ensures
      var s' := Run(t, s, steps);
      Settled(s') && s'.seen == s.seen + s.receipts
    decreases |s.receipts - s.seen|
  {
    hide Feasible;
    if s.receipts <= s.seen {
      steps := [];
      assert Feasible(t, w, []) by { EmptyRunIsPossible(t, w); }
      assert s.seen + s.receipts == s.seen;
    } else {
      var r :| r in s.receipts && r !in s.seen;
      var first := StaleDelivery(t, w, s, r);
      var s1 := Run(t, s, first);
      hide Run;
      assert r in s.receipts - s.seen;
      SmallerWithout(s.receipts - s.seen, r);
      var rest := StaleDeliveries(t, w, s1);
      FeasibleConcat(t, w, s, first, rest);
      steps := first + rest;
    }
  }

  lemma EmptyRunIsPossible(t: Thread, w: Setting)
    ensures Feasible(t, w, [])
  {
  }

  lemma SmallerWithout(x: set<Email>, r: Email)
    requires r in x
    ensures |x - {r}| < |x|
  {
  }

  lemma StaleReceiptDiverts(t: Thread, s0: Room, a: Action, w: Setting) returns (steps: seq<Step>)
    requires LatestMapped(t) && Quiet(t, s0) && !NoneStale(t, s0, a)
    ensures Diverts(t, s0, a, w, steps)
  {
    var start, to := Act(s0, a), TargetSeen(t, s0, a);
    var first := SettlingRun(t, s0, a, w, Poll, start.walk);
    assert WithReader(start, Walk, start.walk) == start;
    var s1 := Run(t, start, first);
    assert Rests(s1);
    hide Run, Feasible, Quiet;
    var rest := StaleDeliveries(t, w, s1);
    FeasibleConcat(t, w, start, first, rest);
    steps := first + rest;
    var r :| r in s0.receipts && r !in to;
    assert r in s0.receipts - s1.seen;
    assert r in Run(t, start, steps).seen;
  }

  // ----- Stale fetches ----------------------------------------------------------------------------

  /** A mail fetched as seen before it became unseen is mirrored afterwards: its receipt undoes the action. */
  lemma StaleSeenDiverts(t: Thread, w: Setting, s: Room, o: Task, x: Email) returns (steps: seq<Step>)
    requires LatestMapped(t) && Settled(s) && (o.Poll? || w.walking)
    requires x in ReaderOf(s, o).fetched && ReaderOf(s, o).fetched[x] && x !in s.seen
    ensures Feasible(t, w, steps)
    ensures var s' := Run(t, s, steps); Settled(s') && x in s'.seen
  {
    var mirrored := Finished(TakeUp(s, o, x, false), o);
    var delivered := Next(t, mirrored, DeliverReceipt(x, true));
    var tail := [Mirror(o, x), ClearFlag(o), SaveGate(o), DropGate(o), DeliverReceipt(x, true)];
    assert Run(t, s, tail) == delivered by {
      RunFive(t, s, Mirror(o, x), ClearFlag(o), SaveGate(o), DropGate(o), DeliverReceipt(x, true));
      NextIsTakeUp(t, s, Mirror(o, x));
      RunToEnd(t, TakeUp(s, o, x, false), o);
    }
    assert delivered.syncer.SyncIdle? && !delivered.marked;
    var end := AfterSync(delivered, t.latest.value);
    assert Settled(end) && x in end.seen;
    assert Feasible(t, w, tail);
    PollIsPossible(t, w, Poll, x);
    hide Run, Next, Feasible, AfterSync, Settled;
    RunSyncOnce(t, delivered);
    FeasibleConcat(t, w, s, tail, SyncOnce());
    steps := tail + SyncOnce();
  }

  /** The unread flag falls on a room whose mails are all mirrored, and the bridge stops before the gate is dropped. */
  lemma FlagOfLostHandlerStays(t: Thread, s: Room, s1: Room)
    requires LatestMapped(t) && Settled(s) && !s.marked
    requires s1 == s.(receipts := s.receipts - {t.latest.value}, marked := true,
                      poll := Reader(map[], Idle), walk := Reader(map[], Idle), flagRead := None)
    ensures
      var l := t.latest.value;
      var end := SettledBy(s1, Poll, l, l);
      Settled(end) && end.marked
  {
  }

  /** A mail fetched as unseen before it became seen is mirrored afterwards: the flag it sets undoes the action. */
  lemma StaleUnseenDiverts(t: Thread, w: Setting, s: Room, o: Task, x: Email) returns (steps: seq<Step>)
    requires LatestMapped(t) && Settled(s) && !s.marked && (o.Poll? || w.walking)
    requires x in ReaderOf(s, o).fetched && !ReaderOf(s, o).fetched[x] && x in s.seen
    ensures Feasible(t, w, steps)
    ensures var s' := Run(t, s, steps); Settled(s') && s'.marked
  {
    var l := t.latest.value;
    var s1 := s.(receipts := s.receipts - {l}, marked := true,
                 poll := Reader(map[], Idle), walk := Reader(map[], Idle), flagRead := None);
    var head := [DeliverReceipt(l, true), Mirror(o, x), Crash];
    assert Run(t, s, head) == s1 by {
      RunThree(t, s, DeliverReceipt(l, true), Mirror(o, x), Crash);
      assert Next(t, s, DeliverReceipt(l, true)) == s.(receipts := s.receipts - {l}) by {
        if l in s.receipts { assert s.seen + {l} == s.seen; } else { assert s.receipts - {l} == s.receipts; }
      }
    }
    assert Feasible(t, w, head);
    FlagOfLostHandlerStays(t, s, s1);
    hide Run, Feasible, AfterPoll, AfterSync;
    var rest := PollSyncPoll(t, w, s1, Poll, l, l);
    FeasibleConcat(t, w, s, head, rest);
    steps := head + rest;
  }

  /** Reader `o` still holds what it fetched of `x` while the other one settles the room. */
  lemma StaleEntryDiverts(t: Thread, s0: Room, a: Action, w: Setting, first: seq<Step>, o: Task, r: Reader, x: Email)
    returns (steps: seq<Step>)
    requires LatestMapped(t) && ActsOn(t, a) && Quiet(t, s0) && NoneStale(t, s0, a) && w.walking
    requires Feasible(t, w, first) && Run(t, Act(s0, a), first) == WithReader(Act(s0, a), o, r)
    requires r.at.Idle? && x in r.fetched && r.fetched[x] != (x in TargetSeen(t, s0, a))
    requires x in TargetSeen(t, s0, a) ==> !TargetMarked(s0, a)
    ensures Diverts(t, s0, a, w, steps)
  {
    var start, to := Act(s0, a), TargetSeen(t, s0, a);
    var s1 := WithReader(start, o, r);
    var settling := SettlingRun(t, s0, a, w, Other(o), r);
    var s2 := Run(t, s1, settling);
    assert Settled(s2) && s2.seen == to && s2.marked == TargetMarked(s0, a) && ReaderOf(s2, o) == r;
    hide Run, Feasible, Quiet, Settled, AtTarget;
    var rest: seq<Step>;
    if x in to {
      rest := StaleUnseenDiverts(t, w, s2, o, x);
    } else {
      rest := StaleSeenDiverts(t, w, s2, o, x);
    }
    FeasibleConcat(t, w, start, first, settling);
    FeasibleConcat(t, w, start, first + settling, rest);
    steps := first + settling + rest;
    assert !SettledInTarget(t, s0, a, Run(t, start, steps));
  }

  lemma FetchedEntryDiverts(t: Thread, s0: Room, a: Action, w: Setting) returns (steps: seq<Step>)
    requires LatestMapped(t) && ActsOn(t, a) && Quiet(t, s0) && NoneStale(t, s0, a)
    requires w.walking && !FetchedUnaffected(t, s0, a)
    ensures Diverts(t, s0, a, w, steps)
  {
    var x :| (x in s0.poll.fetched || x in s0.walk.fetched) && (x in s0.seen) != (x in TargetSeen(t, s0, a));
    var o := if x in s0.poll.fetched then Poll else Walk;
    assert Run(t, Act(s0, a), []) == WithReader(Act(s0, a), o, ReaderOf(s0, o));
    EmptyRunIsPossible(t, w);
    hide Run, Feasible;
    steps := StaleEntryDiverts(t, s0, a, w, [], o, ReaderOf(s0, o), x);
  }

  /** What the walk fetches right after an action that is not complete at once goes stale. */
  lemma LateChangeDiverts(t: Thread, s0: Room, a: Action, w: Setting) returns (steps: seq<Step>)
    requires LatestMapped(t) && ActsOn(t, a) && Quiet(t, s0) && NoneStale(t, s0, a)
    requires w.walking && !ActsAtOnce(t, s0, a)
    ensures Diverts(t, s0, a, w, steps)
  {
    var start, to := Act(s0, a), TargetSeen(t, s0, a);
    var x :| (x in start.seen) != (x in to);
    var r := Reader(map[x := x in start.seen], Idle);
    RunOne(t, start, Fetch(Walk, {x}));
    assert Next(t, start, Fetch(Walk, {x})) == WithReader(start, Walk, r);
    assert Feasible(t, w, [Fetch(Walk, {x})]);
    hide Run, Feasible;
    steps := StaleEntryDiverts(t, s0, a, w, [Fetch(Walk, {x})], Walk, r, x);
  }

  // ----- Failing calls --------------------------------------------------------------------------

  /** The user's receipt is dropped: the mail stays unread. */
  lemma LostReceiptDiverts(t: Thread, s0: Room, a: Action, w: Setting) returns (steps: seq<Step>)
    requires LatestMapped(t) && Quiet(t, s0) && w.receiptsFail && a.RoomRead? && a.email !in s0.seen
    ensures Diverts(t, s0, a, w, steps)
  {
    var start, fails := Act(s0, a), ReceiptFails(a.email, true);
    var s1 := Next(t, start, fails);
    assert s1.receipts == s0.receipts - {a.email};
    var end := AfterSync(s1, t.latest.value);
    assert Settled(end) && a.email !in end.seen;
    RunOne(t, start, fails);
    assert Feasible(t, w, [fails]);
    PollIsPossible(t, w, Poll, a.email);
    hide Run, Next, Feasible, AfterSync;
    RunSyncOnce(t, s1);
    FeasibleConcat(t, w, start, [fails], SyncOnce());
    steps := [fails] + SyncOnce();
  }

  /** The flag is not cleared, yet the gate is stored: the room stays marked unread. */
  lemma LostClearDiverts(t: Thread, s0: Room, a: Action, w: Setting) returns (steps: seq<Step>)
    requires LatestMapped(t) && Quiet(t, s0) && w.clearsFail && a.MailRead? && a.email !in s0.seen && s0.marked
    ensures Diverts(t, s0, a, w, steps)
  {
    var start, e := Act(s0, a), a.email;
    var s1 := start.(poll := Reader(map[e := true], Idle));
    assert map[e := true] - {e} == map[];
    var s2 := start.(poll := Reader(map[], ClearFlagNext(e)), receipts := s0.receipts + {e});
    var s3 := s2.(poll := Reader(map[], SaveGateNext(e)));
    var end := s3.(poll := Reader(map[], Idle), synced := s0.synced + {e});
    steps := [Fetch(Poll, {e}), Mirror(Poll, e), ClearFlagFails(Poll), SaveGate(Poll), ReadFlag];
    RunFive(t, start, Fetch(Poll, {e}), Mirror(Poll, e), ClearFlagFails(Poll), SaveGate(Poll), ReadFlag);
    assert Next(t, start, Fetch(Poll, {e})) == s1 && Next(t, s1, Mirror(Poll, e)) == s2;
    assert Next(t, s2, ClearFlagFails(Poll)) == s3 && Next(t, s3, SaveGate(Poll)) == end;
    assert Settled(Next(t, end, ReadFlag)) && Next(t, end, ReadFlag).marked;
  }

  /** A mail is mirrored as read once more because its gate could not be read. */
  function MirroredAgain(s: Room, e: Email): Room {
    s.(poll := Reader(map[], Idle), receipts := s.receipts + {e}, marked := false, synced := s.synced + {e})
  }

  lemma MisreadRun(t: Thread, s: Room, e: Email) returns (steps: seq<Step>)
    requires s.poll.at.Idle? && e in s.seen
    ensures Run(t, s, steps) == MirroredAgain(s, e)
    ensures forall w: Setting | w.gateReadsFail :: Feasible(t, w, steps)
  {
    var s1 := s.(poll := Reader(map[e := true], Idle));
    assert map[e := true] - {e} == map[];
    steps := [Fetch(Poll, {e}), MisreadGate(Poll, e), ClearFlag(Poll), SaveGate(Poll), DropGate(Poll)];
    RunFive(t, s, Fetch(Poll, {e}), MisreadGate(Poll, e), ClearFlag(Poll), SaveGate(Poll), DropGate(Poll));
    assert Next(t, s, Fetch(Poll, {e})) == s1;
    RunToEnd(t, TakeUp(s1, Poll, e, false), Poll);
  }

  /** The flag that marks the room unread is cleared on behalf of a mail that was mirrored long before. */
  lemma MisreadGateDiverts(t: Thread, s0: Room, a: Action, w: Setting, x: Email) returns (steps: seq<Step>)
    requires LatestMapped(t) && Quiet(t, s0) && NoneStale(t, s0, a) && w.gateReadsFail
    requires TargetMarked(s0, a) && x in Act(s0, a).seen
    ensures Diverts(t, s0, a, w, steps)
  {
    var start, l := Act(s0, a), t.latest.value;
    var e := MailOf(a, l);
    var s1 := AfterPoll(start, Poll, e);
    var s2 := MirroredAgain(s1, x);
    var end := AfterSync(s2, l);
    assert Settled(end) && !end.marked;
    PollIsPossible(t, w, Poll, e);
    hide Run, Feasible, AfterPoll, AfterSync;
    RunPollOnce(t, start, Poll, e);
    var misread := MisreadRun(t, s1, x);
    RunSyncOnce(t, s2);
    FeasibleConcat(t, w, start, PollOnce(Poll, e), misread);
    FeasibleConcat(t, w, start, PollOnce(Poll, e) + misread, SyncOnce());
    steps := PollOnce(Poll, e) + misread + SyncOnce();
  }

  /** The only mail became unseen, but the poller still holds it as seen and cannot read its gate. */
  lemma MisreadEntryDiverts(t: Thread, s0: Room, a: Action, w: Setting, x: Email) returns (steps: seq<Step>)
    requires LatestMapped(t) && Quiet(t, s0) && NoneStale(t, s0, a) && w.gateReadsFail
    requires a == MailUnread(x) && x in s0.poll.fetched && s0.poll.fetched[x]
    ensures Diverts(t, s0, a, w, steps)
  {
    var start := Act(s0, a);
    var s1 := Finished(TakeUp(start, Poll, x, false), Poll);
    var s2 := Next(t, s1, DeliverReceipt(x, true));
    var end := AfterSync(s2, t.latest.value);
    assert Settled(end) && x in end.seen;
    var head := [MisreadGate(Poll, x), ClearFlag(Poll), SaveGate(Poll), DropGate(Poll), DeliverReceipt(x, true)];
    assert Run(t, start, head) == s2 by {
      RunFive(t, start, MisreadGate(Poll, x), ClearFlag(Poll), SaveGate(Poll), DropGate(Poll), DeliverReceipt(x, true));
      NextIsTakeUp(t, start, MisreadGate(Poll, x));
      RunToEnd(t, TakeUp(start, Poll, x, false), Poll);
    }
    assert Feasible(t, w, head);
    PollIsPossible(t, w, Poll, x);
    hide Run, Next, Feasible, AfterSync;
    RunSyncOnce(t, s2);
    FeasibleConcat(t, w, start, head, SyncOnce());
    steps := head + SyncOnce();
  }

  lemma GateReadsDivert(t: Thread, s0: Room, a: Action, w: Setting) returns (steps: seq<Step>)
    requires LatestMapped(t) && Quiet(t, s0) && NoneStale(t, s0, a) && w.gateReadsFail && GateReadsMatter(s0, a)
    ensures Diverts(t, s0, a, w, steps)
  {
    if x :| x in Act(s0, a).seen {
      steps := MisreadGateDiverts(t, s0, a, w, x);
    } else {
      var x :| x in s0.poll.fetched && s0.poll.fetched[x];
      assert x in s0.seen && x !in Act(s0, a).seen;
      steps := MisreadEntryDiverts(t, s0, a, w, x);
    }
  }

  /** The room as it is when the flag of a marked room was handled although its gate is set. */
  function Reapplied(s0: Room, a: Action, latest: Email): Room {
    var s := Arrived(Act(s0, a), a);
    s.(receipts := s.receipts - {latest}, seen := s.seen - {latest}, flagRead := None)
  }

  lemma ReappliedEnd(t: Thread, s0: Room, a: Action)
    requires LatestMapped(t) && Quiet(t, s0) && NoneStale(t, s0, a) && FlagReadsMatter(t, s0, a)
    ensures
      var l := t.latest.value;
      var end := SettledBy(AfterPoll(Reapplied(s0, a, l), Poll, l), Poll, MailOf(a, l), l);
      Settled(end) && l !in end.seen
  {
  }

  lemma ReappliedRun(t: Thread, s0: Room, a: Action, w: Setting) returns (steps: seq<Step>)
    requires LatestMapped(t) && Quiet(t, s0) && NoneStale(t, s0, a) && FlagReadsMatter(t, s0, a) && w.flagReadsFail
    ensures Feasible(t, w, steps) && Run(t, Act(s0, a), steps) == Reapplied(s0, a, t.latest.value)
  {
    var start, l := Act(s0, a), t.latest.value;
    var own := if a.RoomRead? then DeliverReceipt(a.email, true) else ReadFlag;
    var flagged := Arrived(start, a).(flagRead := Some(true));
    assert Next(t, start, own) == flagged;
    assert l in flagged.seen && flagged.gated && flagged.syncer.SyncIdle? && flagged.poll.at.Idle?;
    steps := [own, DeliverReceipt(l, true), MisreadFlagGate, SaveFlagGate, GiveUp(Poll)];
    assert Feasible(t, w, steps);
    hide Quiet, NoneStale, FlagReadsMatter, Act, Run, Feasible;
    RunFive(t, start, own, DeliverReceipt(l, true), MisreadFlagGate, SaveFlagGate, GiveUp(Poll));
    MarkAppliedAgain(t, flagged);
  }

  lemma MarkAppliedAgain(t: Thread, s: Room)
    requires LatestMapped(t) && t.latest.value in s.seen && s.gated
    requires s.syncer.SyncIdle? && s.poll.at.Idle? && s.flagRead == Some(true)
    ensures
      var l := t.latest.value;
      Next(t, Next(t, Next(t, Next(t, s, DeliverReceipt(l, true)), MisreadFlagGate), SaveFlagGate), GiveUp(Poll))
      == s.(receipts := s.receipts - {l}, seen := s.seen - {l}, flagRead := None)
  {
    var l := t.latest.value;
    assert s.seen + {l} == s.seen;
    if l !in s.receipts { assert s.receipts - {l} == s.receipts; }
  }

  /** The mark of a marked room is applied once more, to a mail that was read meanwhile. */
  lemma FlagReadsDivert(t: Thread, s0: Room, a: Action, w: Setting) returns (steps: seq<Step>)
    requires LatestMapped(t) && Quiet(t, s0) && NoneStale(t, s0, a) && FlagReadsMatter(t, s0, a) && w.flagReadsFail
    ensures Diverts(t, s0, a, w, steps)
  {
    var start, l := Act(s0, a), t.latest.value;
    var head := ReappliedRun(t, s0, a, w);
    var s1 := Reapplied(s0, a, l);
    var s2 := AfterPoll(s1, Poll, l);
    ReappliedEnd(t, s0, a);
    PollIsPossible(t, w, Poll, l);
    assert s1.poll.at.Idle? && s2.poll.at.Idle? && s2.syncer.SyncIdle?;
    hide Run, Feasible, AfterPoll, AfterSync, Quiet, Reapplied;
    RunPollOnce(t, s1, Poll, l);
    var rest := PollSyncPoll(t, w, s2, Poll, MailOf(a, l), l);
    FeasibleConcat(t, w, start, head, PollOnce(Poll, l));
    FeasibleConcat(t, w, start, head + PollOnce(Poll, l), rest);
    steps := head + PollOnce(Poll, l) + rest;
  }

  // ----- The exact condition -------------------------------------------------------------------

  lemma UncertainDiverts(t: Thread, s0: Room, a: Action, w: Setting) returns (steps: seq<Step>)
    requires LatestMapped(t) && ActsOn(t, a) && Quiet(t, s0) && !Certain(t, s0, a, w)
    ensures Diverts(t, s0, a, w, steps)
  {
    hide Quiet, Diverts, NoneStale, FetchedUnaffected, ActsAtOnce, GateReadsMatter, FlagReadsMatter;
    if !NoneStale(t, s0, a) {
      steps := StaleReceiptDiverts(t, s0, a, w);
    } else if w.walking && !FetchedUnaffected(t, s0, a) {
      steps := FetchedEntryDiverts(t, s0, a, w);
    } else if w.walking && !ActsAtOnce(t, s0, a) {
      steps := LateChangeDiverts(t, s0, a, w);
    } else if w.gateReadsFail && GateReadsMatter(s0, a) {
      steps := GateReadsDivert(t, s0, a, w);
    } else if w.flagReadsFail && FlagReadsMatter(t, s0, a) {
      steps := FlagReadsDivert(t, s0, a, w);
    } else if w.receiptsFail && a.RoomRead? && a.email !in s0.seen {
      steps := LostReceiptDiverts(t, s0, a, w);
    } else {
      steps := LostClearDiverts(t, s0, a, w);
    }
  }

  /** The room with the mail the action is about, if it was not one of its own. */
  function Widened(t: Thread, a: Action): Thread {
    if a.RoomMarkUnread? then t else t.(emails := t.emails + {a.email})
  }

  lemma {:induction false} OnlyTheLatestMatters(t: Thread, t': Thread, s: Room, steps: seq<Step>)
    requires t.latest == t'.latest
    ensures Run(t, s, steps) == Run(t', s, steps) && EffectiveSteps(t, s, steps) == EffectiveSteps(t', s, steps)
    decreases |steps|
  {
    if steps != [] {
      assert Next(t, s, steps[0]) == Next(t', s, steps[0]);
      hide Next, SameCore;
      OnlyTheLatestMatters(t, t', Next(t, s, steps[0]), steps[1..]);
    }
  }

  /**
   * From a settled room, in any setting, every run that settles again does so in
   * the one target of the action if and only if
   *
   *  - no receipt still under way is for a mail the action leaves unread;
   *  - while the walk mirrors beside the poller, neither holds a mail the action
   *    changes, and the action changes at once all it will change;
   *  - where reads of `read_synced` gates fail, a room that is to be unread has no
   *    mail to be mirrored as read;
   *  - where reads of the `marked_unread` gate fail, the flag of a marked room is not
   *    read again or its latest mail is to be unread;
   *  - where receipts fail, the user did not read an unread mail in the room;
   *  - where the flag cannot be cleared, the user did not read an unread mail of a
   *    marked room in the mail client.
   *
   * No other failing call matters to where runs settle. The runs that settle
   * elsewhere beside a running walk are runs in which the walk has yet to come to the
   * mails of the room.
   */
  lemma SettlesInTargetIffCertain(t: Thread, s0: Room, a: Action, w: Setting)
    requires LatestMapped(t) && Quiet(t, s0)
    ensures AlwaysSettlesInTarget(t, s0, a, w) <==> Certain(t, s0, a, w)
  {
    assert LatestMapped(Widened(t, a)) && Quiet(Widened(t, a), s0) && ActsOn(Widened(t, a), a);
    assert Certain(t, s0, a, w) <==> Certain(Widened(t, a), s0, a, w);
    hide Quiet, Certain, Run, PossibleRun;
    if Certain(t, s0, a, w) {
      forall steps | PossibleRun(w, steps) ensures SettledInTarget(t, s0, a, Run(t, Act(s0, a), steps)) {
        SettlesInTarget(t, s0, a, w, steps);
      }
    } else {
      var steps := UncertainDiverts(Widened(t, a), s0, a, w);
      OnlyTheLatestMatters(t, Widened(t, a), Act(s0, a), steps);
      assert !SettledInTarget(t, s0, a, Run(t, Act(s0, a), steps));
    }
  }
}
